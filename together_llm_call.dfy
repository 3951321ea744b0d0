/**
 * The Together adapter for Llama 3.1 (together_llm_call.py): the bounded retry loop with
 * jittered backoff, the list and choice operations composed on it, and the log-probability
 * guard. The provider is the function `complete`: `complete(req, k)` is what the chat
 * completion endpoint does with request `req` on attempt `k`.
 */
module TogetherLlmCall {
  import opened Wrappers
  import opened LlmCall
  import Constants

  const SupportedModel: string := "meta-llama/Meta-Llama-3.1-70B-Instruct-Turbo"
  const InternalName: string := "llama-3.1-70B"
  const DisplayNameOfModel: string := "Llama-3.1"

  /** The advisory ceiling on concurrent requests. */
  const Parallelism: int := 100

  /** The number of attempts the retry loop makes at most. */
  const MaxAttempts: nat := 10

  // ------------------------------------------------------------------
  // Requests and completions
  // ------------------------------------------------------------------

  datatype Message = Message(role: string, content: string)

  /** A chat completion request; `jsonSchema` says the Choices response format is asked for. */
  datatype Request = Request(model: string, messages: seq<Message>, logprobs: int, jsonSchema: bool)

  /** The request built for one question: user message first, then the system prompt. */
  function RequestFor(q: Question): (req: Request)
    ensures req.model == SupportedModel
    ensures req.messages == [Message("user", q.text), Message("system", q.systemPrompt)]
    ensures req.logprobs == 1 <==> !q.isJson
    ensures req.logprobs == 0 <==> q.isJson
    ensures req.jsonSchema == q.isJson
  {
    Request(SupportedModel, [Message("user", q.text), Message("system", q.systemPrompt)],
            if !q.isJson then 1 else 0, q.isJson)
  }

  /** Token log-probabilities; an absent list and an empty one are both falsy in the source. */
  datatype Logprobs = Logprobs(tokenLogprobs: seq<real>)

  datatype CompletionChoice = CompletionChoice(content: string, logprobs: Option<Logprobs>)

  datatype Completion = Completion(choices: seq<CompletionChoice>)

  /** What one call to the endpoint does. */
  datatype TogetherOutcome =
    | Completed(completion: Completion)
    | TogetherException(httpStatus: int)
    | OtherException

  function SumReals(xs: seq<real>): real
  {
    if xs == [] then 0.0 else xs[0] + SumReals(xs[1..])
  }

  /**
   * `extract_logprobs`: a probability exactly when the completion, its first choice, that
   * choice's log-probabilities and their token list are all present and non-empty.
   */
  function ExtractLogprobs(completion: Option<Completion>): (p: Option<Probability>)
    ensures p.Some? <==>
              && completion.Some?
              && |completion.value.choices| > 0
              && completion.value.choices[0].logprobs.Some?
              && |completion.value.choices[0].logprobs.value.tokenLogprobs| > 0
    ensures p.Some? ==>
              p.value == ExpOfLogprobSum(SumReals(completion.value.choices[0].logprobs.value.tokenLogprobs))
  {
    match completion
    case None => None
    case Some(c) =>
      if |c.choices| > 0 && c.choices[0].logprobs.Some?
         && |c.choices[0].logprobs.value.tokenLogprobs| > 0
      then Some(ExpOfLogprobSum(SumReals(c.choices[0].logprobs.value.tokenLogprobs)))
      else None
  }

  // ------------------------------------------------------------------
  // The retry loop of ask_generic_question
  // ------------------------------------------------------------------

  /** Only rate limiting and the two gateway errors are retried. */
  predicate IsRetryable(o: TogetherOutcome)
  {
    o.TogetherException? && o.httpStatus in {429, 502, 503}
  }

  /**
   * What an attempt that is not retried returns: the first choice's content with zero tokens,
   * or the sentinel for every other error, including a completion without choices (the
   * IndexError is caught by the catch-all handler).
   */
  function Settle(o: TogetherOutcome): (r: SimpleResponse)
    requires !IsRetryable(o)
    ensures r.inputTokens == 0 && r.outputTokens == 0
    ensures o.Completed? && |o.completion.choices| > 0 ==>
              r.answer == o.completion.choices[0].content
              && r.probability == ExtractLogprobs(Some(o.completion))
    ensures !(o.Completed? && |o.completion.choices| > 0) ==> r == EmptyAnswer
  {
    match o
    case Completed(c) =>
      if |c.choices| > 0
      then SimpleResponse(c.choices[0].content, ExtractLogprobs(Some(c)), 0, 0)
      else EmptyAnswer
    case TogetherException(_) => EmptyAnswer
    case OtherException => EmptyAnswer
  }

  /**
   * The seconds slept after failed attempt `retry` with jitter `r` (randint(0, 100)):
   * int(2^retry * (1 + r/100)). For the exponents reached here the float product is never
   * rounded across an integer, so the integer quotient below is that value.
   */
  function Backoff(retry: nat, r: int): int
  {
    Pow2(retry) * (100 + r) / 100
  }

  /** The backoff lies between 2^k and 2^(k+1) seconds. */
  lemma BackoffBounds(retry: nat, r: int)
    requires 0 <= r <= 100
    ensures Pow2(retry) <= Backoff(retry, r) <= Pow2(retry + 1)
  {
    var p := Pow2(retry);
    assert p * 100 <= p * (100 + r) <= p * 200;
    assert p * (100 + r) / 100 >= p * 100 / 100;
    assert p * (100 + r) / 100 <= p * 200 / 100;
  }

  /** A run of the loop: the reply (None when the loop falls through), the sleeps, the calls. */
  datatype Run = Run(reply: Option<SimpleResponse>, waits: seq<int>, calls: nat)

  /** Reference definition of the retry loop from attempt `retry` on, for request `req`. */
  function Attempts(req: Request, complete: (Request, nat) -> TogetherOutcome, jitter: nat -> int, retry: nat): Run
    decreases MaxAttempts - retry
  {
    if retry >= MaxAttempts then Run(None, [], 0)
    else
      var o := complete(req, retry);
      if IsRetryable(o) then
        var rest := Attempts(req, complete, jitter, retry + 1);
        Run(rest.reply, [Backoff(retry, jitter(retry))] + rest.waits, rest.calls + 1)
      else Run(Some(Settle(o)), [], 1)
  }

  /**
   * The loop invariant of `RetryRequest`: the whole run is the `waits` and `calls` made so far
   * followed by the run from attempt `retry` on.
   */
  ghost predicate RunSoFar(req: Request, complete: (Request, nat) -> TogetherOutcome, jitter: nat -> int,
                           retry: nat, waits: seq<int>, calls: nat)
  {
    var rest := Attempts(req, complete, jitter, retry);
    Attempts(req, complete, jitter, 0) == Run(rest.reply, waits + rest.waits, calls + rest.calls)
  }

  /** After a retryable failure the loop sleeps the backoff and goes on with the next attempt. */
  lemma RunSoFarRetry(req: Request, complete: (Request, nat) -> TogetherOutcome, jitter: nat -> int,
                      retry: nat, waits: seq<int>, calls: nat)
    requires retry < MaxAttempts && IsRetryable(complete(req, retry))
    requires RunSoFar(req, complete, jitter, retry, waits, calls)
    ensures RunSoFar(req, complete, jitter, retry + 1, waits + [Backoff(retry, jitter(retry))], calls + 1)
  {
    var rest := Attempts(req, complete, jitter, retry + 1);
    var seconds := Backoff(retry, jitter(retry));
    assert Attempts(req, complete, jitter, retry) == Run(rest.reply, [seconds] + rest.waits, rest.calls + 1);
    assert waits + ([seconds] + rest.waits) == (waits + [seconds]) + rest.waits;
  }

  /** Any other outcome ends the run with its settled reply. */
  lemma RunSoFarSettle(req: Request, complete: (Request, nat) -> TogetherOutcome, jitter: nat -> int,
                       retry: nat, waits: seq<int>, calls: nat)
    requires retry < MaxAttempts && !IsRetryable(complete(req, retry))
    requires RunSoFar(req, complete, jitter, retry, waits, calls)
    ensures Run(Some(Settle(complete(req, retry))), waits, calls + 1) == Attempts(req, complete, jitter, 0)
  {
    assert Attempts(req, complete, jitter, retry) == Run(Some(Settle(complete(req, retry))), [], 1);
    assert waits + [] == waits;
  }

  /** After ten retryable failures the loop falls through with no reply. */
  lemma RunSoFarExhausted(req: Request, complete: (Request, nat) -> TogetherOutcome, jitter: nat -> int,
                          waits: seq<int>, calls: nat)
    requires RunSoFar(req, complete, jitter, MaxAttempts, waits, calls)
    ensures Run(None, waits, calls) == Attempts(req, complete, jitter, 0)
  {
    assert Attempts(req, complete, jitter, MaxAttempts) == Run(None, [], 0);
    assert waits + [] == waits;
  }

  /** The retry loop for one request: up to ten attempts, sleeping after each retryable failure. */
  method RetryRequest(req: Request, complete: (Request, nat) -> TogetherOutcome, jitter: nat -> int)
    returns (reply: Option<SimpleResponse>, waits: seq<int>, calls: nat)
    ensures Run(reply, waits, calls) == Attempts(req, complete, jitter, 0)
  {
    waits, calls := [], 0;
    assert [] + Attempts(req, complete, jitter, 0).waits == Attempts(req, complete, jitter, 0).waits;
    for retry := 0 to MaxAttempts
      invariant calls == retry
      invariant RunSoFar(req, complete, jitter, retry, waits, calls)
    {
      var outcome := complete(req, retry);
      if !IsRetryable(outcome) {
        RunSoFarSettle(req, complete, jitter, retry, waits, calls);
        reply, calls := Some(Settle(outcome)), calls + 1;
        return;
      }
      RunSoFarRetry(req, complete, jitter, retry, waits, calls);
      waits, calls := waits + [Backoff(retry, jitter(retry))], calls + 1;
    }
    RunSoFarExhausted(req, complete, jitter, waits, calls);
    reply := None;
  }

  /** `ask_generic_question`: the retry loop run on the request built for `q`. */
  method AskGenericQuestion(q: Question, complete: (Request, nat) -> TogetherOutcome, jitter: nat -> int)
    returns (reply: Option<SimpleResponse>, waits: seq<int>, calls: nat)
    ensures Run(reply, waits, calls) == Attempts(RequestFor(q), complete, jitter, 0)
  {
    reply, waits, calls := RetryRequest(RequestFor(q), complete, jitter);
  }

  /** How many calls and sleeps a run from attempt `retry` makes. */
  lemma {:induction false} AttemptsCount(req: Request, complete: (Request, nat) -> TogetherOutcome, jitter: nat -> int, retry: nat)
    requires retry <= MaxAttempts
    ensures var run := Attempts(req, complete, jitter, retry);
            && retry + run.calls <= MaxAttempts
            && (retry < MaxAttempts ==> run.calls >= 1)
            && (run.reply.None? ==> retry + run.calls == MaxAttempts && |run.waits| == run.calls)
            && (run.reply.Some? ==> |run.waits| == run.calls - 1)
    decreases MaxAttempts - retry
  {
    if retry < MaxAttempts && IsRetryable(complete(req, retry)) {
      AttemptsCount(req, complete, jitter, retry + 1);
    }
  }

  /** Every call of a run but the last failed with a retryable status; all did when it ends with None. */
  lemma {:induction false} AttemptsFailures(req: Request, complete: (Request, nat) -> TogetherOutcome, jitter: nat -> int, retry: nat)
    requires retry <= MaxAttempts
    ensures var run := Attempts(req, complete, jitter, retry);
            && (forall k :: retry <= k < retry + run.calls - 1 ==> IsRetryable(complete(req, k)))
            && (run.reply.None? ==> forall k :: retry <= k < MaxAttempts ==> IsRetryable(complete(req, k)))
    decreases MaxAttempts - retry
  {
    var run := Attempts(req, complete, jitter, retry);
    if retry < MaxAttempts && IsRetryable(complete(req, retry)) {
      var rest := Attempts(req, complete, jitter, retry + 1);
      assert run.calls == rest.calls + 1 && run.reply == rest.reply;
      AttemptsFailures(req, complete, jitter, retry + 1);
      forall k | retry <= k < retry + run.calls - 1 ensures IsRetryable(complete(req, k)) {
        if k > retry {
          assert retry + 1 <= k < (retry + 1) + rest.calls - 1;
        }
      }
    } else if retry < MaxAttempts {
      assert run.calls == 1 && run.reply.Some?;
    }
  }

  /** A run that returns ends at a call that was not retried, with that call's settled reply. */
  lemma {:induction false} AttemptsLast(req: Request, complete: (Request, nat) -> TogetherOutcome, jitter: nat -> int, retry: nat)
    requires retry <= MaxAttempts
    ensures var run := Attempts(req, complete, jitter, retry);
            run.reply.Some? ==>
              && run.calls >= 1
              && !IsRetryable(complete(req, retry + run.calls - 1))
              && run.reply.value == Settle(complete(req, retry + run.calls - 1))
    decreases MaxAttempts - retry
  {
    if retry < MaxAttempts && IsRetryable(complete(req, retry)) {
      AttemptsLast(req, complete, jitter, retry + 1);
    }
  }

  /** The sleep after failed attempt `retry + i` is the backoff of that attempt. */
  lemma {:induction false} AttemptsWait(req: Request, complete: (Request, nat) -> TogetherOutcome, jitter: nat -> int,
                                        retry: nat, i: nat)
    requires i < |Attempts(req, complete, jitter, retry).waits|
    ensures Attempts(req, complete, jitter, retry).waits[i] == Backoff(retry + i, jitter(retry + i))
    decreases i
  {
    if i > 0 {
      AttemptsWait(req, complete, jitter, retry + 1, i - 1);
      assert (retry + 1) + (i - 1) == retry + i;
    }
  }

  /**
   * The Together retry policy, calls: at least one and at most ten; every call but the last
   * failed with a retryable status; the loop falls through with None exactly when all ten did.
   */
  lemma TogetherRetryCalls(q: Question, complete: (Request, nat) -> TogetherOutcome, jitter: nat -> int)
    ensures var req := RequestFor(q);
            var run := Attempts(req, complete, jitter, 0);
            && 1 <= run.calls <= MaxAttempts
            && (forall k :: 0 <= k < run.calls - 1 ==> IsRetryable(complete(req, k)))
            && (run.reply.None? <==> forall k :: 0 <= k < MaxAttempts ==> IsRetryable(complete(req, k)))
            && (run.reply.None? ==> run.calls == MaxAttempts)
  {
    var req := RequestFor(q);
    AttemptsCount(req, complete, jitter, 0);
    AttemptsFailures(req, complete, jitter, 0);
    AttemptsLast(req, complete, jitter, 0);
  }

  /**
   * The Together retry policy, outcome: a call that is not retried ends the loop with its
   * settled reply (the content, or the sentinel for any other error).
   */
  lemma TogetherRetryReply(q: Question, complete: (Request, nat) -> TogetherOutcome, jitter: nat -> int)
    ensures var req := RequestFor(q);
            var run := Attempts(req, complete, jitter, 0);
            run.reply.Some? ==> run.calls >= 1 && run.reply.value == Settle(complete(req, run.calls - 1))
  {
    AttemptsLast(RequestFor(q), complete, jitter, 0);
  }

  /** With jitter in 0..100, sleep i of a run from attempt 0 lies between 2^i and 2^(i+1). */
  lemma AttemptsWaitBounds(req: Request, complete: (Request, nat) -> TogetherOutcome, jitter: nat -> int, i: nat)
    requires i < |Attempts(req, complete, jitter, 0).waits|
    requires 0 <= jitter(i) <= 100
    ensures Pow2(i) <= Attempts(req, complete, jitter, 0).waits[i] <= Pow2(i + 1)
  {
    AttemptsWait(req, complete, jitter, 0, i);
    BackoffBounds(i, jitter(i));
  }

  /** The sleep after failed attempt k lies between 2^k and 2^(k+1) seconds. */
  lemma TogetherWaitBounds(q: Question, complete: (Request, nat) -> TogetherOutcome, jitter: nat -> int)
    requires forall k :: 0 <= jitter(k) <= 100
    ensures var run := Attempts(RequestFor(q), complete, jitter, 0);
            forall i :: 0 <= i < |run.waits| ==> Pow2(i) <= run.waits[i] <= Pow2(i + 1)
  {
    var req := RequestFor(q);
    forall i | 0 <= i < |Attempts(req, complete, jitter, 0).waits|
      ensures Pow2(i) <= Attempts(req, complete, jitter, 0).waits[i] <= Pow2(i + 1)
    {
      AttemptsWaitBounds(req, complete, jitter, i);
    }
  }

  /**
   * The Together retry policy, sleeps: one after each retryable failure, ten when the loop
   * falls through, each between 2^k and 2^(k+1) seconds after failed attempt k.
   */
  lemma TogetherRetryWaits(q: Question, complete: (Request, nat) -> TogetherOutcome, jitter: nat -> int)
    requires forall k :: 0 <= jitter(k) <= 100
    ensures var run := Attempts(RequestFor(q), complete, jitter, 0);
            && (run.reply.None? ==> |run.waits| == MaxAttempts)
            && (run.reply.Some? ==> |run.waits| == run.calls - 1)
            && (forall i :: 0 <= i < |run.waits| ==> Pow2(i) <= run.waits[i] <= Pow2(i + 1))
  {
    AttemptsCount(RequestFor(q), complete, jitter, 0);
    TogetherWaitBounds(q, complete, jitter);
  }

  /** An HTTP 500 (or any status but 429, 502, 503) is answered with the sentinel after one call. */
  lemma FatalStatusGivesSentinel(q: Question, complete: (Request, nat) -> TogetherOutcome, jitter: nat -> int)
    requires complete(RequestFor(q), 0).TogetherException?
    requires complete(RequestFor(q), 0).httpStatus !in {429, 502, 503}
    ensures Attempts(RequestFor(q), complete, jitter, 0) == Run(Some(EmptyAnswer), [], 1)
  {
  }

  // ------------------------------------------------------------------
  // Operations composed on ask_generic_question
  // ------------------------------------------------------------------

  /** The reply `ask_generic_question` returns for `q`. */
  function Ask(q: Question, complete: (Request, nat) -> TogetherOutcome, jitter: nat -> int): Option<SimpleResponse>
  {
    Attempts(RequestFor(q), complete, jitter, 0).reply
  }

  /**
   * `ask_for_open_list`: a JSON-mode question whose answer is parsed. A decode error is caught
   * and gives the empty list. On a None reply, `response.answer` raises `AttributeError`. The
   * handler's log line reads `response.answer` again, so the error escapes. Tokens are zero.
   */
  function AskForOpenList(systemPrompt: string, question: string, complete: (Request, nat) -> TogetherOutcome,
                          jitter: nat -> int, loads: string -> Decoded): (r: Result<Response, Error>)
    ensures var reply := Ask(Question(systemPrompt, question, true), complete, jitter);
            && (r.Err? <==> reply.None?)
            && (r.Err? ==> r.error == AttributeError)
            && (r.Ok? ==> r.value.inputTokens == 0 && r.value.outputTokens == 0)
            && (reply.Some? && ParseJsonRankedList(reply.value.answer, loads).Ok? ==>
                  r == Ok(Response(ParseJsonRankedList(reply.value.answer, loads).value, 0, 0)))
            && (reply.Some? && ParseJsonRankedList(reply.value.answer, loads).Err? ==> r == Ok(EmptyList))
  {
    match Ask(Question(systemPrompt, question, true), complete, jitter)
    case None => Err(AttributeError)
    case Some(reply) =>
      match ParseJsonRankedList(reply.answer, loads)
      case Err(_) => Ok(EmptyList)
      case Ok(answers) => Ok(Response(answers, 0, 0))
  }

  /** When all ten attempts are rate limited, the open list raises `AttributeError`. */
  lemma ExhaustedRetriesRaise(systemPrompt: string, question: string,
                              complete: (Request, nat) -> TogetherOutcome,
                              jitter: nat -> int, loads: string -> Decoded)
    requires forall k :: 0 <= k < MaxAttempts ==>
                complete(RequestFor(Question(systemPrompt, question, true)), k) == TogetherException(429)
    ensures AskForOpenList(systemPrompt, question, complete, jitter, loads) == Err(AttributeError)
  {
    TogetherRetryCalls(Question(systemPrompt, question, true), complete, jitter);
  }

  /** Once a reply has come, an answer the decoder cannot read gives the empty list. */
  lemma UndecodableReplyGivesEmptyList(systemPrompt: string, question: string,
                                       complete: (Request, nat) -> TogetherOutcome,
                                       jitter: nat -> int, loads: string -> Decoded)
    requires Ask(Question(systemPrompt, question, true), complete, jitter).Some?
    requires loads(JsonPayload(Ask(Question(systemPrompt, question, true), complete, jitter).value.answer)).Undecodable?
    ensures AskForOpenList(systemPrompt, question, complete, jitter, loads) == Ok(EmptyList)
  {
  }

  /**
   * `ask_for_list`: the ranked list under the fixed system prompt, cut to `choices` entries. The
   * error of the open list propagates.
   */
  function AskForList(choices: int, question: string, safeAnswer: string,
                      complete: (Request, nat) -> TogetherOutcome, jitter: nat -> int,
                      loads: string -> Decoded): (r: Result<Response, Error>)
    ensures var full := AskForOpenList(Constants.RankedListSysPrompt, question, complete, jitter, loads);
            && (r.Err? <==> full.Err?)
            && (r.Err? ==> r.error == full.error)
            && (r.Ok? ==>
                  && r.value.answers <= full.value.answers
                  && (choices >= 0 ==> |r.value.answers| == Min(choices, |full.value.answers|))
                  && (|full.value.answers| <= choices ==> r.value == full.value)
                  && r.value.inputTokens == full.value.inputTokens
                  && r.value.outputTokens == full.value.outputTokens)
  {
    match AskForOpenList(Constants.RankedListSysPrompt, question, complete, jitter, loads)
    case Err(e) => Err(e)
    case Ok(full) => Ok(KeepFirst(full, choices))
  }

  /**
   * `choice_from_pair`: always the fixed choice prompt, whatever `systemPrompt` says, in text
   * mode; the answer is cleaned. A None reply makes `result.answer` raise.
   */
  function ChoiceFromPair(question: string, systemPrompt: Option<string>,
                          complete: (Request, nat) -> TogetherOutcome, jitter: nat -> int): (r: Result<Choice, Error>)
    ensures var reply := Ask(Question(Constants.ChoiceSysPrompt, question, false), complete, jitter);
            && (r.Err? <==> reply.None?)
            && (r.Err? ==> r.error == AttributeError)
            && (r.Ok? ==> r.value == Choice(CleanReply(reply.value.answer), reply.value.probability,
                                            reply.value.inputTokens, reply.value.outputTokens))
  {
    match Ask(Question(Constants.ChoiceSysPrompt, question, false), complete, jitter)
    case None => Err(AttributeError)
    case Some(reply) =>
      Ok(Choice(CleanReply(reply.answer), reply.probability, reply.inputTokens, reply.outputTokens))
  }

  /** The answer of a choice never starts or ends with a single quote, and is a piece of the reply. */
  lemma ChoiceAnswerIsClean(question: string, systemPrompt: Option<string>,
                            complete: (Request, nat) -> TogetherOutcome, jitter: nat -> int)
    requires ChoiceFromPair(question, systemPrompt, complete, jitter).Ok?
    ensures var a := ChoiceFromPair(question, systemPrompt, complete, jitter).value.answer;
            && (a == [] || (a[0] != '\'' && a[|a| - 1] != '\''))
            && IsSliceOf(a, Ask(Question(Constants.ChoiceSysPrompt, question, false), complete, jitter).value.answer)
  {
  }

  /** `conversation` is a stub that returns an empty conversation. */
  method RunConversation(questions: seq<string>) returns (c: LlmCall.Conversation)
    ensures fresh(c) && c.Valid()
    ensures c.turns == map[] && c.inputTokens == 0 && c.outputTokens == 0
  {
    c := new LlmCall.Conversation();
  }

  // ------------------------------------------------------------------
  // Catalog
  // ------------------------------------------------------------------

  function KnownModels(): (r: set<string>)
    ensures r == {InternalName}
    ensures forall m :: m in r <==> m == "llama-3.1-70B"
  {
    {InternalName}
  }

  /** `order_models`: the one supported model, when the caller lists it. */
  function OrderModels(models: seq<string>): (r: seq<string>)
    ensures |r| <= 1
    ensures r != [] <==> InternalName in models
    ensures forall m :: m in r ==> m in models && m in KnownModels()
  {
    if InternalName in models then [InternalName] else []
  }

  /** `display_name`: the same name for every model. */
  function DisplayName(model: string): (r: string)
    ensures r == "Llama-3.1"
  {
    DisplayNameOfModel
  }
}
