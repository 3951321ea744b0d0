/**
 * The Gemini adapter (gemini_llm_call.py): one generate call per question with the API error
 * turned into the sentinel, the list and choice operations composed on it, and the chat loop
 * that builds a conversation while skipping failed turns. The provider is the function
 * `generate`: `generate(req)` is what the model endpoint does with request `req`.
 */
module GeminiLlmCall {
  import opened Wrappers
  import opened LlmCall
  import Constants

  const SupportedModel: string := "gemini-2.5-flash"

  const JsonMimeType: string := "application/json"
  const TextMimeType: string := "text/plain"

  // ------------------------------------------------------------------
  // Requests and responses
  // ------------------------------------------------------------------

  /** The generation settings; `choicesSchema` says the Choices JSON schema is attached. */
  datatype GenerateConfig = GenerateConfig(
    systemInstruction: string,
    responseLogprobs: bool,
    logprobs: int,
    responseMimeType: string,
    choicesSchema: bool)

  datatype GenerateRequest = GenerateRequest(model: string, contents: string, config: GenerateConfig)

  /** The settings for one question: log-probabilities only in text mode, a schema only in JSON mode. */
  function ConfigFor(systemPrompt: string, isJson: bool): (c: GenerateConfig)
    ensures c.systemInstruction == systemPrompt && c.responseLogprobs
    ensures c.logprobs == 1 <==> !isJson
    ensures c.logprobs == 0 <==> isJson
    ensures c.responseMimeType == (if isJson then JsonMimeType else TextMimeType)
    ensures c.choicesSchema <==> isJson
  {
    GenerateConfig(systemPrompt, true, if !isJson then 1 else 0,
                   if isJson then JsonMimeType else TextMimeType, isJson)
  }

  function RequestFor(q: Question): GenerateRequest
  {
    GenerateRequest(SupportedModel, q.text, ConfigFor(q.systemPrompt, q.isJson))
  }

  /** What one generate call does: a response, or an `APIError`. */
  datatype GeminiOutcome =
    | Generated(text: string, logprobsResult: Option<seq<real>>, promptTokenCount: int, candidatesTokenCount: int)
    | APIError(code: int)

  // ------------------------------------------------------------------
  // ask_generic_question and the operations composed on it
  // ------------------------------------------------------------------

  /**
   * `ask_generic_question`: the response text, the first candidate's log-probability result
   * and the usage counts; an API error gives the sentinel. No retry at this level.
   */
  function AskGenericQuestion(q: Question, generate: GenerateRequest -> GeminiOutcome): (r: SimpleResponse)
    ensures generate(RequestFor(q)).APIError? ==> r == EmptyAnswer
    ensures generate(RequestFor(q)).Generated? ==>
              var o := generate(RequestFor(q));
              && r.answer == o.text
              && r.inputTokens == o.promptTokenCount
              && r.outputTokens == o.candidatesTokenCount
              && (r.probability.Some? <==> o.logprobsResult.Some?)
  {
    match generate(RequestFor(q))
    case Generated(text, lp, inTok, outTok) =>
      SimpleResponse(text, if lp.Some? then Some(GeminiLogprobs(lp.value)) else None, inTok, outTok)
    case APIError(_) => EmptyAnswer
  }

  /**
   * `ask_for_open_list`: the shared parse over the JSON-mode reply. There is no handler, so a
   * decode failure propagates; tokens pass through.
   */
  function AskForOpenList(systemPrompt: string, question: string, generate: GenerateRequest -> GeminiOutcome,
                          loads: string -> Decoded): (r: Result<Response, Error>)
    ensures var reply := AskGenericQuestion(Question(systemPrompt, question, true), generate);
            && (r.Err? <==> loads(JsonPayload(reply.answer)).Undecodable?)
            && (r.Err? ==> r.error == JSONDecodeError)
            && (r.Ok? ==> r.value.answers == ParseJsonRankedList(reply.answer, loads).value
                          && r.value.inputTokens == reply.inputTokens
                          && r.value.outputTokens == reply.outputTokens)
  {
    LlmCall.AskForOpenList(AskGenericQuestion(Question(systemPrompt, question, true), generate), loads)
  }

  /**
   * An API error in JSON mode leaves the empty sentinel answer, which the decoder cannot read,
   * so the open list raises the decode error.
   */
  lemma APIErrorRaisesOnOpenList(systemPrompt: string, question: string, generate: GenerateRequest -> GeminiOutcome,
                                 loads: string -> Decoded)
    requires generate(RequestFor(Question(systemPrompt, question, true))).APIError?
    requires loads("") == Undecodable
    ensures AskForOpenList(systemPrompt, question, generate, loads) == Err(JSONDecodeError)
  {
    AskForOpenListOfEmptyAnswer(loads);
  }

  /** `ask_for_list`: the ranked list under the fixed system prompt, cut to `choices` entries. */
  function AskForList(choices: int, question: string, safeAnswer: string, generate: GenerateRequest -> GeminiOutcome,
                      loads: string -> Decoded): (r: Result<Response, Error>)
    ensures var full := AskForOpenList(Constants.RankedListSysPrompt, question, generate, loads);
            && (r.Err? <==> full.Err?)
            && (r.Err? ==> r.error == full.error)
            && (r.Ok? ==>
                  && r.value.answers <= full.value.answers
                  && (choices >= 0 ==> |r.value.answers| == Min(choices, |full.value.answers|))
                  && (choices >= 0 ==> |r.value.answers| <= choices)
                  && (|full.value.answers| <= choices ==> r.value == full.value)
                  && r.value.inputTokens == full.value.inputTokens
                  && r.value.outputTokens == full.value.outputTokens)
  {
    match AskForOpenList(Constants.RankedListSysPrompt, question, generate, loads)
    case Err(e) => Err(e)
    case Ok(full) => Ok(KeepFirst(full, choices))
  }

  /** The system prompt `choice_from_pair` sends: the caller's, unless it is absent or empty. */
  function ChoicePrompt(systemPrompt: Option<string>): (p: string)
    ensures systemPrompt.Some? && systemPrompt.value != "" ==> p == systemPrompt.value
    ensures systemPrompt.None? || systemPrompt.value == "" ==> p == Constants.ChoiceSysPrompt
  {
    if systemPrompt.Some? && systemPrompt.value != "" then systemPrompt.value else Constants.ChoiceSysPrompt
  }

  /** `choice_from_pair`: one text-mode question; the answer is cleaned, the rest passes through. */
  function ChoiceFromPair(question: string, systemPrompt: Option<string>, generate: GenerateRequest -> GeminiOutcome): (r: Choice)
    ensures var reply := AskGenericQuestion(Question(ChoicePrompt(systemPrompt), question, false), generate);
            && r.answer == CleanReply(reply.answer)
            && IsSliceOf(r.answer, reply.answer)
            && (r.answer == [] || (r.answer[0] != '\'' && r.answer[|r.answer| - 1] != '\''))
            && r.probability == reply.probability
            && r.inputTokens == reply.inputTokens && r.outputTokens == reply.outputTokens
  {
    var reply := AskGenericQuestion(Question(ChoicePrompt(systemPrompt), question, false), generate);
    Choice(CleanReply(reply.answer), reply.probability, reply.inputTokens, reply.outputTokens)
  }

  /** An API error on a choice gives an empty answer with no probability and no tokens. */
  lemma APIErrorGivesEmptyChoice(question: string, systemPrompt: Option<string>, generate: GenerateRequest -> GeminiOutcome)
    requires generate(RequestFor(Question(ChoicePrompt(systemPrompt), question, false))).APIError?
    ensures ChoiceFromPair(question, systemPrompt, generate) == Choice("", None, 0, 0)
  {
    assert Strip("", ReplyNoise) == "";
    assert Strip("", "'") == "";
  }

  // ------------------------------------------------------------------
  // conversation
  // ------------------------------------------------------------------

  /** What sending one chat message does: the first candidate's parts and the usage, or an `APIError`. */
  datatype ChatReply =
    | Replied(parts: seq<string>, promptTokenCount: int, candidatesTokenCount: int)
    | ChatAPIError

  /** The turn a successful reply to question `i` becomes. */
  function TurnFor(i: int, question: string, reply: ChatReply): Answer
    requires reply.Replied?
  {
    Answer(i, question, reply.parts, reply.promptTokenCount, reply.candidatesTokenCount)
  }

  /** The indices of the questions whose message was answered. */
  ghost function Answered(replies: seq<ChatReply>, n: nat): set<int>
    requires n <= |replies|
  {
    set i | 0 <= i < n && replies[i].Replied?
  }

  /**
   * `conversation`: the questions are sent in order on one chat; `replies[i]` is what sending
   * question `i` did. Every answered question becomes the turn under its index; a question
   * whose message raised is skipped. The counters are the sums over the stored turns.
   */
  method RunConversation(questions: seq<string>, replies: seq<ChatReply>) returns (c: LlmCall.Conversation)
    requires |replies| == |questions|
    ensures fresh(c) && c.Valid()
    ensures c.turns.Keys == Answered(replies, |questions|)
    ensures forall i :: 0 <= i < |questions| && replies[i].Replied? ==>
              i in c.turns && c.turns[i] == TurnFor(i, questions[i], replies[i])
    ensures forall i :: i in c.turns ==> 0 <= i < |questions|
  {
    c := new LlmCall.Conversation();
    var idx := 0;
    while idx < |questions|
      invariant 0 <= idx <= |questions|
      invariant c.Valid()
      invariant c.turns.Keys == Answered(replies, idx)
      invariant forall i :: 0 <= i < idx && replies[i].Replied? ==>
                  i in c.turns && c.turns[i] == TurnFor(i, questions[i], replies[i])
    {
      if replies[idx].Replied? {
        assert idx !in c.turns;
        c.Add(TurnFor(idx, questions[idx], replies[idx]));
        assert Answered(replies, idx + 1) == Answered(replies, idx) + {idx};
      } else {
        assert Answered(replies, idx + 1) == Answered(replies, idx);
      }
      idx := idx + 1;
    }
  }
}
