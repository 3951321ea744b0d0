# A verified model of the LLM adapter core of evertune-llm-test

The repository asks several LLM vendors the same questions and compares their answers.
This project models the vendor-independent part of it in Dafny and proves what that part does:

- **Result shapes and the conversation accumulator** (`LlmCall`, from `llm_call.py`).
  `SimpleResponse`, `Response`, `Choice` and `Answer` are datatypes. `Conversation` is a class whose `Add` updates a map of turns and two token counters in place.
- **Reply normalisers** (`LlmCall`).
  - `clean_reply` is Python's `str.strip(chars)` done twice.
  - `parse_list` splits on commas, falling back to newlines.
  - `parse_json_ranked_list` trims a code fence and drops one `json` tag. It decodes the rest and then stable-sorts the names by rank.
- **Retry loops**, each as a `method` with a `while` or `for` loop, proved equal to a recursive reference function.
  The provider call is a function parameter: `ask(q, k)` or `complete(req, k)` is what attempt `k` does. Sleeps are recorded in a `waits` sequence.
  - The generic loop (`LlmCall.AskGenericQuestionWithRetries`) waits 2^k and re-raises on the last attempt.
  - Together's loop (`TogetherLlmCall.RetryRequest`) retries only HTTP 429/502/503. Its wait is `int(2^k * (1 + r/100))`. It falls out with `None` after ten retryable failures.
- **Adapter composition** (`TogetherLlmCall`, `GeminiLlmCall`).
  - Provider errors become sentinels.
  - `ask_for_open_list` parses the JSON-mode reply. Together catches the decode error and returns the empty list. On a `None` reply, its handler raises `AttributeError` again. Gemini and the base class let the decode error propagate.
  - `ask_for_list` keeps the first `choices` answers.
  - `choice_from_pair` picks the system prompt and cleans the reply.
  - Gemini's `conversation` loop skips the turns whose message raised.
- **The registry** (`LlmFactory`, from `llm_factory.py`).
  - `get_model` and `display_name` dispatch to the first catalog holding a name; the two try the catalogs in different orders.
  - `known_models` filters out names with bad prefixes.
  - `latest_models` fills a dictionary step by step.
  - `sort_by_latest_models` lists each vendor's head first, then the tails, both in vendor order.
  - The GPT, Gemini and Perplexity modules the registry imports are parameters (`VendorModule`): a catalog, an `order_models` and a `display_name` each.

`json.loads` is the parameter `loads: string -> Decoded`. `Decoded` is either the decoded flat object, as its (name, rank) pairs in order, or `Undecodable`. A dictionary from `json.loads` never repeats a key: a repeated key keeps its first position and its last value. `Decoded` does not enforce this. The sort lemmas hold for any list of pairs, so they cover the duplicate-free case.
The Together jitter `random.randint(0, 100)` is the parameter `jitter: nat -> int`: `jitter(k)` is the value drawn after failed attempt `k`.
Exceptions are values of `LlmCall.Error` inside a `Result`.

Files:

| file | contents |
|---|---|
| `wrappers.dfy` | `Option` and `Result` |
| `constants.dfy` | the two system prompts of `constants.py` |
| `llm_call.dfy` | shapes, the accumulator, normalisers, the parser, the generic retry loop |
| `together_llm_call.dfy` | the Together adapter |
| `gemini_llm_call.dfy` | the Gemini adapter |
| `llm_factory.dfy` | the registry |

Behaviour of the code worth knowing:

- The JSON parser does no validation. Numeric keys and out-of-range ranks are sorted like any others.
- The base class and Gemini let a decode failure propagate as `JSONDecodeError`. Only Together catches it and returns the empty list.
- When every attempt is rate limited, Together's loop falls out of the `for` loop and returns `None`. `choice_from_pair` then raises `AttributeError` on `None.answer`. `ask_for_open_list` raises it too, and `ask_for_list` passes it on. The `except` block in `ask_for_open_list` catches the first `AttributeError`, but its log line reads `response.answer` again and raises a second one, which escapes.
- The Together jitter multiplier `1 + randint(0, 100)/100` lies in [1.0, 2.0] with both ends included, and the product is truncated to whole seconds.
- Together's `choice_from_pair` ignores its `system_prompt` argument. The base class's sends a fixed one-word prompt through the retry loop.
- Gemini's `conversation` skips a failed turn and goes on.

## Model

| member | source | states |
|---|---|---|
| LlmCall.Conversation.constructor | llm_call.py:38-40 | a new conversation has no turns and both counters at 0, so the counters equal the sums over its turns |
| LlmCall.Conversation.Add | llm_call.py:42-45 | the answer is stored under its ordinal and every other ordinal keeps its turn; each counter grows by exactly the answer's tokens; when the ordinal was fresh, "counters equal the sums over the stored turns" is preserved |
| LlmCall.SumTokensAddFresh | llm_call.py:42-45 | storing an answer under a fresh ordinal adds exactly its tokens to the sum over all turns |
| LlmCall.SumTokensReplace | llm_call.py:42-45 | storing under an ordinal already present takes the old turn's tokens out of the sum and puts the new answer's in, whereas `add` only adds to its counters |
| LlmCall.SumTokensRemove | llm_call.py:42-45 | the sum over the turns is the same whichever turn is taken out first |
| LlmCall.Strip | llm_call.py:73 | `str.strip(cs)` gives a contiguous piece of its input whose first and last characters are not in `cs` (or the empty string) |
| LlmCall.StripRemovesOnlyMembers | llm_call.py:73 | everything `str.strip(cs)` removes, before and after the piece it keeps, is a character of `cs` |
| LlmCall.StripIdempotent | llm_call.py:73 | stripping a second time with the same characters changes nothing |
| LlmCall.CleanReply | llm_call.py:71-73 | `clean_reply` returns a contiguous piece of the text that neither starts nor ends with a single quote |
| LlmCall.CleanReplyOfDigit | llm_call.py:73 | a reply made only of noise ("1") cleans to "" |
| LlmCall.CleanReplyOfLetter | llm_call.py:73 | a reply with no noise ("b") is left unchanged |
| LlmCall.Split | llm_call.py:77 | `split(sep)` gives at least one part, no part contains the separator, and exactly one part when the text has no separator |
| LlmCall.JoinSplit | llm_call.py:77 | joining the parts of `split(sep)` with `sep` gives back the text |
| LlmCall.SplitJoin | llm_call.py:77 | splitting the join of separator-free parts gives back the parts |
| LlmCall.Pieces | llm_call.py:77-79 | the raw pieces are the split on commas when the text contains a comma, and the split on newlines otherwise |
| LlmCall.PiecesOfExample | llm_call.py:77-79 | "1,b" is split on its comma into "1" and "b" |
| LlmCall.CleanPiece | llm_call.py:80 | a non-empty raw piece contributes exactly its cleaned text, and an empty one nothing |
| LlmCall.CleanNonEmpty | llm_call.py:80 | no more items than raw pieces |
| LlmCall.NonEmpty | llm_call.py:80 | the kept pieces are exactly the non-empty raw pieces, each taken from the input |
| LlmCall.CleanNonEmptyItems | llm_call.py:80 | one item per non-empty raw piece, in order: item i is the cleaned text of the i-th non-empty piece |
| LlmCall.CleanNonEmptyAppend | llm_call.py:80 | cleaning two runs of pieces yields the first run's items and then the second's, so order is kept |
| LlmCall.CleanNonEmptyFrom | llm_call.py:80 | every item is the cleaned text of some non-empty raw piece |
| LlmCall.CleanNonEmptyOfExample | llm_call.py:80 | the pieces "1" and "b" give the items "" and "b": the emptiness test comes before cleaning |
| LlmCall.ParseList | llm_call.py:76-80 | `parse_list` gives exactly as many items as there are non-empty raw pieces |
| LlmCall.ParseListItems | llm_call.py:76-80 | item i of `parse_list` is `clean_reply` of the i-th non-empty raw piece |
| LlmCall.ParseListItemFrom | llm_call.py:76-80 | every item of `parse_list` is a contiguous piece of some non-empty raw piece |
| LlmCall.PiecesHaveNoCommas | llm_call.py:77-79 | no raw piece contains a comma, whichever separator was used |
| LlmCall.ParseListHasNoCommas | llm_call.py:76-80 | no item of `parse_list` contains a comma, whichever separator was used |
| LlmCall.ParseListKeepsEmptyItems | llm_call.py:76-80 | `parse_list("1,b")` is ["", "b"]: a piece of pure noise is reported as "" |
| LlmCall.JsonPayload | llm_call.py:99-101 | the decoder's input is a contiguous piece of the reply: the trimmed text with one leading "json" removed when it starts with one, and the trimmed text otherwise |
| LlmCall.StripFencedBlock | llm_call.py:99 | trimming a fenced JSON code block removes both fences and the newline before the closing one |
| LlmCall.JsonPayloadOfFencedReply | llm_call.py:99-101 | a reply fenced as a JSON code block reaches the decoder as exactly the block's body |
| LlmCall.JsonPayloadRemovesOneTag | llm_call.py:100-101 | only one "json" tag is removed ("jsonjson{}" gives "json{}") |
| LlmCall.Names | llm_call.py:104 | the name list has one entry per pair: the name of the pair at that position |
| LlmCall.SortByRankSorted | llm_call.py:103 | the ranks never decrease along the sorted list |
| LlmCall.SortByRankPermutes | llm_call.py:103 | the sorted list is a permutation of the decoded pairs |
| LlmCall.SortByRankNames | llm_call.py:103-104 | the sorted names are a permutation of the decoded names |
| LlmCall.SortByRankStable | llm_call.py:103 | for every rank, the pairs of that rank keep their decoded order (stable sort) |
| LlmCall.SortByRankCorrect | llm_call.py:103-104 | the sort is ordered by rank, a permutation of the pairs and of their names, and stable |
| LlmCall.ParseJsonRankedList | llm_call.py:97-105 | a decode error exactly when the trimmed text does not decode; otherwise the result is a permutation of the decoded names |
| LlmCall.ParseJsonRankedListOrder | llm_call.py:102-104 | on a decodable reply, the result is the names of the decoded pairs sorted by rank, with ties in decoded order |
| LlmCall.AskForOpenList | llm_call.py:60-66 | the base `ask_for_open_list` is the parsed answers with the reply's token counts, or the decode error, with no handler |
| LlmCall.AskForOpenListOfEmptyAnswer | llm_call.py:60-66 | the sentinel's empty answer makes the base `ask_for_open_list` raise the decode error |
| LlmCall.KeepFirst | gemini_llm_call.py:41-45 | the answers kept are a prefix of the list: min(choices, length) of them (for negative `choices`, Python's count from the end); a list no longer than `choices` is unchanged, and tokens pass through |
| LlmCall.AskGenericQuestionWithRetries | llm_call.py:117-129 | the loop's result, sleeps and call count are those of the reference run `Retrying` from attempt 0 |
| LlmCall.RetryingShape | llm_call.py:119-129 | from any attempt below the limit: at least one call, within the limit; every call but the last raised; the sleeps are 2^k, one per failed non-final attempt; a return is the last call's answer; a re-raise comes from the final attempt |
| LlmCall.RetryPolicy | llm_call.py:117-129 | at most `max_retries` calls; the first success is returned; waits 1, 2, 4, … between attempts; the last exception is re-raised exactly when every attempt raised; with `max_retries <= 0`, no call and None |
| LlmCall.ChoiceFromPair | llm_call.py:131-133 | whatever system prompt is passed, the base `choice_from_pair` is the retry loop with 10 attempts on the one-word prompt in text mode |
| TogetherLlmCall.RequestFor | together_llm_call.py:58-84 | the request carries the user message, then the system prompt; logprobs is 1 exactly in text mode and 0 exactly in JSON mode; the schema is sent exactly in JSON mode |
| TogetherLlmCall.ExtractLogprobs | together_llm_call.py:182-192 | a probability exactly when the completion, its first choice's log-probabilities and their token list are all present and non-empty; it is then the sum of the token log-probabilities |
| TogetherLlmCall.Settle | together_llm_call.py:86-107 | an attempt that is not retried returns zero tokens and the first choice's content with its extracted probability; any other error, and a completion without choices, gives the sentinel |
| TogetherLlmCall.BackoffBounds | together_llm_call.py:95-97 | with r in 0..100, `int(2^k * (1 + r/100))` lies between 2^k and 2^(k+1) |
| TogetherLlmCall.RunSoFarRetry | together_llm_call.py:93-101 | after a retryable failure, the run so far plus the backoff sleep, followed by the run from the next attempt, is still the whole run |
| TogetherLlmCall.RunSoFarSettle | together_llm_call.py:87-107 | an attempt that is not retried ends the run with its settled reply |
| TogetherLlmCall.RunSoFarExhausted | together_llm_call.py:59 | after ten retryable failures the run ends with no reply |
| TogetherLlmCall.RetryRequest | together_llm_call.py:59-107 | the loop's reply, sleeps and call count are those of the reference run `Attempts` from attempt 0 |
| TogetherLlmCall.AskGenericQuestion | together_llm_call.py:51-107 | `ask_generic_question` is the reference run on the request built for the question |
| TogetherLlmCall.AttemptsCount | together_llm_call.py:59-101 | a run from any attempt makes at least one call and stays within ten; it sleeps once per call that was retried |
| TogetherLlmCall.AttemptsFailures | together_llm_call.py:93-101 | every call but the last was retryable; all remaining attempts were when the run ends with None |
| TogetherLlmCall.AttemptsLast | together_llm_call.py:87-107 | a run with a reply ended at a call that was not retried, and the reply is that call's settled reply |
| TogetherLlmCall.AttemptsWait | together_llm_call.py:95-97 | the i-th sleep is the jittered backoff of that attempt |
| TogetherLlmCall.TogetherRetryCalls | together_llm_call.py:59-107 | between one and ten calls; every call but the last failed with 429, 502 or 503; the reply is None exactly when all ten attempts did, and then ten calls were made |
| TogetherLlmCall.TogetherRetryReply | together_llm_call.py:87-107 | a reply is the settled outcome of the last call |
| TogetherLlmCall.AttemptsWaitBounds | together_llm_call.py:95-101 | with jitter in 0..100, the i-th sleep lies between 2^i and 2^(i+1) seconds |
| TogetherLlmCall.TogetherWaitBounds | together_llm_call.py:95-101 | with jitter in 0..100, every sleep after failed attempt k lies between 2^k and 2^(k+1) seconds |
| TogetherLlmCall.TogetherRetryWaits | together_llm_call.py:93-101 | one sleep per retryable failure: ten when the loop falls through, calls - 1 otherwise, each between 2^k and 2^(k+1) seconds |
| TogetherLlmCall.FatalStatusGivesSentinel | together_llm_call.py:102-104 | any status other than 429, 502 and 503 gives the sentinel after one call with no sleep |
| TogetherLlmCall.AskForOpenList | together_llm_call.py:110-122 | `AttributeError` exactly when the reply is None (the handler's log line reads `response.answer` again); otherwise zero tokens with the parsed answers, or the empty list when the reply does not decode |
| TogetherLlmCall.ExhaustedRetriesRaise | together_llm_call.py:110-122 | ten rate-limited attempts make `ask_for_open_list` raise `AttributeError` |
| TogetherLlmCall.UndecodableReplyGivesEmptyList | together_llm_call.py:115-122 | a reply that does not decode gives the empty list |
| TogetherLlmCall.AskForList | together_llm_call.py:129-144 | the open list's error propagates; otherwise a prefix of min(choices, length) of its answers, unchanged when not longer than `choices`, tokens passed through |
| TogetherLlmCall.ChoiceFromPair | together_llm_call.py:146-161 | the fixed choice prompt is sent whatever `system_prompt` says; the answer is cleaned, probability and tokens pass through; a None reply raises AttributeError, and only that does |
| TogetherLlmCall.ChoiceAnswerIsClean | together_llm_call.py:157 | a choice's answer is a piece of the reply and neither starts nor ends with a single quote |
| TogetherLlmCall.RunConversation | together_llm_call.py:168-169 | `conversation` returns a new, empty conversation |
| TogetherLlmCall.KnownModels | together_llm_call.py:38-40 | the catalog is exactly the one internal name "llama-3.1-70B" |
| TogetherLlmCall.DisplayName | together_llm_call.py:178-180 | every model's display name is "Llama-3.1" |
| TogetherLlmCall.OrderModels | together_llm_call.py:171-175 | at most one model; one exactly when the Llama name is among the models; it is one of them and in the catalog |
| GeminiLlmCall.ConfigFor | gemini_llm_call.py:81-106 | log-probabilities requested; logprobs 1 exactly in text mode and 0 exactly in JSON mode; `application/json` with the Choices schema in JSON mode, `text/plain` without it otherwise |
| GeminiLlmCall.AskGenericQuestion | gemini_llm_call.py:78-116 | an API error gives the sentinel; otherwise the text and both usage counts are passed through, with a probability exactly when the candidate has a log-probability result |
| GeminiLlmCall.AskForOpenList | gemini_llm_call.py:118-128 | the decode error exactly when the reply does not decode (no handler); otherwise the parsed answers with the reply's token counts |
| GeminiLlmCall.APIErrorRaisesOnOpenList | gemini_llm_call.py:114-128 | an API error in JSON mode leaves the sentinel's "" answer, so `ask_for_open_list` raises the decode error |
| GeminiLlmCall.AskForList | gemini_llm_call.py:37-46 | errors pass through; otherwise a prefix of min(choices, length) answers, so at most `choices`; unchanged when not longer; tokens pass through |
| GeminiLlmCall.ChoicePrompt | gemini_llm_call.py:162-163 | the caller's system prompt unless it is None or "", the choice prompt then |
| GeminiLlmCall.ChoiceFromPair | gemini_llm_call.py:159-173 | the cleaned answer, a contiguous piece of the reply that neither starts nor ends with a quote; probability and tokens pass through |
| GeminiLlmCall.APIErrorGivesEmptyChoice | gemini_llm_call.py:159-173 | an API error on a choice gives an empty answer with no probability and no tokens |
| GeminiLlmCall.RunConversation | gemini_llm_call.py:48-75 | the stored ordinals are exactly the indices of the questions that were answered, all within 0..n-1; each holds the index, the question and the reply's parts and usage; the counters equal the sums over the stored turns |
| LlmFactory.FirstOwner | llm_factory.py:9-17 | the backend chosen is the first in the order whose catalog holds the name, and None exactly when no catalog does |
| LlmFactory.FirstOwnerOfFour | llm_factory.py:9-18 | first-match over four catalogs is the chain of membership tests in that order |
| LlmFactory.GetModelAsWritten | llm_factory.py:8-21 | `get_model` as written: "Unknown model" exactly when no catalog holds the name; a TypeError exactly when Together's catalog does |
| LlmFactory.GetModelAsWrittenRejectsLlama | llm_factory.py:19 | the Llama model cannot be obtained from `get_model` as written |
| LlmFactory.GetModel | llm_factory.py:8-21 | "Unknown model" exactly when no catalog holds the name; otherwise the model of the first catalog in the order Together, GPT, Gemini, Perplexity, with that vendor's parallelism (100 for Together) |
| LlmFactory.GetModelCorrected | llm_factory.py:19-21 | the corrected `get_model` gives the Llama model with parallelism 100, and agrees with the code as written on every name Together does not own |
| LlmFactory.DisplayName | llm_factory.py:54-66 | the vendor label and display name of the first catalog in the order GPT, Gemini, Together, Perplexity (Perplexity's vendor from `model_vendor`); "Unknown model" exactly when no catalog holds the name |
| LlmFactory.LookupsFailTogether | llm_factory.py:8-66 | `get_model` and `display_name` fail on exactly the same names |
| LlmFactory.PrecedencesDisagree | llm_factory.py:8-62 | a name in both the GPT and the Together catalogs is built as the Together model but displayed under Open AI |
| LlmFactory.AnyPrefix | llm_factory.py:30-31 | true exactly when some listed prefix starts the name |
| LlmFactory.KnownModels | llm_factory.py:23-32 | a subset of the union of the four catalogs: exactly the catalogued names that start with none of the bad prefixes |
| LlmFactory.KnownModelsExamples | llm_factory.py:23-32 | the Llama model passes the filter; "davinci-002" does not |
| LlmFactory.LatestModels | llm_factory.py:34-52 | only the four vendor labels are keys; a label is present exactly when that vendor's ordered list is non-empty; its value is the list's first model and that model's display name |
| LlmFactory.Labelled | llm_factory.py:74-81 | one listing per model, in order, each with the vendor and the model's display name |
| LlmFactory.SortByLatestModels | llm_factory.py:68-82 | the listing is as long as the four ordered lists together |
| LlmFactory.ModelsUnderAppend | llm_factory.py:74-81 | a vendor's models in two concatenated listings are its models in the first and then in the second |
| LlmFactory.ModelsUnderLabelled | llm_factory.py:74-81 | a listing built for one vendor holds its models under that vendor and nothing under any other |
| LlmFactory.ModelsUnderHeadsTails | llm_factory.py:74-81 | under each vendor, the head part holds that vendor's first model and the tail part the rest |
| LlmFactory.SortByLatestModelsPerVendor | llm_factory.py:68-82 | under each vendor, the listing holds exactly that vendor's ordered models in their order: none lost, repeated or moved to another vendor |
| LlmFactory.HeadPart | llm_factory.py:74-77 | a vendor's head part is its first model alone when it has models, and empty otherwise |
| LlmFactory.HeadsLength | llm_factory.py:74-77 | the head part has one listing per vendor that has models |
| LlmFactory.AreHeadsPrepend | llm_factory.py:74-77 | putting a vendor's head part in front of heads of later vendors gives heads of that vendor or later ones, each the first model of its vendor |
| LlmFactory.StrictlyRankedPrepend | llm_factory.py:74-77 | a vendor's head part in front of strictly ordered listings of later vendors keeps the vendors strictly ordered |
| LlmFactory.HeadsFromPerplexity | llm_factory.py:77 | Perplexity's head part is its first model, if any |
| LlmFactory.HeadsFromTogether | llm_factory.py:76-77 | the Meta and Perplexity head parts are their first models, Meta before Perplexity |
| LlmFactory.HeadsFromGemini | llm_factory.py:75-77 | the Google, Meta and Perplexity head parts are their first models, in that vendor order |
| LlmFactory.HeadsInOrder | llm_factory.py:74-77 | the head part lists each vendor by its first model, vendors in the order Open AI, Google, Meta, Perplexity |
| LlmFactory.SortByLatestModelsHeadsFirst | llm_factory.py:74-82 | the first k listings, k the number of vendors with models, are the vendors' first models, in vendor order, each vendor once |
| LlmFactory.RankOrderedPrepend | llm_factory.py:78-81 | a block of one vendor's listings put in front of listings of that vendor or later ones keeps the vendor order |
| LlmFactory.TailsInOrder | llm_factory.py:78-81 | the tail part lists the vendors in the order Open AI, Google, Meta, Perplexity |
| LlmFactory.SortByLatestModelsTailsInOrder | llm_factory.py:68-82 | after the first k listings, the vendors never go back in the order Open AI, Google, Meta, Perplexity |
| LlmFactory.SuffixRankOrdered | llm_factory.py:74-82 | listings after the head part keep the vendor order of the tail part |
| LlmFactory.DisplayOkAppend | llm_factory.py:74-81 | joining two listings that each carry their vendors' display names keeps that property |
| LlmFactory.DisplayOkFour | llm_factory.py:74-81 | four one-vendor blocks in vendor order carry each vendor's display name of each model |
| LlmFactory.SortByLatestModelsDisplayNames | llm_factory.py:74-81 | every listing carries its vendor's display name of its model. With SortByLatestModelsPerVendor (contents per vendor), SortByLatestModelsHeadsFirst and SortByLatestModelsTailsInOrder (order), this fixes the whole listing |

## Left out

- Network calls, the vendor SDK clients, `asyncio` and concurrency. Each provider call is a function parameter. `asyncio.sleep` becomes a recorded list of waits.
- Gemini's SDK-level retry option (`HttpRetryOptions(attempts=10)`) lives inside the SDK and is not modelled.
- Floating point: `wald` (llm_call.py:107-115) and `temperature`, which is not carried in the model's requests.
- TogetherLlmCall.ExtractLogprobs: states the sum of the token log-probabilities instead of `math.exp` of it, because floating-point `exp` is not modelled. The guard is modelled exactly.
- GeminiLlmCall.AskGenericQuestion: keeps the candidate's log-probability result as an uninterpreted sequence of reals, standing in for the SDK object used as the probability.
- `random.randint(0, 100)` becomes the parameter `jitter`. `int(2^k * (1.0 + r/100.0))` is modelled as the integer `2^k * (100 + r) / 100`. Both are the same whole number of seconds for r in 0..100, since 2^k is exact and the float product never crosses an integer it should not reach.
- `json.loads` is a parameter. It is assumed to return a flat object as (name, integer rank) pairs in order.
  - The Choices schema requested in JSON mode wraps the ranks under a `"choices"` key; the code as written would then rank the single key `"choices"`. The model does not represent nested objects, so this case is not modelled.
  - Values that are not integers are not modelled.
- An `IndexError` from a Gemini response without candidates is not caught in the source. The model's `Generated` and `Replied` outcomes always carry a first candidate, so this case is not modelled. Likewise a Together choice whose message content is `None` is not modelled.
- The in-place truncation `result.answers = result.answers[:choices]` is a value update here (`LlmCall.KeepFirst` returns the updated response). Every call builds a fresh response, and the shared empty list has no answers. Aliasing is therefore not modelled.
- `EMPTY_ANSWER` and `EMPTY_LIST`: `together_llm_call.py:10-16` imports them from `constants.py`, which does not define them. That import raises `ImportError`, so `together_llm_call.py` cannot load as written. Neither can `llm_factory.py`, which imports it at line 4. The model substitutes the definitions of `gemini_llm_call.py:15-18` for both adapters.
- `print` logging (its output only: the Together handler's log line is modelled where reading its argument raises), `load_dotenv`/`dotenv_values` credential loading and the client constructors.
- Constant members return fixed values and are not modelled as operations:
  - `known_models`, `report_models` and `list_models` in the base class and in the Gemini adapter, and `report_models` and `list_models` in the Together adapter. Together's `known_models` and `display_name` are modelled (`TogetherLlmCall.KnownModels`, `TogetherLlmCall.DisplayName`) because the registry uses them;
  - `computed_model_name` and `has_logprob`;
  - `parallelism`: Together's is the constant `TogetherLlmCall.Parallelism`, which the registry uses. Gemini's (1000) is not used by anything modelled, and the registry's Gemini module is `gemini_call`.
- LlmFactory.LatestModels: the result is a Dafny `map`, which has no order. The Python dict keeps insertion order (Open AI, Google, Meta, Perplexity), and the model does not capture that order.
- `ask_for_ranked_list` only delegates to `ask_for_open_list`, so the model calls `AskForOpenList` directly.
- The Together stub `ask_generic_question_with_retries` (together_llm_call.py:163-166) only returns `None`. Gemini's commented-out retry loop (gemini_llm_call.py:135-157) is not code.
- `gemini_call`, `gpt_call` and `perplexity_call` are not part of this model. The registry imports `gemini_call`, not `gemini_llm_call`, so its Gemini catalog is a parameter like the other two. Their `order_models`, `display_name`, `model_vendor` and `parallelism()` are parameters too.
- `sort_by_latest_models` returns the vendor label as a string. The model tags each listing with the `Backend` value and maps it to the label with `LlmFactory.Label`.
- Gemini's chat configuration (`temperature`, `logprobs=1`) in `conversation` is not carried in the model.
- The tests under `tests/` are live-network throughput harnesses. They are not modelled.
- LlmCall.ChoiceFromPair: the source ignores `max_iterations` and the `system_prompt` passed in. It forwards `temperature` to the retry loop; the model drops `temperature`, as it does everywhere.

## Findings

| source | as written | input that shows it | evidently intended | confidence | as-written member | corrected member |
|---|---|---|---|---|---|---|
| llm_factory.py:19 | `parallelism = model.parallelism()` calls `parallelism` as a method. The Together model defines it as a `@property` (together_llm_call.py:42-44), so for a Together model the call is `100()` and raises `TypeError: 'int' object is not callable` | `get_model("llama-3.1-70B")` | return the Together model with parallelism 100, reading the property as a value | not executed | LlmFactory.GetModelAsWritten, LlmFactory.GetModelAsWrittenRejectsLlama | LlmFactory.GetModel, LlmFactory.GetModelCorrected |
