# Email generator backend: a Dafny model of the legacy email endpoint

This project models the decision logic of `POST /api/generate-email` in
`backend/main.py`. That endpoint validates the JSON body and checks the
Hugging Face token. It then builds an instruction prompt from the four
stripped fields `goal`, `recipient`, `tone` and `points`, and sends it to
one of two providers:

- **groq**: one chat-completion call, no fallback;
- **hf** (the default): the primary model first, then the configured
  fallbacks. Each candidate gets exactly one attempt. The flow stops at the
  first candidate that yields text and otherwise answers 502 with one error
  per candidate.

The network is an oracle. A Hugging Face call is an `HfOracle`: a function
from (attempt number, model id) to an `HfOutcome`, which is one of
`HttpError(status, detail)`, `RequestFailed(detail)` or `Reply(json)`. The
attempt number is an input because a model id may appear twice among the
candidates and get a different answer the second time. The single Groq call
is a `GroqOutcome`. The handler returns an `Exchange`: the response (status
and JSON body) plus the ordered list of provider calls it made. That list is
how "no later candidate is attempted" and "no call before validation" are
stated.

JSON values carry Python truthiness (`Json.Truthy`). The source tests text
and errors by truthiness, not by being strings, and the model does the same.
An exception that escapes the handler becomes `Unhandled`, which Flask
answers with status 500. This happens for a truthy body that is not a dict,
for a request field that is not a string, and for a Groq reply whose
`choices`/`message` shape cannot be indexed.

Modules, one file each: `Options`, `Text` (Python's `strip`, `split`, `join`,
ASCII lower-casing), `Json`, `Settings` (fallback-list parsing and start-up
configuration), `Inference` (`_extract_text`, `try_infer_hf`), `Fallback`
(candidate list and fallback search), and `Handler` (`generate_email`).

Behaviour of the code worth noting:
- The candidate list drops every copy of the primary model from the
  fallbacks, not only a copy in the first position. Other duplicates are
  kept.
- Status 400 "Invalid input" is returned for every falsy body (`{}`, `[]`,
  `0`, `""`, `false`, `null`), not only a missing or unparsable one.
- A truthy body that is not a dict, or a field that is not a string, raises
  an exception, and Flask answers 500.
- `HF_API_TOKEN` is required on the Groq path too.
- The fallbacks are tried after every kind of failed attempt (HTTP error, request error, inline error,
  empty text), not only after a 404 as the comment on the fallback setting suggests.

## Model

| member | source | states |
|---|---|---|
| Text.StripIsInfix | backend/main.py:30 | `strip()` returns a contiguous infix of its input, and everything it removed at either end is whitespace |
| Text.Strip | backend/main.py:30 | the stripped string has no whitespace at either end, and it is empty exactly when the input is all whitespace |
| Text.StripIdempotent | backend/main.py:30 | stripping twice gives the same string as stripping once |
| Text.Split | backend/main.py:30 | `split(",")` yields at least one piece, no piece contains the separator, and joining the pieces with the separator gives back the input |
| Text.SplitAtSeparator | backend/main.py:30 | splitting `a + "," + b` gives the pieces of `a` followed by the pieces of `b` |
| Text.SplitJoin | backend/main.py:23-30 | splitting a comma-join of one or more comma-free pieces returns exactly those pieces (no pieces join to "", which splits to `[""]`) |
| Settings.ParseFallbacks | backend/main.py:30 | every parsed fallback id is non-empty, has no surrounding whitespace and contains no comma |
| Settings.ParseFallbacksPiece | backend/main.py:30 | a comma-free piece contributes its stripped form, or nothing when it is blank; with the comma lemma this fixes the parse of every string |
| Settings.ParseFallbacksAtComma | backend/main.py:30 | the ids of `a + "," + b` are the ids of `a` followed by the ids of `b`, so the configured order is kept |
| Settings.ParseJoinedFallbacks | backend/main.py:21-30 | parsing the comma-join of clean ids returns the ids unchanged, the default list included |
| Settings.LoadConfig | backend/main.py:14-37 | an unset variable takes its default (provider "hf", the flan-t5-large primary, the four default fallbacks, llama3-8b-8192) and a set model id or fallback list is used as given (the list parsed); a credential counts only when set and non-empty; Groq is selected exactly when the lower-cased `PROVIDER` is "groq" |
| Fallback.Without | backend/main.py:154 | removing the primary leaves no copy of it, keeps every other id with its multiplicity, and keeps their order |
| Fallback.Candidates | backend/main.py:154 | the primary comes first and appears exactly once; the rest is an order-preserving subsequence of the fallbacks with every other id's count unchanged |
| Fallback.CandidatesDistinct | backend/main.py:154 | fallbacks without duplicates give candidates without duplicates |
| Fallback.CandidatesExample | backend/main.py:154 | primary `M1` with fallbacks `[M1, M2, M3]` gives candidates `[M1, M2, M3]` |
| Inference.ExtractText | backend/main.py:93-105 | a list whose first element is a dict gives `generated_text`, else `summary_text`, else ""; a dict gives only `generated_text`; every other shape, including the empty list, gives "" |
| Inference.ExtractTextShapesAgree | backend/main.py:93-105 | a dict with `generated_text` and a list whose first element is that dict yield the same text |
| Inference.TryInferHf | backend/main.py:107-124 | an attempt succeeds exactly when the reply has no truthy inline error and its extracted text is truthy, and never with empty text; an inline error becomes that error; empty text gives "Empty response from model"; 404 gives "Model not found (404) for <id>"; other statuses give the HTTP-error message; transport failures give the request-error message; every error is truthy |
| Inference.FailureMessagesDistinct | backend/main.py:116-124 | the 404, generic HTTP, request-error and empty-reply messages never coincide, whatever the ids and details |
| Inference.NotFoundMessageNamesModel | backend/main.py:120-121 | different model ids give different 404 messages |
| Fallback.SearchFrom | backend/main.py:155-160 | the search returns the first candidate that produced text, with every earlier candidate failed and the call count ending at it; when all fail, it returns one error per candidate in attempt order |
| Fallback.ExplainsUnique | backend/main.py:155-160 | that description fixes the search result: two results that both fit it are equal |
| Fallback.RunFallback | backend/main.py:155-167 | the imperative loop meets the same description and returns the same result as the recursive definition |
| Handler.ReadFields | backend/main.py:56-63 | the four fields are read exactly when the body is a dict whose four keys are absent or strings; each value is the stripped string, or "" when the key is absent |
| Handler.PromptContainsFields | backend/main.py:68-84 | the prompt contains each stripped field verbatim |
| Handler.GroqContent | backend/main.py:146 | content is read only from a dict reply, and any content other than "" is the `content` of the first choice's `message` |
| Handler.GroqContentOfChatReply | backend/main.py:146 | a reply whose first choice has a dict `message` with a `content` key yields that content, whatever other keys the reply, choice and message carry |
| Handler.GroqContentWithoutChoices | backend/main.py:146 | a dict reply without `choices` yields "" through the chained defaults, not an exception |
| Handler.GroqContentDefaultsToEmpty | backend/main.py:146 | a first choice without `message`, or a message without `content`, yields "" through the defaults rather than raising |
| Handler.GroqContentRaises | backend/main.py:146 | a non-dict reply, a `choices` value that is not a non-empty list, a non-dict first choice, or a non-dict `message` makes the expression raise |
| Handler.GroqFlow | backend/main.py:126-151 | without a Groq key nothing is called; otherwise exactly one call is made with the prompt; 200 only for truthy content, reported with the Groq model id and provider "groq" |
| Handler.HfFlow | backend/main.py:153-167 | 200 reports the first successful candidate with provider "hf", after calling exactly the candidates up to it; 502 means every candidate failed and was called once, `tried_models` is the candidate list, and `details` holds one error per candidate in order |
| Handler.GenerateEmail | backend/main.py:53-167 | the status is one of 200, 400, 500 or 502; 200 carries truthy text; no provider is called unless the body is valid and `HF_API_TOKEN` is set; only the configured provider is called |
| Handler.InvalidInputRejected | backend/main.py:56-58 | a missing or falsy body gives 400 "Invalid input" with no call, for any configuration |
| Handler.UnreadableBodyRaises | backend/main.py:60-63 | a truthy non-dict body, or a non-string field, raises: 500 with no call |
| Handler.MissingHfTokenRejected | backend/main.py:65-66 | a missing or empty `HF_API_TOKEN` gives 500 with no call, on both provider paths |
| Handler.MissingGroqKeyRejected | backend/main.py:126-128 | on the Groq path a missing `GROQ_API_KEY` gives 500 with no call |
| Handler.GroqPathOutcome | backend/main.py:126-151 | with both credentials, exactly one Groq call carries the email prompt; a failed call gives 502, empty content gives 502 "Empty response from Groq", truthy content gives 200 with the Groq model id, and a reply whose content cannot be read gives 500 |
| Handler.HfAnswersWithFirstSuccess | backend/main.py:156-159 | if candidate k is the first to produce text, the answer is 200 with that text and model id, after exactly k + 1 calls |
| Handler.HfAllCandidatesFail | backend/main.py:155-167 | if every candidate fails, the answer is 502 "All models failed" with the hint; `tried_models` is the candidate list; `details` has one error per candidate in order; every candidate was called once |
| Handler.TransportFailureThenText | backend/main.py:156-160 | a transport failure on the first candidate followed by text from the second gives 200 with the second model id, after two calls |
| Handler.PrimaryAnswers | backend/main.py:156-159 | a primary that answers `[{"generated_text": t}]` is used at once: one call, 200, provider "hf" |
| Handler.DefaultCandidates | backend/main.py:14-30 | with no environment the provider is "hf" and the candidates are the four default models, the primary appearing once |

## Left out

- Flask routing, CORS and the static file routes (`/` and `/<path>`): web-framework plumbing with no decision logic.
- Loading `.env` and reading the real process environment: `LoadConfig` takes the environment as a map.
- The HTTP requests themselves: URLs, headers, bearer tokens, 120-second timeouts and JSON decoding. The calls are an oracle. A reply that is not JSON is assumed to surface as a request exception, so it is `RequestFailed` or `GroqFailed`.
- The rendered text of exceptions (`{http_err}`, `{e}`): it is an opaque `detail` string supplied by the oracle.
- The `getattr(..., 'status_code', 500)` default: an HTTP error raised by `raise_for_status` always carries its response, so `HttpError` always has a status.
- Request parameters that are only forwarded: `max_new_tokens`, `max_tokens`, `temperature`, `return_full_text`, `wait_for_model` and the Groq system persona.
- Non-integer JSON numbers: `JNum` holds an integer. Only truthiness is ever asked of a number, so floating point would add nothing.
- Settings.LoadConfig: lower-cases `PROVIDER` for ASCII letters only. Python's `lower()` also maps other letters, but no non-ASCII character lower-cases to `g`, `r`, `o` or `q`. So the comparison with "groq", the only use of the value, is unaffected.
- Handler.PromptContainsFields: proves that each field occurs in the prompt, not equality with the template. The template text of `EmailPrompt` is copied exactly from the source; only that equality is left unproved.
- The generic `/api/generate` endpoint and a `build_prompt` function are not part of this model: neither appears in `backend/main.py`.
- `frontend/script.js`: browser UI and asynchronous I/O.
