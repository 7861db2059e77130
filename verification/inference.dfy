/**
 * One Hugging Face inference attempt: how the reply body is normalised to a
 * text (`_extract_text`) and how the outcome of one call is classified into
 * generated text or an error (`try_infer_hf`).
 */
module Inference {
  import opened Json

  /** What one POST to a model's inference URL produced. The network is not
      modelled: these are the three ways the call can end. */
  datatype HfOutcome =
      /** `raise_for_status()` raised; `detail` is the rendered exception. */
    | HttpError(status: int, detail: string)
      /** Any other request exception: connection failure, timeout, or a body
          that is not JSON. */
    | RequestFailed(detail: string)
      /** A successful status with a decoded JSON body. */
    | Reply(body: JsonValue)

  /** The result of one attempt: `(text, None)` or `(None, err)`. */
  datatype Attempt = Generated(text: JsonValue) | Failed(error: JsonValue)

  const GeneratedKey := "generated_text"
  const SummaryKey := "summary_text"

  /** `_extract_text`: the text of a reply, which may be a list whose first
      element is a dict, or a dict; anything else reads as the empty string. */
  function ExtractText(result: JsonValue): (text: JsonValue)
    // A list whose first element is a dict: `generated_text`, else `summary_text`.
    ensures result.JList? && |result.items| > 0 && result.items[0].JObject? ==>
      var first := result.items[0].fields;
      (GeneratedKey in first ==> text == first[GeneratedKey]) &&
      (GeneratedKey !in first && SummaryKey in first ==> text == first[SummaryKey]) &&
      (GeneratedKey !in first && SummaryKey !in first ==> text == JStr(""))
    // A dict: only `generated_text` is read.
    ensures result.JObject? ==>
      text == if GeneratedKey in result.fields then result.fields[GeneratedKey] else JStr("")
    // Every other shape, including the empty list, reads as "".
    ensures !result.JObject? && !(result.JList? && |result.items| > 0 && result.items[0].JObject?) ==>
      text == JStr("")
  {
    if result.JList? && |result.items| > 0 && result.items[0].JObject? && GeneratedKey in result.items[0].fields then
      result.items[0].fields[GeneratedKey]
    else if result.JList? && |result.items| > 0 && result.items[0].JObject? && SummaryKey in result.items[0].fields then
      result.items[0].fields[SummaryKey]
    else if result.JObject? && GeneratedKey in result.fields then
      result.fields[GeneratedKey]
    else
      JStr("")
  }

  /** Both reply shapes normalise to the same text: a dict carrying
      `generated_text` and a one-element list holding that dict. */
  lemma ExtractTextShapesAgree(fields: map<string, JsonValue>, rest: seq<JsonValue>)
    requires GeneratedKey in fields
    ensures ExtractText(JList([JObject(fields)] + rest)) == ExtractText(JObject(fields)) == fields[GeneratedKey]
  {
  }

  /** A dict reply that carries a truthy `error` field. */
  predicate HasInlineError(body: JsonValue) {
    body.JObject? && "error" in body.fields && Truthy(body.fields["error"])
  }

  const EmptyResponseMessage := "Empty response from model"

  function NotFoundMessage(modelId: string): string {
    "Model not found (404) for " + modelId
  }

  function HttpErrorMessage(modelId: string, detail: string): string {
    "HTTP error from HF for " + modelId + ": " + detail
  }

  function RequestErrorMessage(modelId: string, detail: string): string {
    "Request error for " + modelId + ": " + detail
  }

  /** `try_infer_hf`: classifies the outcome of one call to `modelId`. */
  function TryInferHf(modelId: string, outcome: HfOutcome): (a: Attempt)
    // Text is produced exactly for a reply without an inline error whose
    // extracted text is truthy, and it is that text.
    ensures a.Generated? <==>
      outcome.Reply? && !HasInlineError(outcome.body) && Truthy(ExtractText(outcome.body))
    ensures a.Generated? ==> Truthy(a.text) && a.text == ExtractText(outcome.body)
    // Every failure carries a truthy error.
    ensures a.Failed? ==> Truthy(a.error)
    ensures outcome.Reply? && HasInlineError(outcome.body) ==>
      a == Failed(outcome.body.fields["error"])
    ensures outcome.Reply? && !HasInlineError(outcome.body) && !Truthy(ExtractText(outcome.body)) ==>
      a == Failed(JStr(EmptyResponseMessage))
    ensures outcome.HttpError? && outcome.status == 404 ==>
      a == Failed(JStr(NotFoundMessage(modelId)))
    ensures outcome.HttpError? && outcome.status != 404 ==>
      a == Failed(JStr(HttpErrorMessage(modelId, outcome.detail)))
    ensures outcome.RequestFailed? ==>
      a == Failed(JStr(RequestErrorMessage(modelId, outcome.detail)))
  {
    match outcome
    case Reply(body) =>
      if HasInlineError(body) then Failed(body.fields["error"])
      else
        var text := ExtractText(body);
        if !Truthy(text) then Failed(JStr(EmptyResponseMessage)) else Generated(text)
    case HttpError(status, detail) =>
      if status == 404 then Failed(JStr(NotFoundMessage(modelId)))
      else Failed(JStr(HttpErrorMessage(modelId, detail)))
    case RequestFailed(detail) =>
      Failed(JStr(RequestErrorMessage(modelId, detail)))
  }

  /** The generated messages tell the failure kinds apart: a 404, another HTTP
      error, a request error and an empty reply never produce the same text,
      whatever the model ids and details. */
  lemma FailureMessagesDistinct(m1: string, m2: string, m3: string, d2: string, d3: string)
    ensures NotFoundMessage(m1) != HttpErrorMessage(m2, d2)
    ensures NotFoundMessage(m1) != RequestErrorMessage(m3, d3)
    ensures HttpErrorMessage(m2, d2) != RequestErrorMessage(m3, d3)
    ensures EmptyResponseMessage !in {NotFoundMessage(m1), HttpErrorMessage(m2, d2), RequestErrorMessage(m3, d3)}
  {
    assert NotFoundMessage(m1)[0] == 'M';
    assert HttpErrorMessage(m2, d2)[0] == 'H';
    assert RequestErrorMessage(m3, d3)[0] == 'R';
    assert EmptyResponseMessage[0] == 'E';
  }

  /** The 404 message names the model: different ids give different messages. */
  lemma NotFoundMessageNamesModel(m1: string, m2: string)
    requires NotFoundMessage(m1) == NotFoundMessage(m2)
    ensures m1 == m2
  {
    var prefix := "Model not found (404) for ";
    assert m1 == NotFoundMessage(m1)[|prefix|..];
    assert m2 == NotFoundMessage(m2)[|prefix|..];
  }
}
