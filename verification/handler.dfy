/**
 * The legacy email endpoint `POST /api/generate-email`: input validation,
 * the credential checks, prompt construction, the single-shot Groq path,
 * the Hugging Face fallback path, and the status code of every outcome.
 * The network is abstracted: the Hugging Face calls answer through an
 * `HfOracle`, the one Groq call through a given `GroqOutcome`.
 */
module Handler {
  import opened Options
  import opened Text
  import opened Json
  import opened Settings
  import opened Inference
  import opened Fallback

  /** The four stripped request fields the prompt is built from. */
  datatype EmailFields = EmailFields(goal: string, recipient: string, tone: string, points: string)

  /** `data.get(key, '').strip()`: `None` when the value is not a string, in
      which case `.strip()` raises. */
  function FieldText(fields: map<string, JsonValue>, key: string): (r: Option<string>)
    ensures r.Some? <==> Readable(fields, key)
    ensures r.Some? ==> r.value == if key in fields then Strip(fields[key].s) else ""
  {
    match GetOr(fields, key, JStr(""))
    case JStr(s) => Some(Strip(s))
    case _ => None
  }

  /** A request field is readable when it is absent or a string. */
  predicate Readable(fields: map<string, JsonValue>, key: string) {
    key !in fields || fields[key].JStr?
  }

  /** All four fields the handler reads are readable. */
  predicate AllReadable(fields: map<string, JsonValue>) {
    && Readable(fields, "goal")
    && Readable(fields, "recipient")
    && Readable(fields, "tone")
    && Readable(fields, "points")
  }

  /** Reads goal, recipient, tone and points from the request body; `None`
      when that raises: the body is not a dict, or a field is not a string. */
  function ReadFields(data: JsonValue): (f: Option<EmailFields>)
    ensures f.Some? <==>
      data.JObject? && AllReadable(data.fields)
    ensures f.Some? ==>
      && f.value.goal == (if "goal" in data.fields then Strip(data.fields["goal"].s) else "")
      && f.value.recipient == (if "recipient" in data.fields then Strip(data.fields["recipient"].s) else "")
      && f.value.tone == (if "tone" in data.fields then Strip(data.fields["tone"].s) else "")
      && f.value.points == (if "points" in data.fields then Strip(data.fields["points"].s) else "")
  {
    match data
    case JObject(fields) =>
      var goal := FieldText(fields, "goal");
      var recipient := FieldText(fields, "recipient");
      var tone := FieldText(fields, "tone");
      var points := FieldText(fields, "points");
      if goal.Some? && recipient.Some? && tone.Some? && points.Some? then
        Some(EmailFields(goal.value, recipient.value, tone.value, points.value))
      else None
    case _ => None
  }

  // The fixed parts of the instruction template, around the four fields.
  const PromptHead := "\n    [INST]\n    You are an expert email copywriter. Your task is to generate a professional email.\n    Generate a subject line and an email body based on these requirements:\n    - **Goal:** "
  const PromptRecipient := "\n    - **Recipient:** "
  const PromptTone := "\n    - **Tone:** "
  const PromptPoints := "\n    - **Key Points to Include:** "
  const PromptTail := "\n\n    **Output Format:**\n    Subject: [Your generated subject line]\n    ---\n    Body:\n    [Your generated email body]\n    [/INST]\n    "

  /** The instruction sent to either provider. */
  function EmailPrompt(f: EmailFields): string {
    PromptHead + f.goal + PromptRecipient + f.recipient + PromptTone + f.tone + PromptPoints + f.points + PromptTail
  }

  /** `t` occurs in `s` starting at position `i`. */
  predicate OccursAt(s: string, t: string, i: int) {
    0 <= i <= |s| - |t| && s[i..i + |t|] == t
  }

  /** `t` occurs in `s` as a contiguous piece. */
  ghost predicate Contains(s: string, t: string) {
    exists i :: OccursAt(s, t, i)
  }

  lemma OccursBetween(x: string, t: string, y: string)
    ensures Contains(x + t + y, t)
  {
    assert (x + t + y)[|x|..|x| + |t|] == t;
    assert OccursAt(x + t + y, t, |x|);
  }

  /** Each value substituted into a four-slot template occurs in the result. */
  lemma FieldsOccurInTemplate(s0: string, v1: string, s1: string, v2: string, s2: string, v3: string, s3: string, v4: string, s4: string)
    ensures Contains(s0 + v1 + s1 + v2 + s2 + v3 + s3 + v4 + s4, v1)
    ensures Contains(s0 + v1 + s1 + v2 + s2 + v3 + s3 + v4 + s4, v2)
    ensures Contains(s0 + v1 + s1 + v2 + s2 + v3 + s3 + v4 + s4, v3)
    ensures Contains(s0 + v1 + s1 + v2 + s2 + v3 + s3 + v4 + s4, v4)
  {
    var all := s0 + v1 + s1 + v2 + s2 + v3 + s3 + v4 + s4;
    assert all == s0 + v1 + (s1 + v2 + s2 + v3 + s3 + v4 + s4);
    OccursBetween(s0, v1, s1 + v2 + s2 + v3 + s3 + v4 + s4);
    assert all == (s0 + v1 + s1) + v2 + (s2 + v3 + s3 + v4 + s4);
    OccursBetween(s0 + v1 + s1, v2, s2 + v3 + s3 + v4 + s4);
    assert all == (s0 + v1 + s1 + v2 + s2) + v3 + (s3 + v4 + s4);
    OccursBetween(s0 + v1 + s1 + v2 + s2, v3, s3 + v4 + s4);
    OccursBetween(s0 + v1 + s1 + v2 + s2 + v3 + s3, v4, s4);
  }

  /** The prompt carries every stripped field verbatim. */
  lemma PromptContainsFields(f: EmailFields)
    ensures Contains(EmailPrompt(f), f.goal)
    ensures Contains(EmailPrompt(f), f.recipient)
    ensures Contains(EmailPrompt(f), f.tone)
    ensures Contains(EmailPrompt(f), f.points)
  {
    FieldsOccurInTemplate(PromptHead, f.goal, PromptRecipient, f.recipient, PromptTone, f.tone, PromptPoints, f.points, PromptTail);
  }

  /** What the one Groq call produced. */
  datatype GroqOutcome =
      /** Any request exception, including an HTTP error status and a body that is not JSON. */
    | GroqFailed(detail: string)
      /** A successful status with a decoded JSON body. */
    | GroqReply(body: JsonValue)

  /** `data.get('choices', [{}])[0].get('message', {}).get('content', '')`;
      `None` when that raises (a non-dict where a dict is read, a choices value
      that is not a non-empty list). */
  function GroqContent(body: JsonValue): (c: Option<JsonValue>)
    ensures c.Some? ==> body.JObject?
    // Anything other than "" was read from the first choice's message.
    ensures c.Some? && c.value != JStr("") ==>
      && "choices" in body.fields
      && body.fields["choices"].JList?
      && |body.fields["choices"].items| > 0
      && body.fields["choices"].items[0].JObject?
      && "message" in body.fields["choices"].items[0].fields
      && body.fields["choices"].items[0].fields["message"].JObject?
      && "content" in body.fields["choices"].items[0].fields["message"].fields
      && c.value == body.fields["choices"].items[0].fields["message"].fields["content"]
  {
    match body
    case JObject(fields) =>
      var choices := GetOr(fields, "choices", JList([JObject(map[])]));
      if !choices.JList? || |choices.items| == 0 then None
      else
        (match choices.items[0]
         case JObject(choice) =>
           (match GetOr(choice, "message", JObject(map[]))
            case JObject(message) => Some(GetOr(message, "content", JStr("")))
            case _ => None)
         case _ => None)
    case _ => None
  }

  /** A chat-completion reply yields the `content` of its first choice's
      message, whatever other keys the reply, the choice and the message carry. */
  lemma GroqContentOfChatReply(body: map<string, JsonValue>, choice: map<string, JsonValue>,
                               message: map<string, JsonValue>, more: seq<JsonValue>)
    requires "choices" in body && body["choices"] == JList([JObject(choice)] + more)
    requires "message" in choice && choice["message"] == JObject(message)
    requires "content" in message
    ensures GroqContent(JObject(body)) == Some(message["content"])
  {
  }

  /** A reply dict without "choices" reads as "" (the defaults chain through), not as an error. */
  lemma GroqContentWithoutChoices(fields: map<string, JsonValue>)
    requires "choices" !in fields
    ensures GroqContent(JObject(fields)) == Some(JStr(""))
  {
  }

  /** A first choice without `message`, or a message without `content`, reads
      as "" through the defaults (so the handler answers 502), not an exception. */
  lemma GroqContentDefaultsToEmpty(body: map<string, JsonValue>, choice: map<string, JsonValue>, more: seq<JsonValue>)
    requires "choices" in body && body["choices"] == JList([JObject(choice)] + more)
    requires "message" !in choice || (choice["message"].JObject? && "content" !in choice["message"].fields)
    ensures GroqContent(JObject(body)) == Some(JStr(""))
  {
  }

  /** The reply shapes on which the expression raises (so the handler answers
      500): a non-dict reply, a `choices` value that is not a list or is an
      empty list, a first choice that is not a dict, or a `message` that is
      not a dict. */
  lemma GroqContentRaises(body: JsonValue)
    requires
      || !body.JObject?
      || ("choices" in body.fields &&
          var choices := body.fields["choices"];
          || !choices.JList?
          || |choices.items| == 0
          || !choices.items[0].JObject?
          || ("message" in choices.items[0].fields && !choices.items[0].fields["message"].JObject?))
    ensures GroqContent(body) == None
  {
  }

  const InvalidInputMessage := "Invalid input"
  const MissingHfTokenMessage := "Missing HF_API_TOKEN. Set it in backend/.env"
  const MissingGroqKeyMessage := "Missing GROQ_API_KEY. Set it in backend/.env"
  const EmptyGroqMessage := "Empty response from Groq"
  const AllFailedMessage := "All models failed"
  const AllFailedHint := "Set HF_MODEL_ID or switch PROVIDER=groq in backend/.env"

  function GroqFailedMessage(detail: string): string {
    "Groq request failed: " + detail
  }

  /** JSON bodies of the endpoint's responses. */
  datatype Body =
    | Email(generatedEmail: JsonValue, modelUsed: string, provider: string)
    | Error(error: string)
    | AllFailed(error: string, details: seq<JsonValue>, triedModels: seq<string>, hint: string)
      /** An exception escaped the handler; the web framework answers 500 with its own page. */
    | Unhandled

  datatype Response = Response(status: int, body: Body)

  /** An outbound provider call, with the prompt it carried. */
  datatype Call = HfCall(model: string, prompt: string) | GroqCall(model: string, prompt: string)

  /** A response together with the provider calls made to produce it, in order. */
  datatype Exchange = Exchange(response: Response, calls: seq<Call>)

  function HfCalls(models: seq<string>, prompt: string): (calls: seq<Call>)
    ensures |calls| == |models|
    ensures forall k | 0 <= k < |calls| :: calls[k] == HfCall(models[k], prompt)
  {
    seq(|models|, k requires 0 <= k < |models| => HfCall(models[k], prompt))
  }

  /** The request got past validation and the token check, so a provider may be called. */
  predicate Accepted(cfg: Config, data: Option<JsonValue>) {
    && data.Some?
    && Truthy(data.value)
    && ReadFields(data.value).Some?
    && HasCredential(cfg.hfToken)
  }

  /** The candidate models of the Hugging Face path. */
  function HfCandidates(cfg: Config): seq<string> {
    Candidates(cfg.hfModelId, cfg.fallbackModels)
  }

  /** The Groq path: one call, no fallback. */
  function GroqFlow(cfg: Config, prompt: string, groq: GroqOutcome): (x: Exchange)
    ensures x.calls == [] <==> !HasCredential(cfg.groqKey)
    ensures x.calls != [] ==> x.calls == [GroqCall(cfg.groqModelId, prompt)]
    ensures x.response.status == 200 <==> x.response.body.Email?
    ensures x.response.body.Email? ==>
      && x.response.body == Email(x.response.body.generatedEmail, cfg.groqModelId, "groq")
      && Truthy(x.response.body.generatedEmail)
      && groq.GroqReply?
      && GroqContent(groq.body) == Some(x.response.body.generatedEmail)
  {
    if !HasCredential(cfg.groqKey) then
      Exchange(Response(500, Error(MissingGroqKeyMessage)), [])
    else
      var calls := [GroqCall(cfg.groqModelId, prompt)];
      match groq
      case GroqFailed(detail) => Exchange(Response(502, Error(GroqFailedMessage(detail))), calls)
      case GroqReply(body) =>
        match GroqContent(body)
        case None => Exchange(Response(500, Unhandled), calls)
        case Some(content) =>
          if !Truthy(content) then Exchange(Response(502, Error(EmptyGroqMessage)), calls)
          else Exchange(Response(200, Email(content, cfg.groqModelId, "groq")), calls)
  }

  /** The Hugging Face path: the fallback search over the candidates. */
  function HfFlow(cfg: Config, prompt: string, hf: HfOracle): (x: Exchange)
    ensures x.response.status in {200, 502}
    ensures x.response.status == 200 <==> x.response.body.Email?
    // Success: the first candidate that produced text, everything before it
    // failed, and nothing after it was called.
    ensures x.response.body.Email? ==>
      var cands := HfCandidates(cfg);
      var n := |x.calls|;
      && 0 < n <= |cands|
      && x.calls == HfCalls(cands[..n], prompt)
      && x.response.body == Email(x.response.body.generatedEmail, cands[n - 1], "hf")
      && AttemptAt(cands, hf, n - 1) == Generated(x.response.body.generatedEmail)
      && FailedBetween(cands, hf, 0, n - 1)
    // Failure: every candidate called once, one error each, in order.
    ensures x.response.status == 502 ==>
      var cands := HfCandidates(cfg);
      && FailedBetween(cands, hf, 0, |cands|)
      && x.calls == HfCalls(cands, prompt)
      && x.response.body.AllFailed?
      && x.response.body.error == AllFailedMessage
      && x.response.body.triedModels == cands
      && x.response.body.hint == AllFailedHint
      && |x.response.body.details| == |cands|
      && forall k | 0 <= k < |cands| :: x.response.body.details[k] == AttemptAt(cands, hf, k).error
  {
    var cands := HfCandidates(cfg);
    match Search(cands, hf)
    case Found(text, model, attempts) =>
      Exchange(Response(200, Email(text, model, "hf")), HfCalls(cands[..attempts], prompt))
    case Exhausted(details) =>
      Exchange(Response(502, AllFailed(AllFailedMessage, details, cands, AllFailedHint)), HfCalls(cands, prompt))
  }

  /** `generate_email`: the whole request. `data` is the parsed JSON body,
      `None` when it is missing or not JSON. */
  function GenerateEmail(cfg: Config, data: Option<JsonValue>, hf: HfOracle, groq: GroqOutcome): (x: Exchange)
    ensures x.response.status in {200, 400, 500, 502}
    ensures x.response.status == 200 <==> x.response.body.Email?
    ensures x.response.body.Email? ==> Truthy(x.response.body.generatedEmail)
    // No provider is called before the body and the token have been checked.
    ensures x.calls != [] ==> Accepted(cfg, data)
    // Only the configured provider is called.
    ensures forall k | 0 <= k < |x.calls| :: x.calls[k].GroqCall? <==> UsesGroq(cfg)
  {
    if data.None? || !Truthy(data.value) then
      Exchange(Response(400, Error(InvalidInputMessage)), [])
    else
      match ReadFields(data.value)
      case None => Exchange(Response(500, Unhandled), [])
      case Some(f) =>
        if !HasCredential(cfg.hfToken) then
          Exchange(Response(500, Error(MissingHfTokenMessage)), [])
        else
          var prompt := EmailPrompt(f);
          if UsesGroq(cfg) then GroqFlow(cfg, prompt, groq) else HfFlow(cfg, prompt, hf)
  }

  /** A missing or falsy body is rejected with 400 before anything else, on both paths. */
  lemma InvalidInputRejected(cfg: Config, data: Option<JsonValue>, hf: HfOracle, groq: GroqOutcome)
    requires data.None? || !Truthy(data.value)
    ensures GenerateEmail(cfg, data, hf, groq) == Exchange(Response(400, Error(InvalidInputMessage)), [])
  {
  }

  /** A truthy body that is not a dict, or a field that is not a string, makes
      the handler raise: the framework answers 500 and no provider is called. */
  lemma UnreadableBodyRaises(cfg: Config, data: JsonValue, hf: HfOracle, groq: GroqOutcome)
    requires Truthy(data)
    requires !data.JObject? || !AllReadable(data.fields)
    ensures GenerateEmail(cfg, Some(data), hf, groq) == Exchange(Response(500, Unhandled), [])
  {
  }

  /** A missing `HF_API_TOKEN` gives 500 with no call, whichever provider is selected. */
  lemma MissingHfTokenRejected(cfg: Config, data: JsonValue, hf: HfOracle, groq: GroqOutcome)
    requires Truthy(data) && ReadFields(data).Some?
    requires !HasCredential(cfg.hfToken)
    ensures GenerateEmail(cfg, Some(data), hf, groq) == Exchange(Response(500, Error(MissingHfTokenMessage)), [])
  {
  }

  /** On the Groq path a missing `GROQ_API_KEY` gives 500 with no call. */
  lemma MissingGroqKeyRejected(cfg: Config, data: JsonValue, hf: HfOracle, groq: GroqOutcome)
    requires Accepted(cfg, Some(data)) && UsesGroq(cfg)
    requires !HasCredential(cfg.groqKey)
    ensures GenerateEmail(cfg, Some(data), hf, groq) == Exchange(Response(500, Error(MissingGroqKeyMessage)), [])
  {
  }

  /** The Groq path with a key: exactly one call with the email prompt; 200
      with the Groq model id exactly when the content is truthy, 502 when the
      call fails or the content is empty. */
  lemma GroqPathOutcome(cfg: Config, data: JsonValue, hf: HfOracle, groq: GroqOutcome)
    requires Accepted(cfg, Some(data)) && UsesGroq(cfg) && HasCredential(cfg.groqKey)
    ensures var x := GenerateEmail(cfg, Some(data), hf, groq);
      && x.calls == [GroqCall(cfg.groqModelId, EmailPrompt(ReadFields(data).value))]
      && (groq.GroqFailed? ==> x.response == Response(502, Error(GroqFailedMessage(groq.detail))))
      && (groq.GroqReply? && GroqContent(groq.body).Some? && !Truthy(GroqContent(groq.body).value) ==>
            x.response == Response(502, Error(EmptyGroqMessage)))
      && (groq.GroqReply? && GroqContent(groq.body).Some? && Truthy(GroqContent(groq.body).value) ==>
            x.response == Response(200, Email(GroqContent(groq.body).value, cfg.groqModelId, "groq")))
      && (groq.GroqReply? && GroqContent(groq.body).None? ==> x.response == Response(500, Unhandled))
  {
  }

  /** The Hugging Face path answers 200 exactly when some candidate produced
      text, and then with the first such candidate. */
  lemma HfAnswersWithFirstSuccess(cfg: Config, data: JsonValue, hf: HfOracle, groq: GroqOutcome, k: nat)
    requires Accepted(cfg, Some(data)) && !UsesGroq(cfg)
    requires k < |HfCandidates(cfg)|
    requires AttemptAt(HfCandidates(cfg), hf, k).Generated?
    requires FailedBetween(HfCandidates(cfg), hf, 0, k)
    ensures var x := GenerateEmail(cfg, Some(data), hf, groq);
      && x.response == Response(200, Email(AttemptAt(HfCandidates(cfg), hf, k).text, HfCandidates(cfg)[k], "hf"))
      && |x.calls| == k + 1
  {
  }

  /** When every candidate fails the answer is 502, every candidate was
      called once in order, `tried_models` is the candidate list and
      `details` holds one error per candidate, in attempt order. */
  lemma HfAllCandidatesFail(cfg: Config, data: JsonValue, hf: HfOracle, groq: GroqOutcome)
    requires Accepted(cfg, Some(data)) && !UsesGroq(cfg)
    requires FailedBetween(HfCandidates(cfg), hf, 0, |HfCandidates(cfg)|)
    ensures var x := GenerateEmail(cfg, Some(data), hf, groq);
      var cands := HfCandidates(cfg);
      && x.response.status == 502
      && x.calls == HfCalls(cands, EmailPrompt(ReadFields(data).value))
      && x.response.body == AllFailed(AllFailedMessage, x.response.body.details, cands, AllFailedHint)
      && |x.response.body.details| == |cands|
      && forall k | 0 <= k < |cands| :: x.response.body.details[k] == AttemptAt(cands, hf, k).error
  {
  }

  /** A transport failure on the primary followed by text from the second
      candidate answers with the second candidate. */
  lemma TransportFailureThenText(cfg: Config, data: JsonValue, hf: HfOracle, groq: GroqOutcome, t: string)
    requires Accepted(cfg, Some(data)) && !UsesGroq(cfg)
    requires |HfCandidates(cfg)| >= 2
    requires hf(0, HfCandidates(cfg)[0]).RequestFailed?
    requires hf(1, HfCandidates(cfg)[1]) == Reply(JObject(map[GeneratedKey := JStr(t)]))
    requires t != ""
    ensures GenerateEmail(cfg, Some(data), hf, groq).response == Response(200, Email(JStr(t), HfCandidates(cfg)[1], "hf"))
    ensures |GenerateEmail(cfg, Some(data), hf, groq).calls| == 2
  {
    HfAnswersWithFirstSuccess(cfg, data, hf, groq, 1);
  }

  /** A primary model answering `[{"generated_text": t}]` is used at once:
      one call, status 200, provider "hf". */
  lemma PrimaryAnswers(cfg: Config, data: JsonValue, hf: HfOracle, groq: GroqOutcome, t: string)
    requires Accepted(cfg, Some(data)) && !UsesGroq(cfg)
    requires hf(0, cfg.hfModelId) == Reply(JList([JObject(map[GeneratedKey := JStr(t)])]))
    requires t != ""
    ensures GenerateEmail(cfg, Some(data), hf, groq)
      == Exchange(Response(200, Email(JStr(t), cfg.hfModelId, "hf")), [HfCall(cfg.hfModelId, EmailPrompt(ReadFields(data).value))])
  {
  }

  /** With an empty environment the provider is "hf" and the candidates are
      the four default models, the primary appearing once. */
  lemma DefaultCandidates()
    ensures !UsesGroq(LoadConfig(map[]))
    ensures HfCandidates(LoadConfig(map[])) == DefaultFallbackList
  {
  }
}
