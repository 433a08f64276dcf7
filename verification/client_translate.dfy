/**
 * The translate hook of the web client: the request body it sends for a translation and for a
 * more concise retranslation, and what it hands to its success callback.
 *
 * The request object is serialised as JSON, so an `undefined` property is not sent. The hook's
 * request type has no `isKorean` property, while both translate schemas require one: as written,
 * every request the hook sends is rejected. `RequestBody` is that request; `CorrectedBody` adds the
 * Korean detection of the text, as the benchmark page does, and is what the rest of the model
 * uses.
 */
module ClientTranslate {
  import opened Wrappers
  import opened Json
  import opened Constants
  import opened Schemas
  import opened SessionStore
  import opened AllowList
  import opened Http
  import opened DetectLanguage
  import opened TranslateEndpoint

  /** The hook's state: the open session, if any, and the selected model and tone. */
  datatype TranslateHook = TranslateHook(sessionId: Option<string>, model: Model, tone: ToneSettings)

  /** The hook as it starts: the default model and tone. */
  function InitialHook(sessionId: Option<string>): (h: TranslateHook)
    ensures h.sessionId == sessionId && h.model == DEFAULT_MODEL && h.tone == DEFAULT_TONE
  {
    TranslateHook(sessionId, DEFAULT_MODEL, DEFAULT_TONE)
  }

  /** `{ concise?, parentMessageId? }`, spread after the base fields. */
  datatype Overrides = Overrides(concise: Option<bool>, parentMessageId: Option<string>)

  const NO_OVERRIDES: Overrides := Overrides(None, None)

  /** `{ sessionId, text, model, tone, ...overrides }` as sent: the defined properties only. */
  function RequestBody(h: TranslateHook, text: string, o: Overrides): (j: Json)
    ensures j.JObj? && "isKorean" !in j.fields
    ensures "text" in j.fields && j.fields["text"] == JStr(text)
  {
    var f := map["text" := JStr(text), "model" := JStr(ModelName(h.model)), "tone" := ToneJson(h.tone)];
    var f := WithOptional(f, "sessionId", h.sessionId.Map(StrJson));
    var f := WithOptional(f, "concise", if o.concise.Some? then Some(JBool(o.concise.value)) else None);
    var f := WithOptional(f, "parentMessageId", o.parentMessageId.Map(StrJson));
    JObj(f)
  }

  /** The body carries the model's name and the serialised tone; an optional property is sent exactly when it is defined. */
  lemma RequestBodyFields(h: TranslateHook, text: string, o: Overrides)
    ensures var f := RequestBody(h, text, o).fields;
      && "model" in f && f["model"] == JStr(ModelName(h.model))
      && "tone" in f && f["tone"] == ToneJson(h.tone)
      && OptionalStringIn(f, "sessionId", h.sessionId)
      && OptionalBoolIn(f, "concise", o.concise)
      && OptionalStringIn(f, "parentMessageId", o.parentMessageId)
  {
  }

  /** `retranslate(text, id)` is `translate(text, { concise: true, parentMessageId: id })`. */
  function RetranslateBody(h: TranslateHook, text: string, parentMessageId: string): (j: Json)
    ensures j.JObj? && "concise" in j.fields && j.fields["concise"] == JBool(true)
    ensures "parentMessageId" in j.fields && j.fields["parentMessageId"] == JStr(parentMessageId)
  {
    RequestBody(h, text, Overrides(Some(true), Some(parentMessageId)))
  }

  /** The body lacks `isKorean`, so neither translate schema accepts it. */
  lemma RequestBodyRejected(h: TranslateHook, text: string, o: Overrides)
    ensures ParseTranslateBody(RequestBody(h, text, o)).None?
    ensures ParseSharedTranslateRequest(RequestBody(h, text, o)).None?
  {
  }

  /** As written, a signed-in, allowed user's translation is answered with a 400 and changes nothing. */
  lemma TranslationAlwaysRejected(st: Store, allowed: seq<string>, email: string, env: Env,
                                  h: TranslateHook, text: string, o: Overrides)
    requires Decide(allowed, email).Next?
    ensures var req := Request("POST", email, RequestBody(h, text, o));
      Ready(st, req, env) &&
      HandleTranslate(st, allowed, req, env) == Outcome(Response(400, ErrorBody(INVALID_REQUEST)), st, None)
  {
    RequestBodyRejected(h, text, o);
  }

  /** The request the hook means to send, with the Korean detection of the text. */
  function Intended(h: TranslateHook, text: string, o: Overrides): TranslateRequest {
    TranslateRequest(h.sessionId, text, IsKorean(text), h.model, h.tone, o.concise, o.parentMessageId)
  }

  /** The corrected body: the hook's properties and `isKorean: isKorean(text)`. */
  function CorrectedBody(h: TranslateHook, text: string, o: Overrides): Json {
    JObj(RequestBody(h, text, o).fields["isKorean" := JBool(IsKorean(text))])
  }

  /** Both translate schemas read the corrected body back as the request the hook meant, whenever the text is non-empty. */
  lemma CorrectedBodyAccepted(h: TranslateHook, text: string, o: Overrides)
    requires text != ""
    ensures ParseTranslateBody(CorrectedBody(h, text, o)) == Some(Intended(h, text, o))
    ensures ParseSharedTranslateRequest(CorrectedBody(h, text, o)) == Some(Intended(h, text, o))
  {
    var q := Intended(h, text, o);
    var f := CorrectedBody(h, text, o).fields;
    RequestBodyFields(h, text, o);
    ToneRoundTrip(h.tone, "", JNull);
    assert SharedTranslateDescribes(f, q);
    assert ServerTranslateDescribes(f, q);
    ServerTranslateUnique(f, q, ParseTranslateBody(CorrectedBody(h, text, o)).value);
    ServerTranslateUnique(f, q, ParseSharedTranslateRequest(CorrectedBody(h, text, o)).value);
  }

  /** A corrected retranslation asks for concise mode under the given parent. */
  lemma CorrectedRetranslate(h: TranslateHook, text: string, parentMessageId: string)
    requires text != ""
    ensures var q := ParseTranslateBody(CorrectedBody(h, text, Overrides(Some(true), Some(parentMessageId))));
      q.Some? && q.value.concise == Some(true) && q.value.parentMessageId == Some(parentMessageId)
      && q.value.sessionId == h.sessionId && q.value.text == text
  {
    CorrectedBodyAccepted(h, text, Overrides(Some(true), Some(parentMessageId)));
  }

  /** The success callback receives the response's session id; a failed request calls nothing. */
  function OnSuccessArgument(response: Attempt<string>): (r: Option<string>)
    ensures response.Returned? ==> r == Some(response.value)
    ensures response.Threw? ==> r.None?
  {
    match response
    case Returned(sessionId) => Some(sessionId)
    case Threw(_) => None
  }
}
