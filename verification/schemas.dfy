/**
 * The request schemas: the tone object, the translate request (in its shared form and in the
 * server's form with defaults), the grammar-check request and the benchmark request.
 *
 * Each schema is given twice: as a decoder (`Parse...`), and as a relation `...Describes(f, q)`
 * saying when the fields `f` of a body denote the request `q`. A decoder returns `Some(q)`
 * exactly for a `q` the body describes, and `None` exactly when it describes none. Keys that a
 * relation does not mention are ignored, as zod strips unknown keys.
 */
module Schemas {
  import opened Wrappers
  import opened Json
  import opened Constants

  // ---------------------------------------------------------------------------------------------
  // Tone

  /** `j` is an object whose three axis keys name the axes of `t`. */
  predicate ToneIn(j: Json, t: ToneSettings) {
    && j.JObj?
    && "translationStyle" in j.fields && j.fields["translationStyle"] == JStr(StyleName(t.translationStyle))
    && "formality" in j.fields && j.fields["formality"] == JStr(FormalityName(t.formality))
    && "domain" in j.fields && j.fields["domain"] == JStr(DomainName(t.domain))
  }

  function EnumField<T>(f: map<string, Json>, key: string, parse: string -> Option<T>): Option<T> {
    if key in f && f[key].JStr? then parse(f[key].s) else None
  }

  /** `toneSettingsSchema`: each axis must hold one of that axis's two options. */
  function ParseTone(j: Json): (r: Option<ToneSettings>)
    ensures r.Some? ==> ToneIn(j, r.value)
    ensures r.None? ==> forall t :: !ToneIn(j, t)
  {
    if !j.JObj? then None
    else
      var s := EnumField(j.fields, "translationStyle", ParseStyle);
      var f := EnumField(j.fields, "formality", ParseFormality);
      var d := EnumField(j.fields, "domain", ParseDomain);
      if s.Some? && f.Some? && d.Some? then Some(ToneSettings(s.value, f.value, d.value))
      else
        assert forall t :: !ToneIn(j, t) by {
          forall t ensures !ToneIn(j, t) {
            ToneOptionsWellFormed();
          }
        }
        None
  }

  /** The tone as the client serialises it. */
  function ToneJson(t: ToneSettings): (j: Json)
    ensures ToneIn(j, t)
  {
    JObj(map[
      "translationStyle" := JStr(StyleName(t.translationStyle)),
      "formality" := JStr(FormalityName(t.formality)),
      "domain" := JStr(DomainName(t.domain))])
  }

  /** A JSON value denotes at most one tone. */
  lemma ToneInUnique(j: Json, t: ToneSettings, u: ToneSettings)
    requires ToneIn(j, t) && ToneIn(j, u)
    ensures t == u
  {
    ToneOptionsWellFormed();
  }

  /** Decoding a serialised tone gives it back, and unknown keys beside the axes are ignored. */
  lemma ToneRoundTrip(t: ToneSettings, extra: string, v: Json)
    requires extra !in {"translationStyle", "formality", "domain"}
    ensures ParseTone(ToneJson(t)) == Some(t)
    ensures ParseTone(JObj(ToneJson(t).fields[extra := v])) == Some(t)
  {
    var j := ToneJson(t);
    var k := JObj(j.fields[extra := v]);
    assert ToneIn(k, t);
    ToneInUnique(j, ParseTone(j).value, t);
    ToneInUnique(k, ParseTone(k).value, t);
  }

  // ---------------------------------------------------------------------------------------------
  // Field relations shared by the request schemas

  /** An `.optional()` string field: absent exactly when `v` is undefined. */
  predicate OptionalStringIn(f: map<string, Json>, key: string, v: Option<string>) {
    if key in f then v.Some? && f[key] == JStr(v.value) else v.None?
  }

  predicate OptionalBoolIn(f: map<string, Json>, key: string, v: Option<bool>) {
    if key in f then v.Some? && f[key] == JBool(v.value) else v.None?
  }

  /** A `z.string().min(1)` field holding `s`. */
  predicate TextIn(f: map<string, Json>, key: string, s: string) {
    key in f && f[key] == JStr(s) && s != ""
  }

  predicate ModelIn(j: Json, m: Model) {
    j == JStr(ModelName(m))
  }

  /** `z.enum(MODELS)` on one value. */
  function ParseModelJson(j: Json): (r: Option<Model>)
    ensures r.Some? ==> ModelIn(j, r.value)
    ensures r.None? ==> forall m :: !ModelIn(j, m)
  {
    if j.JStr? then ParseModel(j.s) else None
  }

  /** `z.enum(MODELS).default(d)` on a key. */
  predicate ModelOrDefaultIn(f: map<string, Json>, key: string, d: Model, m: Model) {
    if key in f then ModelIn(f[key], m) else m == d
  }

  function ParseModelOr(f: map<string, Json>, key: string, d: Model): (r: Option<Model>)
    ensures r.Some? ==> ModelOrDefaultIn(f, key, d, r.value)
    ensures r.None? ==> forall m :: !ModelOrDefaultIn(f, key, d, m)
  {
    if key in f then ParseModelJson(f[key]) else Some(d)
  }

  /** `toneSettingsSchema.default(d)` on a key. */
  predicate ToneOrDefaultIn(f: map<string, Json>, key: string, d: ToneSettings, t: ToneSettings) {
    if key in f then ToneIn(f[key], t) else t == d
  }

  function ParseToneOr(f: map<string, Json>, key: string, d: ToneSettings): (r: Option<ToneSettings>)
    ensures r.Some? ==> ToneOrDefaultIn(f, key, d, r.value)
    ensures r.None? ==> forall t :: !ToneOrDefaultIn(f, key, d, t)
  {
    if key in f then ParseTone(f[key]) else Some(d)
  }

  // ---------------------------------------------------------------------------------------------
  // Translate request

  datatype TranslateRequest = TranslateRequest(
    sessionId: Option<string>,
    text: string,
    isKorean: bool,
    model: Model,
    tone: ToneSettings,
    concise: Option<bool>,
    parentMessageId: Option<string>)

  /** The fields common to both translate schemas. */
  predicate TranslateCommonIn(f: map<string, Json>, q: TranslateRequest) {
    && OptionalStringIn(f, "sessionId", q.sessionId)
    && TextIn(f, "text", q.text)
    && "isKorean" in f && f["isKorean"] == JBool(q.isKorean)
    && OptionalBoolIn(f, "concise", q.concise)
    && OptionalStringIn(f, "parentMessageId", q.parentMessageId)
  }

  /** The server's `translateSchema`: `model` and `tone` fall back to the defaults. */
  predicate ServerTranslateDescribes(f: map<string, Json>, q: TranslateRequest) {
    && TranslateCommonIn(f, q)
    && ModelOrDefaultIn(f, "model", DEFAULT_MODEL, q.model)
    && ToneOrDefaultIn(f, "tone", DEFAULT_TONE, q.tone)
  }

  /** The shared `translateRequestSchema`: `model` and `tone` are required. */
  predicate SharedTranslateDescribes(f: map<string, Json>, q: TranslateRequest) {
    && TranslateCommonIn(f, q)
    && "model" in f && ModelIn(f["model"], q.model)
    && "tone" in f && ToneIn(f["tone"], q.tone)
  }

  function DecodeCommon(f: map<string, Json>, model: Model, tone: ToneSettings): (r: Option<TranslateRequest>)
    ensures r.Some? ==> TranslateCommonIn(f, r.value) && r.value.model == model && r.value.tone == tone
    ensures r.None? ==> forall q :: !TranslateCommonIn(f, q)
  {
    var sessionId := OptionalString(f, "sessionId");
    var text := NonEmptyString(f, "text");
    var isKorean := RequiredBool(f, "isKorean");
    var concise := OptionalBool(f, "concise");
    var parent := OptionalString(f, "parentMessageId");
    if sessionId.Some? && text.Some? && isKorean.Some? && concise.Some? && parent.Some? then
      Some(TranslateRequest(sessionId.value, text.value, isKorean.value, model, tone, concise.value, parent.value))
    else None
  }

  /** `translateSchema.safeParse(req.body)` in the translate handler. */
  function ParseTranslateBody(body: Json): (r: Option<TranslateRequest>)
    ensures r.Some? ==> body.JObj? && ServerTranslateDescribes(body.fields, r.value)
    ensures r.None? ==> !body.JObj? || forall q :: !ServerTranslateDescribes(body.fields, q)
  {
    if !body.JObj? then None
    else
      var model := ParseModelOr(body.fields, "model", DEFAULT_MODEL);
      var tone := ParseToneOr(body.fields, "tone", DEFAULT_TONE);
      if model.None? || tone.None? then None
      else DecodeCommon(body.fields, model.value, tone.value)
  }

  /** `translateRequestSchema.safeParse(body)`. */
  function ParseSharedTranslateRequest(body: Json): (r: Option<TranslateRequest>)
    ensures r.Some? ==> body.JObj? && SharedTranslateDescribes(body.fields, r.value)
    ensures r.None? ==> !body.JObj? || forall q :: !SharedTranslateDescribes(body.fields, q)
  {
    if !body.JObj? || "model" !in body.fields || "tone" !in body.fields then None
    else
      var model := ParseModelJson(body.fields["model"]);
      var tone := ParseTone(body.fields["tone"]);
      if model.None? || tone.None? then None
      else DecodeCommon(body.fields, model.value, tone.value)
  }

  /** A body describes at most one request under the server schema. */
  lemma ServerTranslateUnique(f: map<string, Json>, q: TranslateRequest, p: TranslateRequest)
    requires ServerTranslateDescribes(f, q) && ServerTranslateDescribes(f, p)
    ensures q == p
  {
    ModelsEnumerated();
    if "tone" in f {
      ToneInUnique(f["tone"], q.tone, p.tone);
    }
  }

  /**
   * Every body the shared schema accepts, the server schema accepts with the same value; the
   * converse fails: a body without `model` is accepted only by the server, which fills in the
   * default.
   */
  lemma SharedImpliesServer(body: Json, text: string, isKorean: bool)
    requires text != ""
    ensures ParseSharedTranslateRequest(body).Some? ==>
      ParseTranslateBody(body) == ParseSharedTranslateRequest(body)
    ensures var b := JObj(map["text" := JStr(text), "isKorean" := JBool(isKorean)]);
      && ParseSharedTranslateRequest(b).None?
      && ParseTranslateBody(b) == Some(TranslateRequest(None, text, isKorean, DEFAULT_MODEL, DEFAULT_TONE, None, None))
  {
    var r := ParseSharedTranslateRequest(body);
    if r.Some? {
      var q := r.value;
      assert ServerTranslateDescribes(body.fields, q);
      ServerTranslateUnique(body.fields, q, ParseTranslateBody(body).value);
    }
    var b := JObj(map["text" := JStr(text), "isKorean" := JBool(isKorean)]);
    var d := TranslateRequest(None, text, isKorean, DEFAULT_MODEL, DEFAULT_TONE, None, None);
    assert ServerTranslateDescribes(b.fields, d);
    ServerTranslateUnique(b.fields, d, ParseTranslateBody(b).value);
  }

  /** The request body a client that sends every field would serialise. */
  function TranslateRequestJson(q: TranslateRequest): (j: Json)
    ensures j.JObj?
  {
    var f := map["text" := JStr(q.text), "isKorean" := JBool(q.isKorean),
                 "model" := JStr(ModelName(q.model)), "tone" := ToneJson(q.tone)];
    var f := WithOptional(f, "sessionId", if q.sessionId.Some? then Some(JStr(q.sessionId.value)) else None);
    var f := WithOptional(f, "concise", if q.concise.Some? then Some(JBool(q.concise.value)) else None);
    var f := WithOptional(f, "parentMessageId", if q.parentMessageId.Some? then Some(JStr(q.parentMessageId.value)) else None);
    JObj(f)
  }

  /** Both translate schemas decode a serialised request with non-empty text back to itself. */
  lemma TranslateRequestRoundTrip(q: TranslateRequest)
    requires q.text != ""
    ensures ParseSharedTranslateRequest(TranslateRequestJson(q)) == Some(q)
    ensures ParseTranslateBody(TranslateRequestJson(q)) == Some(q)
  {
    var f := TranslateRequestJson(q).fields;
    assert SharedTranslateDescribes(f, q);
    assert ServerTranslateDescribes(f, q);
    ServerTranslateUnique(f, q, ParseTranslateBody(TranslateRequestJson(q)).value);
    ServerTranslateUnique(f, q, ParseSharedTranslateRequest(TranslateRequestJson(q)).value);
  }

  // ---------------------------------------------------------------------------------------------
  // Grammar-check request

  datatype GrammarRequest = GrammarRequest(text: string, model: Model)

  predicate GrammarDescribes(f: map<string, Json>, q: GrammarRequest) {
    TextIn(f, "text", q.text) && ModelOrDefaultIn(f, "model", DEFAULT_MODEL, q.model)
  }

  /** `grammarCheckRequestSchema.safeParse(req.body)`. */
  function ParseGrammarRequest(body: Json): (r: Option<GrammarRequest>)
    ensures r.Some? ==> body.JObj? && GrammarDescribes(body.fields, r.value)
    ensures r.None? ==> !body.JObj? || forall q :: !GrammarDescribes(body.fields, q)
  {
    if !body.JObj? then None
    else
      var text := NonEmptyString(body.fields, "text");
      var model := ParseModelOr(body.fields, "model", DEFAULT_MODEL);
      if text.Some? && model.Some? then Some(GrammarRequest(text.value, model.value)) else None
  }

  /**
   * Empty text is rejected, a missing model becomes the default, an unknown model is rejected,
   * and a valid text comes through unchanged.
   */
  lemma GrammarRequestCases(text: string, name: string)
    ensures ParseGrammarRequest(JObj(map["text" := JStr("")])).None?
    ensures text != "" ==> ParseGrammarRequest(JObj(map["text" := JStr(text)])) == Some(GrammarRequest(text, DEFAULT_MODEL))
    ensures text != "" ==>
      ParseGrammarRequest(JObj(map["text" := JStr(text), "model" := JStr(name)])) ==
      (if ParseModel(name).Some? then Some(GrammarRequest(text, ParseModel(name).value)) else None)
  {
    ModelsEnumerated();
  }

  // ---------------------------------------------------------------------------------------------
  // Benchmark request

  datatype BenchmarkRequest = BenchmarkRequest(text: string, isKorean: bool, models: seq<Model>, tone: ToneSettings)

  /** `items` is the array of identifiers of `ms`, element by element. */
  predicate ModelsIn(items: seq<Json>, ms: seq<Model>) {
    |items| == |ms| && forall i :: 0 <= i < |items| ==> ModelIn(items[i], ms[i])
  }

  /** `z.array(z.enum(MODELS))` on the elements of an array. */
  function ParseModelList(items: seq<Json>): (r: Option<seq<Model>>)
    ensures r.Some? ==> ModelsIn(items, r.value)
    ensures r.None? ==> forall ms :: !ModelsIn(items, ms)
  {
    if |items| == 0 then Some([])
    else
      var head := ParseModelJson(items[0]);
      var tail := ParseModelList(items[1..]);
      if head.Some? && tail.Some? then
        Some([head.value] + tail.value)
      else
        ModelsInSplits(items);
        None
  }

  /** A list matching a non-empty array matches its first element, and its rest the rest. */
  lemma ModelsInSplits(items: seq<Json>)
    requires |items| > 0
    ensures forall ms :: ModelsIn(items, ms) ==> |ms| > 0 && ModelIn(items[0], ms[0]) && ModelsIn(items[1..], ms[1..])
  {
    forall ms | ModelsIn(items, ms) ensures |ms| > 0 && ModelIn(items[0], ms[0]) && ModelsIn(items[1..], ms[1..]) {
      assert ModelIn(items[0], ms[0]);
      forall i | 0 <= i < |items| - 1 ensures ModelIn(items[1..][i], ms[1..][i]) {
        assert ModelIn(items[i + 1], ms[i + 1]);
      }
    }
  }

  predicate BenchmarkDescribes(f: map<string, Json>, q: BenchmarkRequest) {
    && TextIn(f, "text", q.text)
    && "isKorean" in f && f["isKorean"] == JBool(q.isKorean)
    && "models" in f && f["models"].JArr? && ModelsIn(f["models"].items, q.models) && |q.models| >= 1
    && "tone" in f && ToneIn(f["tone"], q.tone)
  }

  /** `benchmarkSchema.safeParse(req.body)`. */
  function ParseBenchmarkRequest(body: Json): (r: Option<BenchmarkRequest>)
    ensures r.Some? ==> body.JObj? && BenchmarkDescribes(body.fields, r.value)
    ensures r.None? ==> !body.JObj? || forall q :: !BenchmarkDescribes(body.fields, q)
  {
    if !body.JObj? then None
    else
      var f := body.fields;
      var text := NonEmptyString(f, "text");
      var isKorean := RequiredBool(f, "isKorean");
      var models := if "models" in f && f["models"].JArr? then ParseModelList(f["models"].items) else None;
      var tone := if "tone" in f then ParseTone(f["tone"]) else None;
      if text.Some? && isKorean.Some? && models.Some? && |models.value| >= 1 && tone.Some? then
        Some(BenchmarkRequest(text.value, isKorean.value, models.value, tone.value))
      else None
  }

  /** An empty model list is rejected whatever the other fields hold. */
  lemma BenchmarkNeedsAModel(text: string, isKorean: bool, tone: ToneSettings)
    ensures ParseBenchmarkRequest(JObj(map[
      "text" := JStr(text), "isKorean" := JBool(isKorean), "models" := JArr([]), "tone" := ToneJson(tone)])).None?
  {
  }
}
