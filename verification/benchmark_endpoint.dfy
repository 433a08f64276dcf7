/**
 * The benchmark endpoint: one translation per requested model, each timed, each failure turned
 * into an entry of its own, and the entries returned in the order of the models.
 *
 * The measured durations are supplied by the environment, one per call in request order.
 */
module BenchmarkEndpoint {
  import opened Wrappers
  import opened Constants
  import opened Schemas
  import opened TranslatePrompt
  import opened Llm
  import opened AllowList
  import opened Http

  /** `BenchmarkResult`; `error` is `None` when the property is absent. */
  datatype BenchmarkResult = BenchmarkResult(model: Model, translation: string, durationMs: int, error: Option<string>)

  const TRANSLATION_FAILED: string := "Translation failed"
  const UNKNOWN_ERROR: string := "Unknown error"

  /** The options of a benchmark call: no context, no user instruction, no concise mode. */
  function BenchmarkOptions(apiKey: string, text: string, isKorean: bool, model: Model, tone: ToneSettings): (o: TranslateOptions)
    ensures o.model == model && o.text == text && o.isKorean == isKorean && o.tone == tone && o.apiKey == apiKey
    ensures o.context == [] && o.userInstruction.None? && o.concise.None? && o.previousTranslation.None?
  {
    TranslateOptions(apiKey, text, isKorean, model, tone, [], None, None, None)
  }

  /**
   * `translateWithTiming`: it never rejects. A translation becomes an entry without an error;
   * a thrown failure becomes an entry with an empty translation and the error's message.
   */
  function TranslateWithTiming(a: Adapters, apiKey: string, text: string, isKorean: bool, model: Model,
                               tone: ToneSettings, durationMs: int): (r: BenchmarkResult)
    ensures r.model == model && r.durationMs == durationMs
    ensures var t := Translate(a, BenchmarkOptions(apiKey, text, isKorean, model, tone));
      && (t.Returned? ==> r.translation == t.value && r.error.None?)
      && (t.Threw? ==> r.translation == "" && r.error == Some(MessageOr(t.reason, TRANSLATION_FAILED)))
  {
    match Translate(a, BenchmarkOptions(apiKey, text, isKorean, model, tone))
    case Returned(translation) => BenchmarkResult(model, translation, durationMs, None)
    case Threw(e) => BenchmarkResult(model, "", durationMs, Some(MessageOr(e, TRANSLATION_FAILED)))
  }

  /**
   * The `results.map` over `Promise.allSettled`: a fulfilled entry is its value; a rejected one
   * becomes an entry for the model at that position with no translation, zero duration and the
   * rejection's message.
   */
  function SettledResults(models: seq<Model>, settled: seq<Attempt<BenchmarkResult>>): (r: seq<BenchmarkResult>)
    requires |settled| == |models|
    ensures |r| == |models|
    ensures forall i :: 0 <= i < |r| && settled[i].Returned? ==> r[i] == settled[i].value
    ensures forall i :: 0 <= i < |r| && settled[i].Threw? ==>
      r[i] == BenchmarkResult(models[i], "", 0, Some(MessageOr(settled[i].reason, UNKNOWN_ERROR)))
  {
    seq(|models|, i requires 0 <= i < |models| =>
      match settled[i]
      case Returned(v) => v
      case Threw(e) => BenchmarkResult(models[i], "", 0, Some(MessageOr(e, UNKNOWN_ERROR))))
  }

  /** The settled outcomes of the calls: each call settles with its entry, since none rejects. */
  function Settle(a: Adapters, apiKeyOf: Model -> string, q: BenchmarkRequest, durationOf: nat -> int): (s: seq<Attempt<BenchmarkResult>>)
    ensures |s| == |q.models|
    ensures forall i :: 0 <= i < |s| ==>
      s[i] == Returned(TranslateWithTiming(a, apiKeyOf(q.models[i]), q.text, q.isKorean, q.models[i], q.tone, durationOf(i)))
  {
    seq(|q.models|, i requires 0 <= i < |q.models| =>
      Returned(TranslateWithTiming(a, apiKeyOf(q.models[i]), q.text, q.isKorean, q.models[i], q.tone, durationOf(i))))
  }

  datatype Body =
    | ErrorBody(error: string)
    | Results(results: seq<BenchmarkResult>)

  /** The response, and the options of every model call made, in request order. */
  datatype Outcome = Outcome(response: Response<Body>, calls: seq<TranslateOptions>)

  /**
   * The handler: 405 for a method other than POST, 403 for an address off the allow-list, 400 for
   * a body the schema rejects (empty text, no model, an unknown model or tone); otherwise one call
   * per requested model and one result per model, in the same order.
   */
  function HandleBenchmark(allowed: seq<string>, req: Request, apiKeyOf: Model -> string, a: Adapters,
                           durationOf: nat -> int): (o: Outcome)
    ensures req.httpMethod != "POST" ==> o == Outcome(Response(405, ErrorBody(METHOD_NOT_ALLOWED)), [])
    ensures req.httpMethod == "POST" && Decide(allowed, req.email).Denied? ==>
      o == Outcome(Response(403, ErrorBody(DENIED_MESSAGE)), [])
    ensures req.httpMethod == "POST" && Decide(allowed, req.email).Next? && ParseBenchmarkRequest(req.body).None? ==>
      o == Outcome(Response(400, ErrorBody(INVALID_REQUEST)), [])
    ensures o.response.status == 200 <==>
      req.httpMethod == "POST" && Decide(allowed, req.email).Next? && ParseBenchmarkRequest(req.body).Some?
    ensures o.response.status == 200 ==>
      var q := ParseBenchmarkRequest(req.body).value;
      && o.response.body.Results?
      && |o.response.body.results| == |q.models| == |o.calls|
      && forall i :: 0 <= i < |q.models| ==>
           && o.calls[i] == BenchmarkOptions(apiKeyOf(q.models[i]), q.text, q.isKorean, q.models[i], q.tone)
           && o.response.body.results[i]
                == TranslateWithTiming(a, apiKeyOf(q.models[i]), q.text, q.isKorean, q.models[i], q.tone, durationOf(i))
  {
    if req.httpMethod != "POST" then Outcome(Response(405, ErrorBody(METHOD_NOT_ALLOWED)), [])
    else match Decide(allowed, req.email)
      case Denied(status, error) => Outcome(Response(status, ErrorBody(error)), [])
      case Next =>
        match ParseBenchmarkRequest(req.body)
        case None => Outcome(Response(400, ErrorBody(INVALID_REQUEST)), [])
        case Some(q) =>
          var calls := seq(|q.models|, i requires 0 <= i < |q.models| =>
            BenchmarkOptions(apiKeyOf(q.models[i]), q.text, q.isKorean, q.models[i], q.tone));
          Outcome(Response(200, Results(SettledResults(q.models, Settle(a, apiKeyOf, q, durationOf)))), calls)
  }

  /** Every result names the model at its position, and a result carries an error exactly when its call threw. */
  lemma ResultsFollowModels(allowed: seq<string>, req: Request, apiKeyOf: Model -> string, a: Adapters,
                            durationOf: nat -> int, i: nat)
    requires HandleBenchmark(allowed, req, apiKeyOf, a, durationOf).response.status == 200
    requires i < |ParseBenchmarkRequest(req.body).value.models|
    ensures var q := ParseBenchmarkRequest(req.body).value;
      var r := HandleBenchmark(allowed, req, apiKeyOf, a, durationOf).response.body.results[i];
      && r.model == q.models[i]
      && r.durationMs == durationOf(i)
      && (r.error.Some? <==> Translate(a, BenchmarkOptions(apiKeyOf(q.models[i]), q.text, q.isKorean, q.models[i], q.tone)).Threw?)
  {
  }

  /** With every call settled as fulfilled, the mapping passes the entries through unchanged. */
  lemma FulfilledPassThrough(models: seq<Model>, settled: seq<Attempt<BenchmarkResult>>)
    requires |settled| == |models|
    requires forall i :: 0 <= i < |settled| ==> settled[i].Returned?
    ensures SettledResults(models, settled) == seq(|settled|, i requires 0 <= i < |settled| => settled[i].value)
  {
  }
}
