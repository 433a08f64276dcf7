/**
 * The translation store of the web client: the open session, the selected model and the tone
 * settings, with their setters. A setter replaces the properties it names and keeps the others.
 */
module TranslationStore {
  import opened Wrappers
  import opened Constants

  datatype TranslationState = TranslationState(currentSessionId: Option<string>, model: Model, tone: ToneSettings)

  /** No open session, the default model and the default tone. */
  const INITIAL_TRANSLATION: TranslationState := TranslationState(None, DEFAULT_MODEL, DEFAULT_TONE)

  /** `setCurrentSessionId`: only the open session changes. */
  function SetCurrentSessionId(st: TranslationState, sessionId: Option<string>): (st': TranslationState)
    ensures st'.currentSessionId == sessionId && st'.model == st.model && st'.tone == st.tone
  {
    st.(currentSessionId := sessionId)
  }

  /** `setModel`: only the model changes. */
  function SetModel(st: TranslationState, model: Model): (st': TranslationState)
    ensures st'.model == model && st'.currentSessionId == st.currentSessionId && st'.tone == st.tone
  {
    st.(model := model)
  }

  /** `setTone`: the whole tone is replaced. */
  function SetTone(st: TranslationState, tone: ToneSettings): (st': TranslationState)
    ensures st'.tone == tone && st'.currentSessionId == st.currentSessionId && st'.model == st.model
  {
    st.(tone := tone)
  }

  /** `Partial<ToneSettings>`: each axis is given or left out. */
  datatype TonePatch = TonePatch(translationStyle: Option<TranslationStyle>, formality: Option<Formality>, domain: Option<Domain>)

  const EMPTY_PATCH: TonePatch := TonePatch(None, None, None)

  /** `{ ...tone, ...partial }`: every given axis overrides, every other axis is kept. */
  function ApplyPatch(t: ToneSettings, p: TonePatch): (r: ToneSettings)
    ensures p.translationStyle.Some? ==> r.translationStyle == p.translationStyle.value
    ensures p.translationStyle.None? ==> r.translationStyle == t.translationStyle
    ensures p.formality.Some? ==> r.formality == p.formality.value
    ensures p.formality.None? ==> r.formality == t.formality
    ensures p.domain.Some? ==> r.domain == p.domain.value
    ensures p.domain.None? ==> r.domain == t.domain
  {
    ToneSettings(p.translationStyle.GetOr(t.translationStyle), p.formality.GetOr(t.formality), p.domain.GetOr(t.domain))
  }

  /** `updateTone`: the patch is applied to the tone; the session and the model are kept. */
  function UpdateTone(st: TranslationState, p: TonePatch): (st': TranslationState)
    ensures st'.tone == ApplyPatch(st.tone, p)
    ensures st'.currentSessionId == st.currentSessionId && st'.model == st.model
  {
    st.(tone := ApplyPatch(st.tone, p))
  }

  /** The patch that gives every axis of `t`. */
  function FullPatch(t: ToneSettings): TonePatch {
    TonePatch(Some(t.translationStyle), Some(t.formality), Some(t.domain))
  }

  /** Two patches in a row: the later one's axes win. */
  function Then(p: TonePatch, q: TonePatch): TonePatch {
    TonePatch(if q.translationStyle.Some? then q.translationStyle else p.translationStyle,
              if q.formality.Some? then q.formality else p.formality,
              if q.domain.Some? then q.domain else p.domain)
  }

  /** An empty patch changes nothing, and a patch giving every axis is `setTone`. */
  lemma UpdateToneExtremes(st: TranslationState, t: ToneSettings)
    ensures UpdateTone(st, EMPTY_PATCH) == st
    ensures UpdateTone(st, FullPatch(t)) == SetTone(st, t)
  {
  }

  /** Two updates are one update with the merged patch; applying the same patch twice is applying it once. */
  lemma UpdateToneComposes(st: TranslationState, p: TonePatch, q: TonePatch)
    ensures UpdateTone(UpdateTone(st, p), q) == UpdateTone(st, Then(p, q))
    ensures UpdateTone(UpdateTone(st, p), p) == UpdateTone(st, p)
  {
  }
}
