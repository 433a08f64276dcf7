/**
 * The grammar page of the web client: the grammar-check hook's state, the page's gate that keeps
 * Korean text away from the check, and what the page shows.
 *
 * The hook's request is a mutation: `isChecking` and `error` are the mutation's pending flag and
 * error. A request goes out when a check starts and settles in a later step, with the response
 * or the error supplied from outside.
 */
module GrammarClient {
  import opened Wrappers
  import opened Strings
  import opened Constants
  import opened Schemas
  import opened DetectLanguage
  import opened InputBox

  /** `GrammarCheckResponse`: the corrected text, the explanation or `null`, and the duration. */
  datatype GrammarResponse = GrammarResponse(corrected: string, explanation: Option<string>, durationMs: int)

  /** The hook's state, with the mutation's pending flag and error. */
  datatype CheckState = CheckState(
    model: Model, result: Option<GrammarResponse>, sourceText: Option<string>,
    isChecking: bool, error: Option<Thrown>)

  /** The default model, no result, no source text, nothing pending. */
  const INITIAL_CHECK: CheckState := CheckState(DEFAULT_MODEL, None, None, false, None)

  /** `setModel`: only the model changes. */
  function SetModel(st: CheckState, model: Model): (st': CheckState)
    ensures st'.model == model && st' == st.(model := model)
  {
    st.(model := model)
  }

  /**
   * `check(text)` up to the request: the source text is the given text, the previous result and
   * error are cleared, and the request carries the text with the hook's model.
   */
  function StartCheck(st: CheckState, text: string): (r: (CheckState, GrammarRequest))
    ensures r.0.sourceText == Some(text) && r.0.result.None? && r.0.error.None? && r.0.isChecking
    ensures r.0.model == st.model
    ensures r.1 == GrammarRequest(text, st.model)
  {
    (CheckState(st.model, None, Some(text), true, None), GrammarRequest(text, st.model))
  }

  /**
   * The request settling: a response becomes the result; a failure becomes the error and leaves
   * no result. Either way nothing is pending and the source text stays.
   */
  function FinishCheck(st: CheckState, outcome: Attempt<GrammarResponse>): (st': CheckState)
    ensures !st'.isChecking && st'.sourceText == st.sourceText && st'.model == st.model
    ensures outcome.Returned? ==> st'.result == Some(outcome.value) && st'.error.None?
    ensures outcome.Threw? ==> st'.error == Some(outcome.reason) && st'.result == st.result
  {
    match outcome
    case Returned(response) => st.(result := Some(response), isChecking := false, error := None)
    case Threw(e) => st.(isChecking := false, error := Some(e))
  }

  /** `reset`: no result, no source text, and the mutation back to idle. */
  function Reset(st: CheckState): (st': CheckState)
    ensures st'.result.None? && st'.sourceText.None? && !st'.isChecking && st'.error.None?
    ensures st'.model == st.model
  {
    CheckState(st.model, None, None, false, None)
  }

  /** The empty state is shown while there is no source text, or an empty one. */
  predicate IsEmpty(st: CheckState) {
    !Truthy(st.sourceText)
  }

  /** A check of a text leaves its result shown under that text, and the page no longer empty. */
  lemma CheckThenShow(st: CheckState, text: string, response: GrammarResponse)
    requires text != ""
    ensures var st' := FinishCheck(StartCheck(st, text).0, Returned(response));
      st'.sourceText == Some(text) && st'.result == Some(response) && !st'.isChecking && !IsEmpty(st')
  {
  }

  /** After a reset the page is empty again, whatever state it was in. */
  lemma ResetEmpties(st: CheckState)
    ensures IsEmpty(Reset(st)) && Reset(st) == INITIAL_CHECK.(model := st.model)
  {
  }

  // ---------------------------------------------------------------------------------------------
  // The page

  /** The page: whether the Korean warning is shown, and the hook's state. */
  datatype PageState = PageState(koreanWarning: bool, check: CheckState)

  const INITIAL_PAGE: PageState := PageState(false, INITIAL_CHECK)

  /**
   * `handleSubmit` of the page: Korean text raises the warning and is not checked; any other
   * text clears the warning and starts a check of that same text.
   */
  function PageSubmit(p: PageState, text: string): (r: (PageState, Option<GrammarRequest>))
    ensures IsKorean(text) ==> r.0 == p.(koreanWarning := true) && r.1.None?
    ensures !IsKorean(text) ==> !r.0.koreanWarning && r.1 == Some(GrammarRequest(text, p.check.model))
    ensures !IsKorean(text) ==> r.0.check == StartCheck(p.check, text).0
  {
    if IsKorean(text) then (p.(koreanWarning := true), None)
    else
      var (st, req) := StartCheck(p.check, text);
      (PageState(false, st), Some(req))
  }

  /** The input shows the page as loading exactly while the check is pending. */
  function InputLoading(p: PageState): bool {
    p.check.isChecking
  }

  /**
   * Submitting from the input: nothing reaches the page while the input is disabled; otherwise
   * the trimmed text does, a check starts exactly when the typed text is not Korean, and the
   * request carries the trimmed text.
   */
  function SubmitFromInput(p: PageState, input: InputState): (r: (PageState, InputState, Option<GrammarRequest>))
    ensures Disabled(input.text, InputLoading(p)) ==> r == (p, input, None)
    ensures !Disabled(input.text, InputLoading(p)) ==> r.1.text == ""
    ensures r.2.Some? <==> !Disabled(input.text, InputLoading(p)) && !IsKorean(input.text)
    ensures r.2.Some? ==> r.2.value == GrammarRequest(Trim(input.text), p.check.model) && r.0.check.isChecking
    ensures !Disabled(input.text, InputLoading(p)) && IsKorean(input.text) ==> r.0 == p.(koreanWarning := true)
  {
    var step := Submit(input, InputLoading(p));
    match step.submitted
    case None => (p, step.state, None)
    case Some(text) =>
      TrimKeepsKorean(input.text);
      var (p', req) := PageSubmit(p, text);
      (p', step.state, req)
  }

  /** While a check is pending no other check can start from the input. */
  lemma NoCheckWhilePending(p: PageState, input: InputState)
    requires p.check.isChecking
    ensures SubmitFromInput(p, input).2.None?
  {
  }

  /** A Korean text never reaches the grammar endpoint, however it was typed. */
  lemma KoreanNeverChecked(p: PageState, input: InputState)
    requires IsKorean(input.text)
    ensures SubmitFromInput(p, input).2.None?
  {
  }
}
