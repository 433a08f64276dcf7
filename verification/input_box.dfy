/**
 * The message input of the chat and grammar pages: a text buffer, a flag for an IME composition
 * in progress, and the handlers that submit, type, compose and paste. Both pages use the same
 * handlers, so they are modelled once.
 *
 * A handler's effect is a `Step`: the new state and the text handed to `onSubmit`, if any. The
 * loading flag belongs to the page and is a parameter.
 */
module InputBox {
  import opened Wrappers
  import opened Strings
  import opened DetectLanguage

  datatype InputState = InputState(text: string, composing: bool)

  /** An empty buffer, no composition. */
  const INITIAL_INPUT: InputState := InputState("", false)

  /** The new state, and the text handed to `onSubmit`, if one was. */
  datatype Step = Step(state: InputState, submitted: Option<string>)

  /** A key press: the key's name and whether Shift was held. */
  datatype KeyPress = KeyPress(key: string, shiftKey: bool)

  /** The submit button is disabled while there is only whitespace or a request is loading. */
  predicate Disabled(text: string, isLoading: bool) {
    Trim(text) == "" || isLoading
  }

  /**
   * `handleSubmit`: with text besides whitespace and nothing loading, the trimmed text is
   * submitted and the buffer emptied; otherwise nothing happens.
   */
  function Submit(st: InputState, isLoading: bool): (r: Step)
    ensures r.submitted.Some? <==> !Disabled(st.text, isLoading)
    ensures r.submitted.Some? ==> r.submitted.value == Trim(st.text) && r.state == st.(text := "")
    ensures r.submitted.None? ==> r.state == st
  {
    var trimmed := Trim(st.text);
    if trimmed == "" || isLoading then Step(st, None)
    else Step(st.(text := ""), Some(trimmed))
  }

  /**
   * `handleKeyDown`: ignored during a composition; Enter without Shift submits exactly as the
   * button does; any other key, Shift+Enter among them, does nothing.
   */
  function KeyDown(st: InputState, k: KeyPress, isLoading: bool): (r: Step)
    ensures st.composing || k.key != "Enter" || k.shiftKey ==> r == Step(st, None)
    ensures !st.composing && k.key == "Enter" && !k.shiftKey ==> r == Submit(st, isLoading)
  {
    if st.composing then Step(st, None)
    else if k.key == "Enter" && !k.shiftKey then Submit(st, isLoading)
    else Step(st, None)
  }

  /** `handleCompositionStart`: a composition begins; the text is untouched. */
  function CompositionStart(st: InputState): (st': InputState)
    ensures st'.composing && st'.text == st.text
  {
    st.(composing := true)
  }

  /** `handleCompositionEnd`: the composition is over; the text is untouched. */
  function CompositionEnd(st: InputState): (st': InputState)
    ensures !st'.composing && st'.text == st.text
  {
    st.(composing := false)
  }

  /** `onChange`: the text area's value becomes the buffer. */
  function Change(st: InputState, value: string): (st': InputState)
    ensures st'.text == value && st'.composing == st.composing
  {
    st.(text := value)
  }

  /**
   * `handlePaste`: non-empty clipboard text is appended to the buffer; empty text, and a
   * clipboard that cannot be read, leave it as it is.
   */
  function Paste(st: InputState, clipboard: Attempt<string>): (st': InputState)
    ensures st'.composing == st.composing
    ensures clipboard.Returned? && clipboard.value != "" ==> st'.text == st.text + clipboard.value
    ensures clipboard.Threw? || clipboard == Returned("") ==> st' == st
  {
    match clipboard
    case Returned(c) => if c != "" then st.(text := st.text + c) else st
    case Threw(_) => st
  }

  /** The language direction shown beside the settings. */
  datatype Direction = KoreanToEnglish | EnglishToKorean

  /** The direction indicator of the chat input: shown for text besides whitespace, from the detected language. */
  function DirectionOf(text: string): (d: Option<Direction>)
    ensures d.None? <==> Trim(text) == ""
    ensures d.Some? ==> (d.value == KoreanToEnglish <==> IsKorean(Trim(text)))
  {
    TrimKeepsKorean(text);
    if Trim(text) == "" then None
    else if IsKorean(text) then Some(KoreanToEnglish) else Some(EnglishToKorean)
  }

  /** What is submitted is never blank and is already trimmed. */
  lemma SubmittedIsTrimmed(st: InputState, isLoading: bool)
    ensures var r := Submit(st, isLoading);
      r.submitted.Some? ==> r.submitted.value != "" && Trim(r.submitted.value) == r.submitted.value
  {
    TrimIdempotent(st.text);
  }

  /** A submission empties the buffer, so submitting again at once does nothing. */
  lemma SubmitOnce(st: InputState, isLoading: bool)
    ensures var r := Submit(st, isLoading);
      r.submitted.Some? ==> Disabled(r.state.text, isLoading) && Submit(r.state, isLoading) == Step(r.state, None)
  {
  }

  /** The button is enabled exactly when pressing it submits something. */
  lemma EnabledIffSubmits(st: InputState, isLoading: bool)
    ensures !Disabled(st.text, isLoading) <==> Submit(st, isLoading).submitted.Some?
  {
  }

  /**
   * Enter pressed while composing a Hangul syllable does nothing; once the composition ends,
   * the same key submits the buffer.
   */
  lemma EnterAfterComposition(st: InputState, isLoading: bool)
    ensures KeyDown(CompositionStart(st), KeyPress("Enter", false), isLoading) == Step(CompositionStart(st), None)
    ensures KeyDown(CompositionEnd(st), KeyPress("Enter", false), isLoading) == Submit(CompositionEnd(st), isLoading)
  {
  }

  /** Shift+Enter never submits. */
  lemma ShiftEnterNeverSubmits(st: InputState, isLoading: bool)
    ensures KeyDown(st, KeyPress("Enter", true), isLoading).submitted.None?
  {
  }

  /** Pasting keeps what was typed as a prefix of the buffer. */
  lemma PasteKeepsPrefix(st: InputState, clipboard: Attempt<string>)
    ensures |st.text| <= |Paste(st, clipboard).text| && Paste(st, clipboard).text[..|st.text|] == st.text
  {
  }
}
