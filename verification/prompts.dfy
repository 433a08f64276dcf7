/**
 * The user prompt sent with a translation request, and the grammar-check prompt.
 *
 * A translation prompt is a list of sections joined by a blank line: the style section (one
 * directive per tone axis), an optional user instruction, then either the concise-mode block or
 * the recent context pairs, and finally the text to translate.
 */
module TranslatePrompt {
  import opened Wrappers
  import opened Strings
  import opened Constants

  /** An earlier source text and its translation, offered as context. */
  datatype TranslationPair = TranslationPair(source: string, translation: string)

  datatype PromptOptions = PromptOptions(
    text: string,
    tone: ToneSettings,
    context: seq<TranslationPair>,
    userInstruction: Option<string>,
    concise: Option<bool>,
    previousTranslation: Option<string>)

  // ---------------------------------------------------------------------------------------------
  // Sections
  //
  // Literals longer than about thirty characters are written as concatenations of shorter pieces,
  // so that the verifier can look at their individual characters.

  function StyleDirective(s: TranslationStyle): (r: string)
    ensures '\n' !in r
  {
    match s
    case Literal => "- Use literal " + "translation, " + "staying close " + "to the original " + "wording"
    case Paraphrase => "- Use natural " + "paraphrasing " + "for fluent " + "translation"
  }

  function FormalityDirective(f: Formality): (r: string)
    ensures '\n' !in r
  {
    match f
    case Formal => "- Use formal language " + "and honorifics"
    case Casual => "- Use casual, " + "conversational language"
  }

  function DomainDirective(d: Domain): (r: string)
    ensures '\n' !in r
  {
    match d
    case Technical => "- Use technical/documentation " + "terminology"
    case General => "- Use general, everyday language"
  }

  const STYLE_HEADER: string := "Style settings:"
  const INSTRUCTION_HEADER: string := "User instruction:\n"
  const CONCISE_HEADER: string := "Make this translation more " + "concise. The previous " + "translation was:"
  const CONTEXT_HEADER: string := "Previous translations " + "for reference:\n"
  const TEXT_HEADER: string := "Text to translate:\n"
  const SECTION_SEPARATOR: string := "\n\n"
  const PAIR_SEPARATOR: string := "\n---\n"

  function StyleLines(t: ToneSettings): seq<string> {
    [StyleDirective(t.translationStyle), FormalityDirective(t.formality), DomainDirective(t.domain)]
  }

  function StyleSection(t: ToneSettings): (r: string)
    ensures StartsWith(r, STYLE_HEADER)
  {
    var r := STYLE_HEADER + "\n" + Join(StyleLines(t), "\n");
    assert r[..|STYLE_HEADER|] == STYLE_HEADER;
    r
  }

  /** `userInstruction?.trim()` is truthy. */
  predicate HasInstruction(u: Option<string>) {
    u.Some? && Trim(u.value) != ""
  }

  function InstructionSection(u: string): (r: string)
    ensures StartsWith(r, INSTRUCTION_HEADER)
  {
    var r := INSTRUCTION_HEADER + u;
    assert r[..|INSTRUCTION_HEADER|] == INSTRUCTION_HEADER;
    r
  }

  /** The concise-mode block; an undefined previous translation joins as the empty line. */
  function ConciseLines(previous: Option<string>): (r: seq<string>)
    ensures |r| == 8 && r[0] == CONCISE_HEADER && r[1] == previous.GetOr("")
  {
    [
      CONCISE_HEADER,
      previous.GetOr(""),
      "",
      "You may:",
      "- Remove redundant expressions and filler words",
      "- Simplify sentence structures",
      "- Omit minor details that don't change the core message",
      "- Prioritize brevity over completeness"]
  }

  function ConciseSection(previous: Option<string>): (r: string)
    ensures StartsWith(r, CONCISE_HEADER)
  {
    JoinFirst(ConciseLines(previous), "\n");
    Join(ConciseLines(previous), "\n")
  }

  /** `context.slice(-5)`: the last five pairs, or all of them when there are fewer. */
  function ContextWindow(ctx: seq<TranslationPair>): (w: seq<TranslationPair>)
    ensures |w| == if |ctx| < 5 then |ctx| else 5
    ensures w == ctx[|ctx| - |w|..]
  {
    if |ctx| <= 5 then ctx else ctx[|ctx| - 5..]
  }

  function RenderPair(p: TranslationPair): string {
    "Original: " + p.source + "\nTranslation: " + p.translation
  }

  function RenderPairs(ps: seq<TranslationPair>): (r: seq<string>)
    ensures |r| == |ps| && forall i :: 0 <= i < |ps| ==> r[i] == RenderPair(ps[i])
  {
    seq(|ps|, i requires 0 <= i < |ps| => RenderPair(ps[i]))
  }

  function ContextSection(ctx: seq<TranslationPair>): (r: string)
    ensures StartsWith(r, CONTEXT_HEADER)
  {
    var r := CONTEXT_HEADER + Join(RenderPairs(ContextWindow(ctx)), PAIR_SEPARATOR);
    assert r[..|CONTEXT_HEADER|] == CONTEXT_HEADER;
    r
  }

  function TextSection(text: string): (r: string)
    ensures StartsWith(r, TEXT_HEADER)
  {
    var r := TEXT_HEADER + text;
    assert r[..|TEXT_HEADER|] == TEXT_HEADER;
    r
  }

  /** `if (concise)`: only a defined `true` selects concise mode. */
  predicate IsConcise(o: PromptOptions) {
    o.concise == Some(true)
  }

  predicate HasContextSection(o: PromptOptions) {
    !IsConcise(o) && |o.context| > 0
  }

  /** The first section, the optional ones in order, and the last. */
  function Arrange(first: string, second: Option<string>, third: Option<string>, last: string): (r: seq<string>)
    ensures |r| == 2 + (if second.Some? then 1 else 0) + (if third.Some? then 1 else 0)
    ensures r[0] == first && r[|r| - 1] == last
    ensures second.Some? ==> r[1] == second.value
    ensures third.Some? ==> r[|r| - 2] == third.value
  {
    match (second, third)
    case (Some(b), Some(c)) => [first, b, c, last]
    case (Some(b), None) => [first, b, last]
    case (None, Some(c)) => [first, c, last]
    case (None, None) => [first, last]
  }

  /** The user-instruction section, when the instruction trims to something non-empty. */
  function InstructionPart(o: PromptOptions): (r: Option<string>)
    ensures r.Some? <==> HasInstruction(o.userInstruction)
    ensures r.Some? ==> r.value == InstructionSection(o.userInstruction.value)
  {
    if HasInstruction(o.userInstruction) then Some(InstructionSection(o.userInstruction.value)) else None
  }

  /** The concise block in concise mode, else the context section when there is context. */
  function BodyPart(o: PromptOptions): (r: Option<string>)
    ensures r.Some? <==> IsConcise(o) || HasContextSection(o)
    ensures IsConcise(o) ==> r == Some(ConciseSection(o.previousTranslation))
    ensures HasContextSection(o) ==> r == Some(ContextSection(o.context))
  {
    if IsConcise(o) then Some(ConciseSection(o.previousTranslation))
    else if |o.context| > 0 then Some(ContextSection(o.context))
    else None
  }

  /** The sections of the prompt, in order. */
  function Sections(o: PromptOptions): (r: seq<string>)
    ensures |r| == 2 + (if HasInstruction(o.userInstruction) then 1 else 0)
                     + (if IsConcise(o) || HasContextSection(o) then 1 else 0)
    ensures r[0] == StyleSection(o.tone) && r[|r| - 1] == TextSection(o.text)
    ensures HasInstruction(o.userInstruction) ==> r[1] == InstructionSection(o.userInstruction.value)
    ensures IsConcise(o) ==> r[|r| - 2] == ConciseSection(o.previousTranslation)
    ensures HasContextSection(o) ==> r[|r| - 2] == ContextSection(o.context)
  {
    Arrange(StyleSection(o.tone), InstructionPart(o), BodyPart(o), TextSection(o.text))
  }

  /** `buildTranslatePrompt(options)`. */
  function BuildTranslatePrompt(o: PromptOptions): (r: string)
    ensures StartsWith(r, StyleSection(o.tone))
    ensures EndsWith(r, SECTION_SEPARATOR + TextSection(o.text))
  {
    var parts := Sections(o);
    JoinFirst(parts, SECTION_SEPARATOR);
    JoinLast(parts, SECTION_SEPARATOR);
    Join(parts, SECTION_SEPARATOR)
  }

  // ---------------------------------------------------------------------------------------------
  // Properties of the sections

  lemma InitialOf(section: string, header: string)
    requires StartsWith(section, header) && |header| > 0
    ensures |section| > 0 && section[0] == header[0]
  {
  }

  /** Each section opens with its header's first letter, and the five letters differ. */
  lemma SectionHeaders(o: PromptOptions, i: int)
    requires 0 <= i < |Sections(o)|
    ensures |Sections(o)[i]| > 0
    ensures Sections(o)[i][0] ==
      if i == 0 then 'S'
      else if i == |Sections(o)| - 1 then 'T'
      else if i == 1 && HasInstruction(o.userInstruction) then 'U'
      else if IsConcise(o) then 'M'
      else 'P'
  {
    var r := Sections(o);
    if i == 0 {
      InitialOf(r[i], STYLE_HEADER);
    } else if i == |r| - 1 {
      InitialOf(r[i], TEXT_HEADER);
    } else if i == 1 && HasInstruction(o.userInstruction) {
      InitialOf(r[i], INSTRUCTION_HEADER);
    } else if IsConcise(o) {
      assert i == |r| - 2;
      InitialOf(r[i], CONCISE_HEADER);
    } else {
      assert i == |r| - 2;
      InitialOf(r[i], CONTEXT_HEADER);
    }
  }

  /**
   * The user-instruction section is present exactly when the instruction trims to something
   * non-empty; it then sits right after the style section and carries the instruction untrimmed.
   * No other section starts with its header.
   */
  lemma InstructionSectionPresence(o: PromptOptions)
    ensures forall i :: 0 <= i < |Sections(o)| ==>
      (StartsWith(Sections(o)[i], INSTRUCTION_HEADER) <==> HasInstruction(o.userInstruction) && i == 1)
    ensures HasInstruction(o.userInstruction) ==> Sections(o)[1] == INSTRUCTION_HEADER + o.userInstruction.value
  {
    var r := Sections(o);
    forall i | 0 <= i < |r|
      ensures StartsWith(r[i], INSTRUCTION_HEADER) <==> HasInstruction(o.userInstruction) && i == 1
    {
      if !(HasInstruction(o.userInstruction) && i == 1) {
        SectionHeaders(o, i);
        NotPrefixAt(r[i], INSTRUCTION_HEADER, 0);
      }
    }
  }

  /**
   * In concise mode the concise block is present and no context section is, whatever the context;
   * otherwise the context section is present exactly when the context is non-empty.
   */
  lemma ContextSectionPresence(o: PromptOptions)
    ensures forall i :: 0 <= i < |Sections(o)| ==>
      (StartsWith(Sections(o)[i], CONTEXT_HEADER) <==> HasContextSection(o) && i == |Sections(o)| - 2)
    ensures forall i :: 0 <= i < |Sections(o)| ==>
      (StartsWith(Sections(o)[i], CONCISE_HEADER) <==> IsConcise(o) && i == |Sections(o)| - 2)
  {
    var r := Sections(o);
    forall i | 0 <= i < |r|
      ensures StartsWith(r[i], CONTEXT_HEADER) <==> HasContextSection(o) && i == |r| - 2
      ensures StartsWith(r[i], CONCISE_HEADER) <==> IsConcise(o) && i == |r| - 2
    {
      SectionHeaders(o, i);
      if !(HasContextSection(o) && i == |r| - 2) {
        NotPrefixAt(r[i], CONTEXT_HEADER, 0);
      }
      if !(IsConcise(o) && i == |r| - 2) {
        NotPrefixAt(r[i], CONCISE_HEADER, 0);
      }
    }
  }

  /** The concise prompt contains the previous translation verbatim. */
  lemma ConcisePromptQuotesPrevious(o: PromptOptions)
    requires IsConcise(o)
    ensures Contains(BuildTranslatePrompt(o), o.previousTranslation.GetOr(""))
  {
    var r := Sections(o);
    JoinContainsPart(ConciseLines(o.previousTranslation), "\n", 1);
    JoinContainsPart(r, SECTION_SEPARATOR, |r| - 2);
    ContainsTransitive(BuildTranslatePrompt(o), r[|r| - 2], o.previousTranslation.GetOr(""));
  }

  /** In concise mode the context does not influence the prompt at all. */
  lemma ConciseIgnoresContext(o: PromptOptions, other: seq<TranslationPair>)
    requires IsConcise(o)
    ensures BuildTranslatePrompt(o) == BuildTranslatePrompt(o.(context := other))
  {
    assert Sections(o) == Sections(o.(context := other));
  }

  /** The window keeps at most five pairs, the most recent ones, in their original order. */
  lemma ContextWindowSuffix(older: seq<TranslationPair>, recent: seq<TranslationPair>)
    requires |recent| >= 5
    ensures ContextWindow(older + recent) == ContextWindow(recent)
  {
    assert (older + recent)[|older + recent| - 5..] == recent[|recent| - 5..];
  }

  /** Pairs older than the last five never reach the prompt. */
  lemma PromptSeesLastFivePairs(o: PromptOptions, older: seq<TranslationPair>)
    requires |o.context| >= 5
    ensures BuildTranslatePrompt(o.(context := older + o.context)) == BuildTranslatePrompt(o)
  {
    var p := o.(context := older + o.context);
    ContextWindowSuffix(older, o.context);
    assert ContextSection(p.context) == ContextSection(o.context);
    assert BodyPart(p) == BodyPart(o) && InstructionPart(p) == InstructionPart(o);
    assert Sections(p) == Sections(o);
  }

  /** The style section is its header line followed by exactly one directive line per axis. */
  lemma StyleSectionLines(t: ToneSettings)
    ensures Split(StyleSection(t), '\n') == [STYLE_HEADER] + StyleLines(t)
  {
    var lines := [STYLE_HEADER] + StyleLines(t);
    assert lines[1..] == StyleLines(t);
    assert Join(lines, "\n") == StyleSection(t);
    assert '\n' !in STYLE_HEADER;
    SplitJoin(lines, '\n');
  }

  /** Each directive is chosen by its axis alone: distinct values give distinct lines. */
  lemma DirectivesDistinguishValues(s1: TranslationStyle, s2: TranslationStyle, f1: Formality, f2: Formality, d1: Domain, d2: Domain)
    ensures StyleDirective(s1) == StyleDirective(s2) ==> s1 == s2
    ensures FormalityDirective(f1) == FormalityDirective(f2) ==> f1 == f2
    ensures DomainDirective(d1) == DomainDirective(d2) ==> d1 == d2
  {
  }

  // ---------------------------------------------------------------------------------------------
  // System messages and the grammar prompt

  datatype ChatMessage = ChatMessage(role: string, content: string)

  /** `getSystemMessages()`: the system prompt text is not part of this model, so it is a parameter. */
  function GetSystemMessages(systemPrompt: string): (r: seq<ChatMessage>)
    ensures |r| == 1 && r[0].role == "system" && r[0].content == systemPrompt
  {
    [ChatMessage("system", systemPrompt)]
  }

  const GRAMMAR_INSTRUCTION: string := "Check and correct the grammar of the following English text:"

  /** `buildGrammarCheckPrompt(text)`. */
  function BuildGrammarCheckPrompt(text: string): (r: string)
    ensures StartsWith(r, GRAMMAR_INSTRUCTION + "\n\n") && EndsWith(r, text)
    ensures |r| == |GRAMMAR_INSTRUCTION| + 2 + |text|
  {
    GRAMMAR_INSTRUCTION + "\n\n" + text
  }

  /** Distinct texts give distinct grammar prompts. */
  lemma GrammarPromptInjective(a: string, b: string)
    ensures BuildGrammarCheckPrompt(a) == BuildGrammarCheckPrompt(b) ==> a == b
  {
    var p := GRAMMAR_INSTRUCTION + "\n\n";
    if BuildGrammarCheckPrompt(a) == BuildGrammarCheckPrompt(b) {
      assert a == BuildGrammarCheckPrompt(a)[|p|..];
    }
  }

  /** In JavaScript's UTF-16 lengths too, the prompt is the prefix plus the text. */
  lemma GrammarPromptLength(text: string)
    ensures Utf16Length(BuildGrammarCheckPrompt(text)) == Utf16Length(GRAMMAR_INSTRUCTION + "\n\n") + Utf16Length(text)
  {
    Utf16LengthAppend(GRAMMAR_INSTRUCTION + "\n\n", text);
  }
}
