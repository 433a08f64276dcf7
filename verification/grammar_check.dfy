/**
 * The grammar-check endpoint: the handler's guard order and the splitting of the model's reply
 * into the corrected text and an optional explanation.
 *
 * The reply is split at the first occurrence of the long separator (a blank line, `---`, a blank
 * line); only when that is absent at the first occurrence of the short one (`---` on a line of its
 * own); and with neither the whole reply is the corrected text.
 */
module GrammarCheck {
  import opened Wrappers
  import opened Strings
  import opened Json
  import opened Constants
  import opened Schemas
  import opened AllowList
  import opened Http

  const SEPARATOR_LONG: string := "\n\n---\n\n"
  const SEPARATOR_SHORT: string := "\n---\n"

  /** `{ corrected, explanation }`; `None` is `null`. */
  datatype GrammarResult = GrammarResult(corrected: string, explanation: Option<string>)

  /** `p` occurs in `s` at `i` and nowhere before. */
  predicate FirstOccurrence(s: string, p: string, i: int) {
    OccursAt(s, p, i) && forall k :: 0 <= k < i ==> !OccursAt(s, p, k)
  }

  /** `s || null`. */
  function NonEmpty(s: string): (r: Option<string>)
    ensures r.None? <==> s == ""
    ensures r.Some? ==> r.value == s
  {
    if s == "" then None else Some(s)
  }

  /** The result of splitting `content` at a separator of length `len` found at `i`. */
  function SplitAt(content: string, i: nat, len: nat): GrammarResult
    requires i + len <= |content|
  {
    GrammarResult(Trim(content[..i]), NonEmpty(Trim(content[i + len..])))
  }

  /** `indexOf` agrees with any first occurrence. */
  lemma IndexOfIsFirst(s: string, p: string, i: int)
    requires FirstOccurrence(s, p, i)
    ensures IndexOf(s, p) == i
  {
  }

  /**
   * `parseGrammarResponse(content)`. Both parts come out trimmed, and an explanation is never
   * empty; where the reply is split is stated by the three lemmas that follow.
   */
  function ParseGrammarResponse(content: string): (r: GrammarResult)
    ensures Trimmed(r.corrected)
    ensures r.explanation.Some? ==> r.explanation.value != "" && Trimmed(r.explanation.value)
  {
    var long := IndexOf(content, SEPARATOR_LONG);
    if long != -1 then Cut(content, long, |SEPARATOR_LONG|)
    else Cut(content, IndexOf(content, SEPARATOR_SHORT), |SEPARATOR_SHORT|)
  }

  /** The split at a separator of length `length` found at `index`, or the whole reply when `index` is -1. */
  function Cut(content: string, index: int, length: nat): (r: GrammarResult)
    requires index == -1 || (0 <= index && index + length <= |content|)
    ensures Trimmed(r.corrected)
    ensures r.explanation.Some? ==> r.explanation.value != "" && Trimmed(r.explanation.value)
  {
    if index == -1 then GrammarResult(Trim(content), None)
    else SplitAt(content, index, length)
  }

  /** With the long separator present, the reply is split at its first occurrence, whatever precedes it. */
  lemma SplitsAtFirstLong(content: string, i: int)
    requires FirstOccurrence(content, SEPARATOR_LONG, i)
    ensures ParseGrammarResponse(content) == SplitAt(content, i, |SEPARATOR_LONG|)
  {
    IndexOfIsFirst(content, SEPARATOR_LONG, i);
  }

  /** Only without the long separator is the reply split at the first short one. */
  lemma SplitsAtFirstShort(content: string, i: int)
    requires !Contains(content, SEPARATOR_LONG) && FirstOccurrence(content, SEPARATOR_SHORT, i)
    ensures ParseGrammarResponse(content) == SplitAt(content, i, |SEPARATOR_SHORT|)
  {
    IndexOfIsFirst(content, SEPARATOR_SHORT, i);
  }

  /** Without either separator the whole reply, trimmed, is the corrected text and there is no explanation. */
  lemma NoSeparatorWholeReply(content: string)
    requires !Contains(content, SEPARATOR_LONG) && !Contains(content, SEPARATOR_SHORT)
    ensures ParseGrammarResponse(content) == GrammarResult(Trim(content), None)
  {
  }

  // ---------------------------------------------------------------------------------------------
  // The reply format, and the split as its inverse

  /** A reply in the shape the prompt asks for: the corrected text, then the long separator and the explanation. */
  function FormatReply(g: GrammarResult): string {
    match g.explanation
    case Some(e) => g.corrected + SEPARATOR_LONG + e
    case None => g.corrected
  }

  /**
   * The results a reply can carry unchanged: both parts trimmed, a non-empty explanation, no blank
   * line in the corrected text, and no separator at all in it when there is no explanation.
   */
  ghost predicate Representable(g: GrammarResult) {
    && Trimmed(g.corrected)
    && !Contains(g.corrected, "\n\n")
    && (g.explanation.Some? ==> g.explanation.value != "" && Trimmed(g.explanation.value))
    && (g.explanation.None? ==> !Contains(g.corrected, SEPARATOR_SHORT))
  }

  /** The long separator holds the short one, so a text holding the long one holds the short one. */
  lemma LongHoldsShort(s: string)
    ensures Contains(s, SEPARATOR_LONG) ==> Contains(s, SEPARATOR_SHORT)
  {
    if Contains(s, SEPARATOR_LONG) {
      assert SEPARATOR_LONG == "\n" + SEPARATOR_SHORT + "\n";
      InfixOfConcat("\n", SEPARATOR_SHORT, "\n");
      ContainsTransitive(s, SEPARATOR_LONG, SEPARATOR_SHORT);
    }
  }

  /** The long separator starts with two line breaks, so it does not occur where they are missing. */
  lemma NotLongAt(s: string, k: nat)
    requires k + 1 < |s| && (s[k] != '\n' || s[k + 1] != '\n')
    ensures !OccursAt(s, SEPARATOR_LONG, k)
  {
    assert SEPARATOR_LONG[0] == '\n' && SEPARATOR_LONG[1] == '\n';
    if k + |SEPARATOR_LONG| <= |s| {
      var w := s[k..k + |SEPARATOR_LONG|];
      assert w[0] == s[k] && w[1] == s[k + 1];
    }
  }

  /** In `c + SEPARATOR_LONG + e` with `c` trimmed and free of blank lines, the separator first occurs right after `c`. */
  lemma SeparatorAfterCorrected(c: string, e: string)
    requires Trimmed(c) && !Contains(c, "\n\n")
    ensures FirstOccurrence(c + SEPARATOR_LONG + e, SEPARATOR_LONG, |c|)
  {
    var s := c + SEPARATOR_LONG + e;
    assert s[|c|..|c| + |SEPARATOR_LONG|] == SEPARATOR_LONG;
    forall k | 0 <= k < |c| ensures !OccursAt(s, SEPARATOR_LONG, k) {
      NoBlankLineAt(c, k);
      assert s[k] == c[k];
      assert s[k + 1] == (if k + 1 < |c| then c[k + 1] else '\n');
      NotLongAt(s, k);
    }
  }

  /**
   * In a text free of blank lines whose last character is not whitespace, no position starts two
   * line breaks, and the last position is not a line break at all.
   */
  lemma NoBlankLineAt(c: string, k: nat)
    requires !Contains(c, "\n\n") && k < |c| && !IsWhitespace(c[|c| - 1])
    ensures k + 1 < |c| ==> c[k] != '\n' || c[k + 1] != '\n'
    ensures k + 1 == |c| ==> c[k] != '\n'
  {
    if k + 1 < |c| {
      assert !OccursAt(c, "\n\n", k);
      assert c[k..k + 2][0] == c[k] && c[k..k + 2][1] == c[k + 1];
    }
  }

  /** Splitting `c + SEPARATOR_LONG + e` right after `c` gives the two parts back, trimmed. */
  lemma SplitAfterCorrected(c: string, e: string)
    ensures SplitAt(c + SEPARATOR_LONG + e, |c|, |SEPARATOR_LONG|) == GrammarResult(Trim(c), NonEmpty(Trim(e)))
  {
    var s := c + SEPARATOR_LONG + e;
    assert s[..|c|] == c;
    assert s[|c| + |SEPARATOR_LONG|..] == e;
  }

  /** Splitting a well-shaped reply gives back exactly the result it was formatted from. */
  lemma ParseFormatRoundTrip(g: GrammarResult)
    requires Representable(g)
    ensures ParseGrammarResponse(FormatReply(g)) == g
  {
    var c := g.corrected;
    TrimOfTrimmed(c);
    match g.explanation
    case Some(e) =>
      TrimOfTrimmed(e);
      SplitAfterCorrected(c, e);
      SeparatorAfterCorrected(c, e);
      SplitsAtFirstLong(c + SEPARATOR_LONG + e, |c|);
    case None =>
      LongHoldsShort(c);
      NoSeparatorWholeReply(c);
  }

  /** A corrected text with a short separator inside it but no blank line. */
  lemma ExampleHasNoBlankLine()
    ensures !Contains("a\n---\nb", "\n\n")
    ensures Contains("a\n---\nb", SEPARATOR_SHORT)
  {
    var c := "a\n---\nb";
    forall k | 0 <= k < |c| - 1 ensures !OccursAt(c, "\n\n", k) {
      assert c[k] != '\n' || c[k + 1] != '\n';
      assert c[k..k + 2][0] == c[k] && c[k..k + 2][1] == c[k + 1];
    }
    assert c == "a" + SEPARATOR_SHORT + "b";
    InfixOfConcat("a", SEPARATOR_SHORT, "b");
  }

  /**
   * The long separator wins even when a short one occurs earlier: a corrected text holding a
   * short separator, but no blank line, is kept whole. `ExampleHasNoBlankLine` gives such a text.
   */
  lemma LongSeparatorTakesPriority(c: string, e: string)
    requires Trimmed(c) && !Contains(c, "\n\n") && Contains(c, SEPARATOR_SHORT)
    requires e != "" && Trimmed(e)
    ensures ParseGrammarResponse(c + SEPARATOR_LONG + e) == GrammarResult(c, Some(e))
  {
    ParseFormatRoundTrip(GrammarResult(c, Some(e)));
  }

  // ---------------------------------------------------------------------------------------------
  // The handler

  /** The arguments of the model call. */
  datatype CheckArgs = CheckArgs(apiKey: string, text: string, model: Model)

  datatype Body =
    | ErrorBody(error: string)
    | Failed(error: string, message: string)
    | Checked(corrected: string, explanation: Option<string>, durationMs: int)

  /** The response, and the model call made, if any. */
  datatype Outcome = Outcome(response: Response<Body>, called: Option<CheckArgs>)

  const GRAMMAR_CHECK_FAILED: string := "Grammar check failed"
  const UNKNOWN_ERROR: string := "Unknown error"

  /**
   * The handler: 405 for a method other than POST, 403 for an address off the allow-list, 400 for
   * a body the schema rejects, none of them calling the model; otherwise one model call, a 500
   * when it throws, and the split reply with the measured duration when it returns.
   */
  function HandleGrammarCheck(allowed: seq<string>, req: Request, apiKeyOf: Model -> string,
                              check: CheckArgs -> Attempt<string>, durationMs: int): (o: Outcome)
    ensures req.httpMethod != "POST" ==> o == Outcome(Response(405, ErrorBody(METHOD_NOT_ALLOWED)), None)
    ensures req.httpMethod == "POST" && Decide(allowed, req.email).Denied? ==>
      o == Outcome(Response(403, ErrorBody(DENIED_MESSAGE)), None)
    ensures req.httpMethod == "POST" && Decide(allowed, req.email).Next? && ParseGrammarRequest(req.body).None? ==>
      o == Outcome(Response(400, ErrorBody(INVALID_REQUEST)), None)
    ensures o.called.Some? <==>
      req.httpMethod == "POST" && Decide(allowed, req.email).Next? && ParseGrammarRequest(req.body).Some?
    ensures o.called.Some? ==>
      var q := ParseGrammarRequest(req.body).value;
      && o.called.value == CheckArgs(apiKeyOf(q.model), q.text, q.model)
      && (match check(o.called.value)
          case Returned(content) =>
            var g := ParseGrammarResponse(content);
            o.response == Response(200, Checked(g.corrected, g.explanation, durationMs))
          case Threw(e) =>
            o.response == Response(500, Failed(GRAMMAR_CHECK_FAILED, MessageOr(e, UNKNOWN_ERROR))))
  {
    if req.httpMethod != "POST" then Outcome(Response(405, ErrorBody(METHOD_NOT_ALLOWED)), None)
    else match Decide(allowed, req.email)
      case Denied(status, error) => Outcome(Response(status, ErrorBody(error)), None)
      case Next =>
        match ParseGrammarRequest(req.body)
        case None => Outcome(Response(400, ErrorBody(INVALID_REQUEST)), None)
        case Some(q) =>
          var args := CheckArgs(apiKeyOf(q.model), q.text, q.model);
          match check(args)
          case Threw(e) => Outcome(Response(500, Failed(GRAMMAR_CHECK_FAILED, MessageOr(e, UNKNOWN_ERROR))), Some(args))
          case Returned(content) =>
            var g := ParseGrammarResponse(content);
            Outcome(Response(200, Checked(g.corrected, g.explanation, durationMs)), Some(args))
  }

  /** A request without a model is checked with the default model. */
  lemma DefaultModelUsed(allowed: seq<string>, email: string, text: string, apiKeyOf: Model -> string,
                         check: CheckArgs -> Attempt<string>, durationMs: int)
    requires text != "" && Decide(allowed, email).Next?
    ensures HandleGrammarCheck(allowed, Request("POST", email, JObj(map["text" := JStr(text)])), apiKeyOf, check, durationMs).called
         == Some(CheckArgs(apiKeyOf(DEFAULT_MODEL), text, DEFAULT_MODEL))
  {
    GrammarRequestCases(text, "");
  }
}
