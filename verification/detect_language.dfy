/**
 * Hangul detection. A text counts as Korean when one of its UTF-16 code units lies in the Hangul
 * Syllables (U+AC00..U+D7AF), Hangul Jamo (U+1100..U+11FF) or Hangul Compatibility Jamo
 * (U+3130..U+318F) block. The pattern carries no `u` flag, so it is matched against code units;
 * a character outside the Basic Multilingual Plane becomes two surrogate units, neither of which
 * lies in those blocks.
 */
module DetectLanguage {
  import opened Strings

  /** The UTF-16 code units of one character. */
  function CodeUnits(c: char): (u: seq<int>)
    ensures |u| == Utf16Width(c)
    ensures c as int < 0x10000 ==> u == [c as int]
    ensures c as int >= 0x10000 ==> 0xD800 <= u[0] < 0xDC00 <= u[1] < 0xE000
  {
    if c as int < 0x10000 then [c as int]
    else
      var v := c as int - 0x10000;
      [0xD800 + v / 0x400, 0xDC00 + v % 0x400]
  }

  /** The UTF-16 encoding of a text. */
  function Utf16(s: string): (u: seq<int>)
    ensures |u| == Utf16Length(s)
  {
    if |s| == 0 then [] else CodeUnits(s[0]) + Utf16(s[1..])
  }

  /** A code unit in one of the three Hangul blocks. */
  predicate HangulUnit(u: int) {
    0xAC00 <= u <= 0xD7AF || 0x1100 <= u <= 0x11FF || 0x3130 <= u <= 0x318F
  }

  /** A character of one of the three Hangul blocks. */
  predicate HangulChar(c: char) {
    HangulUnit(c as int)
  }

  /** The scan of the pattern: whether some unit is a Hangul unit. */
  function AnyHangul(u: seq<int>): (r: bool)
    ensures r <==> exists k :: 0 <= k < |u| && HangulUnit(u[k])
  {
    if |u| == 0 then false
    else
      assert forall k :: 0 < k < |u| ==> u[k] == u[1..][k - 1];
      HangulUnit(u[0]) || AnyHangul(u[1..])
  }

  /** Scanning a concatenation scans both parts. */
  lemma AnyHangulAppend(a: seq<int>, b: seq<int>)
    ensures AnyHangul(a + b) == (AnyHangul(a) || AnyHangul(b))
  {
    if AnyHangul(b) {
      var k :| 0 <= k < |b| && HangulUnit(b[k]);
      assert (a + b)[|a| + k] == b[k];
    }
    if AnyHangul(a) {
      var k :| 0 <= k < |a| && HangulUnit(a[k]);
      assert (a + b)[k] == a[k];
    }
  }

  /** The code units of a character hold a Hangul unit exactly when the character is Hangul. */
  lemma CharUnits(c: char)
    ensures AnyHangul(CodeUnits(c)) == HangulChar(c)
  {
  }

  /** At the code-unit level the scan finds Hangul exactly when some character is Hangul. */
  lemma {:induction false} UnitsOfHangul(s: string)
    ensures AnyHangul(Utf16(s)) <==> exists i :: 0 <= i < |s| && HangulChar(s[i])
    decreases |s|
  {
    if |s| > 0 {
      UnitsOfHangul(s[1..]);
      AnyHangulAppend(CodeUnits(s[0]), Utf16(s[1..]));
      CharUnits(s[0]);
      assert forall i :: 0 < i < |s| ==> s[i] == s[1..][i - 1];
    }
  }

  /** `isKorean(text)`: some character of the text lies in a Hangul block. */
  function IsKorean(text: string): (r: bool)
    ensures r <==> exists i :: 0 <= i < |text| && HangulChar(text[i])
  {
    UnitsOfHangul(text);
    AnyHangul(Utf16(text))
  }

  /** A concatenation is Korean exactly when one of its parts is. */
  lemma KoreanConcat(a: string, b: string)
    ensures IsKorean(a + b) == (IsKorean(a) || IsKorean(b))
  {
    if IsKorean(a) {
      var i :| 0 <= i < |a| && HangulChar(a[i]);
      assert (a + b)[i] == a[i];
    }
    if IsKorean(b) {
      var i :| 0 <= i < |b| && HangulChar(b[i]);
      assert (a + b)[|a| + i] == b[i];
    }
  }

  /** Text made of ASCII characters alone, the empty text among them, is never Korean. */
  lemma AsciiNotKorean(s: string)
    requires forall i :: 0 <= i < |s| ==> s[i] as int < 0x80
    ensures !IsKorean(s)
  {
    assert forall i :: 0 <= i < |s| ==> !HangulChar(s[i]);
  }

  /** Whitespace is never Korean. */
  lemma WhitespaceNotKorean(w: string)
    requires AllWhitespace(w)
    ensures !IsKorean(w)
  {
    assert forall i :: 0 <= i < |w| ==> IsWhitespace(w[i]) && !HangulChar(w[i]);
  }

  /** Whitespace around a text does not change whether it is Korean. */
  lemma KoreanIgnoresWhitespace(pre: string, r: string, post: string)
    requires AllWhitespace(pre) && AllWhitespace(post)
    ensures IsKorean(pre + r + post) == IsKorean(r)
  {
    KoreanConcat(pre, r);
    KoreanConcat(pre + r, post);
    WhitespaceNotKorean(pre);
    WhitespaceNotKorean(post);
  }

  /** Trimming never changes whether a text is Korean: only whitespace is removed. */
  lemma TrimKeepsKorean(s: string)
    ensures IsKorean(Trim(s)) == IsKorean(s)
  {
    var pre, post := TrimParts(s);
    KoreanIgnoresWhitespace(pre, Trim(s), post);
  }

  /** `"안녕"` is Korean and `"hello"` is not. */
  lemma KoreanExamples()
    ensures IsKorean("안녕")
    ensures !IsKorean("hello")
  {
    assert HangulChar("안녕"[0]);
    AsciiNotKorean("hello");
  }
}
