/**
 * The JavaScript string operations the application relies on, over `string` (a sequence of
 * Unicode scalar values): `trim`, `startsWith`, `indexOf`, `split`, `join`, ASCII `toLowerCase`,
 * and the UTF-16 `length`.
 */
module Strings {

  /** The characters `String.prototype.trim` removes: ECMAScript WhiteSpace and LineTerminator. */
  predicate IsWhitespace(c: char) {
    var n := c as int;
    || n == 0x09 || n == 0x0A || n == 0x0B || n == 0x0C || n == 0x0D || n == 0x20
    || n == 0xA0 || n == 0x1680 || (0x2000 <= n <= 0x200A) || n == 0x2028 || n == 0x2029
    || n == 0x202F || n == 0x205F || n == 0x3000 || n == 0xFEFF
  }

  predicate AllWhitespace(s: string) {
    forall i :: 0 <= i < |s| ==> IsWhitespace(s[i])
  }

  /** Removes leading whitespace: the result is a suffix of `s` and only whitespace was dropped. */
  function TrimStart(s: string): (r: string)
    ensures |r| <= |s| && r == s[|s| - |r|..]
    ensures AllWhitespace(s[..|s| - |r|])
    ensures r == [] || !IsWhitespace(r[0])
  {
    if |s| > 0 && IsWhitespace(s[0]) then
      var r := TrimStart(s[1..]);
      assert s[..|s| - |r|] == [s[0]] + s[1..][..|s| - 1 - |r|];
      r
    else s
  }

  /** Removes trailing whitespace: the result is a prefix of `s` and only whitespace was dropped. */
  function TrimEnd(s: string): (r: string)
    ensures |r| <= |s| && r == s[..|r|]
    ensures AllWhitespace(s[|r|..])
    ensures r == [] || !IsWhitespace(r[|r| - 1])
  {
    if |s| > 0 && IsWhitespace(s[|s| - 1]) then
      var r := TrimEnd(s[..|s| - 1]);
      assert s[|r|..] == s[..|s| - 1][|r|..] + [s[|s| - 1]];
      r
    else s
  }

  /** No whitespace at either end: what `trim` leaves, and what it leaves unchanged. */
  predicate Trimmed(s: string) {
    s == [] || (!IsWhitespace(s[0]) && !IsWhitespace(s[|s| - 1]))
  }

  /** `s.trim()`. */
  function Trim(s: string): (r: string)
    ensures |r| <= |s|
    ensures r == [] <==> AllWhitespace(s)
    ensures Trimmed(r)
  {
    var a := TrimStart(s);
    var r := TrimEnd(a);
    assert r == [] ==> AllWhitespace(s) by {
      if r == [] {
        assert s == s[..|s| - |a|] + a;
        assert a == a[..0] + a[0..];
      }
    }
    r
  }

  /** A string with no whitespace at either end is its own trim. */
  lemma {:induction false} TrimOfTrimmed(s: string)
    requires Trimmed(s)
    ensures Trim(s) == s
  {
    if s != [] {
      assert TrimStart(s) == s;
      assert TrimEnd(s) == s;
    }
  }

  /** A text is its trim with whitespace before and after it. */
  lemma TrimParts(s: string) returns (pre: string, post: string)
    ensures s == pre + Trim(s) + post
    ensures AllWhitespace(pre) && AllWhitespace(post)
  {
    var a := TrimStart(s);
    assert Trim(s) == TrimEnd(a);
    pre, post := Between(s, a, TrimEnd(a));
  }

  /** `r` is a prefix of a suffix `a` of `s`, with only whitespace around it. */
  lemma Between(s: string, a: string, r: string) returns (pre: string, post: string)
    requires |a| <= |s| && a == s[|s| - |a|..] && AllWhitespace(s[..|s| - |a|])
    requires |r| <= |a| && r == a[..|r|] && AllWhitespace(a[|r|..])
    ensures s == pre + r + post
    ensures AllWhitespace(pre) && AllWhitespace(post)
  {
    pre := s[..|s| - |a|];
    post := a[|r|..];
    assert a == r + post;
    assert s == pre + a;
  }

  /** Trimming twice is trimming once. */
  lemma TrimIdempotent(s: string)
    ensures Trim(Trim(s)) == Trim(s)
  {
    TrimOfTrimmed(Trim(s));
  }

  predicate StartsWith(s: string, prefix: string) {
    |prefix| <= |s| && s[..|prefix|] == prefix
  }

  /** A string that differs from `p` at some index both share does not start with `p`. */
  lemma NotPrefixAt(s: string, p: string, i: nat)
    requires i < |s| && i < |p| && s[i] != p[i]
    ensures !StartsWith(s, p)
  {
  }

  predicate EndsWith(s: string, suffix: string) {
    |suffix| <= |s| && s[|s| - |suffix|..] == suffix
  }

  /** `p` occurs in `s` starting at index `i`. */
  predicate OccursAt(s: string, p: string, i: int) {
    0 <= i && i + |p| <= |s| && s[i..i + |p|] == p
  }

  /** `p` appears somewhere in `s`. */
  ghost predicate Contains(s: string, p: string) {
    exists i :: OccursAt(s, p, i)
  }

  /** `s.indexOf(p, from)`: the first occurrence at or after `from`, or -1. */
  function IndexOfFrom(s: string, p: string, from: nat): (r: int)
    requires from <= |s|
    ensures r == -1 || (from <= r && OccursAt(s, p, r))
    ensures forall k :: from <= k <= |s| && (r == -1 || k < r) ==> !OccursAt(s, p, k)
    decreases |s| - from
  {
    if from + |p| > |s| then -1
    else if s[from..from + |p|] == p then from
    else IndexOfFrom(s, p, from + 1)
  }

  /** `s.indexOf(p)`: -1 exactly when `p` does not occur, otherwise its first occurrence. */
  function IndexOf(s: string, p: string): (r: int)
    ensures r == -1 <==> !Contains(s, p)
    ensures r != -1 ==> OccursAt(s, p, r) && forall k :: 0 <= k < r ==> !OccursAt(s, p, k)
  {
    IndexOfFrom(s, p, 0)
  }

  /** `parts.join(sep)`. */
  function Join(parts: seq<string>, sep: string): string {
    if |parts| == 0 then ""
    else if |parts| == 1 then parts[0]
    else parts[0] + sep + Join(parts[1..], sep)
  }

  /** The last part of a join follows the join of the others. */
  lemma {:induction false} JoinSnoc(parts: seq<string>, sep: string)
    requires |parts| >= 2
    ensures Join(parts, sep) == Join(parts[..|parts| - 1], sep) + sep + parts[|parts| - 1]
    decreases |parts|
  {
    if |parts| > 2 {
      JoinSnoc(parts[1..], sep);
      assert parts[1..][..|parts| - 2] == parts[..|parts| - 1][1..];
    }
  }

  /** A join starts with its first part. */
  lemma JoinFirst(parts: seq<string>, sep: string)
    requires |parts| >= 1
    ensures StartsWith(Join(parts, sep), parts[0])
  {
    if |parts| > 1 {
      assert Join(parts, sep)[..|parts[0]|] == parts[0];
    }
  }

  /** A join of two or more parts ends with the separator and the last part. */
  lemma JoinLast(parts: seq<string>, sep: string)
    requires |parts| >= 2
    ensures EndsWith(Join(parts, sep), sep + parts[|parts| - 1])
  {
    JoinSnoc(parts, sep);
    var j := Join(parts, sep);
    var a := Join(parts[..|parts| - 1], sep);
    assert j == a + (sep + parts[|parts| - 1]);
    assert j[|j| - |sep + parts[|parts| - 1]|..] == sep + parts[|parts| - 1];
  }

  lemma InfixOfConcat(a: string, t: string, b: string)
    ensures Contains(a + t + b, t)
  {
    assert OccursAt(a + t + b, t, |a|) by {
      assert (a + t + b)[|a|..|a| + |t|] == t;
    }
  }

  lemma InfixExtend(t: string, s: string, a: string, b: string)
    requires Contains(s, t)
    ensures Contains(a + s + b, t)
  {
    var i :| OccursAt(s, t, i);
    assert OccursAt(a + s + b, t, |a| + i) by {
      assert (a + s + b)[|a| + i..|a| + i + |t|] == s[i..i + |t|];
    }
  }

  /** An infix of an infix is an infix. */
  lemma ContainsTransitive(s: string, t: string, u: string)
    requires Contains(s, t) && Contains(t, u)
    ensures Contains(s, u)
  {
    var i :| OccursAt(s, t, i);
    var j :| OccursAt(t, u, j);
    assert OccursAt(s, u, i + j) by {
      forall k | 0 <= k < |u| ensures s[i + j + k] == u[k] {
        assert s[i + j + k] == s[i..i + |t|][j + k] == t[j + k] == t[j..j + |u|][k];
      }
    }
  }

  /** Every part of a join appears in it. */
  lemma {:induction false} JoinContainsPart(parts: seq<string>, sep: string, k: nat)
    requires k < |parts|
    ensures Contains(Join(parts, sep), parts[k])
    decreases |parts|
  {
    if |parts| == 1 {
      InfixOfConcat("", parts[0], "");
      assert "" + parts[0] + "" == parts[0];
    } else if k == 0 {
      InfixOfConcat("", parts[0], sep + Join(parts[1..], sep));
      assert "" + parts[0] + (sep + Join(parts[1..], sep)) == Join(parts, sep);
    } else {
      JoinContainsPart(parts[1..], sep, k - 1);
      InfixExtend(parts[k], Join(parts[1..], sep), parts[0] + sep, "");
      assert parts[0] + sep + Join(parts[1..], sep) + "" == Join(parts, sep);
    }
  }

  /** Number of occurrences of `c` in `s`. */
  function CountChar(s: string, c: char): nat {
    if |s| == 0 then 0 else (if s[0] == c then 1 else 0) + CountChar(s[1..], c)
  }

  /** `s.split(c)` for a one-character separator: the pieces between the separators, in order. */
  function Split(s: string, c: char): (r: seq<string>)
    ensures |r| == CountChar(s, c) + 1
    ensures forall k :: 0 <= k < |r| ==> c !in r[k]
    ensures Join(r, [c]) == s
    decreases |s|
  {
    if c !in s then
      assert CountChar(s, c) == 0 by { NoCharNoCount(s, c); }
      [s]
    else
      var i := FirstIndex(s, c);
      var rest := Split(s[i + 1..], c);
      SplitStep(s, c, i, rest);
      [s[..i]] + rest
  }

  /** The piece before the first separator, followed by the pieces of the rest, splits the whole text. */
  lemma SplitStep(s: string, c: char, i: nat, rest: seq<string>)
    requires i < |s| && s[i] == c && c !in s[..i]
    requires |rest| == CountChar(s[i + 1..], c) + 1
    requires forall k :: 0 <= k < |rest| ==> c !in rest[k]
    requires Join(rest, [c]) == s[i + 1..]
    ensures var r := [s[..i]] + rest;
      && |r| == CountChar(s, c) + 1
      && (forall k :: 0 <= k < |r| ==> c !in r[k])
      && Join(r, [c]) == s
  {
    var r := [s[..i]] + rest;
    CountAfterFirst(s, c, i);
    assert r[1..] == rest;
    assert Join(r, [c]) == s[..i] + [c] + s[i + 1..];
    assert s == s[..i] + [c] + s[i + 1..];
    forall k | 0 <= k < |r| ensures c !in r[k] {
      if k > 0 { assert r[k] == rest[k - 1]; }
    }
  }

  function FirstIndex(s: string, c: char): (i: nat)
    requires c in s
    ensures i < |s| && s[i] == c && c !in s[..i]
  {
    if s[0] == c then 0 else
      var j := FirstIndex(s[1..], c);
      assert s[..j + 1] == [s[0]] + s[1..][..j];
      j + 1
  }

  lemma {:induction false} NoCharNoCount(s: string, c: char)
    requires c !in s
    ensures CountChar(s, c) == 0
    decreases |s|
  {
    if |s| > 0 {
      assert s[0] != c;
      assert forall x :: x in s[1..] ==> x in s;
      NoCharNoCount(s[1..], c);
    }
  }

  lemma {:induction false} CountAfterFirst(s: string, c: char, i: nat)
    requires i < |s| && s[i] == c && c !in s[..i]
    ensures CountChar(s, c) == CountChar(s[i + 1..], c) + 1
    decreases i
  {
    if i > 0 {
      assert s[0] in s[..i];
      assert s[1..][..i - 1] == s[1..i];
      assert forall x :: x in s[1..i] ==> x in s[..i];
      CountAfterFirst(s[1..], c, i - 1);
      assert s[1..][i..] == s[i + 1..];
    }
  }

  /** Splitting a join of separator-free parts on the separator gives the parts back. */
  lemma {:induction false} SplitJoin(parts: seq<string>, c: char)
    requires |parts| >= 1
    requires forall k :: 0 <= k < |parts| ==> c !in parts[k]
    ensures Split(Join(parts, [c]), c) == parts
    decreases |parts|
  {
    if |parts| > 1 {
      var s := Join(parts, [c]);
      var rest := Join(parts[1..], [c]);
      var n := |parts[0]|;
      assert s == parts[0] + [c] + rest;
      assert s[n] == c;
      assert s[..n] == parts[0];
      var i := FirstIndex(s, c);
      assert i == n;
      assert s[i + 1..] == rest;
      SplitJoin(parts[1..], c);
      assert [parts[0]] + parts[1..] == parts;
    }
  }

  /** ASCII `toLowerCase` of one character. */
  function LowerChar(c: char): char {
    if 'A' <= c <= 'Z' then (c as int + 32) as char else c
  }

  /** `s.toLowerCase()` restricted to ASCII letters. */
  function ToLower(s: string): (r: string)
    ensures |r| == |s|
    ensures forall i :: 0 <= i < |s| ==> r[i] == LowerChar(s[i])
  {
    seq(|s|, i requires 0 <= i < |s| => LowerChar(s[i]))
  }

  /** Number of UTF-16 code units a character takes: two for characters outside the BMP. */
  function Utf16Width(c: char): nat {
    if c as int >= 0x10000 then 2 else 1
  }

  /** `s.length` in JavaScript: the UTF-16 length. */
  function Utf16Length(s: string): (n: nat)
    ensures n >= |s|
  {
    if |s| == 0 then 0 else Utf16Width(s[0]) + Utf16Length(s[1..])
  }

  lemma {:induction false} Utf16LengthAppend(a: string, b: string)
    ensures Utf16Length(a + b) == Utf16Length(a) + Utf16Length(b)
    decreases |a|
  {
    if |a| > 0 {
      assert (a + b)[1..] == a[1..] + b;
      Utf16LengthAppend(a[1..], b);
    } else {
      assert a + b == b;
    }
  }
}
