/**
 * The e-mail allow-list: how the comma-separated configuration value becomes a list of
 * normalised addresses, and the middleware's decision to pass a request on or refuse it.
 */
module AllowList {
  import opened Wrappers
  import opened Strings

  /** `process.env.ALLOWED_EMAILS || allowedEmails.value()`: a non-empty environment value wins. */
  function ConfiguredEmails(env: Option<string>, param: string): (s: string)
    ensures Truthy(env) ==> s == env.value
    ensures !Truthy(env) ==> s == param
  {
    if Truthy(env) then env.value else param
  }

  /** `email.trim().toLowerCase()`, with the ASCII lower-casing of `ToLower`. */
  function Normalize(e: string): string {
    ToLower(Trim(e))
  }

  /** `.map(email => email.trim().toLowerCase())`. */
  function NormalizeEach(pieces: seq<string>): (r: seq<string>)
    ensures |r| == |pieces|
    ensures forall i :: 0 <= i < |pieces| ==> r[i] == Normalize(pieces[i])
  {
    seq(|pieces|, i requires 0 <= i < |pieces| => Normalize(pieces[i]))
  }

  /** The positions of the non-empty strings, in increasing order. */
  function KeptIndices(xs: seq<string>): (idx: seq<nat>)
    ensures forall k :: 0 <= k < |idx| ==> idx[k] < |xs| && xs[idx[k]] != ""
    ensures forall k, l :: 0 <= k < l < |idx| ==> idx[k] < idx[l]
    ensures forall j :: 0 <= j < |xs| && xs[j] != "" ==> j in idx
    ensures |idx| <= |xs|
    decreases |xs|
  {
    if |xs| == 0 then []
    else
      var init := xs[..|xs| - 1];
      KeptIndices(init) + (if xs[|xs| - 1] != "" then [|xs| - 1] else [])
  }

  /** `.filter(Boolean)` on strings: drops the empty ones and keeps the order of the rest. */
  function DropEmpty(xs: seq<string>): (r: seq<string>)
    ensures |r| == |KeptIndices(xs)|
    ensures forall k :: 0 <= k < |r| ==> r[k] == xs[KeptIndices(xs)[k]]
    decreases |xs|
  {
    if |xs| == 0 then []
    else
      var init := xs[..|xs| - 1];
      DropEmpty(init) + (if xs[|xs| - 1] != "" then [xs[|xs| - 1]] else [])
  }

  /** Lower-casing an ASCII letter never produces or removes whitespace. */
  lemma LowerKeepsWhitespace(c: char)
    ensures IsWhitespace(LowerChar(c)) <==> IsWhitespace(c)
    ensures LowerChar(LowerChar(c)) == LowerChar(c)
  {
  }

  /** A normalised address that is kept is already trimmed and lower-case. */
  lemma NormalizedIsCanonical(e: string)
    requires Normalize(e) != ""
    ensures Trim(Normalize(e)) == Normalize(e)
    ensures ToLower(Normalize(e)) == Normalize(e)
  {
    var t := Trim(e);
    LowerKeepsTrimmed(t);
    TrimOfTrimmed(ToLower(t));
    LowerIdempotent(t);
  }

  /** Lower-casing keeps a trimmed text trimmed. */
  lemma LowerKeepsTrimmed(t: string)
    requires Trimmed(t)
    ensures Trimmed(ToLower(t))
  {
    if t != [] {
      LowerKeepsWhitespace(t[0]);
      LowerKeepsWhitespace(t[|t| - 1]);
    }
  }

  /** Lower-casing twice is lower-casing once. */
  lemma LowerIdempotent(t: string)
    ensures ToLower(ToLower(t)) == ToLower(t)
  {
    forall i | 0 <= i < |t| ensures ToLower(ToLower(t))[i] == ToLower(t)[i] {
      LowerKeepsWhitespace(t[i]);
    }
  }

  /** Every address that survives the normalisation and the filter is non-empty, trimmed and lower-case. */
  lemma KeptAreCanonical(pieces: seq<string>)
    ensures var r := DropEmpty(NormalizeEach(pieces));
      forall k :: 0 <= k < |r| ==> r[k] != "" && Trim(r[k]) == r[k] && ToLower(r[k]) == r[k]
  {
    var r := DropEmpty(NormalizeEach(pieces));
    forall k | 0 <= k < |r| ensures r[k] != "" && Trim(r[k]) == r[k] && ToLower(r[k]) == r[k] {
      NormalizedIsCanonical(pieces[KeptIndices(NormalizeEach(pieces))[k]]);
    }
  }

  /**
   * `parseAllowedEmails()`, with the environment variable and the deployment parameter as
   * inputs. An empty configuration gives the empty list; otherwise each comma-separated piece is
   * trimmed and lower-cased, and empty pieces are dropped.
   */
  function ParseAllowedEmails(env: Option<string>, param: string): (r: seq<string>)
    ensures ConfiguredEmails(env, param) == "" ==> r == []
    ensures ConfiguredEmails(env, param) != "" ==> r == DropEmpty(NormalizeEach(Split(ConfiguredEmails(env, param), ',')))
    ensures |r| <= CountChar(ConfiguredEmails(env, param), ',') + 1
    ensures forall k :: 0 <= k < |r| ==> r[k] != "" && Trim(r[k]) == r[k] && ToLower(r[k]) == r[k]
  {
    var emails := ConfiguredEmails(env, param);
    if emails == "" then []
    else
      KeptAreCanonical(Split(emails, ','));
      DropEmpty(NormalizeEach(Split(emails, ',')))
  }

  /** An address written in the configuration, in any case and with any surrounding blanks, is on the list. */
  lemma ConfiguredAddressListed(env: Option<string>, param: string, j: nat)
    requires j < |Split(ConfiguredEmails(env, param), ',')|
    requires Normalize(Split(ConfiguredEmails(env, param), ',')[j]) != ""
    ensures Normalize(Split(ConfiguredEmails(env, param), ',')[j]) in ParseAllowedEmails(env, param)
  {
    var emails := ConfiguredEmails(env, param);
    var pieces := Split(emails, ',');
    assert emails != "";
    var normalized := NormalizeEach(pieces);
    var r := DropEmpty(normalized);
    assert ParseAllowedEmails(env, param) == r;
    var idx := KeptIndices(normalized);
    assert normalized[j] != "";
    var k :| 0 <= k < |idx| && idx[k] == j;
    assert r[k] == normalized[j];
  }

  datatype Outcome = Next | Denied(status: int, error: string)

  const DENIED_MESSAGE: string := "Access denied. " + "Email not in allowed list."

  /**
   * `allowedEmailsMiddleware`: with no list configured every authenticated user passes;
   * otherwise the user passes exactly when the lower-cased address is on the list, and is
   * refused with a 403 otherwise.
   */
  function Decide(allowed: seq<string>, email: string): (o: Outcome)
    ensures |allowed| == 0 ==> o == Next
    ensures |allowed| > 0 ==> (o == Next <==> ToLower(email) in allowed)
    ensures o.Denied? ==> o.status == 403 && o.error == DENIED_MESSAGE
  {
    if |allowed| == 0 then Next
    else if ToLower(email) !in allowed then Denied(403, DENIED_MESSAGE)
    else Next
  }

  /** A user whose address is configured, however its ASCII letters are cased, passes the middleware. */
  lemma ConfiguredUserPasses(env: Option<string>, param: string, j: nat, email: string)
    requires j < |Split(ConfiguredEmails(env, param), ',')|
    requires Normalize(Split(ConfiguredEmails(env, param), ',')[j]) == ToLower(email) != ""
    ensures Decide(ParseAllowedEmails(env, param), email) == Next
  {
    ConfiguredAddressListed(env, param, j);
  }

  /** The decision depends on the address only up to ASCII case. */
  lemma DecisionIgnoresCase(allowed: seq<string>, a: string, b: string)
    requires ToLower(a) == ToLower(b)
    ensures Decide(allowed, a) == Decide(allowed, b)
  {
  }
}
