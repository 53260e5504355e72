/**
 * The one piece of JavaScript string semantics the components depend on:
 * `String.prototype.trim`, used by the translate guard `!sourceText.trim()`.
 * `trim` removes leading and trailing WhiteSpace and LineTerminator code
 * points (sections 12.2 and 12.3 of ECMA-262); an empty string is falsy.
 */
module JsString {

  /** The WhiteSpace and LineTerminator code points that `trim` removes. */
  predicate IsTrimmable(c: char)
  {
    // WhiteSpace: TAB, VT, FF, ZWNBSP and every Zs code point
    c == '\t' || c == '\U{000B}' || c == '\U{000C}' || c == '\U{FEFF}'
    || c == ' ' || c == '\U{00A0}' || c == '\U{1680}' || ('\U{2000}' <= c <= '\U{200A}')
    || c == '\U{202F}' || c == '\U{205F}' || c == '\U{3000}'
    // LineTerminator: LF, CR, LS, PS
    || c == '\n' || c == '\r' || c == '\U{2028}' || c == '\U{2029}'
  }

  /** True when every character of `s` is one that `trim` removes. */
  predicate AllTrimmable(s: string)
  {
    forall i :: 0 <= i < |s| ==> IsTrimmable(s[i])
  }

  /** The number of trimmable characters `s` starts with. */
  function LeadingTrimmable(s: string): (n: nat)
    ensures n <= |s|
    ensures forall i :: 0 <= i < n ==> IsTrimmable(s[i])
    ensures n == |s| || !IsTrimmable(s[n])
  {
    if s != [] && IsTrimmable(s[0]) then
      var n := 1 + LeadingTrimmable(s[1..]);
      assert forall i :: 1 <= i < n ==> s[i] == s[1..][i - 1];
      n
    else 0
  }

  /** The number of trimmable characters `s` ends with. */
  function TrailingTrimmable(s: string): (n: nat)
    ensures n <= |s|
    ensures forall i :: |s| - n <= i < |s| ==> IsTrimmable(s[i])
    ensures n == |s| || !IsTrimmable(s[|s| - n - 1])
  {
    if s != [] && IsTrimmable(s[|s| - 1]) then
      var n := 1 + TrailingTrimmable(s[..|s| - 1]);
      assert forall i :: |s| - n <= i < |s| - 1 ==> s[i] == s[..|s| - 1][i];
      n
    else 0
  }

  /** `s` without its leading trimmable characters: a suffix of `s` that starts with a kept character. */
  function TrimStart(s: string): (r: string)
    ensures |r| <= |s| && r == s[|s| - |r|..]
    ensures r == [] || !IsTrimmable(r[0])
    ensures forall i :: 0 <= i < |s| - |r| ==> IsTrimmable(s[i])
  {
    s[LeadingTrimmable(s)..]
  }

  /** `s` without its trailing trimmable characters: a prefix of `s` that ends with a kept character. */
  function TrimEnd(s: string): (r: string)
    ensures |r| <= |s| && r == s[..|r|]
    ensures r == [] || !IsTrimmable(r[|r| - 1])
    ensures forall i :: |r| <= i < |s| ==> IsTrimmable(s[i])
  {
    s[..|s| - TrailingTrimmable(s)]
  }

  /**
   * Cutting a trimmable run `s[..i]` off the front of `s`, leaving `t`, which
   * starts with a kept character, and then a trimmable run off the back of
   * `t`, leaving `r`, which ends with a kept character, leaves the slice of
   * `s` between two trimmable runs; it is empty exactly when all of `s` is
   * trimmable.
   */
  lemma TrimmedSlice(s: string, i: nat, t: string, r: string)
    requires i <= |s| && t == s[i..] && |r| <= |t| && r == t[..|r|]
    requires forall k :: 0 <= k < i ==> IsTrimmable(s[k])
    requires forall k :: |r| <= k < |t| ==> IsTrimmable(t[k])
    requires t == [] || !IsTrimmable(t[0])
    requires r == [] || !IsTrimmable(r[|r| - 1])
    ensures r == s[i..i + |r|]
    ensures AllTrimmable(s[..i]) && AllTrimmable(s[i + |r|..])
    ensures r == [] || (!IsTrimmable(r[0]) && !IsTrimmable(r[|r| - 1]))
    ensures r == [] <==> AllTrimmable(s)
  {
    var tail := s[i + |r|..];
    assert forall k :: 0 <= k < i ==> s[..i][k] == s[k];
    assert forall k :: 0 <= k < |tail| ==> tail[k] == t[|r| + k];
    if r == [] {
      // nothing of `t` is kept, and `t` cannot start with a kept character
      assert t == [];
      assert forall k :: 0 <= k < |s| ==> s[k] == s[..i][k];
    } else {
      assert r[0] == t[0];
      assert !IsTrimmable(s[i]);
    }
  }

  /**
   * `s.trim()`: a contiguous slice of `s` that neither starts nor ends with a
   * trimmable character, and is empty exactly when all of `s` is trimmable.
   */
  function Trim(s: string): (r: string)
    ensures |r| <= |s|
    ensures r == [] || (!IsTrimmable(r[0]) && !IsTrimmable(r[|r| - 1]))
    ensures r == [] <==> AllTrimmable(s)
    ensures exists i, j :: 0 <= i <= j <= |s| && r == s[i..j] && AllTrimmable(s[..i]) && AllTrimmable(s[j..])
  {
    var t := TrimStart(s);
    var r := TrimEnd(t);
    var i := |s| - |t|;
    TrimmedSlice(s, i, t, r);
    assert r == s[i..i + |r|] && AllTrimmable(s[..i]) && AllTrimmable(s[i + |r|..]);
    r
  }

  /**
   * The translate guard `!s.trim()`: `trim` leaves the empty string, which
   * happens exactly when every character of `s` is trimmable (so "" is blank).
   */
  predicate IsBlank(s: string)
    ensures IsBlank(s) <==> AllTrimmable(s)
  {
    Trim(s) == []
  }
}
