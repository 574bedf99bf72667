/** The string primitives of JavaScript that the core relies on. */
module Text {

  /** The characters matched by the regular expression `\s` and removed by `String.prototype.trim`
      (ECMAScript WhiteSpace and LineTerminator). */
  predicate IsJsSpace(c: char) {
    || c == '\t' || c == '\n' || c == '\U{000B}' || c == '\U{000C}' || c == '\r' || c == ' '
    || c == '\U{00A0}' || c == '\U{1680}' || ('\U{2000}' <= c <= '\U{200A}')
    || c == '\U{2028}' || c == '\U{2029}' || c == '\U{202F}' || c == '\U{205F}'
    || c == '\U{3000}' || c == '\U{FEFF}'
  }

  predicate AllSpace(s: string) {
    forall i :: 0 <= i < |s| ==> IsJsSpace(s[i])
  }

  predicate NoSpace(s: string) {
    forall i :: 0 <= i < |s| ==> !IsJsSpace(s[i])
  }

  predicate StartsWith(s: string, p: string) {
    |p| <= |s| && s[..|p|] == p
  }

  /** `s.trim()`: the infix of `s` left once leading and trailing whitespace is removed. */
  function Trim(s: string): (r: string)
    ensures exists i, j :: 0 <= i <= j <= |s| && r == s[i..j] && AllSpace(s[..i]) && AllSpace(s[j..])
    ensures r != [] ==> !IsJsSpace(r[0]) && !IsJsSpace(r[|r| - 1])
  {
    var i := SkipSpace(s, 0);
    var j := BackSpace(s, i, |s|);
    assert AllSpace(s[..i]) && AllSpace(s[j..]);
    s[i..j]
  }

  /** The first index at or after `k` that holds no whitespace (or `|s|`). */
  function SkipSpace(s: string, k: nat): (i: nat)
    requires k <= |s|
    requires AllSpace(s[..k])
    ensures k <= i <= |s| && AllSpace(s[..i])
    ensures i < |s| ==> !IsJsSpace(s[i])
    decreases |s| - k
  {
    if k < |s| && IsJsSpace(s[k]) then SkipSpace(s, k + 1) else k
  }

  /** The smallest `j` in `lo..k` with `s[j..]` all whitespace, moving down from `k`. */
  function BackSpace(s: string, lo: nat, k: nat): (j: nat)
    requires lo <= k <= |s|
    requires AllSpace(s[k..])
    ensures lo <= j <= k && AllSpace(s[j..])
    ensures j > lo ==> !IsJsSpace(s[j - 1])
    decreases k
  {
    if k > lo && IsJsSpace(s[k - 1]) then BackSpace(s, lo, k - 1) else k
  }

  /** `s.indexOf(c)`: the first position of `c`, or -1. */
  function IndexOf(s: string, c: char): (r: int)
    ensures -1 <= r < |s|
    ensures r == -1 <==> c !in s
    ensures r >= 0 ==> s[r] == c && c !in s[..r]
  {
    if s == [] then -1
    else if s[0] == c then 0
    else
      var r := IndexOf(s[1..], c);
      if r == -1 then -1 else assert s[..r + 1] == [s[0]] + s[1..][..r]; r + 1
  }

  /** `s.lastIndexOf(c)`: the last position of `c`, or -1. */
  function LastIndexOf(s: string, c: char): (r: int)
    ensures -1 <= r < |s|
    ensures r == -1 <==> c !in s
    ensures r >= 0 ==> s[r] == c
    ensures forall i :: r < i < |s| ==> s[i] != c
  {
    if s == [] then -1
    else if s[|s| - 1] == c then |s| - 1
    else
      assert s == s[..|s| - 1] + [s[|s| - 1]];
      LastIndexOf(s[..|s| - 1], c)
  }

  /** `s.toUpperCase()` restricted to ASCII letters; other characters are kept. */
  function AsciiUpper(s: string): (r: string)
    ensures |r| == |s|
    ensures forall i :: 0 <= i < |s| ==> r[i] == if 'a' <= s[i] <= 'z' then (s[i] as int - 32) as char else s[i]
  {
    if s == [] then [] else [UpperChar(s[0])] + AsciiUpper(s[1..])
  }

  function UpperChar(c: char): char {
    if 'a' <= c <= 'z' then (c as int - 32) as char else c
  }
}
