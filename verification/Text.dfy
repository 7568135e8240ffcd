/** The string functions the program takes from its standard library. */
module Text {

  predicate IsSpace(c: char) {
    || '\t' <= c <= '\r' || c == ' ' || c == '\U{85}' || c == '\U{A0}' || c == '\U{1680}'
    || '\U{2000}' <= c <= '\U{200A}' || c == '\U{2028}' || c == '\U{2029}'
    || c == '\U{202F}' || c == '\U{205F}' || c == '\U{3000}'
  }

  function TrimLeft(s: string): (r: string)
    ensures |r| <= |s|
  {
    if s != "" && IsSpace(s[0]) then TrimLeft(s[1..]) else s
  }

  function TrimRight(s: string): (r: string)
    ensures |r| <= |s|
  {
    if s != "" && IsSpace(s[|s| - 1]) then TrimRight(s[..|s| - 1]) else s
  }

  function TrimSpace(s: string): string {
    TrimRight(TrimLeft(s))
  }

  /** Neither end is a space. */
  predicate Trimmed(s: string) {
    s == "" || (!IsSpace(s[0]) && !IsSpace(s[|s| - 1]))
  }

  predicate At(s: string, i: nat, pat: string) {
    i + |pat| <= |s| && s[i..i + |pat|] == pat
  }

  /** First position of pat at or after i, |s| when there is none. */
  function IndexFrom(s: string, pat: string, i: nat): (p: nat)
    requires pat != "" && i <= |s|
    ensures i <= p <= |s|
    ensures p < |s| ==> At(s, p, pat)
    ensures forall j :: i <= j < p ==> !At(s, j, pat)
    ensures p == |s| ==> !At(s, p, pat)
    decreases |s| - i
  {
    if i == |s| || At(s, i, pat) then i else IndexFrom(s, pat, i + 1)
  }

  /** First position of pat, |s| when there is none. */
  function Index(s: string, pat: string): (p: nat)
    requires pat != ""
    ensures p <= |s| && (p < |s| ==> p + |pat| <= |s|)
  {
    IndexFrom(s, pat, 0)
  }

  predicate Contains(s: string, pat: string)
    requires pat != ""
  {
    Index(s, pat) < |s|
  }

  predicate HasPrefix(s: string, pat: string) {
    pat <= s
  }

  function TrimPrefix(s: string, pat: string): string {
    if pat <= s then s[|pat|..] else s
  }

  /** Position of the first sep, |s| when there is none. */
  function Cut(s: string, sep: char): (p: nat)
    ensures p <= |s|
    ensures p < |s| ==> s[p] == sep
    ensures sep !in s[..p]
  {
    if s == "" || s[0] == sep then 0 else 1 + Cut(s[1..], sep)
  }

  /** At most n pieces separated by sep. */
  function SplitN(s: string, sep: char, n: nat): (r: seq<string>)
    requires n > 0
    ensures 1 <= |r| <= n
    decreases n
  {
    var p := Cut(s, sep);
    if n == 1 || p == |s| then [s] else [s[..p]] + SplitN(s[p + 1..], sep, n - 1)
  }

  function Split(s: string, sep: char): (r: seq<string>)
    ensures |r| >= 1
    ensures forall x :: x in r ==> sep !in x
  {
    var p := Cut(s, sep);
    if p == |s| then [s] else [s[..p]] + Split(s[p + 1..], sep)
  }

  function Join(parts: seq<string>, sep: string): string {
    if parts == [] then ""
    else if |parts| == 1 then parts[0]
    else parts[0] + sep + Join(parts[1..], sep)
  }
}
