/** Character classes and the few string primitives the lexer relies on:
    RE2's ASCII classes (`\d`, `\s`, `\w` and the `\b` word boundary) and
    Go's `strings.HasPrefix` / `strings.Index`. Text is an ASCII `string`. */
module Text {

  predicate IsDigit(c: char) { '0' <= c <= '9' }

  predicate IsLower(c: char) { 'a' <= c <= 'z' }

  predicate IsUpper(c: char) { 'A' <= c <= 'Z' }

  /** RE2's `\w` = `[0-9A-Za-z_]`, which is also what `\b` looks at. */
  predicate IsWordChar(c: char) { IsLower(c) || IsUpper(c) || IsDigit(c) || c == '_' }

  /** The trailing alphabet of identifiers and constructors: `[a-zA-Z0-9_']`. */
  predicate IsIdentChar(c: char) { IsWordChar(c) || c == '\'' }

  /** RE2's `\s` = `[\t\n\f\r ]` (no vertical tab). */
  predicate IsSpace(c: char) { c == '\t' || c == '\n' || c == '\U{0C}' || c == '\r' || c == ' ' }

  /** RE2's `.` without the `s` flag: any character but a newline. */
  predicate NotNewline(c: char) { c != '\n' }

  /** `\b` at offset `n` of `s`: exactly one of the characters around `n` is a
      word character (outside the string counts as a non-word character). */
  predicate Boundary(s: string, n: nat) {
    (0 < n <= |s| && IsWordChar(s[n - 1])) != (n < |s| && IsWordChar(s[n]))
  }

  /** Go's `strings.HasPrefix`. */
  predicate StartsWith(s: string, prefix: string): (b: bool)
    ensures b <==> |prefix| <= |s| && forall i :: 0 <= i < |prefix| ==> s[i] == prefix[i]
  {
    |prefix| <= |s| && s[..|prefix|] == prefix
  }

  /** `pat` occurs in `s` starting at offset `k`. */
  predicate OccursAt(s: string, pat: string, k: int) {
    0 <= k && k + |pat| <= |s| && s[k..k + |pat|] == pat
  }

  /** The first offset `k >= from` at which `pat` occurs in `s`, or -1;
      `IndexFrom(s, pat, 0)` is Go's `strings.Index(s, pat)`. */
  function IndexFrom(s: string, pat: string, from: nat): (k: int)
    ensures k == -1 || (from <= k && OccursAt(s, pat, k))
    ensures k == -1 ==> forall j :: from <= j ==> !OccursAt(s, pat, j)
    ensures k != -1 ==> forall j :: from <= j < k ==> !OccursAt(s, pat, j)
    decreases |s| - from
  {
    if from + |pat| > |s| then -1
    else if s[from..from + |pat|] == pat then from
    else IndexFrom(s, pat, from + 1)
  }

  /** Length of the longest prefix of `s` all of whose characters satisfy
      `p`: what a greedy `[class]*` consumes. */
  function Span(s: string, p: char -> bool): (n: nat)
    ensures n <= |s|
    ensures forall k :: 0 <= k < n ==> p(s[k])
    ensures n < |s| ==> !p(s[n])
  {
    if s == [] || !p(s[0]) then 0 else 1 + Span(s[1..], p)
  }
}
