/** Characters and strings that several formats share. */
module Texts {

  predicate Digit(c: char) { '0' <= c <= '9' }

  predicate Lower(c: char) { 'a' <= c <= 'z' }

  predicate Upper(c: char) { 'A' <= c <= 'Z' }

  predicate Space(c: char) {
    || '\t' <= c <= '\r' || '\U{1C}' <= c <= ' ' || c == '\U{85}' || c == '\U{A0}' || c == '\U{1680}'
    || '\U{2000}' <= c <= '\U{200A}' || c in "\U{2028}\U{2029}\U{202F}\U{205F}\U{3000}"
  }

  predicate StartsWith(s: string, prefix: string) {
    |prefix| <= |s| && s[..|prefix|] == prefix
  }

  predicate Contains(s: string, part: string) {
    exists i :: 0 <= i <= |s| && StartsWith(s[i..], part)
  }

  /** The number of characters before the first equals sign. */
  function BeforeEquals(s: string): (n: nat)
    ensures n <= |s|
  {
    if s == [] || s[0] == '=' then 0 else 1 + BeforeEquals(s[1..])
  }

  lemma {:induction false} EqualsAt(s: string, n: nat)
    requires n < |s| && s[n] == '=' && forall i :: 0 <= i < n ==> s[i] != '='
    ensures BeforeEquals(s) == n
  {
    if n > 0 {
      EqualsAt(s[1..], n - 1);
    }
  }
}
