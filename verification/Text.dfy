/** The string functions the modelled code takes from its standard library. */
module Text {

  datatype Option<+T> = None | Some(value: T)

  /** White space in the sense of unicode.IsSpace. */
  predicate IsSpace(c: char) {
    || '\t' <= c <= '\r' || c == ' ' || c == '\U{0085}' || c == '\U{00A0}' || c == '\U{1680}'
    || '\U{2000}' <= c <= '\U{200A}' || c == '\U{2028}' || c == '\U{2029}' || c == '\U{202F}'
    || c == '\U{205F}' || c == '\U{3000}'
  }

  /** s without its leading characters in cut. */
  function TrimLeft(s: string, cut: char -> bool): (r: string)
    ensures |r| <= |s|
  {
    if s != "" && cut(s[0]) then TrimLeft(s[1..], cut) else s
  }

  /** s without its trailing characters in cut. */
  function TrimRight(s: string, cut: char -> bool): (r: string)
    ensures |r| <= |s|
  {
    if s != "" && cut(s[|s| - 1]) then TrimRight(s[..|s| - 1], cut) else s
  }

  function TrimSpace(s: string): string {
    TrimRight(TrimLeft(s, IsSpace), IsSpace)
  }

  function TrimSuffix(s: string, suffix: string): string {
    if HasSuffix(s, suffix) then s[..|s| - |suffix|] else s
  }

  predicate HasSuffix(s: string, suffix: string) {
    |suffix| <= |s| && s[|s| - |suffix|..] == suffix
  }

  /** A trim stops where the first character to keep stands. */
  lemma {:induction false} TrimLeftIs(s: string, cut: char -> bool, n: nat)
    requires n <= |s| && (n == |s| || !cut(s[n]))
    requires forall i | 0 <= i < n :: cut(s[i])
    ensures TrimLeft(s, cut) == s[n..]
  {
    if n > 0 { TrimLeftIs(s[1..], cut, n - 1); }
  }

  lemma {:induction false} TrimRightIs(s: string, cut: char -> bool, n: nat)
    requires n <= |s| && (n == 0 || !cut(s[n - 1]))
    requires forall i | n <= i < |s| :: cut(s[i])
    ensures TrimRight(s, cut) == s[..n]
  {
    if n < |s| {
      TrimRightIs(s[..|s| - 1], cut, n);
      assert s[..|s| - 1][..n] == s[..n];
    }
  }
}
