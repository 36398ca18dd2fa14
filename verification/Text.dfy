/** C strings and the case-insensitive comparison that names, attribute keys and bans go through
    (src/compat/strcasecmp.c, in the C locale: only A-Z fold). */
module Text {
  datatype Option<+T> = None | Some(value: T)

  /** A byte that can occur inside a NUL-terminated string. */
  predicate IsByte(c: char) {
    0 < c as int < 256
  }

  predicate CString(s: string) {
    forall c | c in s :: IsByte(c)
  }

  function Lower(c: char): char {
    if 'A' <= c <= 'Z' then (c as int + 32) as char else c
  }

  /** The canonical representative of all spellings of `s` that differ only in case. */
  function Fold(s: string): (f: string)
    ensures |f| == |s|
    ensures forall i | 0 <= i < |s| :: f[i] == Lower(s[i])
  {
    seq(|s|, i requires 0 <= i < |s| => Lower(s[i]))
  }

  /** strcasecmp(s, t) == 0. */
  predicate SameText(s: string, t: string) {
    Fold(s) == Fold(t)
  }

  /** Equal, or a letter and the same letter in the other case. */
  ghost predicate SameLetter(c: char, d: char) {
    || c == d
    || ('A' <= c <= 'Z' && d as int == c as int + 32)
    || ('A' <= d <= 'Z' && c as int == d as int + 32)
  }

  /** Only the case of the letters A to Z is overlooked. */
  lemma SameTextLaw(s: string, t: string)
    ensures SameText(s, t) <==> |s| == |t| && forall i | 0 <= i < |s| :: SameLetter(s[i], t[i])
  {
    if SameText(s, t) {
      assert |Fold(s)| == |Fold(t)|;
      forall i | 0 <= i < |s|
        ensures SameLetter(s[i], t[i])
      {
        assert Fold(s)[i] == Fold(t)[i];
      }
    }
  }

  /** The comparison loop itself: both indices run together until one string ends. */
  method StrCaseEqual(s: string, t: string) returns (same: bool)
    ensures same == SameText(s, t)
  {
    var i := 0;
    while i < |s| && i < |t|
      invariant 0 <= i <= |s| && i <= |t|
      invariant forall j | 0 <= j < i :: Lower(s[j]) == Lower(t[j])
    {
      if Lower(s[i]) != Lower(t[i]) {
        assert Fold(s)[i] != Fold(t)[i];
        return false;
      }
      i := i + 1;
    }
    same := |s| == |t|;
    assert same ==> Fold(s) == Fold(t);
  }
}
