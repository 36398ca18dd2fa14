/** Lists without repetitions, and taking one element out of a list. */
module Lists {
  ghost predicate NoRepeat<T>(s: seq<T>) {
    forall i, j | 0 <= i < j < |s| :: s[i] != s[j]
  }

  /** `s` with its first `x` unlinked. */
  function Without<T(==)>(s: seq<T>, x: T): (r: seq<T>)
    ensures x !in s ==> r == s
    ensures x in s ==> |r| == |s| - 1
    ensures forall y | y in r :: y in s
    ensures forall y | y in s && y != x :: y in r
  {
    if s == [] then [] else if s[0] == x then s[1..] else [s[0]] + Without(s[1..], x)
  }

  /** The others keep their order. */
  lemma {:induction false} WithoutLaw<T>(s: seq<T>, x: T) returns (i: nat)
    requires x in s
    ensures i < |s| && s[i] == x && x !in s[..i] && Without(s, x) == s[..i] + s[i + 1..]
  {
    if s[0] == x {
      i := 0;
    } else {
      var j := WithoutLaw(s[1..], x);
      i := j + 1;
      assert s[..i] == [s[0]] + s[1..][..j] && s[1..][j + 1..] == s[i + 1..];
    }
  }

  lemma {:induction false} WithoutNoRepeat<T>(s: seq<T>, x: T)
    requires NoRepeat(s)
    ensures NoRepeat(Without(s, x)) && x !in Without(s, x)
  {
    if s != [] && s[0] != x {
      assert NoRepeat(s[1..]);
      WithoutNoRepeat(s[1..], x);
      assert s[0] !in s[1..];
    }
  }
}
