/** A player's ladder rating and the highest it has been (account_adjust_ladder_rating in
    src/bnetd/account_wrap.c). */
module LadderRating {
  import opened Numbers

  /** A loss as large as the rating leaves 1; anything else is added as 32-bit numbers are. */
  function Adjusted(rating: nat, delta: int): nat {
    if delta < 0 && rating <= -delta then 1 else (rating + delta) % UINT_LIMIT
  }

  function RatingAfter(rating: nat, deltas: seq<int>): nat {
    if deltas == [] then rating else Adjusted(RatingAfter(rating, deltas[..|deltas| - 1]), deltas[|deltas| - 1])
  }

  function HighAfter(rating: nat, high: nat, deltas: seq<int>): nat {
    if deltas == [] then high
    else
      var before, now := HighAfter(rating, high, deltas[..|deltas| - 1]), RatingAfter(rating, deltas);
      if now > before then now else before
  }

  /** The rating never gets beyond 32 bits. */
  ghost predicate InRange(rating: nat, deltas: seq<int>) {
    rating < UINT_LIMIT && forall i | 0 <= i < |deltas| :: RatingAfter(rating, deltas[..i]) + deltas[i] < UINT_LIMIT
  }

  function Sum(deltas: seq<int>): int {
    if deltas == [] then 0 else Sum(deltas[..|deltas| - 1]) + deltas[|deltas| - 1]
  }

  /** What the rating would be had it been at its floor of 1 before the deltas from `k` on, and, for
      `k` before them all, had there been no floor. */
  function Reached(rating: nat, deltas: seq<int>, k: int): int
    requires -1 <= k <= |deltas|
  {
    if k == -1 then rating + Sum(deltas) else 1 + Sum(deltas[k..])
  }

  lemma ReachedOneMore(rating: nat, deltas: seq<int>, d: int, k: int)
    requires -1 <= k <= |deltas|
    ensures Reached(rating, deltas + [d], k) == Reached(rating, deltas, k) + d
  {
    assert (deltas + [d])[..|deltas|] == deltas;
    if k >= 0 {
      var tail := (deltas + [d])[k..];
      assert tail == deltas[k..] + [d] && tail[..|tail| - 1] == deltas[k..];
    }
  }

  /** The rating has left 0: it began above, or some delta was not 0. */
  ghost predicate Lifted(rating: nat, deltas: seq<int>) {
    rating >= 1 || exists i :: 0 <= i < |deltas| && deltas[i] != 0
  }

  /** The floor is there once the rating has left 0. */
  ghost predicate Counts(rating: nat, deltas: seq<int>, k: int)
    requires -1 <= k <= |deltas|
  {
    k == -1 || Lifted(rating, deltas[..k])
  }

  /** The rating in closed form: the largest of the plain sum and of what any run of the latest games adds up
      to when it starts from 1. */
  ghost predicate IsLargest(rating: nat, deltas: seq<int>) {
    && (forall k | -1 <= k <= |deltas| && Counts(rating, deltas, k) ::
          Reached(rating, deltas, k) <= RatingAfter(rating, deltas))
    && exists k :: -1 <= k <= |deltas| && Counts(rating, deltas, k)
                   && RatingAfter(rating, deltas) == Reached(rating, deltas, k)
  }

  /** However wins and losses are mixed, the closed form holds all the way iff no rating passes 32 bits. */
  lemma RatingLaw(rating: nat, deltas: seq<int>)
    requires rating < UINT_LIMIT
    ensures (forall n | 0 <= n <= |deltas| :: IsLargest(rating, deltas[..n])) <==> InRange(rating, deltas)
  {
    hide IsLargest, RatingAfter;
    if InRange(rating, deltas) {
      forall n | 0 <= n <= |deltas|
        ensures IsLargest(rating, deltas[..n])
      {
        assert forall i | 0 <= i < n :: deltas[..n][..i] == deltas[..i];
        Largest(rating, deltas[..n]);
      }
    } else {
      var i :| 0 <= i < |deltas| && RatingAfter(rating, deltas[..i]) + deltas[i] >= UINT_LIMIT;
      if IsLargest(rating, deltas[..i]) && IsLargest(rating, deltas[..i + 1]) {
        assert deltas[..i + 1] == deltas[..i] + [deltas[i]];
        WrapFalls(rating, deltas[..i], deltas[i]);
      }
    }
  }

  /** What a wrapped rating falls short of. */
  lemma WrapFalls(rating: nat, before: seq<int>, d: int)
    requires rating < UINT_LIMIT && IsLargest(rating, before) && RatingAfter(rating, before) + d >= UINT_LIMIT
    ensures !IsLargest(rating, before + [d])
  {
    var deltas := before + [d];
    assert deltas[..|before|] == before;
    assert RatingAfter(rating, deltas) < UINT_LIMIT;
    hide RatingAfter, Reached;
    var k :| -1 <= k <= |before| && Counts(rating, before, k)
             && RatingAfter(rating, before) == Reached(rating, before, k);
    ReachedOneMore(rating, before, d, k);
    assert k >= 0 ==> deltas[..k] == before[..k];
    assert Counts(rating, deltas, k);
  }

  lemma {:induction false} Largest(rating: nat, deltas: seq<int>)
    requires InRange(rating, deltas)
    ensures IsLargest(rating, deltas) && (RatingAfter(rating, deltas) >= 1 <==> Lifted(rating, deltas))
  {
    if deltas == [] {
      assert Reached(rating, deltas, -1) == rating;
      assert Counts(rating, deltas, -1);
    } else {
      var n := |deltas| - 1;
      var before, d := deltas[..n], deltas[n];
      RangeOfPrefix(rating, deltas);
      Largest(rating, before);
      OneMoreDelta(rating, before, d);
      assert before + [d] == deltas;
    }
  }

  lemma RangeOfPrefix(rating: nat, deltas: seq<int>)
    requires deltas != [] && InRange(rating, deltas)
    ensures var before := deltas[..|deltas| - 1];
            InRange(rating, before) && RatingAfter(rating, before) + deltas[|deltas| - 1] < UINT_LIMIT
  {
    hide RatingAfter;
    var n := |deltas| - 1;
    assert forall i | 0 <= i <= n :: deltas[..n][..i] == deltas[..i];
  }

  lemma LiftedOneMore(rating: nat, before: seq<int>, d: int)
    ensures Lifted(rating, before + [d]) <==> Lifted(rating, before) || d != 0
    ensures forall k | 0 <= k <= |before| :: Counts(rating, before + [d], k) <==> Counts(rating, before, k)
    ensures Counts(rating, before + [d], |before| + 1) <==> Lifted(rating, before + [d])
    ensures !Lifted(rating, before) ==> forall k | 0 <= k <= |before| :: !Counts(rating, before, k)
  {
    var deltas := before + [d];
    assert Lifted(rating, deltas) <==> rating >= 1 || d != 0 || exists i :: 0 <= i < |before| && before[i] != 0 by {
      assert deltas[|before|] == d && forall i | 0 <= i < |before| :: deltas[i] == before[i];
    }
    assert deltas[..|before| + 1] == deltas;
    forall k | 0 <= k <= |before|
      ensures deltas[..k] == before[..k]
    {
    }
  }

  lemma OneMoreDelta(rating: nat, before: seq<int>, d: int)
    requires IsLargest(rating, before) && (RatingAfter(rating, before) >= 1 <==> Lifted(rating, before))
    requires RatingAfter(rating, before) + d < UINT_LIMIT
    ensures var deltas := before + [d];
            IsLargest(rating, deltas) && (RatingAfter(rating, deltas) >= 1 <==> Lifted(rating, deltas))
  {
    var deltas, r0 := before + [d], RatingAfter(rating, before);
    assert deltas[..|before|] == before;
    var r := RatingAfter(rating, deltas);
    assert r == if d < 0 && r0 + d <= 0 then 1 else r0 + d;
    assert Reached(rating, deltas, |deltas|) == 1;
    LiftedOneMore(rating, before, d);
    hide RatingAfter, Reached, Counts, Lifted;
    forall k | -1 <= k <= |before|
      ensures Reached(rating, deltas, k) == Reached(rating, before, k) + d
    {
      ReachedOneMore(rating, before, d, k);
    }
    PlainCounts(rating, before, d);
    var k :| -1 <= k <= |before| && Counts(rating, before, k) && r0 == Reached(rating, before, k);
    assert r == Reached(rating, deltas, if r == r0 + d then k else |deltas|);
  }

  lemma PlainCounts(rating: nat, before: seq<int>, d: int)
    ensures Counts(rating, before, -1) && Counts(rating, before + [d], -1)
  {
  }

  /** The high mark is the larger of what it was and the best rating on the way. */
  lemma {:induction false} HighLaw(rating: nat, high: nat, deltas: seq<int>)
    ensures HighAfter(rating, high, deltas) >= high
    ensures forall i | 0 < i <= |deltas| :: RatingAfter(rating, deltas[..i]) <= HighAfter(rating, high, deltas)
    ensures HighAfter(rating, high, deltas) == high
            || exists i :: 0 < i <= |deltas| && RatingAfter(rating, deltas[..i]) == HighAfter(rating, high, deltas)
  {
    if deltas != [] {
      var n := |deltas| - 1;
      var before := deltas[..n];
      HighLaw(rating, high, before);
      assert deltas[..n + 1] == deltas && forall i | 0 <= i <= n :: before[..i] == deltas[..i];
    }
  }

  class Standing {
    var rating: nat
    var highRating: nat
    ghost var first: (nat, nat)
    ghost var deltas: seq<int>

    ghost predicate Valid()
      reads this
    {
      rating == RatingAfter(first.0, deltas) && highRating == HighAfter(first.0, first.1, deltas)
    }

    constructor (rating: nat, highRating: nat)
      ensures Valid() && deltas == [] && first == (rating, highRating)
    {
      this.rating, this.highRating, first, deltas := rating, highRating, (rating, highRating), [];
    }

    method Adjust(delta: int)
      requires Valid()
      modifies this
      ensures Valid() && first == old(first) && deltas == old(deltas) + [delta]
    {
      deltas := deltas + [delta];
      assert deltas[..|deltas| - 1] == old(deltas);
      var newrating;
      if delta < 0 && rating <= -delta {
        newrating := 1;
      } else {
        newrating := (rating + delta) % UINT_LIMIT;
      }
      rating := newrating;
      if newrating > highRating {
        highRating := newrating;
      }
    }
  }
}
