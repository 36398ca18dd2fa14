/** How the reports of several clients settle a game's results (game_check_result and
    game_set_result in src/bnetd/game.c). Accounts are named by their uids. */
module GameResults {
  datatype Result = NoResult | Win | Loss | Draw | Disconnect | Observer | Playing

  /** What a report says about one player. */
  datatype Claim = Claim(account: nat, result: Result)

  datatype Score = Score(results: seq<Result>, bad: bool)

  /** A result that later reports cannot replace. */
  predicate Final(r: Result) {
    r != NoResult && r != Playing
  }

  /** The results that end a game for a player. */
  ghost predicate Decided(r: Result) {
    match r
    case Win => true
    case Loss => true
    case Draw => true
    case Disconnect => true
    case Observer => true
    case NoResult => false
    case Playing => false
  }

  /** The slot a report is about: the last one of that account, or the number of slots. */
  function SlotOf(players: seq<nat>, account: nat): (pos: nat)
    ensures pos <= |players|
    ensures pos < |players| ==> players[pos] == account
    ensures forall i | 0 <= i < |players| && players[i] == account :: i <= pos < |players|
  {
    if players == [] then 0
    else
      var last := |players| - 1;
      if players[last] == account then last
      else
        var pos := SlotOf(players[..last], account);
        if pos == last then |players| else pos
  }

  /** game_check_result; a claim of NoResult is refused without effect. */
  function Check(players: seq<nat>, s: Score, c: Claim): (t: Score)
    requires |s.results| == |players|
    ensures |t.results| == |players|
  {
    var pos := SlotOf(players, c.account);
    if c.result == NoResult then s
    else if pos == |players| then s.(bad := true)
    else if s.results[pos] == c.result then s
    else if !Final(s.results[pos]) then s.(results := s.results[pos := c.result])
    else s.(bad := true)
  }

  function Checked(players: seq<nat>, s: Score, claims: seq<Claim>): (t: Score)
    requires |s.results| == |players|
    ensures |t.results| == |players|
  {
    if claims == [] then s
    else Check(players, Checked(players, s, claims[..|claims| - 1]), claims[|claims| - 1])
  }

  /** The slot holds a final result from the start, or some earlier claim gave it one. */
  ghost predicate Gave(players: seq<nat>, s: Score, claims: seq<Claim>, pos: nat, r: Result)
    requires |s.results| == |players| && pos < |players|
  {
    Decided(r) && (s.results[pos] == r || exists i | 0 <= i < |claims| :: claims[i] == Claim(players[pos], r))
  }

  /** Claim `j` names a non-player, or contradicts a final result given before it. */
  ghost predicate Conflict(players: seq<nat>, s: Score, claims: seq<Claim>, j: nat)
    requires |s.results| == |players| && j < |claims|
  {
    var pos := SlotOf(players, claims[j].account);
    claims[j].result != NoResult &&
    (pos == |players| || exists r :: r != claims[j].result && Gave(players, s, claims[..j], pos, r))
  }

  /** A final result never changes and the bad mark never clears. */
  lemma {:induction false} Sticky(players: seq<nat>, s: Score, claims: seq<Claim>, n: nat)
    requires |s.results| == |players| && n <= |claims|
    ensures var early, late := Checked(players, s, claims[..n]), Checked(players, s, claims);
            && (early.bad ==> late.bad)
            && forall pos | 0 <= pos < |players| && Decided(early.results[pos]) ::
                 late.results[pos] == early.results[pos]
    decreases |claims| - n
  {
    if n == |claims| {
      assert claims[..n] == claims;
    } else {
      assert claims[..n + 1][..n] == claims[..n];
      Sticky(players, s, claims, n + 1);
    }
  }

  /** What the results array says and what the claims gave, for the slot that claims are about. */
  lemma {:induction false} Tracks(players: seq<nat>, s: Score, claims: seq<Claim>, pos: nat)
    requires |s.results| == |players| && pos < |players| && SlotOf(players, players[pos]) == pos
    ensures var t := Checked(players, s, claims);
            && (Decided(t.results[pos]) ==> Gave(players, s, claims, pos, t.results[pos]))
            && (forall r | Gave(players, s, claims, pos, r) ::
                  Decided(t.results[pos]) && (!t.bad ==> t.results[pos] == r))
  {
    if claims != [] {
      var n := |claims| - 1;
      Tracks(players, s, claims[..n], pos);
      Sticky(players, s, claims, n);
      var early := Checked(players, s, claims[..n]);
      forall r | Gave(players, s, claims, pos, r)
        ensures Gave(players, s, claims[..n], pos, r) || claims[n] == Claim(players[pos], r)
      {
      }
      if Decided(early.results[pos]) {
        assert Gave(players, s, claims[..n], pos, early.results[pos]);
      }
    }
  }

  /** The bad mark is set iff some claim names a non-player or contradicts a final result that was
      given before it, claims of "still playing" included. */
  lemma {:induction false} BadLaw(players: seq<nat>, s: Score, claims: seq<Claim>)
    requires |s.results| == |players|
    ensures Checked(players, s, claims).bad <==>
            s.bad || exists j :: 0 <= j < |claims| && Conflict(players, s, claims, j)
  {
    if claims != [] {
      var n := |claims| - 1;
      var before := claims[..n];
      BadLaw(players, s, before);
      forall j | 0 <= j < n
        ensures Conflict(players, s, before, j) <==> Conflict(players, s, claims, j)
      {
        assert before[..j] == claims[..j];
      }
      LastConflict(players, s, claims);
      if exists j :: 0 <= j < |claims| && Conflict(players, s, claims, j) {
        var j :| 0 <= j < |claims| && Conflict(players, s, claims, j);
        assert j < n ==> Conflict(players, s, before, j);
      }
      if exists j :: 0 <= j < n && Conflict(players, s, before, j) {
        var j :| 0 <= j < n && Conflict(players, s, before, j);
        assert Conflict(players, s, claims, j);
      }
    }
  }

  lemma LastConflict(players: seq<nat>, s: Score, claims: seq<Claim>)
    requires |s.results| == |players| && claims != []
    ensures var n, early := |claims| - 1, Checked(players, s, claims[..|claims| - 1]);
            && (early.bad ==> Checked(players, s, claims).bad)
            && (!early.bad ==> (Checked(players, s, claims).bad <==> Conflict(players, s, claims, n)))
  {
    hide Checked;
    var n := |claims| - 1;
    var early := Checked(players, s, claims[..n]);
    LastCheck(players, s, claims);
    var pos := SlotOf(players, claims[n].account);
    if pos < |players| && !early.bad {
      Tracks(players, s, claims[..n], pos);
      assert Conflict(players, s, claims, n) ==>
          exists r :: r != claims[n].result && Gave(players, s, claims[..n], pos, r);
    }
  }

  lemma LastCheck(players: seq<nat>, s: Score, claims: seq<Claim>)
    requires |s.results| == |players| && claims != []
    ensures Checked(players, s, claims) ==
            Check(players, Checked(players, s, claims[..|claims| - 1]), claims[|claims| - 1])
  {
  }

  lemma {:induction false} Untouched(players: seq<nat>, s: Score, claims: seq<Claim>, pos: nat)
    requires |s.results| == |players| && pos < |players|
    requires forall c | c in claims && SlotOf(players, c.account) == pos :: c.result == NoResult
    ensures Checked(players, s, claims).results[pos] == s.results[pos]
  {
    if claims != [] {
      Untouched(players, s, claims[..|claims| - 1], pos);
    }
  }

  // ------------------------------------------------- the order of the claims

  /** The result `r` stands against claim `c` in whatever order the claims arrive. */
  ghost predicate Rival(players: seq<nat>, s: Score, claims: seq<Claim>, c: Claim, r: Result)
    requires |s.results| == |players|
  {
    var pos := SlotOf(players, c.account);
    && Decided(r) && r != c.result && pos < |players|
    && (s.results[pos] == r || (Decided(c.result) && Claim(c.account, r) in claims))
  }

  /** Spoilt from the start, a claim about nobody, or two different final results for one player. */
  ghost predicate AlwaysBad(players: seq<nat>, s: Score, claims: seq<Claim>)
    requires |s.results| == |players|
  {
    || s.bad
    || (exists c | c in claims :: SlotOf(players, c.account) == |players|)
    || (exists c, r | c in claims :: Rival(players, s, claims, c, r))
  }

  /** One player is claimed both to have a final result and to be still playing. */
  ghost predicate Mixed(players: seq<nat>, claims: seq<Claim>) {
    exists c | c in claims :: Decided(c.result) && Claim(c.account, Playing) in claims
  }

  ghost predicate SameOutcome(players: seq<nat>, s: Score, a: seq<Claim>, b: seq<Claim>)
    requires |s.results| == |players|
  {
    var t, u := Checked(players, s, a), Checked(players, s, b);
    t.bad == u.bad && (!t.bad ==> t.results == u.results)
  }

  ghost predicate Shuffles(a: seq<Claim>, claims: seq<Claim>) {
    multiset(a) == multiset(claims)
  }

  lemma SameClaims(a: seq<Claim>, claims: seq<Claim>)
    requires Shuffles(a, claims)
    ensures forall c :: c in claims <==> c in a
  {
    forall c
      ensures c in claims <==> c in a
    {
      assert c in claims <==> c in multiset(claims);
      assert c in a <==> c in multiset(a);
    }
  }

  lemma AlwaysBadIsBad(players: seq<nat>, s: Score, claims: seq<Claim>, a: seq<Claim>)
    requires |s.results| == |players| && Shuffles(a, claims) && forall c | c in claims :: c.result != NoResult
    requires AlwaysBad(players, s, claims)
    ensures Checked(players, s, a).bad
  {
    SameClaims(a, claims);
    BadLaw(players, s, a);
    if !s.bad {
      if exists c | c in claims :: SlotOf(players, c.account) == |players| {
        var c :| c in claims && SlotOf(players, c.account) == |players|;
        var j :| 0 <= j < |a| && a[j] == c;
        assert Conflict(players, s, a, j);
      } else {
        var c, r :| c in claims && Rival(players, s, claims, c, r);
        var j :| 0 <= j < |a| && a[j] == c;
        RivalConflicts(players, s, claims, a, j, r);
      }
    }
  }

  lemma RivalConflicts(players: seq<nat>, s: Score, claims: seq<Claim>, a: seq<Claim>, j: nat, r: Result)
    requires |s.results| == |players| && j < |a| && Rival(players, s, claims, a[j], r)
    requires forall c | c in claims :: c in a
    requires a[j].result != NoResult
    ensures exists k :: 0 <= k < |a| && Conflict(players, s, a, k)
  {
    var pos := SlotOf(players, a[j].account);
    if s.results[pos] == r {
      assert Gave(players, s, a[..j], pos, r);
      assert Conflict(players, s, a, j);
    } else {
      var i :| 0 <= i < |a| && a[i] == Claim(a[j].account, r);
      if i < j {
        assert a[..j][i] == a[i];
        assert Gave(players, s, a[..j], pos, r);
        assert Conflict(players, s, a, j);
      } else {
        assert a[..i][j] == a[j];
        assert Gave(players, s, a[..i], pos, a[j].result);
        assert Conflict(players, s, a, i);
      }
    }
  }

  /** A conflict that is not there in every order comes from a final result before "still playing". */
  lemma ConflictCause(players: seq<nat>, s: Score, claims: seq<Claim>, a: seq<Claim>, j: nat)
    requires |s.results| == |players| && Shuffles(a, claims) && !AlwaysBad(players, s, claims)
    requires j < |a| && Conflict(players, s, a, j)
    ensures a[j].result == Playing
    ensures exists i | 0 <= i < j :: a[i].account == a[j].account && Decided(a[i].result)
  {
    SameClaims(a, claims);
    assert a[j] in claims;
    var pos := SlotOf(players, a[j].account);
    var r :| r != a[j].result && Gave(players, s, a[..j], pos, r);
    assert !Rival(players, s, claims, a[j], r);
    var i :| 0 <= i < j && a[..j][i] == Claim(players[pos], r);
    assert a[i] == Claim(a[j].account, r) && a[i] in claims;
  }

  lemma {:induction false} PlayingStays(players: seq<nat>, s: Score, claims: seq<Claim>, pos: nat)
    requires |s.results| == |players| && pos < |players| && !Decided(s.results[pos])
    requires forall c | c in claims && SlotOf(players, c.account) == pos :: c.result == Playing
    requires exists c | c in claims :: SlotOf(players, c.account) == pos
    ensures Checked(players, s, claims).results[pos] == Playing
  {
    var n := |claims| - 1;
    if exists c | c in claims[..n] :: SlotOf(players, c.account) == pos {
      PlayingStays(players, s, claims[..n], pos);
    } else {
      Untouched(players, s, claims[..n], pos);
      var c :| c in claims && SlotOf(players, c.account) == pos;
      assert claims[n] == c;
    }
  }

  lemma SettledAlike(players: seq<nat>, s: Score, claims: seq<Claim>, a: seq<Claim>, pos: nat)
    requires |s.results| == |players| && pos < |players| && forall c | c in claims :: c.result != NoResult
    requires Shuffles(a, claims) && !AlwaysBad(players, s, claims)
    requires !Checked(players, s, claims).bad && !Checked(players, s, a).bad
    ensures Checked(players, s, claims).results[pos] == Checked(players, s, a).results[pos]
  {
    SameClaims(a, claims);
    if c :| c in claims && SlotOf(players, c.account) == pos && Decided(c.result) {
      var i :| 0 <= i < |claims| && claims[i] == c;
      var j :| 0 <= j < |a| && a[j] == c;
      assert Gave(players, s, claims, pos, c.result) && Gave(players, s, a, pos, c.result);
      Tracks(players, s, claims, pos);
      Tracks(players, s, a, pos);
    } else if c :| c in claims && SlotOf(players, c.account) == pos {
      assert !Rival(players, s, claims, c, s.results[pos]);
      PlayingStays(players, s, claims, pos);
      PlayingStays(players, s, a, pos);
    } else {
      Untouched(players, s, claims, pos);
      Untouched(players, s, a, pos);
    }
  }

  lemma ConflictMixes(players: seq<nat>, s: Score, claims: seq<Claim>, a: seq<Claim>, j: nat)
    requires |s.results| == |players| && Shuffles(a, claims) && !AlwaysBad(players, s, claims)
    requires j < |a| && Conflict(players, s, a, j)
    ensures Mixed(players, claims)
  {
    SameClaims(a, claims);
    ConflictCause(players, s, claims, a, j);
    var i :| 0 <= i < j && a[i].account == a[j].account && Decided(a[i].result);
    assert a[i] in claims && a[j] == Claim(a[i].account, Playing);
  }

  lemma UnmixedNeverBad(players: seq<nat>, s: Score, claims: seq<Claim>, a: seq<Claim>)
    requires |s.results| == |players| && Shuffles(a, claims) && forall c | c in claims :: c.result != NoResult
    requires !AlwaysBad(players, s, claims) && !Mixed(players, claims)
    ensures !Checked(players, s, a).bad
  {
    BadLaw(players, s, a);
    if j :| 0 <= j < |a| && Conflict(players, s, a, j) {
      ConflictMixes(players, s, claims, a, j);
    }
  }

  /** The claims of one kind, in order. */
  function Select(claims: seq<Claim>, final: bool): seq<Claim> {
    if claims == [] then []
    else (if Final(claims[0].result) == final then [claims[0]] else []) + Select(claims[1..], final)
  }

  lemma {:induction false} SelectSplits(claims: seq<Claim>)
    ensures multiset(Select(claims, true)) + multiset(Select(claims, false)) == multiset(claims)
    ensures forall c | c in Select(claims, true) :: Decided(c.result)
    ensures forall c | c in Select(claims, false) :: !Decided(c.result)
  {
    if claims != [] {
      SelectSplits(claims[1..]);
      assert claims == [claims[0]] + claims[1..];
    }
  }

  lemma SelectShuffles(claims: seq<Claim>)
    ensures Shuffles(Select(claims, false) + Select(claims, true), claims)
    ensures Shuffles(Select(claims, true) + Select(claims, false), claims)
  {
    SelectSplits(claims);
  }

  /** "Still playing" first, then all final results: no conflict. */
  lemma GoodOrder(players: seq<nat>, s: Score, claims: seq<Claim>)
    requires |s.results| == |players| && forall c | c in claims :: c.result != NoResult
    requires !AlwaysBad(players, s, claims)
    ensures !Checked(players, s, Select(claims, false) + Select(claims, true)).bad
  {
    hide Conflict, Select;
    SelectSplits(claims);
    SelectShuffles(claims);
    var f, p := Select(claims, true), Select(claims, false);
    var good := p + f;
    BadLaw(players, s, good);
    assert forall j | 0 <= j < |good| :: (if j < |p| then good[j] in p else good[j] in f);
    forall j | 0 <= j < |good|
      ensures !Conflict(players, s, good, j)
    {
      if Conflict(players, s, good, j) {
        ConflictCause(players, s, claims, good, j);
      }
    }
  }

  /** The other way round, the claims about the mixed player conflict. */
  lemma SpoiltOrder(players: seq<nat>, s: Score, claims: seq<Claim>)
    requires |s.results| == |players| && Mixed(players, claims)
    ensures Checked(players, s, Select(claims, true) + Select(claims, false)).bad
  {
    hide Select;
    SelectSplits(claims);
    SelectShuffles(claims);
    var f, p := Select(claims, true), Select(claims, false);
    var c :| c in claims && Decided(c.result) && Claim(c.account, Playing) in claims;
    SameClaims(f + p, claims);
    FinalsThenPlaying(players, s, f, p, c);
  }

  lemma FinalsThenPlaying(players: seq<nat>, s: Score, f: seq<Claim>, p: seq<Claim>, c: Claim)
    requires |s.results| == |players|
    requires c in f && Decided(c.result) && Claim(c.account, Playing) in p
    ensures Checked(players, s, f + p).bad
  {
    hide Conflict;
    BadLaw(players, s, f + p);
    var i :| 0 <= i < |f| && f[i] == c;
    var k :| 0 <= k < |p| && p[k] == Claim(c.account, Playing);
    LaterPlaying(players, s, f + p, i, |f| + k);
  }

  lemma LaterPlaying(players: seq<nat>, s: Score, a: seq<Claim>, i: nat, j: nat)
    requires |s.results| == |players| && i < j < |a|
    requires Decided(a[i].result) && a[j] == Claim(a[i].account, Playing)
    ensures Conflict(players, s, a, j)
  {
    var pos := SlotOf(players, a[i].account);
    assert a[..j][i] == a[i];
    assert pos < |players| ==> Gave(players, s, a[..j], pos, a[i].result);
  }

  /** Reports settle a game the same way in whatever order they arrive iff they are spoilt in every
      order, or nobody is claimed both to have finished and to be still playing. */
  lemma OrderLaw(players: seq<nat>, s: Score, claims: seq<Claim>)
    requires |s.results| == |players| && forall c | c in claims :: c.result != NoResult
    ensures (forall a, b | Shuffles(a, claims) && Shuffles(b, claims) :: SameOutcome(players, s, a, b))
            <==> AlwaysBad(players, s, claims) || !Mixed(players, claims)
  {
    hide AlwaysBad, Mixed, Shuffles, SameOutcome, Checked, Select;
    if AlwaysBad(players, s, claims) || !Mixed(players, claims) {
      forall a, b | Shuffles(a, claims) && Shuffles(b, claims)
        ensures SameOutcome(players, s, a, b)
      {
        SameOutcomes(players, s, claims, a);
        SameOutcomes(players, s, claims, b);
        SameAsEachOther(players, s, claims, a, b);
      }
    } else {
      SelectShuffles(claims);
      GoodOrder(players, s, claims);
      SpoiltOrder(players, s, claims);
      var good, spoilt := Select(claims, false) + Select(claims, true), Select(claims, true) + Select(claims, false);
      OneIsBad(players, s, good, spoilt);
    }
  }

  lemma OneIsBad(players: seq<nat>, s: Score, a: seq<Claim>, b: seq<Claim>)
    requires |s.results| == |players|
    requires !Checked(players, s, a).bad && Checked(players, s, b).bad
    ensures !SameOutcome(players, s, a, b)
  {
  }

  lemma SameAsEachOther(players: seq<nat>, s: Score, claims: seq<Claim>, a: seq<Claim>, b: seq<Claim>)
    requires |s.results| == |players| && SameOutcome(players, s, a, claims) && SameOutcome(players, s, b, claims)
    ensures SameOutcome(players, s, a, b)
  {
    hide Checked;
  }

  lemma SameOutcomes(players: seq<nat>, s: Score, claims: seq<Claim>, a: seq<Claim>)
    requires |s.results| == |players| && forall c | c in claims :: c.result != NoResult
    requires AlwaysBad(players, s, claims) || !Mixed(players, claims)
    requires Shuffles(a, claims)
    ensures SameOutcome(players, s, a, claims)
  {
    hide AlwaysBad, Mixed;
    assert Shuffles(claims, claims);
    if AlwaysBad(players, s, claims) {
      AlwaysBadIsBad(players, s, claims, a);
      AlwaysBadIsBad(players, s, claims, claims);
    } else {
      UnmixedNeverBad(players, s, claims, a);
      UnmixedNeverBad(players, s, claims, claims);
      forall pos | 0 <= pos < |players|
        ensures Checked(players, s, claims).results[pos] == Checked(players, s, a).results[pos]
      {
        SettledAlike(players, s, claims, a, pos);
      }
    }
  }
}
