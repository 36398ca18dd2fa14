/** Runs that lose the operator's flag, from the start of the server on: the cases that ChannelLaws.FlagLaw
    excludes, with names and numbers in them. */
module LostFlag {
  import opened Text
  import opened AccountIndex
  import opened ChannelModel
  import opened ChannelInvariant
  import opened ChannelLaws

  const HALL := Info("hall", None, None, None, None, true, false, false, -1)
  const ALICE := Entry("alice", 1, 0)
  const BOB := Entry("bob", 2, 0)
  const ADMIN := Auth(true, false, {})

  /** Alice, an administrator, and Bob are in a hall nobody is operator of; somebody else is outside. */
  function Unruled(next: Option<nat>): World<nat, nat> {
    World(
      [0], map[0 := Chan(HALL, true, [1, 2], 2, None, next, [])],
      [1, 2, 3],
      map[1 := Conn(Some(ALICE), false, None, None, Some(0), false),
          2 := Conn(Some(BOB), false, None, None, Some(0), false),
          3 := Conn(None, false, None, None, None, false)],
      [ALICE, BOB], map[ALICE := ADMIN])
  }

  lemma TheirNames()
    ensures !SameText("alice", "bob") && !SameText("bob", "alice") && SameText("hall", "hall")
    ensures Denotes("alice", ALICE) && !Denotes("bob", ALICE) && Denotes("bob", BOB)
  {
    assert |Fold("alice")| == 5 && |Fold("bob")| == 3;
  }

  lemma BobIsFound()
    ensures FindConn(Unruled(None), "bob") == Some(2)
  {
    TheirNames();
    hide Denotes, SameText;
    var w := Unruled(None);
    assert FindAccount([BOB], "bob") == Some(BOB);
    assert [ALICE, BOB][1..] == [BOB];
    assert FirstUsing(w.conn, [2, 3], BOB) == Some(2);
    assert w.conns[1..] == [2, 3];
  }

  lemma BobIsDesignated()
    ensures Designate(Unruled(None), 1, "bob") == Unruled(Some(2))
  {
    BobIsFound();
    hide FindConn;
  }

  /** The outsider is in, and Bob is operator without the flag. */
  function Cheated(): World<nat, nat> {
    Unruled(None).(
      chan := map[0 := Chan(HALL, true, [3, 1, 2], 3, Some(2), None, [])],
      conn := Unruled(None).conn[3 := Conn(None, false, None, None, Some(0), false)])
  }

  lemma BobIsCheated(logged: bool)
    ensures SetChannel(Unruled(Some(2)), 3, Some("hall"), Some(9), logged).0 == Cheated()
  {
    TheirNames();
    hide Denotes, SameText, Oldest, Candidate, Flagged;
    var v := Unruled(Some(2));
    assert TargetOf(v, v.conn[3], "hall", logged) == Existing(0);
    assert !Banned(v.chan[0], v.conn[3]);
    assert [3] + v.chan[0].members == [3, 1, 2];
  }

  // ------------------------------------------------------ how they came there

  function Outside(account: Option<Entry>): Conn<nat> {
    Conn(account, false, None, None, None, false)
  }

  /** The hall with `members` in it, whom nothing entitles to be its operator. */
  function Hall(members: seq<nat>): map<nat, Chan<nat>> {
    map[0 := Chan(HALL, true, members, |members|, None, None, [])]
  }

  function Start(): World<nat, nat> {
    World([0], Hall([]), [], map[], [], map[])
  }

  function Lobby(a: Option<Entry>, b: Option<Entry>): World<nat, nat> {
    World([0], Hall([]), [1, 2, 3], map[1 := Outside(a), 2 := Outside(b), 3 := Outside(None)],
          [ALICE, BOB], map[ALICE := ADMIN])
  }

  function BobWaits(): World<nat, nat> {
    Lobby(Some(ALICE), Some(BOB)).(
      chan := Hall([2]),
      conn := map[1 := Outside(Some(ALICE)), 2 := Outside(Some(BOB)).(at := Some(0)), 3 := Outside(None)])
  }

  const PEOPLE: seq<Op<nat, nat>> :=
    [Register(BOB), Register(ALICE), Authorize(ALICE, ADMIN),
     Connect(3, false, None, None), Connect(2, false, None, None), Connect(1, false, None, None)]

  const ENTRANCES: seq<Op<nat, nat>> :=
    [Login(1, ALICE, 0), Login(2, BOB, 0), Join(2, "hall", 9), Join(1, "hall", 9)]

  lemma {:induction false} RunsOn(w: World<nat, nat>, ops: seq<Op<nat, nat>>, v: World<nat, nat>,
                                  more: seq<Op<nat, nat>>, logged: bool, end: World<nat, nat>)
    requires RunsTo(w, ops, logged, v) && RunsTo(v, more, logged, end)
    ensures RunsTo(w, ops + more, logged, end)
    decreases ops
  {
    hide Step, Allowed;
    if ops == [] {
      assert ops + more == more;
    } else {
      RunsOn(Step(w, ops[0], logged), ops[1..], v, more, logged, end);
      assert (ops + more)[1..] == ops[1..] + more;
    }
  }

  lemma OneMore(w: World<nat, nat>, ops: seq<Op<nat, nat>>, v: World<nat, nat>, op: Op<nat, nat>,
                u: World<nat, nat>, logged: bool)
    requires RunsTo(w, ops, logged, v) && Allowed(v, op) && Step(v, op, logged) == u
    ensures RunsTo(w, ops + [op], logged, u)
  {
    assert RunsTo(v, [op], logged, u) by {
      assert [op][1..] == [];
      hide Step, Allowed;
    }
    hide Step, Allowed;
    RunsOn(w, ops, v, [op], logged, u);
  }

  /** The server after `n` of the steps of PEOPLE. */
  function Peopled(n: nat): World<nat, nat> {
    Start().(
      accounts := if n == 0 then [] else if n == 1 then [BOB] else [ALICE, BOB],
      auth := if n < 3 then map[] else map[ALICE := ADMIN],
      conns := if n < 4 then [] else if n == 4 then [3] else if n == 5 then [2, 3] else [1, 2, 3],
      conn := if n < 4 then map[] else if n == 4 then map[3 := Outside(None)]
              else if n == 5 then map[2 := Outside(None), 3 := Outside(None)]
              else map[1 := Outside(None), 2 := Outside(None), 3 := Outside(None)])
  }

  lemma PeopleStep(n: nat, logged: bool)
    requires n < 6
    ensures Allowed(Peopled(n), PEOPLE[n]) && Step(Peopled(n), PEOPLE[n], logged) == Peopled(n + 1)
  {
    TheirNames();
    hide SameText, Denotes, SetChannel, Left, LoggedIn, Designate, Resign, Kick, Ban, Unban, Disconnect, WithFlags;
  }

  lemma {:induction false} PeopleConnect(n: nat, logged: bool)
    requires n <= 6
    ensures RunsTo(Start(), PEOPLE[..n], logged, Peopled(n))
  {
    if n == 0 {
      Stop(Start(), logged);
    } else {
      PeopleConnect(n - 1, logged);
      PeopleStep(n - 1, logged);
      hide RunsTo, Step, Allowed, Peopled;
      OneMore(Start(), PEOPLE[..n - 1], Peopled(n - 1), PEOPLE[n - 1], Peopled(n), logged);
      assert PEOPLE[..n - 1] + [PEOPLE[n - 1]] == PEOPLE[..n];
    }
  }

  lemma Stop(w: World<nat, nat>, logged: bool)
    ensures RunsTo(w, [], logged, w)
  {
  }

  lemma AliceLogsIn()
    ensures Allowed(Lobby(None, None), Op<nat, nat>.Login(1, ALICE, 0))
    ensures LoggedIn(Lobby(None, None), 1, ALICE, 0) == Lobby(Some(ALICE), None)
  {
    TheirNames();
    hide SameText, Denotes;
    NobodyUses(Lobby(None, None), ALICE);
  }

  lemma BobLogsIn()
    ensures Allowed(Lobby(Some(ALICE), None), Op<nat, nat>.Login(2, BOB, 0))
    ensures LoggedIn(Lobby(Some(ALICE), None), 2, BOB, 0) == Lobby(Some(ALICE), Some(BOB))
  {
    TheirNames();
    hide SameText, Denotes;
    assert [ALICE, BOB][1..] == [BOB];
    assert FindAccount([ALICE, BOB], "bob") == Some(BOB);
    NobodyUses(Lobby(Some(ALICE), None), BOB);
  }

  lemma NobodyUses(w: World<nat, nat>, e: Entry)
    requires forall c | c in w.conn :: w.conn[c].account != Some(e)
    ensures FirstUsing(w.conn, w.conns, e).None?
  {
    FirstUsingFinds(w.conn, w.conns, e);
  }

  /** Whoever enters a hall nobody is entitled in becomes a member and nothing more. */
  lemma EntersHall(w: World<nat, nat>, members: seq<nat>, c: nat, logged: bool)
    requires w.channels == [0] && w.chan == Hall(members) && w.auth == map[ALICE := ADMIN]
    requires c in w.conn && w.conn[c].at.None? && !w.conn[c].bot
    ensures SetChannel(w, c, Some("hall"), Some(9), logged).0 ==
            w.(chan := Hall([c] + members), conn := w.conn[c := w.conn[c].(at := Some(0))])
  {
    TheirNames();
    hide SameText, Denotes;
    assert TargetOf(w, w.conn[c], "hall", logged) == Existing(0);
    assert !Banned(w.chan[0], w.conn[c]);
    var conn := w.conn[c := w.conn[c].(at := Some(0))];
    var ch := Chan(HALL, true, [c] + members, |members| + 1, None, None, []);
    NobodyIsEntitled(ch, conn, c);
  }

  lemma NobodyIsEntitled(ch: Chan<nat>, conn: map<nat, Conn<nat>>, c: nat)
    requires ch.info == HALL && ch.opr.None? && ch.next.None?
    ensures Choose(ch, conn, map[ALICE := ADMIN], Some(c)) == (ch, conn)
  {
    OldestIsOldest(ch, conn, map[ALICE := ADMIN], Some(c), ch.members);
  }

  lemma BothJoin(logged: bool)
    ensures SetChannel(Lobby(Some(ALICE), Some(BOB)), 2, Some("hall"), Some(9), logged).0 == BobWaits()
    ensures SetChannel(BobWaits(), 1, Some("hall"), Some(9), logged).0 == Unruled(None)
  {
    hide SetChannel;
    EntersHall(Lobby(Some(ALICE), Some(BOB)), [], 2, logged);
    EntersHall(BobWaits(), [2], 1, logged);
    assert [2] + [] == [2] && [1] + [2] == [1, 2];
  }

  /** The hall after `n` of the steps of ENTRANCES. */
  function Entering(n: nat): World<nat, nat> {
    if n == 0 then Lobby(None, None) else if n == 1 then Lobby(Some(ALICE), None)
    else if n == 2 then Lobby(Some(ALICE), Some(BOB)) else if n == 3 then BobWaits() else Unruled(None)
  }

  lemma EntranceStep(n: nat, logged: bool)
    requires n < 4
    ensures Allowed(Entering(n), ENTRANCES[n]) && Step(Entering(n), ENTRANCES[n], logged) == Entering(n + 1)
  {
    AliceLogsIn();
    BobLogsIn();
    BothJoin(logged);
    hide LoggedIn, SetChannel, Denotes, Left, Designate, Resign, Kick, Ban, Unban, Disconnect, WithFlags;
  }

  lemma {:induction false} TheyEnter(n: nat, logged: bool)
    requires n <= 4
    ensures RunsTo(Entering(0), ENTRANCES[..n], logged, Entering(n))
  {
    if n == 0 {
      Stop(Entering(0), logged);
    } else {
      TheyEnter(n - 1, logged);
      EntranceStep(n - 1, logged);
      hide RunsTo, Step, Allowed, Entering;
      OneMore(Entering(0), ENTRANCES[..n - 1], Entering(n - 1), ENTRANCES[n - 1], Entering(n), logged);
      assert ENTRANCES[..n - 1] + [ENTRANCES[n - 1]] == ENTRANCES[..n];
    }
  }

  lemma TheyArrive(logged: bool)
    ensures Initial(Start()) && RunsTo(Start(), PEOPLE + ENTRANCES, logged, Unruled(None))
  {
    PeopleConnect(6, logged);
    TheyEnter(4, logged);
    assert PEOPLE[..6] == PEOPLE && ENTRANCES[..4] == ENTRANCES;
    hide RunsTo;
    RunsOn(Start(), PEOPLE, Lobby(None, None), ENTRANCES, logged, Unruled(None));
  }

  // ------------------------------------------------------------ the two failures

  const DESIGNATION: Op<nat, nat> := DesignateOp(1, "bob")
  const LAST_JOIN: Op<nat, nat> := Join(3, "hall", 9)
  const FLAG_COMMAND: Op<nat, nat> := FlagOp(1, MF_GAVEL)

  lemma LastSteps(logged: bool)
    ensures Allowed(Unruled(None), DESIGNATION) && Step(Unruled(None), DESIGNATION, logged) == Unruled(Some(2))
    ensures Allowed(Unruled(Some(2)), LAST_JOIN) && Step(Unruled(Some(2)), LAST_JOIN, logged) == Cheated()
    ensures Allowed(Unruled(None), FLAG_COMMAND) && Step(Unruled(None), FLAG_COMMAND, logged) == Marked()
  {
    BobIsDesignated();
    BobIsCheated(logged);
    hide Designate, SetChannel, LoggedIn, Left, Resign, Kick, Ban, Unban, Disconnect;
  }

  lemma DesignateAndJoin(logged: bool)
    ensures RunsTo(Unruled(None), [DESIGNATION, LAST_JOIN], logged, Cheated())
  {
    LastSteps(logged);
    var w := Unruled(None);
    Stop(w, logged);
    hide RunsTo, Step, Allowed, Unruled, Cheated;
    OneMore(w, [], w, DESIGNATION, Unruled(Some(2)), logged);
    assert [] + [DESIGNATION] == [DESIGNATION];
    OneMore(w, [DESIGNATION], Unruled(Some(2)), LAST_JOIN, Cheated(), logged);
    assert [DESIGNATION] + [LAST_JOIN] == [DESIGNATION, LAST_JOIN];
  }

  /** A run from the start: Alice and Bob come to the hall, Bob is designated, the outsider joins, and Bob is
      operator without the flag. */
  lemma FlagLost(logged: bool)
    ensures Initial(Start())
    ensures RunsTo(Start(), PEOPLE + ENTRANCES + [DESIGNATION, LAST_JOIN], logged, Cheated())
    ensures var end := Cheated();
            && 0 in end.chan && 2 in end.conn && end.chan[0].opr == Some(2) && !end.conn[2].gavel
            && !FlagsAgree(end)
  {
    TheyArrive(logged);
    DesignateAndJoin(logged);
    CheatedDisagrees();
    hide RunsTo, Unruled, Start, Initial, Cheated;
    RunsOn(Start(), PEOPLE + ENTRANCES, Unruled(None), [DESIGNATION, LAST_JOIN], logged, Cheated());
  }

  lemma CheatedDisagrees()
    ensures var end := Cheated();
            && 0 in end.chan && 2 in end.conn && end.chan[0].opr == Some(2) && !end.conn[2].gavel
            && !FlagsAgree(end)
  {
    assert 2 in Cheated().chan[0].members;
    assert FlagsAgree(Cheated()) ==> Crowned(Cheated().chan[0], Cheated().conn);
  }

  /** Alice has given herself the flag of an operator. */
  function Marked(): World<nat, nat> {
    var w := Unruled(None);
    w.(conn := w.conn[1 := w.conn[1].(gavel := true)])
  }

  /** And a run in which she does. */
  lemma FlagGiven(logged: bool)
    ensures RunsTo(Start(), PEOPLE + ENTRANCES + [FLAG_COMMAND], logged, Marked())
    ensures var end := Marked();
            0 in end.chan && 1 in end.conn && end.chan[0].opr.None? && end.conn[1].gavel && !FlagsAgree(end)
  {
    TheyArrive(logged);
    LastSteps(logged);
    MarkedDisagrees();
    hide RunsTo, Step, Allowed, Unruled, Marked;
    OneMore(Start(), PEOPLE + ENTRANCES, Unruled(None), FLAG_COMMAND, Marked(), logged);
  }

  lemma MarkedDisagrees()
    ensures var end := Marked();
            0 in end.chan && 1 in end.conn && end.chan[0].opr.None? && end.conn[1].gavel && !FlagsAgree(end)
  {
    assert 1 in Marked().chan[0].members;
    assert FlagsAgree(Marked()) ==> Crowned(Marked().chan[0], Marked().conn);
  }
}
