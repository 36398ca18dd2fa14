/** What the games of a server charge to the accounts, over whole runs: who leaves last pays the report. */
module GameLedger {
  import opened Lists
  import opened Text
  import opened Numbers
  import opened GameResults
  import opened GameModel
  import R = GameReport
  import H = GameHistory

  /** The arrays of a game as game_report takes them. */
  ghost function EntriesOf<C>(slots: seq<Slot<C>>): (e: seq<R.Entry>)
    ensures |e| == |slots|
    ensures forall i | 0 <= i < |e| ::
              e[i] == R.Entry(Some(slots[i].player), slots[i].result, slots[i].head, slots[i].body)
  {
    seq(|slots|, i requires 0 <= i < |slots| =>
      R.Entry(Some(slots[i].player), slots[i].result, slots[i].head, slots[i].body))
  }

  /** Clients whose games have transient players and no reported winners. */
  predicate Transient(tag: string) {
    tag == "DSHR" || tag == "DRTL" || tag == "D2ST" || tag == "D2DV" || tag == "D2XP"
  }

  const LADDER_ID_NORMAL := 1
  const LADDER_ID_IRONMAN := 3

  function RulesOf(info: Info, discIsLoss: bool): R.Rules {
    var ladder := if info.kind == LADDER then LADDER_ID_NORMAL
                  else if info.kind == IRONMAN then LADDER_ID_IRONMAN else R.NORMAL_GAMES;
    R.Rules(R.Record(info.tag, ladder), discIsLoss || info.countAsLoss)
  }

  /** What the accounts are charged when `c` leaves the game it is in: nothing unless that closes it. */
  ghost function ChargesOnLeaving<G, C>(w: World<G, C>, c: C, discIsLoss: bool): seq<(nat, R.Kind)>
    requires c in w.client
  {
    if !Closes(w, c) then []
    else
      var rec := w.rec[w.client[c].game.value];
      R.Settled(EntriesOf(rec.slots), Transient(rec.info.tag), rec.bad, RulesOf(rec.info, discIsLoss))
  }

  // ------------------------------------------------------------------ one step

  /** Who is taken out of the game it is in. */
  ghost function Leaver<G, C>(w: World<G, C>, op: Op<G, C>): Option<C>
    requires Allowed(w, op)
  {
    match op
    case Enter(c, req, _) => if StaysInGame(w, c, Some(req)) then None else Some(c)
    case Leave(c) => Some(c)
    case Close(c) => Some(c)
    case _ => None
  }

  ghost function Bill<G, C>(w: World<G, C>, op: Op<G, C>, discIsLoss: bool): seq<(nat, R.Kind)>
    requires Allowed(w, op)
  {
    var c := Leaver(w, op);
    if c.None? then [] else ChargesOnLeaving(w, c.value, discIsLoss)
  }

  /** The games one step adds to a record: those of the report of a game of that record that it closes. */
  ghost function Earned<G, C>(w: World<G, C>, op: Op<G, C>, discIsLoss: bool, record: R.Record): nat
    requires Allowed(w, op)
  {
    var c := Leaver(w, op);
    if c.None? || !Closes(w, c.value) then 0
    else
      var rec := w.rec[w.client[c.value].game.value];
      var rules := RulesOf(rec.info, discIsLoss);
      if rules.record == record then R.Counted(EntriesOf(rec.slots), Transient(rec.info.tag), rec.bad, rules) else 0
  }

  lemma BillCounts<G, C>(w: World<G, C>, op: Op<G, C>, discIsLoss: bool, record: R.Record)
    requires Allowed(w, op)
    ensures R.ChargesTo(Bill(w, op, discIsLoss), record) == Earned(w, op, discIsLoss, record)
  {
    hide R.Settled, R.Counted, EntriesOf, Transient, RulesOf;
    var c := Leaver(w, op);
    if c.Some? && Closes(w, c.value) {
      var rec := w.rec[w.client[c.value].game.value];
      R.SettledCounts(EntriesOf(rec.slots), Transient(rec.info.tag), rec.bad, RulesOf(rec.info, discIsLoss), record);
    }
  }

  /** Everybody who is or was in a game, or connected, is among the accounts. */
  ghost predicate Known<G, C>(w: World<G, C>, accounts: seq<nat>) {
    && (forall g | g in w.rec :: PlayersKnown(w.rec[g], accounts))
    && (forall c | c in w.client :: w.client[c].account in accounts)
  }

  ghost predicate PlayersKnown<C>(rec: Rec<C>, accounts: seq<nat>) {
    forall i | 0 <= i < |rec.slots| :: rec.slots[i].player in accounts
  }

  lemma BillIsKnown<G, C>(w: World<G, C>, op: Op<G, C>, discIsLoss: bool, accounts: seq<nat>)
    requires Allowed(w, op) && Known(w, accounts)
    ensures forall i | 0 <= i < |Bill(w, op, discIsLoss)| :: Bill(w, op, discIsLoss)[i].0 in accounts
  {
    hide R.Settled, Transient, RulesOf;
    var c := Leaver(w, op);
    if c.Some? && Closes(w, c.value) {
      var rec := w.rec[w.client[c.value].game.value];
      R.SettledPlayers(EntriesOf(rec.slots), Transient(rec.info.tag), rec.bad, RulesOf(rec.info, discIsLoss), accounts);
    }
  }

  lemma PastIsKnown<C>(rec: Rec<C>, players: seq<nat>, accounts: seq<nat>)
    requires H.PastOf(rec).players == players
    ensures PlayersKnown(rec, accounts) <==> forall i | 0 <= i < |players| :: players[i] in accounts
  {
    assert forall i | 0 <= i < |rec.slots| :: players[i] == rec.slots[i].player;
  }

  lemma StepIsKnown<G, C>(w: World<G, C>, op: Op<G, C>, accounts: seq<nat>)
    requires Inv(w) && Allowed(w, op) && Known(w, accounts) && (op.Connect? ==> op.account in accounts)
    ensures Known(Step(w, op), accounts)
  {
    var b := Step(w, op);
    ClientsKnown(w, op, accounts);
    hide Inv, Step, H.Happens, H.After;
    forall g | g in b.rec
      ensures PlayersKnown(b.rec[g], accounts)
    {
      H.StepPast(w, op, g);
      var before, events := H.Standing(w, g), H.Happens(w, op, g);
      HappensToKnown(w, op, g, accounts);
      if g in w.rec {
        PastIsKnown(w.rec[g], before.players, accounts);
      }
      AfterIsKnown(before, events, accounts);
      PastIsKnown(b.rec[g], H.Afterwards(before, events).players, accounts);
    }
  }

  lemma AfterIsKnown(p: H.Past, events: seq<H.Event>, accounts: seq<nat>)
    requires p.Even() && |events| <= 1 && forall i | 0 <= i < |p.players| :: p.players[i] in accounts
    requires forall e | e in events && e.Joined? :: e.account in accounts
    ensures var players := H.Afterwards(p, events).players;
            forall i | 0 <= i < |players| :: players[i] in accounts
  {
    if events != [] {
      assert events[0] in events;
    }
  }

  lemma HappensToKnown<G, C>(w: World<G, C>, op: Op<G, C>, g: G, accounts: seq<nat>)
    requires Allowed(w, op) && Known(w, accounts)
    ensures forall e | e in H.Happens(w, op, g) && e.Joined? :: e.account in accounts
  {
    hide Step, PlayersKnown;
  }

  lemma ClientsKnown<G, C>(w: World<G, C>, op: Op<G, C>, accounts: seq<nat>)
    requires Inv(w) && Allowed(w, op) && Known(w, accounts) && (op.Connect? ==> op.account in accounts)
    ensures forall c | c in Step(w, op).client :: Step(w, op).client[c].account in accounts
  {
    hide Inv, PlayersKnown, Claimed, SelfClaimed, Vacated, Grown, Refuses, FindGame;
  }

  // ---------------------------------------------------------------- whole runs

  ghost function Bills<G, C>(w: World<G, C>, ops: seq<Op<G, C>>, end: World<G, C>, discIsLoss: bool): seq<(nat, R.Kind)>
    requires RunsTo(w, ops, end)
    decreases ops
  {
    if ops == [] then [] else Bill(w, ops[0], discIsLoss) + Bills(Step(w, ops[0]), ops[1..], end, discIsLoss)
  }

  ghost function EarnedInRun<G, C>(w: World<G, C>, ops: seq<Op<G, C>>, end: World<G, C>, discIsLoss: bool,
                                   record: R.Record): nat
    requires RunsTo(w, ops, end)
    decreases ops
  {
    if ops == [] then 0
    else Earned(w, ops[0], discIsLoss, record) + EarnedInRun(Step(w, ops[0]), ops[1..], end, discIsLoss, record)
  }

  ghost predicate AllConnectAs<G, C>(ops: seq<Op<G, C>>, accounts: seq<nat>) {
    forall i | 0 <= i < |ops| && ops[i].Connect? :: ops[i].account in accounts
  }

  lemma {:induction false} BillsCount<G, C>(w: World<G, C>, ops: seq<Op<G, C>>, end: World<G, C>, discIsLoss: bool,
                                            accounts: seq<nat>, record: R.Record)
    requires Inv(w) && RunsTo(w, ops, end) && Known(w, accounts) && AllConnectAs(ops, accounts)
    ensures var bills := Bills(w, ops, end, discIsLoss);
            && R.ChargesTo(bills, record) == EarnedInRun(w, ops, end, discIsLoss, record)
            && forall i | 0 <= i < |bills| :: bills[i].0 in accounts
    decreases ops
  {
    hide Inv, Step, Bill, Earned, Known;
    if ops != [] {
      StepKeepsInv(w, ops[0]);
      StepIsKnown(w, ops[0], accounts);
      BillCounts(w, ops[0], discIsLoss, record);
      BillIsKnown(w, ops[0], discIsLoss, accounts);
      var v, rest := Step(w, ops[0]), ops[1..];
      BillsCount(v, rest, end, discIsLoss, accounts, record);
      R.ChargesToAppend(Bill(w, ops[0], discIsLoss), Bills(v, rest, end, discIsLoss), record);
    }
  }

  /** Conservation over runs: whatever joins, reports, departures and disconnections there are, the wins,
      losses, draws and disconnects of a record rise together by the games that the closings of that record's
      games count, and by nothing else, as long as none of its counters is about to wrap. */
  lemma RunConserves<G, C>(w: World<G, C>, ops: seq<Op<G, C>>, end: World<G, C>, discIsLoss: bool,
                           own: R.Counters, base: map<R.Kind, nat>, accounts: seq<nat>, record: R.Record)
    requires Inv(w) && RunsTo(w, ops, end) && Known(w, accounts) && AllConnectAs(ops, accounts)
    requires NoRepeat(accounts)
    requires forall a, o | a in accounts ::
               R.Tally(own, base, a, R.Kind(record, o)) + EarnedInRun(w, ops, end, discIsLoss, record) < UINT_LIMIT
    ensures R.Total(R.Charged(own, base, Bills(w, ops, end, discIsLoss)), base, accounts, record) ==
            R.Total(own, base, accounts, record) + EarnedInRun(w, ops, end, discIsLoss, record)
  {
    hide Inv, RunsTo, Known, AllConnectAs, Bills, EarnedInRun, NoRepeat, R.Tally, R.Total, R.Charged;
    BillsCount(w, ops, end, discIsLoss, accounts, record);
    var bills := Bills(w, ops, end, discIsLoss);
    forall i | 0 <= i < |bills| && bills[i].1.record == record
      ensures R.Tally(own, base, bills[i].0, bills[i].1) + R.ChargesTo(bills, record) < UINT_LIMIT
    {
      assert bills[i].1 == R.Kind(record, bills[i].1.outcome);
    }
    R.Conservation(own, base, bills, accounts, record);
  }

  /** The bills of a run are charged one operation after the other. */
  lemma ChargedStepwise<G, C>(w: World<G, C>, ops: seq<Op<G, C>>, end: World<G, C>, discIsLoss: bool,
                              own: R.Counters, base: map<R.Kind, nat>)
    requires RunsTo(w, ops, end) && ops != []
    ensures var now := R.Charged(own, base, Bill(w, ops[0], discIsLoss));
            R.Charged(own, base, Bills(w, ops, end, discIsLoss)) ==
            R.Charged(now, base, Bills(Step(w, ops[0]), ops[1..], end, discIsLoss))
  {
    R.ChargedAppend(own, base, Bill(w, ops[0], discIsLoss), Bills(Step(w, ops[0]), ops[1..], end, discIsLoss));
  }

  // ------------------------------------------------------ one counter at a time

  /** By how much one counter of one account rises in a step: what the report of the game gives that goes away
      because somebody leaves it, goes to another or disconnects. Ladder games count for ladder 1, ironman games
      for ladder 3. */
  ghost function Gains<G, C>(w: World<G, C>, op: Op<G, C>, discIsLoss: bool, account: nat, kind: R.Kind): nat
    requires Allowed(w, op)
  {
    if (op.Enter? || op.Leave? || op.Close?) && w.client[op.c].game.Some?
       && w.client[op.c].game.value in w.rec && w.client[op.c].game.value !in Step(w, op).rec
    then
      var rec := w.rec[w.client[op.c].game.value];
      var ladder := if rec.info.kind == 10 then 1 else if rec.info.kind == 11 then 3 else 0;
      R.Rise(EntriesOf(rec.slots), rec.info.tag in ["DSHR", "DRTL", "D2ST", "D2DV", "D2XP"], rec.bad,
             R.Rules(R.Record(rec.info.tag, ladder), discIsLoss || rec.info.countAsLoss), account, kind)
    else 0
  }

  lemma GoneIsClosed<G, C>(w: World<G, C>, op: Op<G, C>)
    requires Inv(w) && Allowed(w, op) && (op.Enter? || op.Leave? || op.Close?) && w.client[op.c].game.Some?
    ensures w.client[op.c].game.value in w.rec
    ensures w.client[op.c].game.value !in Step(w, op).rec <==> Leaver(w, op).Some? && Closes(w, op.c)
  {
    hide Inv, Vacated, Without, FindGame, Refuses, Grown, SameText;
    H.OwnSlot(w, op.c);
  }

  lemma BillGains<G, C>(w: World<G, C>, op: Op<G, C>, discIsLoss: bool, account: nat, kind: R.Kind)
    requires Inv(w) && Allowed(w, op)
    ensures multiset(Bill(w, op, discIsLoss))[(account, kind)] == Gains(w, op, discIsLoss, account, kind)
  {
    hide Inv, Step, R.Settled, R.Rise, EntriesOf;
    if (op.Enter? || op.Leave? || op.Close?) && w.client[op.c].game.Some? {
      GoneIsClosed(w, op);
      if Leaver(w, op).Some? && Closes(w, op.c) {
        var rec := w.rec[w.client[op.c].game.value];
        R.RiseIsCharges(EntriesOf(rec.slots), Transient(rec.info.tag), rec.bad, RulesOf(rec.info, discIsLoss),
                        account, kind);
      }
    }
  }

  ghost function GainsInRun<G, C>(w: World<G, C>, ops: seq<Op<G, C>>, end: World<G, C>, discIsLoss: bool,
                                  account: nat, kind: R.Kind): nat
    requires RunsTo(w, ops, end)
    decreases ops
  {
    if ops == [] then 0
    else
      Gains(w, ops[0], discIsLoss, account, kind) +
      GainsInRun(Step(w, ops[0]), ops[1..], end, discIsLoss, account, kind)
  }

  lemma {:induction false} BillsGain<G, C>(w: World<G, C>, ops: seq<Op<G, C>>, end: World<G, C>, discIsLoss: bool,
                                           account: nat, kind: R.Kind)
    requires Inv(w) && RunsTo(w, ops, end)
    ensures multiset(Bills(w, ops, end, discIsLoss))[(account, kind)] ==
            GainsInRun(w, ops, end, discIsLoss, account, kind)
    decreases ops
  {
    hide Inv, Step, Bill, Gains;
    if ops != [] {
      StepKeepsInv(w, ops[0]);
      BillGains(w, ops[0], discIsLoss, account, kind);
      BillsGain(Step(w, ops[0]), ops[1..], end, discIsLoss, account, kind);
    }
  }

  /** Over whole runs every counter of every account rises by exactly what the games give that close. */
  lemma RunGains<G, C>(w: World<G, C>, ops: seq<Op<G, C>>, end: World<G, C>, discIsLoss: bool,
                       own: R.Counters, base: map<R.Kind, nat>, account: nat, kind: R.Kind)
    requires Inv(w) && RunsTo(w, ops, end) && R.Tally(own, base, account, kind) < UINT_LIMIT
    ensures R.Tally(R.Charged(own, base, Bills(w, ops, end, discIsLoss)), base, account, kind) ==
            (R.Tally(own, base, account, kind) + GainsInRun(w, ops, end, discIsLoss, account, kind)) % UINT_LIMIT
  {
    hide Inv, RunsTo, Bills, GainsInRun, R.Tally, R.Charged;
    BillsGain(w, ops, end, discIsLoss, account, kind);
    R.CounterLaw(own, base, Bills(w, ops, end, discIsLoss), account, kind);
  }
}
