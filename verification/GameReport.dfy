/** Closing a game: compaction of its slot arrays and the win/loss accounting (game_report in
    src/bnetd/game.c, account_inc_normal_* and account_inc_ladder_* in src/bnetd/account_wrap.c). */
module GameReport {
  import opened Lists
  import opened Text
  import opened Numbers
  import opened GameResults

  // -------------------------------------------------------------- compaction

  /** One position of the four parallel arrays. */
  datatype Entry = Entry(player: Option<nat>, result: Result, head: Option<string>, body: Option<string>)

  const BLANK := Entry(None, NoResult, None, None)

  /** A slot that counts: it has a player, and a result was reported for it. */
  predicate Real(e: Entry) {
    e.player.Some? && e.result != NoResult
  }

  function Kept(entries: seq<Entry>): (kept: seq<Entry>)
    ensures |kept| <= |entries|
    ensures forall i | 0 <= i < |kept| :: Real(kept[i])
  {
    if entries == [] then []
    else
      var n := |entries| - 1;
      Kept(entries[..n]) + if Real(entries[n]) then [entries[n]] else []
  }

  /** What is kept comes from the slots at these places: in order, those with a player and a result. */
  ghost predicate KeptFrom(entries: seq<Entry>, kept: seq<Entry>, at: seq<nat>) {
    && |at| == |kept|
    && (forall p | 0 <= p < |at| :: at[p] < |entries| && kept[p] == entries[at[p]])
    && (forall p, q | 0 <= p < q < |at| :: at[p] < at[q])
    && forall i: nat | i < |entries| && entries[i].player != None && entries[i].result != NoResult :: i in at
  }

  lemma {:induction false} KeptLaw(entries: seq<Entry>) returns (at: seq<nat>)
    ensures KeptFrom(entries, Kept(entries), at)
    ensures forall e | e in Kept(entries) :: e.player != None && e.result != NoResult
  {
    hide KeptFrom;
    if entries == [] {
      at := [];
      NothingKept();
    } else {
      var n := |entries| - 1;
      var front := KeptLaw(entries[..n]);
      at := if Real(entries[n]) then front + [n] else front;
      KeptOneMore(entries, Kept(entries[..n]), front);
    }
  }

  lemma NothingKept()
    ensures KeptFrom([], [], [])
  {
  }

  lemma KeptOneMore(entries: seq<Entry>, kept: seq<Entry>, at: seq<nat>)
    requires entries != [] && KeptFrom(entries[..|entries| - 1], kept, at)
    ensures var n := |entries| - 1;
            if Real(entries[n]) then KeptFrom(entries, kept + [entries[n]], at + [n])
            else KeptFrom(entries, kept + [], at)
  {
    var n := |entries| - 1;
    assert kept + [] == kept;
    if Real(entries[n]) {
      assert (at + [n])[|at|] == n;
      forall i: nat | i < n && entries[i].player != None && entries[i].result != NoResult
        ensures i in at + [n]
      {
        assert entries[..n][i] == entries[i];
      }
    } else {
      forall i: nat | i < n && entries[i].player != None && entries[i].result != NoResult
        ensures i in at
      {
        assert entries[..n][i] == entries[i];
      }
    }
  }

  function Blanks(n: nat): seq<Entry> {
    seq(n, _ => BLANK)
  }

  ghost function Zip(players: seq<Option<nat>>, results: seq<Result>, heads: seq<Option<string>>,
                     bodies: seq<Option<string>>)
      : (z: seq<Entry>)
    requires |players| == |results| == |heads| == |bodies|
    ensures |z| == |players|
    ensures forall i | 0 <= i < |z| :: z[i] == Entry(players[i], results[i], heads[i], bodies[i])
  {
    seq(|players|, i requires 0 <= i < |players| => Entry(players[i], results[i], heads[i], bodies[i]))
  }

  class Slots {
    const players: array<Option<nat>>
    const results: array<Result>
    const heads: array<Option<string>>
    const bodies: array<Option<string>>

    ghost predicate Valid()
      reads this
    {
      && players.Length == results.Length == heads.Length == bodies.Length
      && heads != bodies
    }

    ghost function All(): (z: seq<Entry>)
      requires Valid()
      reads this, players, results, heads, bodies
      ensures |z| == players.Length
    {
      Zip(players[..], results[..], heads[..], bodies[..])
    }

    constructor (players: array<Option<nat>>, results: array<Result>, heads: array<Option<string>>,
                 bodies: array<Option<string>>)
      requires players.Length == results.Length == heads.Length == bodies.Length && heads != bodies
      ensures Valid() && this.players == players && this.results == results
      ensures this.heads == heads && this.bodies == bodies
    {
      this.players, this.results, this.heads, this.bodies := players, results, heads, bodies;
    }

    lemma At(i: nat)
      requires Valid() && i < players.Length
      ensures All()[i] == Entry(players[i], results[i], heads[i], bodies[i])
    {
    }

    method CopySlot(to: nat, from: nat)
      requires Valid() && to <= from < players.Length
      modifies players, results, heads, bodies
      ensures All() == old(All())[to := old(All())[from]]
    {
      players[to] := players[from];
      results[to] := results[from];
      heads[to] := heads[from];
      bodies[to] := bodies[from];
    }

    method ClearSlot(i: nat)
      requires Valid() && i < players.Length
      modifies players, results, heads, bodies
      ensures All() == old(All())[i := BLANK]
    {
      players[i], results[i], heads[i], bodies[i] := None, NoResult, None, None;
    }

    /** Moves the real players to the top, in order, and blanks the rest, in one set of arrays. */
    method Compact() returns (realcount: nat)
      requires Valid()
      modifies players, results, heads, bodies
      ensures realcount == |Kept(old(All()))|
      ensures All() == Kept(old(All())) + Blanks(players.Length - realcount)
    {
      realcount := MoveUp();
      BlankFrom(realcount);
    }

    method MoveUp() returns (realcount: nat)
      requires Valid()
      modifies players, results, heads, bodies
      ensures realcount == |Kept(old(All()))| && All()[..realcount] == Kept(old(All()))
    {
      hide All;
      ghost var was := All();
      realcount := 0;
      for i := 0 to players.Length
        invariant realcount == |Kept(was[..i])| <= i
        invariant All()[..realcount] == Kept(was[..i]) && All()[i..] == was[i..]
      {
        assert was[..i + 1][..i] == was[..i];
        At(i);
        ghost var now := All();
        assert now[i..][0] == was[i..][0] && now[i..][1..] == now[i + 1..] && was[i..][1..] == was[i + 1..];
        if players[i].Some? && results[i] != NoResult {
          CopySlot(realcount, i);
          assert All()[..realcount + 1] == now[..realcount] + [was[i]] && All()[i + 1..] == now[i + 1..];
          realcount := realcount + 1;
        }
      }
      assert was[..players.Length] == was;
    }

    method BlankFrom(realcount: nat)
      requires Valid() && realcount <= players.Length
      modifies players, results, heads, bodies
      ensures All() == old(All())[..realcount] + Blanks(players.Length - realcount)
    {
      hide All;
      for i := realcount to players.Length
        invariant All()[..realcount] == old(All())[..realcount]
        invariant All()[realcount..i] == Blanks(i - realcount)
      {
        ClearSlot(i);
        assert All()[realcount..i + 1] == Blanks(i - realcount) + [BLANK];
      }
      assert All() == All()[..realcount] + All()[realcount..];
    }
  }

  // -------------------------------------------------------------- accounting

  datatype Outcome = Wins | Losses | Draws | Disconnects

  /** Where games of a client are counted: Record\TAG\0 for normal games, else the number of the ladder. */
  datatype Record = Record(tag: string, ladder: nat)

  const NORMAL_GAMES := 0

  /** One counter of an account, such as Record\TAG\1\wins. */
  datatype Kind = Kind(record: Record, outcome: Outcome)

  /** The counters stored with accounts, over those of the default account. */
  type Counters = map<(nat, Kind), nat>

  function Tally(own: Counters, base: map<Kind, nat>, account: nat, kind: Kind): nat {
    if (account, kind) in own then own[(account, kind)] else if kind in base then base[kind] else 0
  }

  /** account_inc_*: the counter read, plus one, stored with the account; counters are 32 bits wide. */
  function Inc(own: Counters, base: map<Kind, nat>, account: nat, kind: Kind): Counters {
    own[(account, kind) := (Tally(own, base, account, kind) + 1) % UINT_LIMIT]
  }

  datatype Rules = Rules(record: Record, discIsLoss: bool)

  predicate OnLadder(rules: Rules) {
    rules.record.ladder != NORMAL_GAMES
  }

  /** The counter one real player's result goes to. In a normal game only the first disconnect is
      charged; `charged` says whether there has been one. */
  function Charge(result: Result, rules: Rules, charged: bool): Option<Outcome> {
    match result
    case Win => Some(Wins)
    case Loss => Some(Losses)
    case Draw => Some(Draws)
    case Disconnect =>
      if rules.discIsLoss then Some(Losses)
      else if OnLadder(rules) || !charged then Some(Disconnects) else None
    case _ => Some(Disconnects)
  }

  /** Everything a good game with these real players charges, in slot order. */
  function Charges(entries: seq<Entry>, rules: Rules): seq<(nat, Kind)>
    requires forall i | 0 <= i < |entries| :: Real(entries[i])
  {
    if entries == [] then []
    else
      var n := |entries| - 1;
      var e := entries[n];
      assert Real(entries[n]);
      var outcome := Charge(e.result, rules, Disconnected(entries[..n]) > 0);
      Charges(entries[..n], rules) +
      if outcome.Some? then [(e.player.value, Kind(rules.record, outcome.value))] else []
  }

  function Disconnected(entries: seq<Entry>): (d: nat)
    ensures d <= |entries|
  {
    if entries == [] then 0
    else Disconnected(entries[..|entries| - 1]) + if entries[|entries| - 1].result == Disconnect then 1 else 0
  }

  function Charged(own: Counters, base: map<Kind, nat>, charges: seq<(nat, Kind)>): Counters {
    if charges == [] then own
    else
      var n := |charges| - 1;
      Inc(Charged(own, base, charges[..n]), base, charges[n].0, charges[n].1)
  }

  /** The first disconnect of a normal game is charged and the others are not; everybody else always is. */
  lemma {:induction false} HowManyCharged(entries: seq<Entry>, rules: Rules)
    requires forall i | 0 <= i < |entries| :: Real(entries[i])
    ensures |Charges(entries, rules)| ==
            if OnLadder(rules) || rules.discIsLoss || Disconnected(entries) == 0 then |entries|
            else |entries| - (Disconnected(entries) - 1)
  {
    if entries != [] {
      HowManyCharged(entries[..|entries| - 1], rules);
    }
  }

  /** Every counter rises by the number of times it was charged, in 32-bit arithmetic. */
  lemma {:induction false} CounterLaw(own: Counters, base: map<Kind, nat>, charges: seq<(nat, Kind)>,
                                      account: nat, kind: Kind)
    requires Tally(own, base, account, kind) < UINT_LIMIT
    ensures Tally(Charged(own, base, charges), base, account, kind) ==
            (Tally(own, base, account, kind) + multiset(charges)[(account, kind)]) % UINT_LIMIT
  {
    hide Inc, Tally;
    if charges != [] {
      var n := |charges| - 1;
      CounterLaw(own, base, charges[..n], account, kind);
      TallyAfterInc(Charged(own, base, charges[..n]), base, charges[n].0, charges[n].1, account, kind);
      assert charges == charges[..n] + [charges[n]];
      ModPlusOne(Tally(own, base, account, kind) + multiset(charges[..n])[(account, kind)]);
    }
  }

  lemma TallyAfterInc(own: Counters, base: map<Kind, nat>, a: nat, k: Kind, account: nat, kind: Kind)
    ensures Tally(Inc(own, base, a, k), base, account, kind) ==
            if a == account && k == kind then (Tally(own, base, account, kind) + 1) % UINT_LIMIT
            else Tally(own, base, account, kind)
  {
  }

  /** Where a counter starts: at what is stored, or at what the default account has, or at zero. */
  ghost function Start(own: Counters, base: map<Kind, nat>, account: nat, kind: Kind): nat {
    if (account, kind) in own then own[(account, kind)] else if kind in base then base[kind] else 0
  }

  /** A counter that rises by `n` is stored with its new value; one that does not is left as it was, stored or not. */
  ghost predicate Stored(own: Counters, base: map<Kind, nat>, after: Counters, account: nat, kind: Kind, n: nat) {
    if n > 0 then
      (account, kind) in after && after[(account, kind)] == (Start(own, base, account, kind) + n) % 0x1_0000_0000
    else if (account, kind) in own then (account, kind) in after && after[(account, kind)] == own[(account, kind)]
    else (account, kind) !in after
  }

  lemma {:induction false} StoredLaw(own: Counters, base: map<Kind, nat>, charges: seq<(nat, Kind)>,
                                     account: nat, kind: Kind)
    ensures Stored(own, base, Charged(own, base, charges), account, kind, multiset(charges)[(account, kind)])
  {
    if charges != [] {
      var n := |charges| - 1;
      StoredLaw(own, base, charges[..n], account, kind);
      assert charges == charges[..n] + [charges[n]];
      ModPlusOne(Start(own, base, account, kind) + multiset(charges[..n])[(account, kind)]);
    }
  }

  lemma ModPlusOne(x: nat)
    ensures (x % UINT_LIMIT + 1) % UINT_LIMIT == (x + 1) % UINT_LIMIT
  {
  }

  /** The games of one record: wins, losses, draws and disconnects together. */
  function Games(own: Counters, base: map<Kind, nat>, account: nat, record: Record): nat {
    Tally(own, base, account, Kind(record, Wins)) + Tally(own, base, account, Kind(record, Losses)) +
    Tally(own, base, account, Kind(record, Draws)) + Tally(own, base, account, Kind(record, Disconnects))
  }

  function Total(own: Counters, base: map<Kind, nat>, accounts: seq<nat>, record: Record): nat {
    if accounts == [] then 0 else Games(own, base, accounts[0], record) + Total(own, base, accounts[1..], record)
  }

  lemma IncGames(own: Counters, base: map<Kind, nat>, account: nat, kind: Kind, other: nat, record: Record)
    requires kind.record == record ==> Tally(own, base, account, kind) + 1 < UINT_LIMIT
    ensures Games(Inc(own, base, account, kind), base, other, record) ==
            Games(own, base, other, record) + if other == account && record == kind.record then 1 else 0
  {
    IncTally(own, base, account, kind, other, Kind(record, Wins));
    IncTally(own, base, account, kind, other, Kind(record, Losses));
    IncTally(own, base, account, kind, other, Kind(record, Draws));
    IncTally(own, base, account, kind, other, Kind(record, Disconnects));
    hide Inc, Tally;
    match kind.outcome {
      case Wins =>
      case Losses =>
      case Draws =>
      case Disconnects =>
    }
  }

  lemma IncTally(own: Counters, base: map<Kind, nat>, account: nat, kind: Kind, other: nat, k: Kind)
    requires kind.record == k.record ==> Tally(own, base, account, kind) + 1 < UINT_LIMIT
    ensures Tally(Inc(own, base, account, kind), base, other, k) ==
            Tally(own, base, other, k) + if other == account && k == kind then 1 else 0
  {
  }

  lemma {:induction false} IncTotal(own: Counters, base: map<Kind, nat>, accounts: seq<nat>, account: nat, kind: Kind,
                                    record: Record)
    requires NoRepeat(accounts)
    requires kind.record == record ==> Tally(own, base, account, kind) + 1 < UINT_LIMIT
    ensures Total(Inc(own, base, account, kind), base, accounts, record) ==
            Total(own, base, accounts, record) + if account in accounts && record == kind.record then 1 else 0
  {
    hide Inc, Tally, Games;
    if accounts != [] {
      IncGames(own, base, account, kind, accounts[0], record);
      IncTotal(own, base, accounts[1..], account, kind, record);
      assert account in accounts <==> account == accounts[0] || account in accounts[1..];
    }
  }

  /** Conservation: as long as none of its counters is about to wrap, the total of a record over any accounts
      that include all the players rises by exactly the number of charges to it. */
  lemma {:induction false} Conservation(own: Counters, base: map<Kind, nat>, charges: seq<(nat, Kind)>,
                                        accounts: seq<nat>, record: Record)
    requires NoRepeat(accounts) && forall i | 0 <= i < |charges| :: charges[i].0 in accounts
    requires forall i | 0 <= i < |charges| && charges[i].1.record == record ::
               Tally(own, base, charges[i].0, charges[i].1) + ChargesTo(charges, record) < UINT_LIMIT
    ensures Total(Charged(own, base, charges), base, accounts, record) ==
            Total(own, base, accounts, record) + ChargesTo(charges, record)
  {
    hide Inc, Tally, NoRepeat, Total;
    if charges != [] {
      var n := |charges| - 1;
      var c := charges[n];
      Conservation(own, base, charges[..n], accounts, record);
      if c.1.record == record {
        CounterLaw(own, base, charges[..n], c.0, c.1);
        AtMostChargesTo(charges[..n], c);
      }
      IncTotal(Charged(own, base, charges[..n]), base, accounts, c.0, c.1, record);
    }
  }

  function ChargesTo(charges: seq<(nat, Kind)>, record: Record): nat {
    if charges == [] then 0
    else
      var n := |charges| - 1;
      ChargesTo(charges[..n], record) + if charges[n].1.record == record then 1 else 0
  }

  /** A game charges its own record only. */
  lemma {:induction false} OwnRecord(entries: seq<Entry>, rules: Rules, record: Record)
    requires forall i | 0 <= i < |entries| :: Real(entries[i])
    ensures ChargesTo(Charges(entries, rules), record) ==
            if record == rules.record then |Charges(entries, rules)| else 0
    ensures forall i | 0 <= i < |Charges(entries, rules)| :: Charges(entries, rules)[i].1.record == rules.record
  {
    if entries != [] {
      var n := |entries| - 1;
      OwnRecord(entries[..n], rules, record);
      var before := Charges(entries[..n], rules);
      assert Charges(entries, rules) == before || Charges(entries, rules)[..|before|] == before;
    }
  }

  lemma {:induction false} AtMostChargesTo(charges: seq<(nat, Kind)>, c: (nat, Kind))
    ensures multiset(charges)[c] <= ChargesTo(charges, c.1.record)
  {
    if charges != [] {
      var n := |charges| - 1;
      AtMostChargesTo(charges[..n], c);
      assert charges == charges[..n] + [charges[n]];
    }
  }

  // ----------------------------------------------------------- the whole report

  /** The report of a game. Diablo games have no real players; a bad game charges nothing. */
  function Settled(entries: seq<Entry>, diablo: bool, bad: bool, rules: Rules): seq<(nat, Kind)> {
    if diablo || bad then [] else Charges(Kept(entries), rules)
  }

  /** How many games a report counts: one for each real player of a good game, less the uncharged disconnects
      of a normal one. */
  function Counted(entries: seq<Entry>, diablo: bool, bad: bool, rules: Rules): nat {
    var kept, d := Kept(entries), Disconnected(Kept(entries));
    if diablo || bad then 0
    else if OnLadder(rules) || rules.discIsLoss || d == 0 then |kept| else |kept| - (d - 1)
  }

  /** A good game raises the total of wins, losses, draws and disconnects of its record by the number of its
      real players, less the uncharged disconnects of a normal game; any other game and all other records
      are left alone. */
  lemma ReportConserves(own: Counters, base: map<Kind, nat>, entries: seq<Entry>, diablo: bool, bad: bool,
                        rules: Rules, accounts: seq<nat>, record: Record)
    requires NoRepeat(accounts)
    requires forall i | 0 <= i < |entries| && Real(entries[i]) :: entries[i].player.value in accounts
    requires record == rules.record ==> forall a, o | a in accounts ::
               Tally(own, base, a, Kind(record, o)) + Counted(entries, diablo, bad, rules) < UINT_LIMIT
    ensures Total(Charged(own, base, Settled(entries, diablo, bad, rules)), base, accounts, record) ==
            Total(own, base, accounts, record) +
            if record == rules.record then Counted(entries, diablo, bad, rules) else 0
  {
    hide Tally, NoRepeat, Total, Inc, Counted;
    var charges := Settled(entries, diablo, bad, rules);
    SettledPlayers(entries, diablo, bad, rules, accounts);
    SettledCounts(entries, diablo, bad, rules, record);
    forall i | 0 <= i < |charges| && charges[i].1.record == record
      ensures Tally(own, base, charges[i].0, charges[i].1) + ChargesTo(charges, record) < UINT_LIMIT
    {
      assert charges[i].1 == Kind(record, charges[i].1.outcome);
    }
    Conservation(own, base, charges, accounts, record);
  }

  /** All that a report charges are counters of its own record, one for each game it counts. */
  lemma SettledCounts(entries: seq<Entry>, diablo: bool, bad: bool, rules: Rules, record: Record)
    ensures var charges := Settled(entries, diablo, bad, rules);
            && ChargesTo(charges, record) ==
               (if record == rules.record then Counted(entries, diablo, bad, rules) else 0)
            && forall i | 0 <= i < |charges| :: charges[i].1.record == rules.record
  {
    if !diablo && !bad {
      HowManyCharged(Kept(entries), rules);
      OwnRecord(Kept(entries), rules, record);
    }
  }

  lemma SettledPlayers(entries: seq<Entry>, diablo: bool, bad: bool, rules: Rules, accounts: seq<nat>)
    requires forall i | 0 <= i < |entries| && Real(entries[i]) :: entries[i].player.value in accounts
    ensures var charges := Settled(entries, diablo, bad, rules);
            forall i | 0 <= i < |charges| :: charges[i].0 in accounts
  {
    if !diablo && !bad {
      KeptPlayers(entries, accounts);
      ChargedPlayers(Kept(entries), rules, accounts);
    }
  }

  // ------------------------------------------------------ one counter at a time

  /** The slots of an account that have a result. */
  function CountOf(entries: seq<Entry>, account: nat, result: Result): nat {
    if entries == [] then 0
    else
      var last := entries[|entries| - 1];
      CountOf(entries[..|entries| - 1], account, result) +
      if last.player == Some(account) && last.result == result then 1 else 0
  }

  /** The first slot that has a player and the result Disconnect is one of the account's. */
  ghost predicate FirstToGo(entries: seq<Entry>, account: nat) {
    exists i | 0 <= i < |entries| ::
      && entries[i].player == Some(account) && entries[i].result == Disconnect
      && forall j | 0 <= j < i :: entries[j].player.None? || entries[j].result != Disconnect
  }

  /** By how much one counter of one account rises when a game with these slots is reported. */
  ghost function Rise(entries: seq<Entry>, diablo: bool, bad: bool, rules: Rules, account: nat, kind: Kind): nat {
    if diablo || bad || kind.record != rules.record then 0
    else
      match kind.outcome
      case Wins => CountOf(entries, account, Win)
      case Draws => CountOf(entries, account, Draw)
      case Losses =>
        CountOf(entries, account, Loss) + if rules.discIsLoss then CountOf(entries, account, Disconnect) else 0
      case Disconnects =>
        CountOf(entries, account, Observer) + CountOf(entries, account, Playing) +
        if rules.discIsLoss then 0
        else if rules.record.ladder != NORMAL_GAMES then CountOf(entries, account, Disconnect)
        else if FirstToGo(entries, account) then 1 else 0
  }

  /** The same for a game that counts, one result at a time. */
  ghost function Share(e: Entry, gone: bool, rules: Rules, account: nat, outcome: Outcome): nat {
    if e.player != Some(account) then 0
    else
      match outcome
      case Wins => if e.result == Win then 1 else 0
      case Draws => if e.result == Draw then 1 else 0
      case Losses => if e.result == Loss || (e.result == Disconnect && rules.discIsLoss) then 1 else 0
      case Disconnects =>
        if e.result == Observer || e.result == Playing then 1
        else if e.result == Disconnect && !rules.discIsLoss && (rules.record.ladder != NORMAL_GAMES || !gone) then 1
        else 0
  }

  ghost predicate SomebodyGone(entries: seq<Entry>) {
    exists i | 0 <= i < |entries| :: entries[i].player.Some? && entries[i].result == Disconnect
  }

  lemma RiseOneMore(entries: seq<Entry>, rules: Rules, account: nat, outcome: Outcome)
    requires entries != []
    ensures var n := |entries| - 1;
            Rise(entries, false, false, rules, account, Kind(rules.record, outcome)) ==
            Rise(entries[..n], false, false, rules, account, Kind(rules.record, outcome)) +
            Share(entries[n], SomebodyGone(entries[..n]), rules, account, outcome)
  {
    var n := |entries| - 1;
    var front := entries[..n];
    if SomebodyGone(front) {
      var i :| 0 <= i < |front| && front[i].player.Some? && front[i].result == Disconnect;
    }
    assert FirstToGo(entries, account) <==>
        FirstToGo(front, account)
        || (!SomebodyGone(front) && entries[n].player == Some(account) && entries[n].result == Disconnect) by {
      FirstToGoOneMore(entries, account);
    }
    if FirstToGo(front, account) {
      assert SomebodyGone(front);
    }
  }

  lemma FirstToGoOneMore(entries: seq<Entry>, account: nat)
    requires entries != []
    ensures var front, last := entries[..|entries| - 1], entries[|entries| - 1];
            FirstToGo(entries, account) <==>
            FirstToGo(front, account)
            || (!SomebodyGone(front) && last.player == Some(account) && last.result == Disconnect)
  {
    var n := |entries| - 1;
    var front := entries[..n];
    assert forall i | 0 <= i < n :: front[i] == entries[i];
    if FirstToGo(front, account) {
      var i :| 0 <= i < n && front[i].player == Some(account) && front[i].result == Disconnect
               && forall j | 0 <= j < i :: front[j].player.None? || front[j].result != Disconnect;
      assert entries[i].player == Some(account);
    }
  }

  lemma GoneOneMore(entries: seq<Entry>)
    requires entries != []
    ensures var n := |entries| - 1;
            SomebodyGone(entries) <==>
            SomebodyGone(entries[..n]) || (entries[n].player.Some? && entries[n].result == Disconnect)
  {
    var n := |entries| - 1;
    assert forall i | 0 <= i < n :: entries[..n][i] == entries[i];
    if i :| 0 <= i < n && entries[..n][i].player.Some? && entries[..n][i].result == Disconnect {
      assert entries[i].player.Some?;
    }
  }

  lemma DisconnectedOneMore(kept: seq<Entry>, e: Entry)
    ensures Disconnected(kept + [e]) == Disconnected(kept) + if e.result == Disconnect then 1 else 0
  {
    assert (kept + [e])[..|kept|] == kept;
  }

  lemma {:induction false} GoneIsDisconnected(entries: seq<Entry>)
    ensures SomebodyGone(entries) <==> Disconnected(Kept(entries)) > 0
  {
    hide SomebodyGone, Disconnected;
    if entries == [] {
      NobodyGone();
    } else {
      var n := |entries| - 1;
      GoneIsDisconnected(entries[..n]);
      GoneOneMore(entries);
      DisconnectedOneMore(Kept(entries[..n]), entries[n]);
      assert Kept(entries[..n]) + [] == Kept(entries[..n]);
    }
  }

  lemma NobodyGone()
    ensures !SomebodyGone([]) && Disconnected([]) == 0
  {
  }

  lemma ShareIsCharge(e: Entry, charged: bool, rules: Rules, account: nat, outcome: Outcome)
    requires Real(e)
    ensures Share(e, charged, rules, account, outcome) ==
            if e.player == Some(account) && Charge(e.result, rules, charged) == Some(outcome) then 1 else 0
  {
  }

  lemma CountOneMore<T>(s: seq<T>, x: T, y: T)
    ensures multiset(s + [x])[y] == multiset(s)[y] + if x == y then 1 else 0
  {
  }

  lemma ChargesShare(kept: seq<Entry>, rules: Rules, account: nat, outcome: Outcome)
    requires kept != [] && forall i | 0 <= i < |kept| :: Real(kept[i])
    ensures var n := |kept| - 1;
            var kind := Kind(rules.record, outcome);
            multiset(Charges(kept, rules))[(account, kind)] ==
            multiset(Charges(kept[..n], rules))[(account, kind)] +
            Share(kept[n], Disconnected(kept[..n]) > 0, rules, account, outcome)
  {
    hide Charge, Share, Disconnected;
    var n := |kept| - 1;
    assert Real(kept[n]);
    ShareIsCharge(kept[n], Disconnected(kept[..n]) > 0, rules, account, outcome);
    var before := Charges(kept[..n], rules);
    var charged := Charge(kept[n].result, rules, Disconnected(kept[..n]) > 0);
    if charged.Some? {
      var c := (kept[n].player.value, Kind(rules.record, charged.value));
      assert Charges(kept, rules) == before + [c];
      CountOneMore(before, c, (account, Kind(rules.record, outcome)));
    } else {
      assert Charges(kept, rules) == before + [];
    }
  }

  lemma {:induction false} ChargesRise(entries: seq<Entry>, rules: Rules, account: nat, outcome: Outcome)
    ensures var kind := Kind(rules.record, outcome);
            multiset(Charges(Kept(entries), rules))[(account, kind)] ==
            Rise(entries, false, false, rules, account, kind)
  {
    hide Charges, Rise, Share, Charge;
    var kind := Kind(rules.record, outcome);
    if entries == [] {
      NothingRises(rules, account, kind);
    } else {
      var n := |entries| - 1;
      var front := entries[..n];
      ChargesRise(front, rules, account, outcome);
      RiseOneMore(entries, rules, account, outcome);
      if Real(entries[n]) {
        assert Kept(entries)[..|Kept(front)|] == Kept(front);
        GoneIsDisconnected(front);
        ChargesShare(Kept(entries), rules, account, outcome);
      } else {
        assert Kept(entries) == Kept(front);
        NoShare(entries[n], SomebodyGone(front), rules, account, outcome);
      }
    }
  }

  lemma NothingRises(rules: Rules, account: nat, kind: Kind)
    ensures Rise([], false, false, rules, account, kind) == 0 && Charges([], rules) == []
  {
  }

  lemma NoShare(e: Entry, gone: bool, rules: Rules, account: nat, outcome: Outcome)
    requires !Real(e)
    ensures Share(e, gone, rules, account, outcome) == 0
  {
  }

  /** The same as a number of charges. */
  lemma RiseIsCharges(entries: seq<Entry>, diablo: bool, bad: bool, rules: Rules, account: nat, kind: Kind)
    ensures multiset(Settled(entries, diablo, bad, rules))[(account, kind)] ==
            Rise(entries, diablo, bad, rules, account, kind)
  {
    hide CountOf, FirstToGo;
    if kind.record == rules.record {
      ChargesRise(entries, rules, account, kind.outcome);
      assert kind == Kind(rules.record, kind.outcome);
    } else {
      SettledCounts(entries, diablo, bad, rules, kind.record);
      OtherRecord(Settled(entries, diablo, bad, rules), account, kind);
    }
  }

  lemma OtherRecord(charges: seq<(nat, Kind)>, account: nat, kind: Kind)
    requires forall i | 0 <= i < |charges| :: charges[i].1.record != kind.record
    ensures multiset(charges)[(account, kind)] == 0
  {
    assert (account, kind) !in charges;
  }

  /** The report of a game, one counter at a time: wins rise by the account's winning slots, draws by its drawn
      ones, losses by its lost ones and, where disconnects are losses, its disconnects; disconnects by its slots
      with any other result reported, and by its disconnects, on a ladder all of them, in a normal game at most
      the first of the game. Counters of other records, and of bad and Diablo games, stay. */
  lemma RiseLaw(own: Counters, base: map<Kind, nat>, entries: seq<Entry>, diablo: bool, bad: bool, rules: Rules,
                account: nat, kind: Kind)
    requires Tally(own, base, account, kind) < UINT_LIMIT
    ensures Tally(Charged(own, base, Settled(entries, diablo, bad, rules)), base, account, kind) ==
            (Tally(own, base, account, kind) + Rise(entries, diablo, bad, rules, account, kind)) % UINT_LIMIT
  {
    hide Tally, Charged, Rise, Settled;
    CounterLaw(own, base, Settled(entries, diablo, bad, rules), account, kind);
    RiseIsCharges(entries, diablo, bad, rules, account, kind);
  }

  lemma AllRise(own: Counters, base: map<Kind, nat>, entries: seq<Entry>, diablo: bool, bad: bool, rules: Rules)
    ensures forall a, k | Tally(own, base, a, k) < UINT_LIMIT ::
              Tally(Charged(own, base, Settled(entries, diablo, bad, rules)), base, a, k) ==
              (Tally(own, base, a, k) + Rise(entries, diablo, bad, rules, a, k)) % UINT_LIMIT
  {
    hide Tally, Charged, Rise, Settled;
    forall a, k | Tally(own, base, a, k) < UINT_LIMIT
      ensures Tally(Charged(own, base, Settled(entries, diablo, bad, rules)), base, a, k) ==
              (Tally(own, base, a, k) + Rise(entries, diablo, bad, rules, a, k)) % UINT_LIMIT
    {
      RiseLaw(own, base, entries, diablo, bad, rules, a, k);
    }
  }

  lemma {:induction false} ChargedAppend(own: Counters, base: map<Kind, nat>, a: seq<(nat, Kind)>, b: seq<(nat, Kind)>)
    ensures Charged(own, base, a + b) == Charged(Charged(own, base, a), base, b)
  {
    hide Inc;
    if b == [] {
      assert a + b == a;
    } else {
      var n := |b| - 1;
      assert (a + b)[..|a| + n] == a + b[..n];
      ChargedAppend(own, base, a, b[..n]);
    }
  }

  lemma {:induction false} ChargesToAppend(a: seq<(nat, Kind)>, b: seq<(nat, Kind)>, record: Record)
    ensures ChargesTo(a + b, record) == ChargesTo(a, record) + ChargesTo(b, record)
  {
    if b == [] {
      assert a + b == a;
    } else {
      var n := |b| - 1;
      assert (a + b)[..|a| + n] == a + b[..n];
      ChargesToAppend(a, b[..n], record);
    }
  }

  lemma {:induction false} KeptPlayers(entries: seq<Entry>, accounts: seq<nat>)
    requires forall i | 0 <= i < |entries| && Real(entries[i]) :: entries[i].player.value in accounts
    ensures forall i | 0 <= i < |Kept(entries)| :: Kept(entries)[i].player.value in accounts
  {
    if entries != [] {
      KeptPlayers(entries[..|entries| - 1], accounts);
    }
  }

  lemma {:induction false} ChargedPlayers(entries: seq<Entry>, rules: Rules, accounts: seq<nat>)
    requires forall i | 0 <= i < |entries| :: Real(entries[i]) && entries[i].player.value in accounts
    ensures |Charges(entries, rules)| <= |entries|
    ensures forall i | 0 <= i < |Charges(entries, rules)| :: Charges(entries, rules)[i].0 in accounts
  {
    if entries != [] {
      ChargedPlayers(entries[..|entries| - 1], rules, accounts);
    }
  }

  lemma ChargedNone(own: Counters, base: map<Kind, nat>, rules: Rules)
    ensures Charged(own, base, Charges([], rules)) == own
  {
  }

  lemma ChargedOneMore(own: Counters, base: map<Kind, nat>, entries: seq<Entry>, rules: Rules)
    requires entries != [] && forall i | 0 <= i < |entries| :: Real(entries[i])
    ensures var n := |entries| - 1;
            var outcome := Charge(entries[n].result, rules, Disconnected(entries[..n]) > 0);
            var before := Charged(own, base, Charges(entries[..n], rules));
            Charged(own, base, Charges(entries, rules)) ==
            if outcome.Some? then Inc(before, base, entries[n].player.value, Kind(rules.record, outcome.value))
            else before
  {
    hide Inc;
    var n := |entries| - 1;
    assert Real(entries[n]);
    if Charge(entries[n].result, rules, Disconnected(entries[..n]) > 0).Some? {
      assert Charges(entries, rules)[..|Charges(entries[..n], rules)|] == Charges(entries[..n], rules);
    } else {
      assert Charges(entries, rules) == Charges(entries[..n], rules);
    }
  }

  lemma ChargedNothing(own: Counters, base: map<Kind, nat>)
    ensures Charged(own, base, []) == own
  {
  }

  lemma SettledIs(entries: seq<Entry>, diablo: bool, bad: bool, rules: Rules)
    ensures diablo || bad || Kept(entries) == [] ==> Settled(entries, diablo, bad, rules) == []
    ensures !diablo && !bad ==> Settled(entries, diablo, bad, rules) == Charges(Kept(entries), rules)
  {
  }

  class Ledger {
    var own: Counters
    const base: map<Kind, nat>

    constructor (base: map<Kind, nat>)
      ensures own == map[] && this.base == base
    {
      own, this.base := map[], base;
    }

    method Add(account: nat, kind: Kind)
      modifies this
      ensures own == Inc(old(own), base, account, kind)
    {
      own := own[(account, kind) := (Tally(own, base, account, kind) + 1) % UINT_LIMIT];
    }

    /** The two switch statements of game_report, for one real player. */
    method ChargeOne(account: nat, result: Result, rules: Rules, discSet: bool) returns (discSet': bool)
      modifies this
      ensures var outcome := Charge(result, rules, discSet);
              own == if outcome.Some? then Inc(old(own), base, account, Kind(rules.record, outcome.value)) else old(own)
      ensures discSet' == (discSet || (result == Disconnect && !rules.discIsLoss && !OnLadder(rules)))
    {
      discSet' := discSet;
      match result {
        case Win => Add(account, Kind(rules.record, Wins));
        case Loss => Add(account, Kind(rules.record, Losses));
        case Draw => Add(account, Kind(rules.record, Draws));
        case Disconnect =>
          if rules.discIsLoss {
            Add(account, Kind(rules.record, Losses));
          } else if OnLadder(rules) {
            Add(account, Kind(rules.record, Disconnects));
          } else {
            if !discSet {
              Add(account, Kind(rules.record, Disconnects));
            }
            discSet' := true;
          }
        case _ => Add(account, Kind(rules.record, Disconnects));
      }
    }

    method ChargeAll(slots: Slots, realcount: nat, rules: Rules)
      requires slots.Valid() && realcount <= slots.players.Length
      requires forall i | 0 <= i < realcount :: Real(slots.All()[i])
      modifies this
      ensures own == Charged(old(own), base, Charges(slots.All()[..realcount], rules))
    {
      hide Inc, Charges, Charged, Slots.All;
      ghost var all := slots.All()[..realcount];
      ChargedNone(own, base, rules);
      var discSet := false;
      for i := 0 to realcount
        invariant own == Charged(old(own), base, Charges(all[..i], rules))
        invariant discSet == (!OnLadder(rules) && !rules.discIsLoss && Disconnected(all[..i]) > 0)
      {
        assert all[..i + 1][..i] == all[..i] && all[i] == slots.All()[i];
        ChargedOneMore(old(own), base, all[..i + 1], rules);
        slots.At(i);
        discSet := ChargeOne(slots.players[i].value, slots.results[i], rules, discSet);
      }
      assert all[..realcount] == all;
    }

    /** game_report, up to the writing of the report file. */
    method Report(slots: Slots, diablo: bool, reportDiablo: bool, bad: bool, rules: Rules) returns (goesOn: bool)
      requires slots.Valid()
      modifies this, slots.players, slots.results, slots.heads, slots.bodies
      ensures own == Charged(old(own), base, Settled(old(slots.All()), diablo, bad, rules))
      ensures forall a, k | Tally(old(own), base, a, k) < UINT_LIMIT ::
                Tally(own, base, a, k) ==
                (Tally(old(own), base, a, k) + Rise(old(slots.All()), diablo, bad, rules, a, k)) % UINT_LIMIT
      ensures slots.All() == if diablo then old(slots.All())
                             else Kept(old(slots.All())) + Blanks(slots.players.Length - |Kept(old(slots.All()))|)
      ensures goesOn == if diablo then reportDiablo else Kept(old(slots.All())) != []
    {
      ghost var was := slots.All();
      AllRise(own, base, was, diablo, bad, rules);
      SettledIs(was, diablo, bad, rules);
      ChargedNothing(own, base);
      hide Rise, Tally, Charged, Settled, Kept, Charges, Zip;
      if diablo {
        return reportDiablo;
      }
      var realcount := slots.Compact();
      if realcount < 1 {
        return false;
      }
      assert slots.All()[..realcount] == Kept(was);
      if !bad {
        assert forall i | 0 <= i < realcount :: slots.All()[i] == Kept(was)[i];
        ChargeAll(slots, realcount, rules);
      }
      goesOn := true;
    }
  }
}
