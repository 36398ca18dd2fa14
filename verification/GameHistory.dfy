/** The life of one game: who joined it and what was reported in it, and what that makes of its results
    while players come and go between the reports. */
module GameHistory {
  import opened Lists
  import opened Text
  import opened GameResults
  import opened GameModel
  import GameLaws

  datatype Event = Joined(account: nat) | Said(claim: Claim)

  /** The players of a game in the order they came, and how it stands. */
  datatype Past = Past(players: seq<nat>, score: Score) {
    ghost predicate Even() {
      |score.results| == |players|
    }
  }

  const UNPLAYED := Past([], Score([], false))

  /** A player who comes gets a new slot; a report before anybody came is refused. */
  function After(p: Past, e: Event): (q: Past)
    requires p.Even()
    ensures q.Even()
  {
    match e
    case Joined(account) => Past(p.players + [account], p.score.(results := p.score.results + [NoResult]))
    case Said(claim) => if p.players == [] then p else p.(score := Check(p.players, p.score, claim))
  }

  function Replay(events: seq<Event>): (p: Past)
    ensures p.Even()
  {
    if events == [] then UNPLAYED else After(Replay(events[..|events| - 1]), events[|events| - 1])
  }

  // ------------------------------------------------------- what spoils a game

  /** A final result reported for the account since it last joined. */
  ghost predicate GivenSince(events: seq<Event>, account: nat, r: Result) {
    Decided(r) && exists i :: GivenAt(events, account, r, i)
  }

  ghost predicate GivenAt(events: seq<Event>, account: nat, r: Result, i: int) {
    && 0 <= i < |events| && events[i] == Said(Claim(account, r))
    && Joined(account) in events[..i] && Joined(account) !in events[i..]
  }

  /** Report `j` names somebody who has not joined, or contradicts a final result given before it; before
      anybody has joined nothing is a conflict. */
  ghost predicate ConflictAt(events: seq<Event>, j: nat) {
    && j < |events| && events[j].Said? && events[j].claim.result != NoResult
    && var c := events[j].claim;
       && (exists e | e in events[..j] :: e.Joined?)
       && (Joined(c.account) !in events[..j] || exists r :: r != c.result && GivenSince(events[..j], c.account, r))
  }

  lemma SlotAfterJoin(players: seq<nat>, account: nat, b: nat)
    ensures var pos := SlotOf(players, account);
            SlotOf(players + [b], account) ==
            if account == b then |players| else if pos == |players| then |players| + 1 else pos
  {
    assert (players + [b])[..|players|] == players;
  }

  lemma {:induction false} PlayersAreJoined(events: seq<Event>)
    ensures forall a :: a in Replay(events).players <==> Joined(a) in events
  {
    if events != [] {
      PlayersAreJoined(events[..|events| - 1]);
      assert events == events[..|events| - 1] + [events[|events| - 1]];
    }
  }

  lemma GaveOneMore(events: seq<Event>, account: nat, r: Result)
    requires events != []
    ensures var n := |events| - 1;
            GivenSince(events, account, r) <==>
            if events[n] == Joined(account) then false
            else GivenSince(events[..n], account, r)
                 || (Decided(r) && events[n] == Said(Claim(account, r)) && Joined(account) in events[..n])
  {
    var n := |events| - 1;
    var before := events[..n];
    if events[n] != Joined(account) {
      forall i: nat | i < n
        ensures GivenAt(before, account, r, i) <==> GivenAt(events, account, r, i)
      {
        assert before[..i] == events[..i] && events[i..] == before[i..] + [events[n]];
      }
      if i :| GivenAt(events, account, r, i) {
        assert i < n ==> GivenAt(before, account, r, i);
      }
      if i :| GivenAt(before, account, r, i) {
        assert GivenAt(events, account, r, i);
      }
      assert events[n..] == [events[n]];
      assert GivenAt(events, account, r, n) <==> events[n] == Said(Claim(account, r)) && Joined(account) in before;
    } else {
      assert forall i | 0 <= i < |events| :: events[i..][n - i] == events[n];
    }
  }

  /** The result of the slot that reports about an account go to. */
  function ResultFor(p: Past, account: nat): Result
    requires p.Even()
  {
    var pos := SlotOf(p.players, account);
    if pos < |p.players| then p.score.results[pos] else NoResult
  }

  lemma ResultAfter(p: Past, e: Event, account: nat)
    requires p.Even() && account in p.players
    ensures var q, r := After(p, e), ResultFor(p, account);
            if e == Joined(account) then ResultFor(q, account) == NoResult
            else if e.Said? && e.claim.account == account && e.claim.result != NoResult && !Decided(r) then
              ResultFor(q, account) == e.claim.result && q.score.bad == p.score.bad
            else
              && ResultFor(q, account) == r && (p.score.bad ==> q.score.bad)
              && (e.Said? && e.claim.account == account && e.claim.result != NoResult && e.claim.result != r ==>
                    q.score.bad)
  {
    match e
    case Joined(b) => SlotAfterJoin(p.players, account, b);
    case Said(claim) =>
      hide SlotOf;
      if claim.account != account {
        OtherSlot(p.players, account, claim.account);
      }
  }

  lemma OtherSlot(players: seq<nat>, a: nat, b: nat)
    requires a in players && a != b
    ensures SlotOf(players, a) < |players| && SlotOf(players, a) != SlotOf(players, b)
  {
  }

  lemma FirstJoin(p: Past, account: nat)
    requires p.Even() && account !in p.players
    ensures ResultFor(After(p, Joined(account)), account) == NoResult
  {
    SlotAfterJoin(p.players, account, account);
  }

  /** What the slot of an account says and what was reported for the account since it took that slot. */
  lemma {:induction false} TracksLife(events: seq<Event>, account: nat)
    requires Joined(account) in events
    ensures var p, result := Replay(events), ResultFor(Replay(events), account);
            && (Decided(result) ==> GivenSince(events, account, result))
            && (forall r | GivenSince(events, account, r) :: Decided(result) && (!p.score.bad ==> result == r))
  {
    hide GivenSince, After, ResultFor;
    var n := |events| - 1;
    var before := Replay(events[..n]);
    PlayersAreJoined(events[..n]);
    assert events == events[..n] + [events[n]];
    forall r
      ensures GivenSince(events, account, r) <==>
              if events[n] == Joined(account) then false
              else GivenSince(events[..n], account, r)
                   || (Decided(r) && events[n] == Said(Claim(account, r)) && Joined(account) in events[..n])
    {
      GaveOneMore(events, account, r);
    }
    if account in before.players {
      ResultAfter(before, events[n], account);
      TracksLife(events[..n], account);
    } else {
      FirstJoin(before, account);
    }
  }

  lemma GivenOneMore(events: seq<Event>, front: seq<Event>, account: nat)
    requires events != [] && front == events[..|events| - 1]
    ensures var n := |front|;
            forall r, i :: GivenAt(events, account, r, i) <==>
              && events[n] != Joined(account)
              && if i == n then events[n] == Said(Claim(account, r)) && Joined(account) in front
                 else i < n && GivenAt(front, account, r, i)
    ensures forall r, i | GivenAt(front, account, r, i) :: i < |front|
  {
    var n := |front|;
    forall r, i
      ensures GivenAt(events, account, r, i) <==>
              && events[n] != Joined(account)
              && if i == n then events[n] == Said(Claim(account, r)) && Joined(account) in front
                 else i < n && GivenAt(front, account, r, i)
    {
      if 0 <= i <= n {
        assert events[i..][n - i] == events[n];
        assert events[i..] == front[i..] + [events[n]];
        assert i < n ==> front[..i] == events[..i];
      }
    }
  }

  /** The first result that ended the game for the account since it last joined. */
  ghost predicate GivenFirst(events: seq<Event>, account: nat, r: Result, i: int) {
    && Decided(r) && GivenAt(events, account, r, i)
    && forall q, j | j < i && GivenAt(events, account, q, j) :: !Decided(q)
  }

  /** No result has ended the game for the account since it last joined. */
  ghost predicate StillOpen(events: seq<Event>, account: nat) {
    forall q, j | GivenAt(events, account, q, j) :: !Decided(q)
  }

  /** The result that was reported for the account since it last joined: the first that ended the game for it;
      without one "still playing" if that was said, and else nothing. */
  ghost predicate Reported(events: seq<Event>, account: nat, r: Result) {
    if StillOpen(events, account) then
      r == if exists i :: GivenAt(events, account, Playing, i) then Playing else NoResult
    else exists i :: GivenFirst(events, account, r, i)
  }

  lemma ReportedOneMore(events: seq<Event>, account: nat, before: Result, r: Result)
    requires events != [] && Joined(account) in events[..|events| - 1]
    requires Reported(events[..|events| - 1], account, before)
    requires var e := events[|events| - 1];
             && e != Joined(account)
             && r == if e.Said? && e.claim.account == account && e.claim.result != NoResult && !Decided(before)
                     then e.claim.result else before
    ensures Reported(events, account, r)
  {
    hide GivenAt;
    var n := |events| - 1;
    var front := events[..n];
    GivenOneMore(events, front, account);
    if !StillOpen(front, account) {
      var i :| GivenFirst(front, account, before, i);
      assert GivenFirst(events, account, before, i);
    } else if events[n].Said? && events[n].claim == Claim(account, r) && Decided(r) {
      assert GivenFirst(events, account, r, n);
    } else {
      assert StillOpen(events, account);
      assert events[n] == Said(Claim(account, Playing)) ==> GivenAt(events, account, Playing, n);
      if i :| GivenAt(front, account, Playing, i) {
        assert GivenAt(events, account, Playing, i);
      }
    }
  }

  /** What the slot of an account says, whether or not the game is bad. */
  lemma {:induction false} ResultLaw(events: seq<Event>, account: nat)
    requires Joined(account) in events
    ensures Reported(events, account, ResultFor(Replay(events), account))
  {
    hide GivenAt, After, ResultFor, Reported;
    var n := |events| - 1;
    var before, front := Replay(events[..n]), events[..n];
    PlayersAreJoined(front);
    assert events == front + [events[n]];
    if account in before.players {
      ResultAfter(before, events[n], account);
    } else {
      FirstJoin(before, account);
    }
    if events[n] == Joined(account) {
      NothingYet(events, account);
    } else {
      ResultLaw(front, account);
      ReportedOneMore(events, account, ResultFor(before, account), ResultFor(Replay(events), account));
    }
  }

  lemma NothingYet(events: seq<Event>, account: nat)
    requires events != [] && events[|events| - 1] == Joined(account)
    ensures Reported(events, account, NoResult)
  {
    hide GivenAt;
    GivenOneMore(events, events[..|events| - 1], account);
  }

  /** A game is bad iff some report in its life was a conflict when it came. */
  lemma {:induction false} SpoiltLaw(events: seq<Event>)
    ensures Replay(events).score.bad <==> exists j :: ConflictAt(events, j)
  {
    if events != [] {
      var n := |events| - 1;
      var before := events[..n];
      SpoiltLaw(before);
      forall j: nat | j < n
        ensures ConflictAt(before, j) <==> ConflictAt(events, j)
      {
        assert before[..j] == events[..j];
      }
      LastEventSpoils(events);
      if j: nat :| ConflictAt(events, j) {
        assert j < n ==> ConflictAt(before, j);
      }
      if j: nat :| ConflictAt(before, j) {
        assert ConflictAt(events, j);
      }
    }
  }

  lemma LastEventSpoils(events: seq<Event>)
    requires events != []
    ensures var n, early := |events| - 1, Replay(events[..|events| - 1]).score.bad;
            && (early ==> Replay(events).score.bad)
            && (!early ==> (Replay(events).score.bad <==> ConflictAt(events, n)))
  {
    hide GivenSince, After, ResultFor, Replay;
    var n := |events| - 1;
    var before := Replay(events[..n]);
    LastEvent(events);
    PlayersAreJoined(events[..n]);
    AfterSticks(before, events[n]);
    if !before.score.bad {
      Spoils(before, events[n]);
      SomebodyJoined(events[..n]);
      if events[n].Said? && Joined(events[n].claim.account) in events[..n] {
        TracksLife(events[..n], events[n].claim.account);
      }
    }
  }

  lemma LastEvent(events: seq<Event>)
    requires events != []
    ensures Replay(events) == After(Replay(events[..|events| - 1]), events[|events| - 1])
  {
  }

  lemma SomebodyJoined(events: seq<Event>)
    ensures Replay(events).players == [] <==> !exists e | e in events :: e.Joined?
  {
    hide Replay;
    PlayersAreJoined(events);
    assert forall e | e in events && e.Joined? :: e == Joined(e.account) && e.account in Replay(events).players;
    assert Replay(events).players != [] ==> Joined(Replay(events).players[0]) in events;
  }

  /** When an event spoils a game that was good. */
  lemma Spoils(p: Past, e: Event)
    requires p.Even() && !p.score.bad
    ensures After(p, e).score.bad <==>
            && e.Said? && e.claim.result != NoResult && p.players != []
            && (e.claim.account !in p.players
                || (Decided(ResultFor(p, e.claim.account)) && ResultFor(p, e.claim.account) != e.claim.result))
  {
    hide SlotOf;
  }

  lemma AfterSticks(p: Past, e: Event)
    requires p.Even()
    ensures var q := After(p, e);
            && p.players <= q.players && (p.score.bad ==> q.score.bad)
            && forall pos | 0 <= pos < |p.players| && Decided(p.score.results[pos]) ::
                 q.score.results[pos] == p.score.results[pos]
  {
    hide SlotOf;
  }

  /** A final result stays in its slot, the bad mark stays, and players keep their slots. */
  lemma {:induction false} LifeSticks(events: seq<Event>, n: nat)
    requires n <= |events|
    ensures var early, late := Replay(events[..n]), Replay(events);
            && early.players <= late.players && (early.score.bad ==> late.score.bad)
            && forall pos | 0 <= pos < |early.players| && Decided(early.score.results[pos]) ::
                 late.score.results[pos] == early.score.results[pos]
    decreases |events| - n
  {
    if n == |events| {
      assert events[..n] == events;
    } else {
      assert events[..n + 1][..n] == events[..n];
      AfterSticks(Replay(events[..n]), events[n]);
      LifeSticks(events, n + 1);
    }
  }

  // ------------------------------------------------------ the life of a game

  function PastOf<C>(rec: Rec<C>): (p: Past)
    ensures p.Even()
  {
    Past(Players(rec.slots), ScoreOf(rec))
  }

  /** What one operation does in game `g`: it may bring a player in or report a result. */
  ghost function Happens<G, C>(w: World<G, C>, op: Op<G, C>, g: G): (events: seq<Event>)
    requires Allowed(w, op)
    ensures |events| <= 1
  {
    match op
    case Enter(c, _, _) =>
      if w.client[c].game != Some(g) && c in Step(w, op).client && Step(w, op).client[c].game == Some(g)
      then [Joined(w.client[c].account)] else []
    case Report(h, claim) => if h == g then [Said(claim)] else []
    case SelfReport(h, claim, _, _) =>
      if h == g && Decided(claim.result) && claim.account in Players(w.rec[h].slots) then [Said(claim)] else []
    case _ => []
  }

  /** Everything that happens in `g` in a run, from when it was made the last time; `past` came before. */
  ghost function Life<G, C>(w: World<G, C>, ops: seq<Op<G, C>>, end: World<G, C>, g: G, past: seq<Event>)
      : seq<Event>
    requires RunsTo(w, ops, end)
    decreases ops
  {
    if ops == [] then past
    else Life(Step(w, ops[0]), ops[1..], end, g, (if g in w.rec then past else []) + Happens(w, ops[0], g))
  }

  function Standing<G, C>(w: World<G, C>, g: G): (p: Past)
    ensures p.Even()
  {
    if g in w.rec then PastOf(w.rec[g]) else UNPLAYED
  }

  function Afterwards(p: Past, events: seq<Event>): Past
    requires p.Even() && |events| <= 1
  {
    if events == [] then p else After(p, events[0])
  }

  lemma VacatedPast<C>(rec: Rec<C>, i: nat)
    requires i < |rec.slots| && rec.ref > 0
    ensures PastOf(Vacated(rec, i)) == PastOf(rec)
  {
  }

  lemma GrownPast<C>(rec: Rec<C>, c: C, account: nat)
    ensures PastOf(Grown(rec, c, account)) == After(PastOf(rec), Joined(account))
  {
  }

  lemma ClaimedPast<C>(rec: Rec<C>, claim: Claim)
    ensures PastOf(Claimed(rec, claim)) == After(PastOf(rec), Said(claim))
  {
    assert Players(Claimed(rec, claim).slots) == Players(rec.slots);
    hide Check;
    if rec.slots != [] {
      var s := Check(Players(rec.slots), ScoreOf(rec), claim);
      assert Results(Claimed(rec, claim).slots) == s.results;
    }
  }

  lemma SelfClaimedPast<C>(rec: Rec<C>, claim: Claim, head: string, body: string)
    ensures PastOf(SelfClaimed(rec, claim, head, body)) ==
            if Decided(claim.result) && claim.account in Players(rec.slots) then After(PastOf(rec), Said(claim))
            else PastOf(rec)
  {
    var pos := SlotOf(Players(rec.slots), claim.account);
    if Decided(claim.result) && pos < |rec.slots| {
      var written := rec.(slots := rec.slots[pos := rec.slots[pos].(head := Some(head), body := Some(body))]);
      assert Players(written.slots) == Players(rec.slots) && Results(written.slots) == Results(rec.slots);
      ClaimedPast(written, claim);
      hide Claimed;
    }
  }

  lemma DepartedPast<G, C>(w: World<G, C>, c: C)
    requires Inv(w) && c in w.client
    ensures forall g | g in Departed(w, c).rec :: g in w.rec && PastOf(Departed(w, c).rec[g]) == PastOf(w.rec[g])
  {
    hide Inv, PastOf, Vacated, Without;
    if w.client[c].game.Some? {
      OwnSlot(w, c);
      var rec := w.rec[w.client[c].game.value];
      VacatedPast(rec, LiveSlotOf(rec.slots, w.client[c].account));
    }
  }

  lemma OwnSlot<G, C>(w: World<G, C>, c: C)
    requires Inv(w) && c in w.client && w.client[c].game.Some?
    ensures w.client[c].game.value in w.rec
    ensures var rec := w.rec[w.client[c].game.value];
            LiveSlotOf(rec.slots, w.client[c].account) < |rec.slots| && rec.ref > 0
  {
    DropFindsOwn(w, c);
    assert RecOk(w.rec[w.client[c].game.value]);
  }

  lemma EnteredPast<G, C>(v: World<G, C>, c: C, req: Request, spare: G)
    requires c in v.client && v.client[c].game.None? && spare !in v.rec
    ensures var b := Entered(v, c, req, Some(spare));
            && c in b.client
            && (forall g | g in v.rec :: g in b.rec)
            && forall g | g in b.rec ::
                 PastOf(b.rec[g]) ==
                 Afterwards(Standing(v, g), if b.client[c].game == Some(g) then [Joined(v.client[c].account)] else [])
  {
    hide FindGame, Refuses, Grown, PastOf;
    var b := Entered(v, c, req, Some(spare));
    NewPast<C>(req.info);
    forall g | g in b.rec && b.client[c].game == Some(g)
      ensures PastOf(b.rec[g]) == After(Standing(v, g), Joined(v.client[c].account))
    {
      GrownPast(if g in v.rec then v.rec[g] else Rec(req.info, [], 0, None, false), c, v.client[c].account);
    }
  }

  lemma NewPast<C>(info: Info)
    ensures PastOf(Rec<C>.Rec(info, [], 0, None, false)) == UNPLAYED
  {
  }

  /** Every operation does to the standing of a game what its event says. */
  lemma StepPast<G, C>(w: World<G, C>, op: Op<G, C>, g: G)
    requires Inv(w) && Allowed(w, op) && g in Step(w, op).rec
    ensures PastOf(Step(w, op).rec[g]) == Afterwards(Standing(w, g), Happens(w, op, g))
  {
    hide Inv, PastOf, Departed, Entered, Claimed, SelfClaimed;
    match op {
      case Enter(c, req, spare) => EnterPast(w, c, req, spare, g);
      case Leave(c) => DepartedPast(w, c);
      case Close(c) => DepartedPast(w, c);
      case Report(h, claim) => ClaimedPast(w.rec[h], claim);
      case SelfReport(h, claim, head, body) => SelfClaimedPast(w.rec[h], claim, head, body);
      case _ =>
    }
  }

  lemma EnterPast<G, C>(w: World<G, C>, c: C, req: Request, spare: G, g: G)
    requires Inv(w) && Allowed(w, Enter(c, req, spare)) && g in Step(w, Enter(c, req, spare)).rec
    ensures PastOf(Step(w, Enter(c, req, spare)).rec[g]) ==
            Afterwards(Standing(w, g), Happens(w, Enter(c, req, spare), g))
  {
    hide Inv, PastOf, Departed, Entered, SameText;
    if !StaysInGame(w, c, Some(req)) {
      var v := Departed(w, c);
      DepartedKeepsInv(w, c);
      DepartedPast(w, c);
      EnteredPast(v, c, req, spare);
      StillThere(w, c, req, spare, g);
    }
  }

  /** Whoever asks for another name does not end up in the game just left, and games left by others remain. */
  lemma StillThere<G, C>(w: World<G, C>, c: C, req: Request, spare: G, g: G)
    requires Inv(w) && c in w.client && spare !in w.rec && !StaysInGame(w, c, Some(req))
    requires g in SetGame(w, c, Some(req), Some(spare)).rec
    ensures w.client[c].game == Some(g) ==> SetGame(w, c, Some(req), Some(spare)).client[c].game != Some(g)
    ensures g in w.rec ==> g in Departed(w, c).rec
  {
    hide Inv, Departed, Fold, Refuses, FindGame;
    var v := Departed(w, c);
    DepartedKeepsInv(w, c);
    GameLaws.ElsewhereSame(w, c, req);
    FindGameMeaning(v.rec, v.games, req.info.name, req.info.kind);
  }

  lemma OneEventMore(lived: seq<Event>, events: seq<Event>)
    requires |events| <= 1
    ensures Afterwards(Replay(lived), events) == Replay(lived + events)
  {
    if events == [] {
      assert lived + events == lived;
    } else {
      assert (lived + events)[..|lived|] == lived;
    }
  }

  /** In a run the standing of a game is the replay of its life. */
  lemma {:induction false} LifeLaw<G, C>(w: World<G, C>, ops: seq<Op<G, C>>, end: World<G, C>, g: G, past: seq<Event>)
    requires Inv(w) && RunsTo(w, ops, end)
    requires g in w.rec ==> PastOf(w.rec[g]) == Replay(past)
    ensures g in end.rec ==> PastOf(end.rec[g]) == Replay(Life(w, ops, end, g, past))
    decreases ops
  {
    hide Inv, PastOf, After, Step, Happens;
    if ops != [] {
      var b := Step(w, ops[0]);
      StepKeepsInv(w, ops[0]);
      var lived := if g in w.rec then past else [];
      if g in b.rec {
        StepPast(w, ops[0], g);
        OneEventMore(lived, Happens(w, ops[0], g));
      }
      LifeLaw(b, ops[1..], end, g, lived + Happens(w, ops[0], g));
    }
  }

  /** In every run that starts without the game: it is bad iff some report in its life was a conflict, its
      players are those who joined it, and the last slot of anybody says what was reported since. */
  lemma GameLaw<G, C>(w: World<G, C>, ops: seq<Op<G, C>>, end: World<G, C>, g: G)
    requires Inv(w) && RunsTo(w, ops, end) && g !in w.rec && g in end.rec
    ensures var life, rec := Life(w, ops, end, g, []), end.rec[g];
            && (rec.bad <==> exists j :: ConflictAt(life, j))
            && (forall a :: a in Players(rec.slots) <==> Joined(a) in life)
            && forall a | Joined(a) in life ::
                 var r := Results(rec.slots)[SlotOf(Players(rec.slots), a)];
                 Reported(life, a, r) && (!rec.bad ==> forall q | GivenSince(life, a, q) :: r == q)
  {
    hide Inv, RunsTo, Life, ConflictAt, GivenSince, Replay, Reported;
    var life := Life(w, ops, end, g, []);
    LifeLaw(w, ops, end, g, []);
    SpoiltLaw(life);
    PlayersAreJoined(life);
    forall a | Joined(a) in life
      ensures var r := ResultFor(Replay(life), a);
              && SlotOf(Replay(life).players, a) < |Replay(life).players|
              && Reported(life, a, r) && (!Replay(life).score.bad ==> forall q | GivenSince(life, a, q) :: r == q)
    {
      TracksLife(life, a);
      ResultLaw(life, a);
    }
  }
}
