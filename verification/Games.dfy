/** The game objects of src/bnetd/game.c and the connections in them. Every method is tied to the
    step of GameModel that says what it does, and closing a game to the charges of GameReport. */
module Games {
  import opened Lists
  import opened Text
  import opened GameResults
  import M = GameModel
  import R = GameReport
  import L = GameLedger
  import Laws = GameLaws

  class Client {
    const account: nat
    const tag: string
    var game: Game?

    constructor (account: nat, tag: string)
      ensures this.account == account && this.tag == tag && game == null
    {
      this.account, this.tag, game := account, tag, null;
    }

    ghost function View(): M.Client<Game>
      reads this
    {
      M.Client(account, OptionalGame(game))
    }
  }

  function OptionalGame(g: Game?): Option<Game> {
    if g == null then None else Some(g)
  }

  function OptionalClient(c: Client?): Option<Client> {
    if c == null then None else Some(c)
  }

  /** The five parallel arrays grow by one with every player who joins. */
  class Game {
    const info: M.Info
    var connections: seq<Client?>
    var players: seq<nat>
    var results: seq<Result>
    var heads: seq<Option<string>>
    var bodies: seq<Option<string>>
    var count: nat
    var refs: nat
    var owner: Client?
    var bad: bool

    constructor (info: M.Info)
      ensures Aligned() && View() == M.Rec(info, [], 0, None, false)
    {
      this.info := info;
      connections, players, results, heads, bodies := [], [], [], [], [];
      count, refs, owner, bad := 0, 0, null, false;
    }

    ghost predicate Aligned()
      reads this
    {
      |connections| == |players| == |results| == |heads| == |bodies| == count
    }

    ghost function Slots(): (s: seq<M.Slot<Client>>)
      requires Aligned()
      reads this
      ensures |s| == count
      ensures forall i | 0 <= i < count ::
                s[i] == M.Slot(OptionalClient(connections[i]), players[i], results[i], heads[i], bodies[i])
    {
      seq(count, i requires 0 <= i < count && Aligned() reads this =>
        M.Slot(OptionalClient(connections[i]), players[i], results[i], heads[i], bodies[i]))
    }

    ghost function View(): M.Rec<Client>
      requires Aligned()
      reads this
    {
      M.Rec(info, Slots(), refs, OptionalClient(owner), bad)
    }

    /** game_choose_host: the first slot with a connection; no change if there is none. */
    method ChooseHost()
      requires Aligned()
      modifies this`owner
      ensures var host := M.FirstLive(Slots());
              View() == old(View()).(owner := if host.Some? then host else old(View()).owner)
    {
      ghost var s := Slots();
      for i := 0 to count
        invariant M.FirstLive(s[i..]) == M.FirstLive(s)
      {
        assert s[i..][1..] == s[i + 1..];
        if connections[i] != null {
          assert M.FirstLive(s) == Some(connections[i]);
          owner := connections[i];
          assert Slots() == s;
          return;
        }
      }
    }

    /** game_add_player. */
    method AddPlayer(c: Client, req: M.Request) returns (ok: bool)
      requires Aligned()
      modifies this
      ensures Aligned() && ok == !M.Refuses(old(View()), req)
      ensures View() == if ok then M.Grown(old(View()), c, c.account) else old(View())
    {
      if !M.KnownStartver(req.info.startver) {
        return false;
      }
      if info.kind == M.LADDER && req.wins < 10 {
        return false;
      }
      if !SameText(info.pass, req.info.pass) {
        return false;
      }
      Append(c);
      ghost var s := Slots();
      ChooseHost();
      LastIsLive(s);
      ok := true;
    }

    method Append(c: Client)
      requires Aligned()
      modifies this
      ensures Aligned()
      ensures var s := old(Slots()) + [M.Slot(Some(c), c.account, NoResult, None, None)];
              View() == old(View()).(slots := s, ref := old(refs) + 1)
    {
      connections := connections + [c];
      players := players + [c.account];
      results := results + [NoResult];
      heads := heads + [None];
      bodies := bodies + [None];
      count := count + 1;
      refs := refs + 1;
      assert Slots() == old(Slots()) + [M.Slot(Some(c), c.account, NoResult, None, None)];
    }

    /** The search of game_del_player. */
    method FindSlot(account: nat) returns (i: nat)
      requires Aligned()
      ensures i == M.LiveSlotOf(Slots(), account)
    {
      for j := 0 to count
        invariant M.LiveSlotOf(Slots(), account) == j + M.LiveSlotOf(Slots()[j..], account)
      {
        assert Slots()[j..][1..] == Slots()[j + 1..];
        if players[j] == account && connections[j] != null {
          return j;
        }
      }
      i := count;
    }

    method Vacate(i: nat)
      requires Aligned() && i < count && refs > 0
      modifies this
      ensures Aligned() && View() == M.Vacated(old(View()), i)
    {
      connections := connections[i := null];
      refs := refs - 1;
      assert Slots() == old(Slots())[i := old(Slots())[i].(conn := None)];
      ChooseHost();
    }

    /** game_check_result. */
    method CheckResult(claim: Claim) returns (ok: bool)
      requires Aligned()
      modifies this`results, this`bad
      ensures Aligned() && View() == M.Claimed(old(View()), claim)
      ensures ok == (old(count) > 0 && claim.result != NoResult)
    {
      if count == 0 || claim.result == NoResult {
        assert Slots() == M.Claimed(old(View()), claim).slots;
        return false;
      }
      var pos := LastSlot(claim.account);
      assert M.Players(Slots()) == players && M.Results(Slots()) == results;
      if pos == count {
        bad := true;
      } else if results[pos] != claim.result {
        if results[pos] == NoResult || results[pos] == Playing {
          results := results[pos := claim.result];
        } else {
          bad := true;
        }
      }
      assert Slots() == M.Claimed(old(View()), claim).slots;
      ok := true;
    }

    /** game_set_result; an unknown player is refused here before it could spoil the game. */
    method SetResult(claim: Claim, head: string, body: string) returns (ok: bool)
      requires Aligned()
      modifies this`results, this`bad, this`heads, this`bodies
      ensures Aligned() && View() == M.SelfClaimed(old(View()), claim, head, body)
      ensures ok == (Decided(claim.result) && claim.account in old(players))
    {
      assert M.Players(Slots()) == players;
      if !Final(claim.result) {
        return false;
      }
      var pos := LastSlot(claim.account);
      if pos == count {
        return false;
      }
      heads, bodies := heads[pos := Some(head)], bodies[pos := Some(body)];
      assert Slots() == old(Slots())[pos := old(Slots())[pos].(head := Some(head), body := Some(body))];
      ok := CheckResult(claim);
    }

    method LastSlot(account: nat) returns (pos: nat)
      requires Aligned()
      ensures pos == SlotOf(players, account)
    {
      pos := count;
      for i := 0 to count
        invariant pos == count || pos < i
        invariant pos < count ==> players[pos] == account
        invariant forall j | 0 <= j < i && players[j] == account :: j <= pos < count
      {
        if players[i] == account {
          pos := i;
        }
      }
    }
  }

  /** What a client asks for as the server takes it: for the client's own kind of game, and with the normal
      games its account has won with it. */
  function Asked(ask: Option<M.Info>, c: Client, own: R.Counters, base: map<R.Kind, nat>): Option<M.Request> {
    if ask.None? then None
    else Some(M.Request(ask.value.(tag := c.tag),
                        R.Tally(own, base, c.account, R.Kind(R.Record(c.tag, R.NORMAL_GAMES), R.Wins))))
  }

  class Server {
    var games: seq<Game>
    var clients: set<Client>
    const ledger: R.Ledger
    const discIsLoss: bool
    const reportDiablo: bool

    constructor (ledger: R.Ledger, discIsLoss: bool, reportDiablo: bool)
      ensures Valid() && games == [] && clients == {} && this.ledger == ledger
    {
      games, clients := [], {};
      this.ledger, this.discIsLoss, this.reportDiablo := ledger, discIsLoss, reportDiablo;
      new;
      assert World() == M.World([], map[], map[]);
    }

    ghost predicate AllAligned()
      reads this`games, games
    {
      forall g | g in games :: g.Aligned()
    }

    ghost function Recs(): map<Game, M.Rec<Client>>
      requires AllAligned()
      reads this`games, games
    {
      map g | g in games :: g.View()
    }

    ghost function Seats(): map<Client, M.Client<Game>>
      reads this`clients, clients
    {
      map c | c in clients :: c.View()
    }

    ghost function World(): M.World<Game, Client>
      requires AllAligned()
      reads this`games, this`clients, games, clients
    {
      M.World(games, Recs(), Seats())
    }

    ghost predicate Valid()
      reads this`games, this`clients, games, clients
    {
      AllAligned() && M.Inv(World())
    }

    method CopySlots(g: Game) returns (slots: R.Slots)
      requires g.Aligned()
      ensures fresh(slots) && fresh(slots.players) && fresh(slots.results) && fresh(slots.heads) && fresh(slots.bodies)
      ensures slots.Valid() && slots.All() == L.EntriesOf(g.Slots())
    {
      var players := new Option<nat>[g.count](i requires 0 <= i < g.count && g.Aligned() reads g => Some(g.players[i]));
      var results := new Result[g.count](i requires 0 <= i < g.count && g.Aligned() reads g => g.results[i]);
      var heads := new Option<string>[g.count](i requires 0 <= i < g.count && g.Aligned() reads g => g.heads[i]);
      var bodies := new Option<string>[g.count](i requires 0 <= i < g.count && g.Aligned() reads g => g.bodies[i]);
      slots := new R.Slots(players, results, heads, bodies);
    }

    /** Rebuilds the arrays of the game for game_report, which compacts them in place. */
    method ReportGame(g: Game)
      requires g.Aligned()
      modifies ledger
      ensures ledger.own == R.Charged(old(ledger.own), ledger.base,
                R.Settled(L.EntriesOf(g.Slots()), L.Transient(g.info.tag), g.bad, L.RulesOf(g.info, discIsLoss)))
    {
      hide R.Charged, R.Settled, L.EntriesOf;
      var slots := CopySlots(g);
      var goesOn := ledger.Report(slots, L.Transient(g.info.tag), reportDiablo, g.bad, L.RulesOf(g.info, discIsLoss));
    }

    lemma WorldFields()
      requires AllAligned()
      ensures World().games == games && World().rec == Recs() && World().client == Seats()
      ensures forall g | g in World().rec :: g in games
      ensures forall g | g in games :: g in World().rec && World().rec[g] == g.View()
      ensures forall c | c in clients :: c in World().client && World().client[c] == c.View()
      ensures forall c | c in World().client :: c in clients
    {
    }

    /** game_del_player and the clearing of the connection's game field. */
    method LeaveGame(c: Client)
      requires Valid() && c in clients
      modifies this`games, games, clients, ledger
      ensures AllAligned() && World() == M.Departed(old(World()), c)
      ensures ledger.own == R.Charged(old(ledger.own), ledger.base, L.ChargesOnLeaving(old(World()), c, discIsLoss))
    {
      hide M.Inv, M.Vacated, Without, M.LiveSlotOf, R.Charged, R.Settled, L.EntriesOf, World, Recs, Seats;
      ghost var w := World();
      WorldFields();
      if c.game == null {
        NothingCharged(ledger.own, ledger.base);
        SetGameField(c, null);
        return;
      }
      var g := c.game;
      InvFacts(w, c);
      NothingCharged(ledger.own, ledger.base);
      RemovePlayer(g, c.account);
      SetGameField(c, null);
    }

    method RemovePlayer(g: Game, account: nat)
      requires AllAligned() && g in games && NoRepeat(games)
      requires M.LiveSlotOf(g.Slots(), account) < g.count && g.refs > 0
      modifies this`games, g, ledger
      ensures AllAligned()
      ensures var i := M.LiveSlotOf(old(g.Slots()), account);
              World() ==
              if old(g.refs) < 2 then old(World()).(games := Without(old(games), g), rec := old(World()).rec - {g})
              else old(World()).(rec := old(World()).rec[g := M.Vacated(old(g.View()), i)])
      ensures ledger.own ==
              if old(g.refs) < 2 then
                R.Charged(old(ledger.own), ledger.base,
                  R.Settled(L.EntriesOf(old(g.Slots())), L.Transient(g.info.tag), old(g.bad),
                            L.RulesOf(g.info, discIsLoss)))
              else old(ledger.own)
    {
      hide M.Vacated, Without, R.Charged, R.Settled, L.EntriesOf, World, Recs, Seats;
      var i := g.FindSlot(account);
      if g.refs < 2 {
        ReportGame(g);
        Unlist(g);
      } else {
        VacateSlot(g, i);
      }
    }

    method Unlist(g: Game)
      requires AllAligned() && g in games && NoRepeat(games)
      modifies this`games
      ensures AllAligned()
      ensures World() == old(World()).(games := Without(old(games), g), rec := old(World()).rec - {g})
    {
      WithoutNoRepeat(games, g);
      games := Without(games, g);
      hide Without, NoRepeat;
      assert Recs() == old(Recs()) - {g};
    }

    method VacateSlot(g: Game, i: nat)
      requires AllAligned() && g in games && i < g.count && g.refs > 0
      modifies g
      ensures AllAligned()
      ensures World() == old(World()).(rec := old(World()).rec[g := M.Vacated(old(g.View()), i)])
    {
      hide M.Vacated;
      g.Vacate(i);
      assert Recs() == old(Recs())[g := g.View()];
    }

    method SetGameField(c: Client, g: Game?)
      requires AllAligned() && c in clients
      modifies c`game
      ensures AllAligned()
      ensures World() == old(World()).(client := old(Seats())[c := M.Client(c.account, OptionalGame(g))])
    {
      c.game := g;
    }

    /** gamelist_find_game. */
    method FindGame(name: string, kind: int) returns (g: Game?)
      requires AllAligned()
      ensures OptionalGame(g) == M.FindGame(Recs(), games, name, kind)
      ensures g != null ==> g in games
    {
      for i := 0 to |games|
        invariant M.FindGame(Recs(), games[i..], name, kind) == M.FindGame(Recs(), games, name, kind)
      {
        assert games[i..][1..] == games[i + 1..];
        assert Recs()[games[i]] == games[i].View();
        if (kind == M.ANY_TYPE || games[i].info.kind == kind) && SameText(name, games[i].info.name) {
          return games[i];
        }
      }
      g := null;
    }

    /** game_create, once the name is known to be free. */
    method CreateGame(info: M.Info) returns (g: Game)
      requires AllAligned()
      modifies this`games
      ensures AllAligned() && fresh(g) && g in games
      ensures World() == M.Created(old(World()), g, info) && g.View() == M.Rec(info, [], 0, None, false)
    {
      g := new Game(info);
      games := [g] + games;
      assert Recs() == old(Recs())[g := g.View()];
    }

    method Seat(g: Game, c: Client, req: M.Request) returns (ok: bool)
      requires AllAligned() && g in games && c in clients
      modifies g, c
      ensures AllAligned() && World() == M.Seated(old(World()), g, c, req)
      ensures ok == !M.Refuses(old(g.View()), req)
    {
      hide M.Refuses, M.Grown, World, Recs, Seats;
      WorldFields();
      ok := AddTo(g, c, req);
      WorldFields();
      if ok {
        SetGameField(c, g);
      }
    }

    method AddTo(g: Game, c: Client, req: M.Request) returns (ok: bool)
      requires AllAligned() && g in games && c in clients
      modifies g
      ensures AllAligned() && ok == !M.Refuses(old(g.View()), req)
      ensures var rec := if ok then M.Grown(old(g.View()), c, c.account) else old(g.View());
              World() == old(World()).(rec := old(Recs())[g := rec])
    {
      hide M.Refuses, M.Grown;
      ghost var recs := Recs();
      ok := g.AddPlayer(c, req);
      assert Recs() == recs[g := g.View()];
    }

    method EnterGame(c: Client, req: M.Request) returns (ok: bool, made: Game?)
      requires AllAligned() && c in clients
      modifies this`games, games, c
      ensures AllAligned() && (made != null ==> fresh(made))
      ensures World() == M.Entered(old(World()), c, req, OptionalGame(made))
      ensures ok == !M.TurnsDown(old(World()), req)
    {
      hide M.Seated, M.FindGame, M.Refuses, World, Recs, Seats;
      WorldFields();
      ok, made := true, null;
      var g := FindGame(req.info.name, req.info.kind);
      if g == null {
        var other := FindGame(req.info.name, M.ANY_TYPE);
        if other != null {
          return;
        }
        g := CreateGame(req.info);
        made := g;
      }
      ok := Seat(g, c, req);
    }

    /** conn_set_game. The wins are those counted after the old game has been left, and perhaps closed. */
    method SetGame(c: Client, ask: Option<M.Info>) returns (ok: bool, made: Game?)
      requires Valid() && c in clients
      modifies this`games, games, clients, ledger
      ensures made != null ==> fresh(made)
      ensures c.game != null && c.game != old(c.game) && c.game.info.kind == 10 ==>
                R.Tally(ledger.own, ledger.base, c.account, R.Kind(R.Record(c.tag, 0), R.Wins)) >= 10
      ensures var req := Asked(ask, c, ledger.own, ledger.base);
              && Valid() && World() == M.SetGame(old(World()), c, req, OptionalGame(made))
              && ok == !M.Rejected(old(World()), c, req)
              && ledger.own ==
                 if M.StaysInGame(old(World()), c, req) then old(ledger.own)
                 else R.Charged(old(ledger.own), ledger.base, L.ChargesOnLeaving(old(World()), c, discIsLoss))
    {
      hide M.Inv, M.Departed, M.Entered, M.TurnsDown, L.ChargesOnLeaving, R.Charged, R.Tally, World, Recs, Seats;
      ok, made := true, null;
      ghost var w := World();
      WorldFields();
      M.SetGameKeepsInv(w, c, Asked(ask, c, ledger.own, ledger.base), None);
      if c.game != null {
        InvFacts(w, c);
      }
      if ask.Some? && c.game != null && SameText(ask.value.name, c.game.info.name) {
        return;
      }
      ok, made := MoveTo(c, ask);
      M.SetGameKeepsInv(w, c, Asked(ask, c, ledger.own, ledger.base), OptionalGame(made));
      Laws.LadderLaw(w, c, Asked(ask, c, ledger.own, ledger.base), OptionalGame(made));
      WorldFields();
    }

    method MoveTo(c: Client, ask: Option<M.Info>) returns (ok: bool, made: Game?)
      requires Valid() && c in clients
      modifies this`games, games, clients, ledger
      ensures made != null ==> fresh(made)
      ensures AllAligned()
      ensures var v, req := M.Departed(old(World()), c), Asked(ask, c, ledger.own, ledger.base);
              && c in v.client && World() == (if req.None? then v else M.Entered(v, c, req.value, OptionalGame(made)))
              && ok == (req.None? || !M.TurnsDown(v, req.value))
      ensures ledger.own == R.Charged(old(ledger.own), ledger.base, L.ChargesOnLeaving(old(World()), c, discIsLoss))
    {
      hide M.Inv, M.Departed, M.Entered, M.TurnsDown, L.ChargesOnLeaving, R.Charged, R.Tally, World, Recs, Seats;
      ok, made := true, null;
      ghost var w := World();
      WorldFields();
      M.DepartedKeepsInv(w, c);
      LeaveGame(c);
      var req := Asked(ask, c, ledger.own, ledger.base);
      if req.Some? {
        WorldFields();
        forall i | 0 <= i < |games|
          ensures games[i] in old(games)
        {
          assert games[i] in World().rec;
        }
        ok, made := EnterGame(c, req.value);
      }
    }

    method ReportResult(g: Game, claim: Claim) returns (ok: bool)
      requires Valid() && M.Allowed(World(), M.Report(g, claim))
      modifies g
      ensures Valid() && World() == M.Step(old(World()), M.Report(g, claim))
      ensures ok == (old(g.count) > 0 && claim.result != NoResult)
    {
      hide M.Claimed, M.Inv, World;
      WorldFields();
      M.ReportKeepsInv(World(), g, claim);
      ok := g.CheckResult(claim);
      WorldFields();
      assert Recs() == old(Recs())[g := g.View()];
    }

    method ReportOwnResult(g: Game, claim: Claim, head: string, body: string) returns (ok: bool)
      requires Valid() && M.Allowed(World(), M.SelfReport(g, claim, head, body))
      modifies g
      ensures Valid() && World() == M.Step(old(World()), M.SelfReport(g, claim, head, body))
      ensures ok == (Decided(claim.result) && claim.account in old(g.players))
    {
      hide M.SelfClaimed, M.Inv, World;
      WorldFields();
      M.SelfReportKeepsInv(World(), g, claim, head, body);
      ok := g.SetResult(claim, head, body);
      WorldFields();
      assert Recs() == old(Recs())[g := g.View()];
    }

    /** One turn of gamelist_check_voidgame for a game that has been empty long enough. */
    method ExpireGame(g: Game)
      requires Valid() && g in games
      modifies this`games
      ensures Valid() && World() == M.Step(old(World()), M.Expire(g))
    {
      hide M.Inv, Without;
      WorldFields();
      if g.refs >= 1 {
        return;
      }
      M.ExpireKeepsInv(World(), g);
      InvHasNoRepeats(World());
      Unlist(g);
    }

    /** A connection logs in to an account that nobody else is using. */
    method ConnectClient(account: nat, tag: string) returns (c: Client)
      requires Valid() && forall d | d in clients :: d.account != account
      modifies this`clients
      ensures fresh(c) && c.tag == tag && Valid() && World() == M.Step(old(World()), M.Connect(c, account))
    {
      hide M.Inv;
      ghost var w := World();
      WorldFields();
      c := new Client(account, tag);
      M.ConnectKeepsInv(w, c, account);
      clients := clients + {c};
      assert Seats() == w.client[c := M.Client(account, None)];
      assert Recs() == w.rec;
    }

    /** The game part of conn_destroy. */
    method CloseClient(c: Client)
      requires Valid() && c in clients
      modifies this`games, this`clients, games, clients, ledger
      ensures Valid() && World() == M.Step(old(World()), M.Close(c))
      ensures ledger.own == R.Charged(old(ledger.own), ledger.base, L.ChargesOnLeaving(old(World()), c, discIsLoss))
    {
      hide M.Inv, M.Departed, L.ChargesOnLeaving, R.Charged;
      ghost var w := World();
      M.StepKeepsInv(w, M.Close(c));
      LeaveGame(c);
      ForgetClient(c);
    }

    method ForgetClient(c: Client)
      requires AllAligned() && c in clients
      modifies this`clients
      ensures AllAligned() && World() == old(World()).(client := old(Seats()) - {c})
    {
      clients := clients - {c};
      assert Seats() == old(Seats()) - {c};
    }
  }

  lemma InvFacts(w: M.World<Game, Client>, c: Client)
    requires M.Inv(w) && c in w.client && w.client[c].game.Some?
    ensures NoRepeat(w.games) && w.client[c].game.value in w.rec
    ensures var rec := w.rec[w.client[c].game.value];
            M.LiveSlotOf(rec.slots, w.client[c].account) < |rec.slots| && rec.ref > 0
  {
    M.DropFindsOwn(w, c);
    var rec := w.rec[w.client[c].game.value];
    assert M.RecOk(rec);
  }

  lemma InvHasNoRepeats(w: M.World<Game, Client>)
    requires M.Inv(w)
    ensures NoRepeat(w.games)
  {
  }

  lemma NothingCharged(own: R.Counters, base: map<R.Kind, nat>)
    ensures R.Charged(own, base, []) == own
  {
  }

  lemma LastIsLive(s: seq<M.Slot<Client>>)
    requires s != [] && s[|s| - 1].conn.Some?
    ensures M.FirstLive(s).Some?
  {
    M.FirstLiveMeaning(s);
  }
}
