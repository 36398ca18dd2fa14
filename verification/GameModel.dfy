/** Games, their slots and the clients in them, as values (game_add_player, game_del_player and
    game_create in src/bnetd/game.c, conn_set_game in src/bnetd/connection.c).

    `G` names games and `C` names connections; Games.dfy uses the objects themselves. */
module GameModel {
  import opened Lists
  import opened Text
  import opened GameResults

  const LADDER := 10
  const IRONMAN := 11
  const ANY_TYPE := 1

  /** A slot: the connection while it is there, and what stays of the player. */
  datatype Slot<C> = Slot(conn: Option<C>, player: nat, result: Result, head: Option<string>, body: Option<string>)

  /** `tag` is the client the game is for; `countAsLoss` is the option by which disconnects are losses. */
  datatype Info = Info(name: string, pass: string, kind: int, startver: int, tag: string, countAsLoss: bool)

  datatype Rec<C> = Rec(info: Info, slots: seq<Slot<C>>, ref: nat, owner: Option<C>, bad: bool)

  datatype Client<G> = Client(account: nat, game: Option<G>)

  datatype World<G, C> = World(games: seq<G>, rec: map<G, Rec<C>>, client: map<C, Client<G>>)

  /** What a client asks for, and the number of normal games its account has won with that client. */
  datatype Request = Request(info: Info, wins: nat)

  // ------------------------------------------------------------------- slots

  function LiveCount<C>(slots: seq<Slot<C>>): nat {
    if slots == [] then 0
    else LiveCount(slots[..|slots| - 1]) + if slots[|slots| - 1].conn.Some? then 1 else 0
  }

  /** The connection in the first live slot. */
  function FirstLive<C>(slots: seq<Slot<C>>): Option<C> {
    if slots == [] then None
    else if slots[0].conn.Some? then slots[0].conn
    else FirstLive(slots[1..])
  }

  /** The first slot that is live and belongs to the account, or the number of slots. */
  function LiveSlotOf<C>(slots: seq<Slot<C>>, account: nat): (i: nat)
    ensures i <= |slots|
    ensures i < |slots| ==> slots[i].conn.Some? && slots[i].player == account
    ensures forall j | 0 <= j < i :: !(slots[j].conn.Some? && slots[j].player == account)
  {
    if slots == [] then 0
    else if slots[0].conn.Some? && slots[0].player == account then 0
    else 1 + LiveSlotOf(slots[1..], account)
  }

  predicate KnownStartver(v: int) {
    v == 0 || v == 1 || v == 3 || v == 4 || v == 104
  }

  /** The checks at the start of game_add_player. */
  predicate Refuses<C>(rec: Rec<C>, req: Request) {
    || !KnownStartver(req.info.startver)
    || (rec.info.kind == LADDER && req.wins < 10)
    || !SameText(rec.info.pass, req.info.pass)
  }

  /** game_add_player for a player who is let in: every array grows by one, the host is chosen anew. */
  function Grown<C>(rec: Rec<C>, c: C, account: nat): Rec<C> {
    var slots := rec.slots + [Slot(Some(c), account, NoResult, None, None)];
    rec.(slots := slots, ref := rec.ref + 1, owner := FirstLive(slots))
  }

  /** game_del_player while others remain: the slot stays, its connection goes. */
  function Vacated<C>(rec: Rec<C>, i: nat): Rec<C>
    requires i < |rec.slots| && rec.ref > 0
  {
    var slots := rec.slots[i := rec.slots[i].(conn := None)];
    var host := FirstLive(slots);
    rec.(slots := slots, ref := rec.ref - 1, owner := if host.Some? then host else rec.owner)
  }

  // --------------------------------------------------------- leaving, joining

  /** Whether leaving makes a game report its results and go away. */
  predicate Closes<G, C>(w: World<G, C>, c: C)
    requires c in w.client
  {
    && w.client[c].game.Some? && w.client[c].game.value in w.rec
    && var rec := w.rec[w.client[c].game.value];
       LiveSlotOf(rec.slots, w.client[c].account) < |rec.slots| && rec.ref < 2
  }

  /** Out of the game one is in; the last one out closes it. */
  function Departed<G(==), C(==)>(w: World<G, C>, c: C): (b: World<G, C>)
    requires c in w.client
    ensures c in b.client
  {
    var client := w.client[c := w.client[c].(game := None)];
    if w.client[c].game.None? || w.client[c].game.value !in w.rec then w.(client := client)
    else
      var g := w.client[c].game.value;
      var rec := w.rec[g];
      var i := LiveSlotOf(rec.slots, w.client[c].account);
      if i == |rec.slots| then w.(client := client)
      else if rec.ref < 2 then w.(games := Without(w.games, g), rec := w.rec - {g}, client := client)
      else w.(rec := w.rec[g := Vacated(rec, i)], client := client)
  }

  /** gamelist_find_game. */
  function FindGame<G, C>(rec: map<G, Rec<C>>, games: seq<G>, name: string, kind: int): Option<G> {
    if games == [] then None
    else if games[0] in rec && (kind == ANY_TYPE || rec[games[0]].info.kind == kind)
            && SameText(name, rec[games[0]].info.name) then Some(games[0])
    else FindGame(rec, games[1..], name, kind)
  }

  function Seated<G(==), C(==)>(w: World<G, C>, g: G, c: C, req: Request): (b: World<G, C>)
    requires g in w.rec && c in w.client
    ensures c in b.client
  {
    if Refuses(w.rec[g], req) then w
    else w.(rec := w.rec[g := Grown(w.rec[g], c, w.client[c].account)],
            client := w.client[c := w.client[c].(game := Some(g))])
  }

  function Created<G(==), C>(w: World<G, C>, g: G, info: Info): World<G, C> {
    w.(games := [g] + w.games, rec := w.rec[g := Rec(info, [], 0, None, false)])
  }

  /** conn_set_game; a game made on the way is called `spare`, and stays listed even if its maker is
      then refused. A name in use by a game of another type finds nothing and makes nothing. */
  function SetGame<G(==), C(==)>(w: World<G, C>, c: C, req: Option<Request>, spare: Option<G>): (b: World<G, C>)
    requires c in w.client
    ensures c in b.client
  {
    if StaysInGame(w, c, req) then w
    else
      var v := Departed(w, c);
      if req.None? then v else Entered(v, c, req.value, spare)
  }

  predicate StaysInGame<G, C>(w: World<G, C>, c: C, req: Option<Request>)
    requires c in w.client
  {
    && req.Some? && w.client[c].game.Some? && w.client[c].game.value in w.rec
    && SameText(req.value.info.name, w.rec[w.client[c].game.value].info.name)
  }

  function Entered<G(==), C(==)>(w: World<G, C>, c: C, req: Request, spare: Option<G>): (b: World<G, C>)
    requires c in w.client
    ensures c in b.client
  {
    var g := FindGame(w.rec, w.games, req.info.name, req.info.kind);
    if g.Some? && g.value in w.rec then Seated(w, g.value, c, req)
    else if FindGame(w.rec, w.games, req.info.name, ANY_TYPE).Some? || spare.None? then w
    else Seated(Created(w, spare.value, req.info), spare.value, c, req)
  }

  /** Whether conn_set_game answers that it failed. Asking for a name that a game of another type has leads
      nowhere without being a failure. */
  predicate Rejected<G, C>(w: World<G, C>, c: C, req: Option<Request>)
    requires c in w.client
  {
    req.Some? && !StaysInGame(w, c, req) && TurnsDown(Departed(w, c), req.value)
  }

  predicate TurnsDown<G, C>(w: World<G, C>, req: Request) {
    var g := FindGame(w.rec, w.games, req.info.name, req.info.kind);
    if g.Some? && g.value in w.rec then Refuses(w.rec[g.value], req)
    else
      FindGame(w.rec, w.games, req.info.name, ANY_TYPE).None?
      && Refuses<C>(Rec(req.info, [], 0, None, false), req)
  }

  // --------------------------------------------------------------- invariant

  ghost predicate Shape<G, C>(w: World<G, C>) {
    NoRepeat(w.games) && w.rec.Keys == set g | g in w.games
  }

  /** A game on its own: the reference count is the number of live slots, the host is in the first
      of them, nobody is in two slots, and a game that ever had a player still has one. */
  ghost predicate RecOk<C>(rec: Rec<C>) {
    && rec.ref == LiveCount(rec.slots)
    && (rec.ref > 0 ==> rec.owner == FirstLive(rec.slots))
    && (rec.slots != [] ==> rec.ref > 0)
    && (forall i, j | 0 <= i < j < |rec.slots| && rec.slots[i].conn.Some? :: rec.slots[i].conn != rec.slots[j].conn)
  }

  ghost predicate RecsOk<G, C>(w: World<G, C>) {
    forall g | g in w.rec :: RecOk(w.rec[g])
  }

  ghost predicate Holds<C>(slots: seq<Slot<C>>, c: C) {
    exists i | 0 <= i < |slots| :: slots[i].conn == Some(c)
  }

  /** A connection's game field and the live slots agree in both directions. */
  ghost predicate Linked<G, C>(w: World<G, C>) {
    && (forall g, i | g in w.rec && 0 <= i < |w.rec[g].slots| && w.rec[g].slots[i].conn.Some? ::
          SeatedAt(w, g, w.rec[g].slots[i]))
    && (forall c | c in w.client && w.client[c].game.Some? ::
          w.client[c].game.value in w.rec && Holds(w.rec[w.client[c].game.value].slots, c))
  }

  ghost predicate SeatedAt<G, C>(w: World<G, C>, g: G, s: Slot<C>)
    requires s.conn.Some?
  {
    s.conn.value in w.client && w.client[s.conn.value] == Client(s.player, Some(g))
  }

  ghost predicate NamesDistinct<G, C>(w: World<G, C>) {
    forall g, h | g in w.rec && h in w.rec && g != h :: !SameText(w.rec[g].info.name, w.rec[h].info.name)
  }

  /** One connection per account. */
  ghost predicate AccountsDistinct<G, C>(w: World<G, C>) {
    forall c, d | c in w.client && d in w.client && c != d :: w.client[c].account != w.client[d].account
  }

  ghost predicate Inv<G, C>(w: World<G, C>) {
    Shape(w) && RecsOk(w) && Linked(w) && NamesDistinct(w) && AccountsDistinct(w)
  }

  // ----------------------------------------------------------- lemmas on slots

  lemma {:induction false} LiveCountUpdate<C>(slots: seq<Slot<C>>, i: nat)
    requires i < |slots| && slots[i].conn.Some?
    ensures LiveCount(slots[i := slots[i].(conn := None)]) + 1 == LiveCount(slots)
  {
    var n := |slots| - 1;
    var after := slots[i := slots[i].(conn := None)];
    if i == n {
      assert after[..n] == slots[..n];
    } else {
      assert after[..n] == slots[..n][i := slots[i].(conn := None)];
      LiveCountUpdate(slots[..n], i);
    }
  }

  lemma {:induction false} FirstLiveMeaning<C>(slots: seq<Slot<C>>)
    ensures FirstLive(slots).None? <==> LiveCount(slots) == 0
    ensures FirstLive(slots).None? <==> forall i | 0 <= i < |slots| :: slots[i].conn.None?
    ensures FirstLive(slots).Some? ==> exists i | 0 <= i < |slots| ::
              slots[i].conn == FirstLive(slots) && forall j | 0 <= j < i :: slots[j].conn.None?
  {
    if slots != [] {
      FirstLiveMeaning(slots[1..]);
      LiveCountHead(slots);
      if slots[0].conn.None? && FirstLive(slots).Some? {
        var i :| 0 <= i < |slots[1..]| && slots[1..][i].conn == FirstLive(slots)
                 && forall j | 0 <= j < i :: slots[1..][j].conn.None?;
        assert slots[i + 1].conn == FirstLive(slots);
        assert forall j | 0 <= j < i + 1 :: j == 0 || slots[j] == slots[1..][j - 1];
      } else if slots[0].conn.None? {
        assert forall i | 0 < i < |slots| :: slots[i] == slots[1..][i - 1];
      }
    }
  }

  lemma {:induction false} LiveCountHead<C>(slots: seq<Slot<C>>)
    requires slots != []
    ensures LiveCount(slots) == LiveCount(slots[1..]) + if slots[0].conn.Some? then 1 else 0
  {
    var n := |slots| - 1;
    if n > 0 {
      assert slots[..n][1..] == slots[1..][..n - 1];
      LiveCountHead(slots[..n]);
    } else {
      assert slots[..0] == [];
    }
  }

  // ------------------------------------------------------------ what keeps what

  /** Accounts being distinct, the slot game_del_player finds by account is the one of `c`. */
  lemma DropFindsOwn<G, C>(w: World<G, C>, c: C)
    requires Linked(w) && AccountsDistinct(w) && c in w.client && w.client[c].game.Some?
    ensures var rec := w.rec[w.client[c].game.value];
            var i := LiveSlotOf(rec.slots, w.client[c].account);
            i < |rec.slots| && rec.slots[i].conn == Some(c)
  {
    var g := w.client[c].game.value;
    var rec := w.rec[g];
    var i := LiveSlotOf(rec.slots, w.client[c].account);
    var k :| 0 <= k < |rec.slots| && rec.slots[k].conn == Some(c);
    assert SeatedAt(w, g, rec.slots[k]);
    if i < |rec.slots| {
      assert SeatedAt(w, g, rec.slots[i]);
    }
  }

  lemma VacatedIsOk<C>(rec: Rec<C>, i: nat)
    requires RecOk(rec) && i < |rec.slots| && rec.slots[i].conn.Some? && rec.ref >= 2
    ensures RecOk(Vacated(rec, i))
  {
    LiveCountUpdate(rec.slots, i);
    FirstLiveMeaning(rec.slots[i := rec.slots[i].(conn := None)]);
  }

  lemma GrownIsOk<C>(rec: Rec<C>, c: C, account: nat)
    requires RecOk(rec) && !Holds(rec.slots, c)
    ensures RecOk(Grown(rec, c, account))
  {
    var s := Slot(Some(c), account, NoResult, None, None);
    assert (rec.slots + [s])[..|rec.slots|] == rec.slots;
  }

  /** With a single live slot, `c` in slot `i` is the only connection of the game. */
  lemma OnlyOneLive<C>(slots: seq<Slot<C>>, i: nat)
    requires i < |slots| && slots[i].conn.Some? && LiveCount(slots) < 2
    ensures forall j | 0 <= j < |slots| && j != i :: slots[j].conn.None?
  {
    LiveCountUpdate(slots, i);
    FirstLiveMeaning(slots[i := slots[i].(conn := None)]);
    forall j | 0 <= j < |slots| && j != i
      ensures slots[j].conn.None?
    {
      assert slots[i := slots[i].(conn := None)][j] == slots[j];
    }
  }

  /** `b` is `a` after `c` left game `g`, which loses that one connection or closes. */
  ghost predicate Leaves<G, C>(a: World<G, C>, b: World<G, C>, c: C, g: G) {
    && c in a.client && g in a.rec && b.client == a.client[c := a.client[c].(game := None)]
    && (forall h | h in a.rec && h != g :: h in b.rec && b.rec[h] == a.rec[h])
    && (if g in b.rec then
          && b.rec.Keys == a.rec.Keys && b.games == a.games && RecOk(b.rec[g])
          && b.rec[g].info == a.rec[g].info && |b.rec[g].slots| == |a.rec[g].slots|
          && (forall i | 0 <= i < |a.rec[g].slots| ::
                b.rec[g].slots[i] == if a.rec[g].slots[i].conn == Some(c) then a.rec[g].slots[i].(conn := None)
                                     else a.rec[g].slots[i])
        else
          && b.rec.Keys == a.rec.Keys - {g} && b.games == Without(a.games, g)
          && forall i | 0 <= i < |a.rec[g].slots| && a.rec[g].slots[i].conn.Some? :: a.rec[g].slots[i].conn == Some(c))
  }

  lemma DepartedLeaves<G, C>(w: World<G, C>, c: C)
    requires RecsOk(w) && Linked(w) && AccountsDistinct(w) && c in w.client && w.client[c].game.Some?
    ensures w.client[c].game.value in w.rec && Leaves(w, Departed(w, c), c, w.client[c].game.value)
  {
    hide LiveCount, FirstLive, Without;
    DropFindsOwn(w, c);
    var g := w.client[c].game.value;
    assert RecOk(w.rec[g]);
    hide Linked, AccountsDistinct, RecsOk;
    var i := LiveSlotOf(w.rec[g].slots, w.client[c].account);
    if w.rec[g].ref < 2 {
      OnlyOneLive(w.rec[g].slots, i);
      hide RecOk;
    } else {
      VacatedIsOk(w.rec[g], i);
      VacatedSlots(w.rec[g], i);
      hide RecOk, Vacated;
    }
  }

  lemma VacatedSlots<C>(rec: Rec<C>, i: nat)
    requires RecOk(rec) && i < |rec.slots| && rec.slots[i].conn.Some? && rec.ref > 0
    ensures var b := Vacated(rec, i);
            && b.info == rec.info && |b.slots| == |rec.slots|
            && forall j | 0 <= j < |rec.slots| ::
                 b.slots[j] == if rec.slots[j].conn == rec.slots[i].conn then rec.slots[j].(conn := None)
                               else rec.slots[j]
  {
  }

  lemma LeavesKeepsShape<G, C>(a: World<G, C>, b: World<G, C>, c: C, g: G)
    requires Leaves(a, b, c, g) && Shape(a)
    ensures Shape(b)
  {
    hide RecOk;
    WithoutNoRepeat(a.games, g);
  }

  lemma LeavesKeepsLinks<G, C>(a: World<G, C>, b: World<G, C>, c: C, g: G)
    requires Leaves(a, b, c, g) && Linked(a) && RecsOk(a) && a.client[c].game == Some(g)
    ensures Linked(b)
  {
    hide LiveCount, FirstLive;
    assert RecOk(a.rec[g]);
    forall h, i | h in b.rec && 0 <= i < |b.rec[h].slots| && b.rec[h].slots[i].conn.Some?
      ensures SeatedAt(b, h, b.rec[h].slots[i])
    {
      assert SeatedAt(a, h, a.rec[h].slots[i]);
    }
    forall d | d in b.client && b.client[d].game.Some?
      ensures b.client[d].game.value in b.rec && Holds(b.rec[b.client[d].game.value].slots, d)
    {
      var h := a.client[d].game.value;
      var i :| 0 <= i < |a.rec[h].slots| && a.rec[h].slots[i].conn == Some(d);
      assert h in b.rec ==> b.rec[h].slots[i].conn == Some(d);
    }
  }

  lemma LeavesKeepsRest<G, C>(a: World<G, C>, b: World<G, C>, c: C, g: G)
    requires Leaves(a, b, c, g)
    ensures RecsOk(a) ==> RecsOk(b)
    ensures NamesDistinct(a) ==> NamesDistinct(b)
    ensures AccountsDistinct(a) ==> AccountsDistinct(b)
  {
    hide RecOk, Fold;
  }

  lemma DepartedKeepsInv<G, C>(w: World<G, C>, c: C)
    requires Inv(w) && c in w.client
    ensures Inv(Departed(w, c)) && Departed(w, c).client == w.client[c := w.client[c].(game := None)]
    ensures forall g | g in Departed(w, c).rec :: g in w.rec
  {
    hide Shape, RecsOk, Linked, NamesDistinct, AccountsDistinct;
    var b := Departed(w, c);
    if w.client[c].game.Some? {
      DepartedLeaves(w, c);
      var g := w.client[c].game.value;
      LeavesKeepsShape(w, b, c, g);
      LeavesKeepsLinks(w, b, c, g);
      LeavesKeepsRest(w, b, c, g);
    } else {
      assert w.client[c := w.client[c].(game := None)] == w.client;
    }
  }

  lemma NobodyOutsideHolds<G, C>(w: World<G, C>, g: G, c: C)
    requires Linked(w) && g in w.rec && c in w.client && w.client[c].game.None?
    ensures !Holds(w.rec[g].slots, c)
  {
    assert forall i | 0 <= i < |w.rec[g].slots| && w.rec[g].slots[i].conn.Some? :: SeatedAt(w, g, w.rec[g].slots[i]);
  }

  lemma SeatedKeepsInv<G, C>(w: World<G, C>, g: G, c: C, req: Request)
    requires Inv(w) && g in w.rec && c in w.client && w.client[c].game.None?
    ensures Inv(Seated(w, g, c, req))
  {
    hide Shape, NamesDistinct, AccountsDistinct, Linked, RecsOk;
    if !Refuses(w.rec[g], req) {
      SeatedKeepsLinks(w, g, c, req);
      SeatedKeepsRest(w, g, c, req);
    }
  }

  lemma SeatedKeepsLinks<G, C>(w: World<G, C>, g: G, c: C, req: Request)
    requires Linked(w) && RecsOk(w) && g in w.rec && c in w.client && w.client[c].game.None? && !Refuses(w.rec[g], req)
    ensures Linked(Seated(w, g, c, req)) && RecsOk(Seated(w, g, c, req))
  {
    hide LiveCount, FirstLive, Refuses;
    NobodyOutsideHolds(w, g, c);
    assert RecOk(w.rec[g]);
    var b := Seated(w, g, c, req);
    assert RecOk(b.rec[g]) by {
      GrownIsOk(w.rec[g], c, w.client[c].account);
    }
    forall h, i | h in b.rec && 0 <= i < |b.rec[h].slots| && b.rec[h].slots[i].conn.Some?
      ensures SeatedAt(b, h, b.rec[h].slots[i])
    {
      if h != g || i < |w.rec[g].slots| {
        assert SeatedAt(w, h, w.rec[h].slots[i]);
      }
    }
    forall d | d in b.client && b.client[d].game.Some?
      ensures b.client[d].game.value in b.rec && Holds(b.rec[b.client[d].game.value].slots, d)
    {
      if d == c {
        assert b.rec[g].slots[|w.rec[g].slots|].conn == Some(c);
      } else {
        var h := w.client[d].game.value;
        var i :| 0 <= i < |w.rec[h].slots| && w.rec[h].slots[i].conn == Some(d);
        assert b.rec[h].slots[i] == w.rec[h].slots[i];
      }
    }
  }

  lemma SeatedKeepsRest<G, C>(w: World<G, C>, g: G, c: C, req: Request)
    requires g in w.rec && c in w.client && !Refuses(w.rec[g], req)
    ensures Shape(w) ==> Shape(Seated(w, g, c, req))
    ensures NamesDistinct(w) ==> NamesDistinct(Seated(w, g, c, req))
    ensures AccountsDistinct(w) ==> AccountsDistinct(Seated(w, g, c, req))
  {
    hide Refuses, Fold;
  }

  lemma {:induction false} FindGameMeaning<G, C>(rec: map<G, Rec<C>>, games: seq<G>, name: string, kind: int)
    ensures var r := FindGame(rec, games, name, kind);
            if r.Some? then
              && r.value in games && r.value in rec && SameText(name, rec[r.value].info.name)
              && (kind == ANY_TYPE || rec[r.value].info.kind == kind)
            else forall g | g in games && g in rec && (kind == ANY_TYPE || rec[g].info.kind == kind) ::
                   !SameText(name, rec[g].info.name)
  {
    hide Fold;
    if games != [] {
      FindGameMeaning(rec, games[1..], name, kind);
    }
  }

  lemma NewIsOk<C>(info: Info)
    ensures RecOk(Rec<C>.Rec(info, [], 0, None, false))
  {
  }

  lemma CreatedKeepsInv<G, C>(w: World<G, C>, g: G, info: Info)
    requires Inv(w) && g !in w.rec && forall h | h in w.rec :: !SameText(info.name, w.rec[h].info.name)
    ensures Inv(Created(w, g, info))
  {
    hide Fold, RecOk, LiveCount, FirstLive, Linked;
    NewIsOk<C>(info);
    CreatedKeepsLinks(w, g, info);
    var b := Created(w, g, info);
    assert RecsOk(b) && Shape(b);
  }

  lemma CreatedKeepsLinks<G, C>(w: World<G, C>, g: G, info: Info)
    requires Linked(w) && g !in w.rec
    ensures Linked(Created(w, g, info))
  {
    hide Holds;
    var b := Created(w, g, info);
    forall h, i | h in b.rec && 0 <= i < |b.rec[h].slots| && b.rec[h].slots[i].conn.Some?
      ensures SeatedAt(b, h, b.rec[h].slots[i])
    {
      assert SeatedAt(w, h, w.rec[h].slots[i]);
    }
  }

  lemma SetGameKeepsInv<G, C>(w: World<G, C>, c: C, req: Option<Request>, spare: Option<G>)
    requires Inv(w) && c in w.client && (spare.Some? ==> spare.value !in w.rec)
    ensures Inv(SetGame(w, c, req, spare))
  {
    hide RecsOk, Linked, NamesDistinct, AccountsDistinct, Departed, Seated, Fold;
    if !StaysInGame(w, c, req) {
      DepartedKeepsInv(w, c);
      var v := Departed(w, c);
      if req.Some? {
        var g := FindGame(v.rec, v.games, req.value.info.name, req.value.info.kind);
        FindGameMeaning(v.rec, v.games, req.value.info.name, req.value.info.kind);
        FindGameMeaning(v.rec, v.games, req.value.info.name, ANY_TYPE);
        if g.Some? {
          SeatedKeepsInv(v, g.value, c, req.value);
        } else if FindGame(v.rec, v.games, req.value.info.name, ANY_TYPE).None? && spare.Some? {
          CreatedKeepsInv(v, spare.value, req.value.info);
          SeatedKeepsInv(Created(v, spare.value, req.value.info), spare.value, c, req.value);
        }
      }
    }
  }

  // -------------------------------------------------------------------- runs

  datatype Op<G, C> =
    | Connect(c: C, account: nat)
    | Enter(c: C, req: Request, spare: G)
    | Leave(c: C)
    | Report(g: G, claim: Claim)
    | SelfReport(g: G, claim: Claim, head: string, body: string)
    | Expire(g: G)
    | Close(c: C)

  ghost predicate Allowed<G, C>(w: World<G, C>, op: Op<G, C>) {
    match op
    case Connect(c, account) => c !in w.client && forall d | d in w.client :: w.client[d].account != account
    case Enter(c, _, spare) => c in w.client && spare !in w.rec
    case Leave(c) => c in w.client
    case Report(g, _) => g in w.rec
    case SelfReport(g, _, _, _) => g in w.rec
    case Expire(g) => g in w.rec
    case Close(c) => c in w.client
  }

  function Players<C>(slots: seq<Slot<C>>): seq<nat> {
    seq(|slots|, i requires 0 <= i < |slots| => slots[i].player)
  }

  function Results<C>(slots: seq<Slot<C>>): seq<Result> {
    seq(|slots|, i requires 0 <= i < |slots| => slots[i].result)
  }

  function ScoreOf<C>(rec: Rec<C>): Score {
    Score(Results(rec.slots), rec.bad)
  }

  /** game_check_result on the slots; refused while nobody has ever been in the game. */
  function Claimed<C>(rec: Rec<C>, claim: Claim): Rec<C> {
    if rec.slots == [] then rec
    else
      var s := Check(Players(rec.slots), ScoreOf(rec), claim);
      var slots := seq(|rec.slots|, i requires 0 <= i < |rec.slots| => rec.slots[i].(result := s.results[i]));
      rec.(slots := slots, bad := s.bad)
  }

  /** game_set_result: a player's own final result, with the text that goes into the report file. */
  function SelfClaimed<C>(rec: Rec<C>, claim: Claim, head: string, body: string): Rec<C> {
    var pos := SlotOf(Players(rec.slots), claim.account);
    if !Final(claim.result) || pos == |rec.slots| then rec
    else Claimed(rec.(slots := rec.slots[pos := rec.slots[pos].(head := Some(head), body := Some(body))]), claim)
  }

  function Step<G(==), C(==)>(w: World<G, C>, op: Op<G, C>): World<G, C>
    requires Allowed(w, op)
  {
    match op
    case Connect(c, account) => w.(client := w.client[c := Client(account, None)])
    case Enter(c, req, spare) => SetGame(w, c, Some(req), Some(spare))
    case Leave(c) => SetGame(w, c, None, None)
    case Report(g, claim) => w.(rec := w.rec[g := Claimed(w.rec[g], claim)])
    case SelfReport(g, claim, head, body) => w.(rec := w.rec[g := SelfClaimed(w.rec[g], claim, head, body)])
    case Expire(g) => if w.rec[g].ref >= 1 then w else w.(games := Without(w.games, g), rec := w.rec - {g})
    case Close(c) =>
      var v := SetGame(w, c, None, None);
      v.(client := v.client - {c})
  }

  lemma {:induction false} SameConns<C>(a: seq<Slot<C>>, b: seq<Slot<C>>)
    requires |a| == |b| && forall i | 0 <= i < |a| :: a[i].conn == b[i].conn
    ensures LiveCount(a) == LiveCount(b) && FirstLive(a) == FirstLive(b)
  {
    if a != [] {
      var n := |a| - 1;
      SameConns(a[..n], b[..n]);
      SameConns(a[1..], b[1..]);
    }
  }

  /** `b` is `a` with different results, marks or reports in game `g`. */
  ghost predicate Rescored<G, C>(a: World<G, C>, b: World<G, C>, g: G) {
    && g in a.rec && b.games == a.games && b.client == a.client && b.rec.Keys == a.rec.Keys
    && (forall h | h in a.rec && h != g :: b.rec[h] == a.rec[h])
    && b.rec[g].info == a.rec[g].info && b.rec[g].ref == a.rec[g].ref && b.rec[g].owner == a.rec[g].owner
    && |b.rec[g].slots| == |a.rec[g].slots|
    && forall i | 0 <= i < |a.rec[g].slots| ::
         b.rec[g].slots[i].conn == a.rec[g].slots[i].conn && b.rec[g].slots[i].player == a.rec[g].slots[i].player
  }

  lemma RescoredKeepsLinks<G, C>(a: World<G, C>, b: World<G, C>, g: G)
    requires Rescored(a, b, g) && Linked(a)
    ensures Linked(b)
  {
    forall h, i | h in b.rec && 0 <= i < |b.rec[h].slots| && b.rec[h].slots[i].conn.Some?
      ensures SeatedAt(b, h, b.rec[h].slots[i])
    {
      assert SeatedAt(a, h, a.rec[h].slots[i]);
    }
    forall d | d in b.client && b.client[d].game.Some?
      ensures b.client[d].game.value in b.rec && Holds(b.rec[b.client[d].game.value].slots, d)
    {
      var h := a.client[d].game.value;
      var i :| 0 <= i < |a.rec[h].slots| && a.rec[h].slots[i].conn == Some(d);
      assert b.rec[h].slots[i].conn == Some(d);
    }
  }

  lemma RescoredKeepsRecs<G, C>(a: World<G, C>, b: World<G, C>, g: G)
    requires Rescored(a, b, g) && RecsOk(a)
    ensures RecsOk(b)
  {
    hide LiveCount, FirstLive;
    SameConns(a.rec[g].slots, b.rec[g].slots);
    assert RecOk(a.rec[g]);
    assert RecOk(b.rec[g]);
  }

  lemma RescoredKeepsInv<G, C>(a: World<G, C>, b: World<G, C>, g: G)
    requires Rescored(a, b, g) && Inv(a)
    ensures Inv(b)
  {
    hide Fold, Linked, RecsOk;
    RescoredKeepsLinks(a, b, g);
    RescoredKeepsRecs(a, b, g);
  }

  lemma ReportKeepsInv<G, C>(w: World<G, C>, g: G, claim: Claim)
    requires Inv(w) && g in w.rec
    ensures Inv(w.(rec := w.rec[g := Claimed(w.rec[g], claim)]))
  {
    hide Check, Inv;
    RescoredKeepsInv(w, w.(rec := w.rec[g := Claimed(w.rec[g], claim)]), g);
  }

  lemma SelfReportKeepsInv<G, C>(w: World<G, C>, g: G, claim: Claim, head: string, body: string)
    requires Inv(w) && g in w.rec
    ensures Inv(w.(rec := w.rec[g := SelfClaimed(w.rec[g], claim, head, body)]))
  {
    hide Check, Inv;
    RescoredKeepsInv(w, w.(rec := w.rec[g := SelfClaimed(w.rec[g], claim, head, body)]), g);
  }

  lemma ExpireKeepsInv<G, C>(w: World<G, C>, g: G)
    requires Inv(w) && g in w.rec && w.rec[g].ref == 0
    ensures Inv(w.(games := Without(w.games, g), rec := w.rec - {g}))
  {
    hide Fold, LiveCount, FirstLive, Linked;
    WithoutNoRepeat(w.games, g);
    FirstLiveMeaning(w.rec[g].slots);
    assert RecOk(w.rec[g]);
    hide RecOk, Without;
    DropKeepsLinks(w, g);
  }

  lemma DropKeepsLinks<G, C>(w: World<G, C>, g: G)
    requires Linked(w) && g in w.rec && forall i | 0 <= i < |w.rec[g].slots| :: w.rec[g].slots[i].conn.None?
    ensures Linked(w.(games := Without(w.games, g), rec := w.rec - {g}))
  {
    hide Without;
    var b := w.(games := Without(w.games, g), rec := w.rec - {g});
    assert forall h, i | h in b.rec && 0 <= i < |b.rec[h].slots| && b.rec[h].slots[i].conn.Some? ::
        SeatedAt(w, h, w.rec[h].slots[i]);
  }

  lemma ConnectKeepsInv<G, C>(w: World<G, C>, c: C, account: nat)
    requires Inv(w) && c !in w.client && forall d | d in w.client :: w.client[d].account != account
    ensures Inv(w.(client := w.client[c := Client(account, None)]))
  {
    hide RecOk, Fold;
    var b := w.(client := w.client[c := Client(account, None)]);
    assert forall h, i | h in b.rec && 0 <= i < |b.rec[h].slots| && b.rec[h].slots[i].conn.Some? ::
        SeatedAt(w, h, w.rec[h].slots[i]);
  }

  lemma CloseKeepsInv<G, C>(w: World<G, C>, c: C)
    requires Inv(w) && c in w.client && w.client[c].game.None?
    ensures Inv(w.(client := w.client - {c}))
  {
    hide RecOk, Fold;
    var b := w.(client := w.client - {c});
    assert forall h, i | h in b.rec && 0 <= i < |b.rec[h].slots| && b.rec[h].slots[i].conn.Some? ::
        SeatedAt(w, h, w.rec[h].slots[i]);
  }

  /** Every operation keeps the invariant. */
  lemma StepKeepsInv<G, C>(w: World<G, C>, op: Op<G, C>)
    requires Inv(w) && Allowed(w, op)
    ensures Inv(Step(w, op))
  {
    hide Inv, Departed, Entered;
    match op {
      case Connect(c, account) => ConnectKeepsInv(w, c, account);
      case Enter(c, req, spare) => SetGameKeepsInv(w, c, Some(req), Some(spare));
      case Leave(c) => SetGameKeepsInv(w, c, None, None);
      case Report(g, claim) => ReportKeepsInv(w, g, claim);
      case SelfReport(g, claim, head, body) => SelfReportKeepsInv(w, g, claim, head, body);
      case Expire(g) =>
        if w.rec[g].ref == 0 {
          ExpireKeepsInv(w, g);
        }
      case Close(c) =>
        DepartedKeepsInv(w, c);
        CloseKeepsInv(Departed(w, c), c);
    }
  }

  ghost predicate RunsTo<G, C>(w: World<G, C>, ops: seq<Op<G, C>>, end: World<G, C>)
    decreases ops
  {
    if ops == [] then end == w else Allowed(w, ops[0]) && RunsTo(Step(w, ops[0]), ops[1..], end)
  }

  /** In every reachable state of the game list the invariant holds. */
  lemma {:induction false} RunKeepsInv<G, C>(ops: seq<Op<G, C>>, w: World<G, C>, end: World<G, C>)
    requires Inv(w) && RunsTo(w, ops, end)
    ensures Inv(end)
    decreases ops
  {
    hide Inv, Step;
    if ops != [] {
      StepKeepsInv(w, ops[0]);
      RunKeepsInv(ops[1..], Step(w, ops[0]), end);
    }
  }

  lemma EmptyInv<G, C>()
    ensures Inv(World<G, C>.World([], map[], map[]))
  {
  }
}
