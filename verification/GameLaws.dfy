/** What changing game comes to, said without reference to how it is carried out. */
module GameLaws {
  import opened Lists
  import opened Text
  import opened GameResults
  import opened GameModel

  /** No place for the request: a game of that name is of another type or refuses it, or there is none and
      the new one would refuse its own maker. */
  ghost predicate TurnedAway<G, C>(w: World<G, C>, req: Request) {
    if exists g :: g in w.rec && SameText(req.info.name, w.rec[g].info.name) then
      exists g :: g in w.rec && SameText(req.info.name, w.rec[g].info.name) && !Welcome(w.rec[g], req)
    else
      !KnownStartver(req.info.startver) || (req.info.kind == LADDER && req.wins < 10)
  }

  ghost predicate Welcome<C>(rec: Rec<C>, req: Request) {
    (req.info.kind == ANY_TYPE || rec.info.kind == req.info.kind) && !Refuses(rec, req)
  }

  /** `c` alone has changed games: it is in none, or has a new last slot in a game of that name. */
  ghost predicate Seats<G, C>(w: World<G, C>, b: World<G, C>, c: C, req: Request, spare: G) {
    && c in w.client && c in b.client && b.client == w.client[c := w.client[c].(game := b.client[c].game)]
    && (b.client[c].game.Some? ==>
          var g := b.client[c].game.value;
          && g in b.rec && SameText(req.info.name, b.rec[g].info.name)
          && b.rec[g].slots ==
             (if g in w.rec then w.rec[g].slots else []) + [Slot(Some(c), w.client[c].account, NoResult, None, None)]
          && (g !in w.rec ==> g == spare && b.rec[g].info == req.info))
    && (forall h | h in b.rec && Some(h) != b.client[c].game && Some(h) != w.client[c].game ::
          if h in w.rec then b.rec[h] == w.rec[h] else h == spare && b.rec[h].slots == [])
  }

  /** The name asked for is not that of the game the client is in. */
  ghost predicate AsksElsewhere<G, C>(w: World<G, C>, c: C, req: Request)
    requires c in w.client
  {
    w.client[c].game.Some? && w.client[c].game.value in w.rec ==>
      Fold(req.info.name) != Fold(w.rec[w.client[c].game.value].info.name)
  }

  /** Asking for the game one is in, in whatever case, is answered with success and changes nothing. */
  lemma StayLaw<G, C>(w: World<G, C>, c: C, req: Request, spare: G)
    requires Inv(w) && c in w.client && spare !in w.rec && !AsksElsewhere(w, c, req)
    ensures SetGame(w, c, Some(req), Some(spare)) == w && !Rejected(w, c, Some(req))
  {
    hide Inv, Fold, Departed, Entered;
  }

  /** One who asks for a game by another name than the one it is in ends in a game of that name, unless
      turned away; then it is in none. Nobody else moves, and no other slot changes. */
  lemma SetGameLaw<G, C>(w: World<G, C>, c: C, req: Request, spare: G)
    requires Inv(w) && c in w.client && spare !in w.rec && AsksElsewhere(w, c, req)
    ensures var b := SetGame(w, c, Some(req), Some(spare));
            && Seats(w, b, c, req, spare)
            && (b.client[c].game.None? <==> TurnedAway(w, req))
  {
    hide Shape, RecsOk, Linked, NamesDistinct, AccountsDistinct, Departed, Entered, Seats, TurnedAway;
    var v := Departed(w, c);
    DepartedKeepsInv(w, c);
    ElsewhereSame(w, c, req);
    EnteredLaw(v, c, req, spare);
    TurnedAwayAlike(w, v, c, req);
    SeatsAfterLeaving(w, v, Entered(v, c, req, Some(spare)), c, req, spare);
  }

  /** A game of that name is of another type: the request finds nothing and makes nothing. */
  ghost predicate WrongType<G, C>(w: World<G, C>, req: Request) {
    exists g :: g in w.rec && SameText(req.info.name, w.rec[g].info.name)
                && req.info.kind != ANY_TYPE && w.rec[g].info.kind != req.info.kind
  }

  /** The answer is a failure exactly for those turned away by a game of the right type; one who asks for a
      name of another type is told of success and is in no game. */
  lemma AnswerLaw<G, C>(w: World<G, C>, c: C, req: Request, spare: G)
    requires Inv(w) && c in w.client && spare !in w.rec && AsksElsewhere(w, c, req)
    ensures Rejected(w, c, Some(req)) <==> TurnedAway(w, req) && !WrongType(w, req)
    ensures SetGame(w, c, Some(req), Some(spare)).client[c].game.None? <==>
            Rejected(w, c, Some(req)) || WrongType(w, req)
  {
    hide Shape, RecsOk, Linked, NamesDistinct, AccountsDistinct, Departed, Seats, SetGame, TurnsDown, TurnedAway;
    hide WrongType, Fold;
    var v := Departed(w, c);
    DepartedKeepsInv(w, c);
    ElsewhereSame(w, c, req);
    TurnedAwayAlike(w, v, c, req);
    WrongTypeAlike(w, v, c, req);
    TurnsDownLaw(v, req);
    SetGameLaw(w, c, req, spare);
  }

  lemma TurnsDownLaw<G, C>(v: World<G, C>, req: Request)
    requires Inv(v)
    ensures TurnsDown(v, req) <==> TurnedAway(v, req) && !WrongType(v, req)
    ensures WrongType(v, req) ==> TurnedAway(v, req)
  {
    hide RecsOk, Linked, AccountsDistinct, Fold, FindGame;
    var name, kind := req.info.name, req.info.kind;
    FindGameMeaning(v.rec, v.games, name, kind);
    FindGameMeaning(v.rec, v.games, name, ANY_TYPE);
    var g := FindGame(v.rec, v.games, name, kind);
    if g.Some? {
      OneOfThatName(v, g.value, req);
    } else if FindGame(v.rec, v.games, name, ANY_TYPE).Some? {
      OneOfThatName(v, FindGame(v.rec, v.games, name, ANY_TYPE).value, req);
    }
  }

  lemma WrongTypeAlike<G, C>(w: World<G, C>, v: World<G, C>, c: C, req: Request)
    requires c in w.client
    requires forall g | g in w.rec && Some(g) != w.client[c].game :: g in v.rec && v.rec[g] == w.rec[g]
    requires forall g | g in v.rec :: g in w.rec && v.rec[g].info == w.rec[g].info
    requires w.client[c].game.Some? ==>
               w.client[c].game.value in w.rec && !SameText(req.info.name, w.rec[w.client[c].game.value].info.name)
    ensures WrongType(v, req) == WrongType(w, req)
  {
    hide Fold, SameText;
    forall g | g in w.rec && SameText(req.info.name, w.rec[g].info.name)
      ensures g in v.rec && v.rec[g] == w.rec[g]
    {
      assert Some(g) != w.client[c].game;
    }
  }

  /** Leaving touches no game of the name asked for. */
  lemma ElsewhereSame<G, C>(w: World<G, C>, c: C, req: Request)
    requires Inv(w) && c in w.client && !StaysInGame(w, c, Some(req))
    ensures var v := Departed(w, c);
            forall g | g in w.rec && Some(g) != w.client[c].game :: g in v.rec && v.rec[g] == w.rec[g]
    ensures var v := Departed(w, c);
            forall g | g in v.rec :: g in w.rec && v.rec[g].info == w.rec[g].info
    ensures w.client[c].game.Some? ==>
              w.client[c].game.value in w.rec && !SameText(req.info.name, w.rec[w.client[c].game.value].info.name)
  {
    hide RecOk, Linked, NamesDistinct, Shape, Fold;
    if w.client[c].game.Some? {
      DepartedLeaves(w, c);
    }
  }

  lemma TurnedAwayAlike<G, C>(w: World<G, C>, v: World<G, C>, c: C, req: Request)
    requires c in w.client
    requires forall g | g in w.rec && Some(g) != w.client[c].game :: g in v.rec && v.rec[g] == w.rec[g]
    requires forall g | g in v.rec :: g in w.rec && v.rec[g].info == w.rec[g].info
    requires w.client[c].game.Some? ==>
               w.client[c].game.value in w.rec && !SameText(req.info.name, w.rec[w.client[c].game.value].info.name)
    ensures TurnedAway(v, req) == TurnedAway(w, req)
  {
    hide Fold, SameText, Refuses;
    forall g | g in w.rec && SameText(req.info.name, w.rec[g].info.name)
      ensures g in v.rec && v.rec[g] == w.rec[g]
    {
      assert Some(g) != w.client[c].game;
    }
  }

  lemma SeatsAfterLeaving<G, C>(w: World<G, C>, v: World<G, C>, b: World<G, C>, c: C, req: Request, spare: G)
    requires c in w.client && v.client == w.client[c := w.client[c].(game := None)] && spare !in w.rec
    requires forall g | g in w.rec && Some(g) != w.client[c].game :: g in v.rec && v.rec[g] == w.rec[g]
    requires forall g | g in v.rec :: g in w.rec && v.rec[g].info == w.rec[g].info
    requires w.client[c].game.Some? ==>
               w.client[c].game.value in w.rec && !SameText(req.info.name, w.rec[w.client[c].game.value].info.name)
    requires Seats(v, b, c, req, spare)
    requires forall g | g in b.rec :: (g in v.rec && b.rec[g].info == v.rec[g].info) || g == spare
    ensures Seats(w, b, c, req, spare)
  {
    hide SameText;
  }

  lemma EnteredLaw<G, C>(v: World<G, C>, c: C, req: Request, spare: G)
    requires Inv(v) && c in v.client && v.client[c].game.None? && spare !in v.rec
    ensures var b := Entered(v, c, req, Some(spare));
            && Seats(v, b, c, req, spare)
            && (b.client[c].game.None? <==> TurnedAway(v, req))
            && forall g | g in b.rec :: (g in v.rec && b.rec[g].info == v.rec[g].info) || g == spare
  {
    hide RecsOk, Linked, AccountsDistinct, Seats, TurnedAway, Fold, FindGame, Seated;
    var name, kind := req.info.name, req.info.kind;
    FindGameMeaning(v.rec, v.games, name, kind);
    FindGameMeaning(v.rec, v.games, name, ANY_TYPE);
    var g := FindGame(v.rec, v.games, name, kind);
    if g.Some? {
      SeatedLaw(v, g.value, c, req, spare);
      OneOfThatName(v, g.value, req);
    } else if FindGame(v.rec, v.games, name, ANY_TYPE).Some? {
      NoChange(v, c, req, spare);
      OneOfThatName(v, FindGame(v.rec, v.games, name, ANY_TYPE).value, req);
    } else {
      NewGameLaw(v, c, req, spare);
    }
  }

  lemma OneOfThatName<G, C>(v: World<G, C>, g: G, req: Request)
    requires NamesDistinct(v) && g in v.rec && SameText(req.info.name, v.rec[g].info.name)
    ensures TurnedAway(v, req) <==> !Welcome(v.rec[g], req)
  {
    hide Fold, Refuses;
  }

  lemma NoChange<G, C>(v: World<G, C>, c: C, req: Request, spare: G)
    requires c in v.client && v.client[c].game.None?
    ensures Seats(v, v, c, req, spare)
  {
    assert v.client == v.client[c := v.client[c].(game := None)];
  }

  lemma SeatedLaw<G, C>(v: World<G, C>, g: G, c: C, req: Request, spare: G)
    requires g in v.rec && c in v.client && v.client[c].game.None? && SameText(req.info.name, v.rec[g].info.name)
    ensures var b := Seated(v, g, c, req);
            && Seats(v, b, c, req, spare) && b.rec.Keys == v.rec.Keys
            && (forall h | h in v.rec :: b.rec[h].info == v.rec[h].info)
            && (b.client[c].game.None? <==> Refuses(v.rec[g], req))
  {
    hide Fold, Refuses, FirstLive;
    if Refuses(v.rec[g], req) {
      NoChange(v, c, req, spare);
    }
  }

  lemma NewGameLaw<G, C>(v: World<G, C>, c: C, req: Request, spare: G)
    requires c in v.client && v.client[c].game.None? && spare !in v.rec
    requires forall g | g in v.rec :: !SameText(req.info.name, v.rec[g].info.name)
    ensures var b := Seated(Created(v, spare, req.info), spare, c, req);
            && Seats(v, b, c, req, spare)
            && (b.client[c].game.None? <==> TurnedAway(v, req))
            && forall g | g in b.rec :: (g in v.rec && b.rec[g].info == v.rec[g].info) || g == spare
  {
    hide FirstLive;
    assert v.client == v.client[c := v.client[c].(game := None)];
  }

  // --------------------------------------------------------- who is let in

  /** The client versions the server knows. */
  ghost predicate VersionKnown(v: int) {
    v in {0, 1, 3, 4, 104}
  }

  /** Who is let into a listed game of the name asked for: the type is the one asked for, or any type is; the
      version is known; a ladder game takes ten wins; and the passwords are the same but for case. */
  ghost predicate LetIn<C>(rec: Rec<C>, req: Request) {
    && (req.info.kind == 1 || req.info.kind == rec.info.kind) && VersionKnown(req.info.startver)
    && (rec.info.kind == 10 ==> req.wins >= 10) && Fold(req.info.pass) == Fold(rec.info.pass)
  }

  lemma LetInIsWelcome<C>(rec: Rec<C>, req: Request)
    ensures LetIn(rec, req) <==> Welcome(rec, req)
  {
    hide Fold;
  }

  /** Where one who asks for another game ends, and what it is told. With a listed game of that name: in it,
      exactly if let in, else in none; told of failure exactly if the type is right and something else is not.
      Without one: in a new game, exactly if the version is known and, for a ladder game, the record suffices;
      else in none and told of failure. */
  lemma EntryLaw<G, C>(w: World<G, C>, c: C, req: Request, spare: G)
    requires Inv(w) && c in w.client && spare !in w.rec && AsksElsewhere(w, c, req)
    ensures var b, game := SetGame(w, c, Some(req), Some(spare)), SetGame(w, c, Some(req), Some(spare)).client[c].game;
            && (forall g | g in w.rec && Fold(w.rec[g].info.name) == Fold(req.info.name) ::
                  && game == (if LetIn(w.rec[g], req) then Some(g) else None)
                  && (Rejected(w, c, Some(req)) <==>
                        !LetIn(w.rec[g], req) && (req.info.kind == 1 || req.info.kind == w.rec[g].info.kind)))
            && ((forall g | g in w.rec :: Fold(w.rec[g].info.name) != Fold(req.info.name)) ==>
                  var fit := VersionKnown(req.info.startver) && (req.info.kind == 10 ==> req.wins >= 10);
                  game == (if fit then Some(spare) else None) && (Rejected(w, c, Some(req)) <==> !fit))
  {
    hide Shape, RecsOk, Linked, AccountsDistinct, SetGame, Rejected, LetIn, Welcome;
    SetGameLaw(w, c, req, spare);
    AnswerLaw(w, c, req, spare);
    forall g | g in w.rec && Fold(w.rec[g].info.name) == Fold(req.info.name)
      ensures var game := SetGame(w, c, Some(req), Some(spare)).client[c].game;
              && game == (if LetIn(w.rec[g], req) then Some(g) else None)
              && (Rejected(w, c, Some(req)) <==>
                    !LetIn(w.rec[g], req) && (req.info.kind == 1 || req.info.kind == w.rec[g].info.kind))
    {
      ListedEntry(w, c, g, req, spare);
    }
    if forall g | g in w.rec :: Fold(w.rec[g].info.name) != Fold(req.info.name) {
      hide Fold;
      NewEntry(w, c, req, spare);
    }
  }

  lemma ListedEntry<G, C>(w: World<G, C>, c: C, g: G, req: Request, spare: G)
    requires Inv(w) && c in w.client && spare !in w.rec && AsksElsewhere(w, c, req)
    requires g in w.rec && SameText(req.info.name, w.rec[g].info.name)
    ensures var game := SetGame(w, c, Some(req), Some(spare)).client[c].game;
            && game == (if LetIn(w.rec[g], req) then Some(g) else None)
            && (Rejected(w, c, Some(req)) <==>
                  !LetIn(w.rec[g], req) && (req.info.kind == 1 || req.info.kind == w.rec[g].info.kind))
  {
    hide Shape, RecsOk, Linked, AccountsDistinct, SetGame, Rejected, Fold, Refuses, LetIn;
    SetGameLaw(w, c, req, spare);
    AnswerLaw(w, c, req, spare);
    OneOfThatName(w, g, req);
    LetInIsWelcome(w.rec[g], req);
    SameNameStays(w, c, g, req, spare);
    assert WrongType(w, req) <==> req.info.kind != ANY_TYPE && w.rec[g].info.kind != req.info.kind;
    hide Inv, NamesDistinct;
    LetInHasType(w.rec[g], req);
  }

  lemma LetInHasType<C>(rec: Rec<C>, req: Request)
    ensures LetIn(rec, req) ==> req.info.kind == 1 || req.info.kind == rec.info.kind
  {
  }

  /** A game of the name asked for is the only one, before and after. */
  lemma SameNameStays<G, C>(w: World<G, C>, c: C, g: G, req: Request, spare: G)
    requires Inv(w) && c in w.client && spare !in w.rec && AsksElsewhere(w, c, req)
    requires g in w.rec && SameText(req.info.name, w.rec[g].info.name)
    ensures var game := SetGame(w, c, Some(req), Some(spare)).client[c].game;
            game.Some? ==> game == Some(g)
  {
    hide RecsOk, Linked, AccountsDistinct, SetGame, Fold, Seats, Shape;
    SetGameLaw(w, c, req, spare);
    SetGameKeepsInv(w, c, Some(req), Some(spare));
    StillListed(w, c, g, req, spare);
    SeatedUnderName(w, SetGame(w, c, Some(req), Some(spare)), c, req, spare);
  }

  lemma SeatedUnderName<G, C>(w: World<G, C>, b: World<G, C>, c: C, req: Request, spare: G)
    requires Seats(w, b, c, req, spare)
    ensures b.client[c].game.Some? ==>
              b.client[c].game.value in b.rec && SameText(req.info.name, b.rec[b.client[c].game.value].info.name)
  {
  }

  lemma StillListed<G, C>(w: World<G, C>, c: C, g: G, req: Request, spare: G)
    requires Inv(w) && c in w.client && spare !in w.rec && AsksElsewhere(w, c, req)
    requires g in w.rec && SameText(req.info.name, w.rec[g].info.name)
    ensures var b := SetGame(w, c, Some(req), Some(spare));
            g in b.rec && b.rec[g].info == w.rec[g].info
  {
    hide Inv, Departed, Fold, Refuses, FindGame, FirstLive, LiveCount;
    DepartedKeepsInv(w, c);
    ElsewhereSame(w, c, req);
  }

  lemma NewEntry<G, C>(w: World<G, C>, c: C, req: Request, spare: G)
    requires Inv(w) && c in w.client && spare !in w.rec && AsksElsewhere(w, c, req)
    requires forall g | g in w.rec :: !SameText(w.rec[g].info.name, req.info.name)
    ensures var game := SetGame(w, c, Some(req), Some(spare)).client[c].game;
            var fit := VersionKnown(req.info.startver) && (req.info.kind == 10 ==> req.wins >= 10);
            game == (if fit then Some(spare) else None) && (Rejected(w, c, Some(req)) <==> !fit)
  {
    hide Shape, RecsOk, Linked, AccountsDistinct, NamesDistinct, SetGame, Rejected, Fold, Seats;
    SetGameLaw(w, c, req, spare);
    AnswerLaw(w, c, req, spare);
    SeatedUnderName(w, SetGame(w, c, Some(req), Some(spare)), c, req, spare);
    SeatedInListed(w, SetGame(w, c, Some(req), Some(spare)), c, req, spare);
    InfosStay(w, c, req, spare);
  }

  lemma SeatedInListed<G, C>(w: World<G, C>, b: World<G, C>, c: C, req: Request, spare: G)
    requires Seats(w, b, c, req, spare)
    ensures b.client[c].game.Some? ==> b.client[c].game.value in w.rec || b.client[c].game.value == spare
  {
  }

  /** What a game was made with stays. */
  lemma InfosStay<G, C>(w: World<G, C>, c: C, req: Request, spare: G)
    requires Inv(w) && c in w.client && spare !in w.rec && AsksElsewhere(w, c, req)
    ensures var b := SetGame(w, c, Some(req), Some(spare));
            forall g | g in b.rec && g in w.rec :: b.rec[g].info == w.rec[g].info
  {
    hide Inv, Departed, Fold, Refuses, FindGame, FirstLive, LiveCount;
    DepartedKeepsInv(w, c);
    ElsewhereSame(w, c, req);
  }

  // ------------------------------------------------------------ what else happens

  /** Whoever gets into a game, by whatever way, has a known version, the game's password and, for a ladder game,
      ten wins. */
  lemma LadderLaw<G, C>(w: World<G, C>, c: C, req: Option<Request>, spare: Option<G>)
    requires Inv(w) && c in w.client && (spare.Some? ==> spare.value !in w.rec)
    ensures var b := SetGame(w, c, req, spare);
            && c in b.client
            && (b.client[c].game.Some? && b.client[c].game != w.client[c].game ==>
                  && req.Some? && b.client[c].game.value in b.rec && VersionKnown(req.value.info.startver)
                  && var info := b.rec[b.client[c].game.value].info;
                     (info.kind == 10 ==> req.value.wins >= 10) && Fold(req.value.info.pass) == Fold(info.pass))
  {
    hide Inv, Departed, Fold, FindGame, FirstLive, LiveCount;
    DepartedKeepsInv(w, c);
  }

  /** A new game is listed in front of the others. */
  lemma ListedFirst<G, C>(w: World<G, C>, c: C, req: Request, spare: G)
    requires Inv(w) && c in w.client && spare !in w.rec && AsksElsewhere(w, c, req)
    ensures var v, b := Step(w, Leave(c)), SetGame(w, c, Some(req), Some(spare));
            b.games == (if spare in b.rec then [spare] else []) + v.games
  {
    hide Inv, Departed, Fold, FindGame, FirstLive, LiveCount, Refuses;
    DepartedKeepsInv(w, c);
    assert [] + Departed(w, c).games == Departed(w, c).games;
  }

  /** Who leaves is in no game, and nobody else's place or game changes but for the seat that becomes free; with the
      last one the game goes. Who disconnects leaves and is forgotten. */
  lemma LeavingLaw<G, C>(w: World<G, C>, c: C)
    requires Inv(w) && c in w.client
    ensures var b, d := Step(w, Leave(c)), Step(w, Close(c));
            && b.client == w.client[c := Client(w.client[c].account, None)]
            && (if w.client[c].game.Some? then
                  w.client[c].game.value in w.rec && Leaves(w, b, c, w.client[c].game.value)
                else b == w)
            && d.games == b.games && d.rec == b.rec && d.client == w.client - {c}
  {
    hide Inv, Leaves, Departed;
    DepartedKeepsInv(w, c);
    if w.client[c].game.Some? {
      InvHas(w);
      DepartedLeaves(w, c);
    } else {
      NotInGame(w, c);
    }
    assert (w.client[c := w.client[c].(game := None)]) - {c} == w.client - {c};
  }

  lemma InvHas<G, C>(w: World<G, C>)
    requires Inv(w)
    ensures RecsOk(w) && Linked(w) && AccountsDistinct(w) && forall g | g in w.rec :: g in w.games && RecOk(w.rec[g])
  {
  }

  lemma NotInGame<G, C>(w: World<G, C>, c: C)
    requires c in w.client && w.client[c].game.None?
    ensures Departed(w, c) == w
  {
    assert w.client[c := w.client[c].(game := None)] == w.client;
  }

  /** An empty game expires, and only an empty one; the other games keep their order. */
  lemma ExpireLaw<G, C>(w: World<G, C>, g: G)
    requires Inv(w) && g in w.rec
    ensures var b := Step(w, Expire(g));
            if exists s | s in w.rec[g].slots :: s.conn.Some? then b == w
            else
              && b.client == w.client && b.rec == w.rec - {g}
              && exists i | 0 <= i < |w.games| :: w.games[i] == g && b.games == w.games[..i] + w.games[i + 1..]
  {
    InvHas(w);
    EmptyIs(w.rec[g]);
    if w.rec[g].ref == 0 {
      var i := WithoutLaw(w.games, g);
    }
    hide Inv, RecsOk, Linked, AccountsDistinct, Without;
  }

  lemma EmptyIs<C>(rec: Rec<C>)
    requires RecOk(rec)
    ensures rec.ref > 0 <==> exists s | s in rec.slots :: s.conn.Some?
  {
    hide LiveCount, FirstLive;
    FirstLiveMeaning(rec.slots);
    if s :| s in rec.slots && s.conn.Some? {
      var i :| 0 <= i < |rec.slots| && rec.slots[i] == s;
    }
  }

  /** Slot `i` is the last that the account was given. */
  ghost predicate LastOf<C>(rec: Rec<C>, account: nat, i: nat) {
    && i < |rec.slots| && rec.slots[i].player == account
    && forall j | i < j < |rec.slots| :: rec.slots[j].player != account
  }

  /** A player's own report of how the game ended for it: its texts go into its last slot and its result counts like
      one that others report. Other results and other accounts are refused. */
  lemma OwnReportLaw<C>(rec: Rec<C>, claim: Claim, head: string, body: string)
    ensures var a, b := Claimed(rec, claim), SelfClaimed(rec, claim, head, body);
            if Decided(claim.result) && exists i: nat :: LastOf(rec, claim.account, i) then
              && b.(slots := a.slots) == a && |b.slots| == |a.slots| == |rec.slots|
              && forall i | 0 <= i < |rec.slots| ::
                   b.slots[i] ==
                   if LastOf(rec, claim.account, i) then a.slots[i].(head := Some(head), body := Some(body))
                   else a.slots[i]
            else b == rec
  {
    hide Check;
    var pos := SlotOf(Players(rec.slots), claim.account);
    assert forall i | 0 <= i < |rec.slots| :: Players(rec.slots)[i] == rec.slots[i].player;
    if pos < |rec.slots| {
      assert LastOf(rec, claim.account, pos);
      var written := rec.(slots := rec.slots[pos := rec.slots[pos].(head := Some(head), body := Some(body))]);
      assert Players(written.slots) == Players(rec.slots) && Results(written.slots) == Results(rec.slots);
    }
  }
}
