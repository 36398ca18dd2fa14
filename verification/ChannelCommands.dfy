/** What the operator commands come to, said without reference to how they are carried out: who may give
    them, whom a text means, who moves and who stays. */
module ChannelCommands {
  import opened Lists
  import opened Text
  import opened AccountIndex
  import opened ChannelModel
  import opened ChannelInvariant

  // ------------------------------------------------------------------ moving

  predicate Called(info: Info, name: string) {
    SameText(info.name, name) || ShortMatch(info, name)
  }

  /** Connection `c` alone has moved: it is in no channel, or the newest member of one that goes by the
      name; everybody else stays where they are, in the same order, and no ban changes. */
  ghost predicate MovesOnly<K, C>(w: World<K, C>, b: World<K, C>, c: C, name: string) {
    && b.accounts == w.accounts && b.auth == w.auth && b.conns == w.conns && b.conn.Keys == w.conn.Keys
    && (forall d | d in w.conn :: b.conn[d].account == w.conn[d].account)
    && (forall d | d in w.conn && d != c :: b.conn[d].at == w.conn[d].at)
    && (forall l | l in w.chan && l in b.chan ::
          && Without(b.chan[l].members, c) == Without(w.chan[l].members, c)
          && b.chan[l].info == w.chan[l].info && b.chan[l].bans == w.chan[l].bans)
    && c in b.conn
    && (b.conn[c].at.Some? ==>
          var k := b.conn[c].at.value;
          k in b.chan && b.chan[k].members != [] && b.chan[k].members[0] == c && Called(b.chan[k].info, name))
  }

  lemma TargetIsCalled<K, C>(w: World<K, C>, c: Conn<K>, name: string, logged: bool)
    requires Shape(w)
    ensures match TargetOf(w, c, name, logged)
            case Existing(k) => k in w.chan && Called(w.chan[k].info, name)
            case Made(info, _) => Called(info, name)
            case Nothing => true
  {
    hide SameText, HasRoom, NoRepeat, SamePlace, NameTaken, Creatable, FormatName;
    ScanMeaning(w.chan, w.channels, name, c.country, c.realm, 0, None);
    SameTextItself(name);
  }

  lemma SameTextItself(s: string)
    ensures SameText(s, s)
  {
  }

  lemma WithoutAbsent<T>(s: seq<T>, x: T)
    requires x !in s
    ensures Without(s, x) == s && Without([x] + s, x) == s
  {
    if s != [] {
      WithoutAbsent(s[1..], x);
    }
    assert ([x] + s)[1..] == s;
  }

  /** Leaving, seen as a move to nowhere. */
  lemma LeftMoves<K, C>(w: World<K, C>, c: C, name: string)
    requires ChansOk(w) && Linked(w) && c in w.conn
    ensures MovesOnly(w, Left(w, c), c, name) && Left(w, c).conn[c].at.None?
  {
    hide ChanOk, Called, Without;
    if w.conn[c].at.Some? {
      var k, b := w.conn[c].at.value, Left(w, c);
      LeftLeaves(w, c);
      if k in b.chan {
        WithoutAbsent(b.chan[k].members, c);
      }
    }
  }

  lemma EnteredMoves<K, C>(v: World<K, C>, k: K, c: C, name: string)
    requires ChansOk(v) && Linked(v) && k in v.chan && c in v.conn && v.conn[c].at.None?
    requires Called(v.chan[k].info, name)
    ensures MovesOnly(v, Entered(v, k, c), c, name) && Entered(v, k, c).conn[c].at == Some(k)
  {
    hide ChanOk, Called, Entered, Without;
    EnteredEnters(v, k, c);
    assert c !in v.chan[k].members;
    WithoutAbsent(v.chan[k].members, c);
  }

  lemma CreatedMoves<K, C>(v: World<K, C>, k: K, info: Info, c: C, name: string)
    requires c in v.conn && v.conn[c].at.None? && k !in v.chan
    ensures MovesOnly(v, Created(v, k, info, true), c, name) && MovesOnly(v, Created(v, k, info, false), c, name)
  {
    hide Without, Called;
  }

  lemma MovesChain<K, C>(w: World<K, C>, v: World<K, C>, b: World<K, C>, c: C, name: string)
    requires MovesOnly(w, v, c, name) && MovesOnly(v, b, c, name)
    requires forall l | l in w.chan && l in b.chan :: l in v.chan
    ensures MovesOnly(w, b, c, name)
  {
    hide Without, Called;
  }

  /** Changing channel moves the one connection to a channel that goes by the name, or to none if it is
      refused, and says which. */
  lemma SetChannelMoves<K, C>(w: World<K, C>, c: C, name: string, spare: K, logged: bool)
    requires Shape(w) && ChansOk(w) && Linked(w) && c in w.conn && spare !in w.chan
    ensures
      var (b, ok) := SetChannel(w, c, Some(name), Some(spare), logged);
      MovesOnly(w, b, c, name) && (ok <==> c in b.conn && b.conn[c].at.Some?)
  {
    hide Left, Shape, ChansOk, Linked, MovesOnly, TargetOf, Admitted, Created, Called;
    var v := Left(w, c);
    LeftMoves(w, c, name);
    LeftIsInOrder(w, c);
    TargetIsCalled(v, v.conn[c], name, logged);
    match TargetOf(v, v.conn[c], name, logged) {
      case Existing(k) =>
        AdmittedMoves(v, k, c, name);
        MovesChain(w, v, Admitted(v, k, c).0, c, name);
      case Made(info, permanent) =>
        CreatedMoves(v, spare, info, c, name);
        var u := Created(v, spare, info, permanent);
        CreatedLinks(v, spare, info, permanent);
        CreatedFacts(v, spare, info, permanent);
        AdmittedMoves(u, spare, c, name);
        MovesChain(v, u, Admitted(u, spare, c).0, c, name);
        MovesChain(w, v, Admitted(u, spare, c).0, c, name);
      case Nothing =>
        MovesOnlyHas(w, v, c, name);
    }
    MovesOnlyHas(w, SetChannel(w, c, Some(name), Some(spare), logged).0, c, name);
  }

  lemma MovesOnlyHas<K, C>(w: World<K, C>, b: World<K, C>, c: C, name: string)
    requires MovesOnly(w, b, c, name)
    ensures c in b.conn
  {
  }

  lemma LeftIsInOrder<K, C>(w: World<K, C>, c: C)
    requires Shape(w) && ChansOk(w) && Linked(w) && c in w.conn
    ensures Shape(Left(w, c)) && ChansOk(Left(w, c)) && Linked(Left(w, c))
    ensures forall l | l in Left(w, c).chan :: l in w.chan
  {
    hide Shape, ChanOk;
    LeftLinks(w, c);
    if w.conn[c].at.Some? {
      LeftLeaves(w, c);
      LeavesKeepsShape(w, Left(w, c), c, w.conn[c].at.value);
    }
  }

  lemma CreatedFacts<K, C>(v: World<K, C>, k: K, info: Info, permanent: bool)
    ensures var u := Created(v, k, info, permanent);
            u.conn == v.conn && k in u.chan && u.chan[k].info == info && forall l | l in u.chan :: l in v.chan || l == k
    ensures forall l | l in v.chan :: l in Created(v, k, info, permanent).chan
  {
  }

  lemma AdmittedMoves<K, C>(v: World<K, C>, k: K, c: C, name: string)
    requires ChansOk(v) && Linked(v) && k in v.chan && c in v.conn && v.conn[c].at.None?
    requires Called(v.chan[k].info, name)
    ensures var (b, ok) := Admitted(v, k, c);
            && MovesOnly(v, b, c, name) && b.chan.Keys == v.chan.Keys
            && c in b.conn && (ok <==> b.conn[c].at.Some?)
  {
    hide ChanOk, Banned, Entered, Called, Without;
    EnteredEnters(v, k, c);
    EnteredMoves(v, k, c, name);
  }

  // ------------------------------------------------------------------ what stays

  /** Beyond the channel connection `c` left and the one it entered nothing differs: no record of a channel,
      operator, designee and count included, and no connection. No channel comes but a rollover copy left
      empty, and none goes but a temporary one that held `c` alone. */
  ghost predicate Undisturbed<K, C>(w: World<K, C>, b: World<K, C>, c: C, spare: K) {
    && c in w.conn && c in b.conn && b.conn.Keys == w.conn.Keys
    && (forall l | l in w.chan && w.conn[c].at != Some(l) && b.conn[c].at != Some(l) ::
          l in b.chan && b.chan[l] == w.chan[l])
    && (forall l | l in w.chan && l in b.chan :: b.chan[l].permanent == w.chan[l].permanent)
    && (forall l | l in b.chan && l !in w.chan :: l == spare && (b.conn[c].at == Some(l) || b.chan[l].members == []))
    && (forall l | l in w.chan && l !in b.chan ::
          w.conn[c].at == Some(l) && !w.chan[l].permanent && forall d | d in w.chan[l].members :: d == c)
    && (forall d | d in w.conn && d != c &&
          (w.conn[d].at.None? || (w.conn[d].at != w.conn[c].at && w.conn[d].at != b.conn[c].at)) ::
          b.conn[d] == w.conn[d])
  }

  lemma ChooseTouches<K, C>(ch: Chan<C>, conn: map<C, Conn<K>>, auth: map<Entry, Auth>, tryop: Option<C>)
    requires IsMember(ch, ch.opr) && IsMember(ch, ch.next)
    ensures var conn' := Choose(ch, conn, auth, tryop).1;
            conn'.Keys == conn.Keys && forall d | d in conn && d !in ch.members :: conn'[d] == conn[d]
  {
    hide Candidate;
    OldestIsOldest(ch, conn, auth, tryop, ch.members);
  }

  lemma PartedTouches<K, C>(ch: Chan<C>, conn: map<C, Conn<K>>, auth: map<Entry, Auth>, c: C)
    requires ChanOk(ch) && c in ch.members
    ensures var conn' := Parted(ch, conn, auth, c).1;
            conn'.Keys == conn.Keys && forall d | d in conn && d !in ch.members :: conn'[d] == conn[d]
  {
    hide Chosen, Flagged;
    var rest := ch.(members := Without(ch.members, c), count := ch.count - 1,
                    next := if ch.next == Some(c) then None else ch.next);
    if ch.opr == Some(c) {
      PartedElects(rest, conn, auth, ch.members);
    }
  }

  /** The same with the operator among some wider membership. */
  lemma PartedElects<K, C>(ch: Chan<C>, conn: map<C, Conn<K>>, auth: map<Entry, Auth>, members: seq<C>)
    requires ch.opr.Some? ==> ch.opr.value in members
    requires IsMember(ch, ch.next) && forall d | d in ch.members :: d in members
    ensures var conn' := Choose(ch, conn, auth, None).1;
            conn'.Keys == conn.Keys && forall d | d in conn && d !in members :: conn'[d] == conn[d]
  {
    hide Candidate;
    OldestIsOldest(ch, conn, auth, None, ch.members);
  }

  lemma LeftUndisturbed<K, C>(w: World<K, C>, c: C, spare: K)
    requires ChansOk(w) && Linked(w) && c in w.conn
    ensures Undisturbed(w, Left(w, c), c, spare)
  {
    hide Parted, ChanOk, Without;
    if w.conn[c].at.Some? {
      var k := w.conn[c].at.value;
      LeftLeaves(w, c);
      PartedTouches(w.chan[k], w.conn, w.auth, c);
    }
  }

  lemma EnteredUndisturbed<K, C>(v: World<K, C>, k: K, c: C, spare: K)
    requires ChansOk(v) && Linked(v) && k in v.chan && c in v.conn && v.conn[c].at.None?
    ensures Undisturbed(v, Entered(v, k, c), c, spare)
  {
    hide Entered, ChanOk;
    EnteredEnters(v, k, c);
    EnteredTouches(v, k, c);
  }

  lemma EnteredTouches<K, C>(v: World<K, C>, k: K, c: C)
    requires ChansOk(v) && k in v.chan && c in v.conn
    ensures var conn' := Entered(v, k, c).conn;
            forall d | d in v.conn && d != c && d !in v.chan[k].members :: d in conn' && conn'[d] == v.conn[d]
  {
    hide Choose, ChanOk;
    assert ChanOk(v.chan[k]);
    GrownMembers(v.chan[k], c);
    var conn := v.conn[c := v.conn[c].(at := Some(k))];
    ChooseTouches(v.chan[k].(members := [c] + v.chan[k].members, count := v.chan[k].count + 1), conn, v.auth, Some(c));
  }

  lemma GrownMembers<C>(ch: Chan<C>, c: C)
    requires ChanOk(ch)
    ensures var grown := ch.(members := [c] + ch.members, count := ch.count + 1);
            IsMember(grown, grown.opr) && IsMember(grown, grown.next)
  {
  }

  lemma UndisturbedChain<K, C>(w: World<K, C>, v: World<K, C>, b: World<K, C>, c: C, spare: K)
    requires Undisturbed(w, v, c, spare) && Undisturbed(v, b, c, spare) && v.conn[c].at.None? && spare !in w.chan
    ensures Undisturbed(w, b, c, spare)
  {
  }

  lemma CreatedUndisturbed<K, C>(v: World<K, C>, k: K, info: Info, permanent: bool, c: C)
    requires c in v.conn && v.conn[c].at.None? && k !in v.chan
    ensures Undisturbed(v, Created(v, k, info, permanent), c, k)
  {
  }

  lemma AdmittedUndisturbed<K, C>(v: World<K, C>, k: K, c: C, spare: K)
    requires ChansOk(v) && Linked(v) && k in v.chan && c in v.conn && v.conn[c].at.None?
    ensures Undisturbed(v, Admitted(v, k, c).0, c, spare)
  {
    hide Banned, Entered, ChanOk;
    EnteredUndisturbed(v, k, c, spare);
  }

  /** Changing channel disturbs nothing but the two channels it is about. */
  lemma SetChannelUndisturbed<K, C>(w: World<K, C>, c: C, name: string, spare: K, logged: bool)
    requires Shape(w) && ChansOk(w) && Linked(w) && c in w.conn && spare !in w.chan
    ensures Undisturbed(w, SetChannel(w, c, Some(name), Some(spare), logged).0, c, spare)
  {
    hide Left, Shape, ChansOk, Linked, Undisturbed, TargetOf, Admitted, Created;
    var v := Left(w, c);
    LeftUndisturbed(w, c, spare);
    LeftIsInOrder(w, c);
    LeftLinks(w, c);
    match TargetOf(v, v.conn[c], name, logged) {
      case Existing(k) =>
        if k in v.chan {
          AdmittedUndisturbed(v, k, c, spare);
          UndisturbedChain(w, v, Admitted(v, k, c).0, c, spare);
        }
      case Made(info, permanent) =>
        CreatedUndisturbed(v, spare, info, permanent, c);
        var u := Created(v, spare, info, permanent);
        CreatedLinks(v, spare, info, permanent);
        CreatedFacts(v, spare, info, permanent);
        AdmittedUndisturbed(u, spare, c, spare);
        UndisturbedChain(v, u, Admitted(u, spare, c).0, c, spare);
        UndisturbedChain(w, v, Admitted(u, spare, c).0, c, spare);
      case Nothing =>
    }
  }

  // ------------------------------------------------------------------ commands

  /** In a channel, and its operator or an administrator. */
  ghost predicate MayCommand<K, C>(w: World<K, C>, c: C) {
    && c in w.conn && w.conn[c].at.Some? && w.conn[c].at.value in w.chan
    && (Administers(w.auth, w.conn[c].account) || w.chan[w.conn[c].at.value].opr == Some(c))
  }

  /** The text is the name or the number of the account the connection uses. */
  ghost predicate Means<K, C>(w: World<K, C>, who: string, d: C) {
    d in w.conn && w.conn[d].account.Some? && Denotes(who, w.conn[d].account.value)
  }

  lemma FoundIsMeant<K, C>(w: World<K, C>, who: string)
    requires Shape(w) && AccountsOk(w)
    ensures FindConn(w, who).Some? ==> Means(w, who, FindConn(w, who).value)
    ensures forall d | Means(w, who, d) :: FindConn(w, who) == Some(d)
  {
    hide Denotes, Unique, NoRepeat;
    var e := FindAccount(w.accounts, who);
    FindAccountFinds(w.accounts, who);
    if e.Some? {
      FirstUsingFinds(w.conn, w.conns, e.value);
    }
    forall d | Means(w, who, d)
      ensures FindConn(w, who) == Some(d)
    {
      MatchIsFound(w, who, d);
    }
  }

  lemma MayIsCommands<K, C>(w: World<K, C>, c: C)
    requires c in w.conn
    ensures Commands(w, c) == if MayCommand(w, c) then w.conn[c].at else None
  {
  }

  /** Whom a kick is about: somebody in the same channel, and no administrator. */
  ghost predicate Kicks<K, C>(w: World<K, C>, c: C, dest: string, d: C) {
    && dest != [] && MayCommand(w, c) && Means(w, dest, d)
    && w.conn[d].at == w.conn[c].at && !Administers(w.auth, w.conn[d].account)
  }

  /** A kick moves the one it is about, and nobody else, to the void; if it is about nobody it does nothing. */
  lemma KickLaw<K, C>(w: World<K, C>, c: C, dest: string, spare: K, logged: bool)
    requires Inv(w) && c in w.conn && spare !in w.chan
    ensures var b := Kick(w, c, dest, Some(spare), logged);
            && (forall d | Kicks(w, c, dest, d) :: MovesOnly(w, b, d, VOID) && Undisturbed(w, b, d, spare))
            && ((forall d | d in w.conn :: !Kicks(w, c, dest, d)) ==> b == w)
  {
    hide Shape, ChansOk, Linked, NobodyBanned, NamesDistinct, AccountsOk, Occupied, MovesOnly, Undisturbed, SetChannel,
         FindConn, Commands, Denotes;
    FoundIsMeant(w, dest);
    MayIsCommands(w, c);
    var kuc := KickTarget(w, c, dest);
    if kuc.Some? {
      assert Kicks(w, c, dest, kuc.value);
      SetChannelMoves(w, kuc.value, VOID, spare, logged);
      SetChannelUndisturbed(w, kuc.value, VOID, spare, logged);
    }
    forall d | Kicks(w, c, dest, d)
      ensures kuc == Some(d)
    {
      assert Means(w, dest, d);
    }
  }

  /** A designation takes effect for somebody else in the channel; then it changes nothing but the designee. */
  ghost predicate Designates<K, C>(w: World<K, C>, c: C, who: string, d: C) {
    && who != [] && MayCommand(w, c) && Means(w, who, d)
    && w.conn[d].at == w.conn[c].at && w.chan[w.conn[c].at.value].opr != Some(d)
  }

  lemma DesignateLaw<K, C>(w: World<K, C>, c: C, who: string)
    requires Inv(w) && c in w.conn
    ensures var b := Designate(w, c, who);
            && (forall d | Designates(w, c, who, d) ::
                  var k := w.conn[c].at.value; b == w.(chan := w.chan[k := w.chan[k].(next := Some(d))]))
            && ((forall d | d in w.conn :: !Designates(w, c, who, d)) ==> b == w)
  {
    hide Shape, ChansOk, Linked, NobodyBanned, NamesDistinct, AccountsOk, Occupied, FindConn, Commands,
         Denotes;
    FoundIsMeant(w, who);
    MayIsCommands(w, c);
    var noc := FindConn(w, who);
    if noc.Some? && Designate(w, c, who) != w {
      assert Designates(w, c, who, noc.value);
    }
    forall d | Designates(w, c, who, d)
      ensures noc == Some(d)
    {
      assert Means(w, who, d);
    }
  }

  /** A ban is refused for an administrator's account, and an account need not exist to be banned. */
  ghost predicate Bans<K, C>(w: World<K, C>, c: C, dest: string) {
    && dest != [] && MayCommand(w, c)
    && forall e | e in w.accounts && Denotes(dest, e) :: !Administers(w.auth, Some(e))
  }

  /** A ban puts the text on the list of the channel and moves whom it means, if in the channel, to the
      void; or it does nothing. */
  lemma BanLaw<K, C>(w: World<K, C>, c: C, dest: string, spare: K, logged: bool)
    requires Inv(w) && c in w.conn && spare !in w.chan
    ensures var b := Ban(w, c, dest, Some(spare), logged);
            if !Bans(w, c, dest) then b == w
            else
              var k := w.conn[c].at.value;
              var v := w.(chan := w.chan[k := WithBan(w.chan[k], dest)]);
              && (forall d | Means(w, dest, d) && w.conn[d].at == Some(k) ::
                    MovesOnly(v, b, d, VOID) && Undisturbed(v, b, d, spare))
              && ((forall d | Means(w, dest, d) :: w.conn[d].at != Some(k)) ==> b == v)
  {
    hide Shape, ChansOk, Linked, NobodyBanned, NamesDistinct, AccountsOk, Occupied, MovesOnly, Undisturbed, SetChannel,
         FindConn, Commands, WithBan, Denotes;
    FoundIsMeant(w, dest);
    MayIsCommands(w, c);
    BansIsTarget(w, c, dest);
    if Bans(w, c, dest) {
      var k := w.conn[c].at.value;
      BetweenBanAndExpulsion(w, k, dest);
      var buc := Expelled(w, k, dest);
      if buc.Some? {
        SetChannelMoves(WithBanIn(w, k, dest), buc.value, VOID, spare, logged);
        SetChannelUndisturbed(WithBanIn(w, k, dest), buc.value, VOID, spare, logged);
        assert Means(w, dest, buc.value);
      }
      forall d | Means(w, dest, d) && w.conn[d].at == Some(k)
        ensures buc == Some(d)
      {
      }
    }
  }

  lemma BansIsTarget<K, C>(w: World<K, C>, c: C, dest: string)
    requires Inv(w) && c in w.conn
    ensures BanTarget(w, c, dest) == if Bans(w, c, dest) then w.conn[c].at else None
  {
    hide Shape, ChansOk, Linked, NobodyBanned, NamesDistinct, Occupied, Denotes;
    FindAccountFinds(w.accounts, dest);
    var e := FindAccount(w.accounts, dest);
    if e.Some? {
      forall a | a in w.accounts && Denotes(dest, a)
        ensures a == e.value
      {
        DenotesAtMostOne((set x | x in w.accounts), dest, a, e.value);
      }
    }
  }

  /** Only the ban list changes: the text is on it afterwards, once, except in the void. */
  lemma WithBanLaw<C>(ch: Chan<C>, who: string)
    ensures var after := WithBan(ch, who);
            && after == ch.(bans := after.bans) && ch.bans <= after.bans
            && (forall t | t in after.bans :: t in ch.bans || t == who)
            && if SameText(ch.info.name, VOID) then after == ch else HasText(after.bans, who)
  {
    hide Fold;
    if !SameText(ch.info.name, VOID) && !HasText(ch.bans, who) {
      var after := ch.bans + [who];
      assert after[|ch.bans|] == who;
    }
  }

  /** Exactly the entries equal to the text are gone, whoever may unban; nothing else changes. */
  lemma UnbanLaw<K, C>(w: World<K, C>, c: C, who: string)
    requires Inv(w) && c in w.conn
    ensures var b := Unban(w, c, who);
            if !MayCommand(w, c) || who == [] then b == w
            else
              var k := w.conn[c].at.value;
              && k in b.chan && b == w.(chan := w.chan[k := w.chan[k].(bans := b.chan[k].bans)])
              && forall t :: t in b.chan[k].bans <==> t in w.chan[k].bans && !SameText(t, who)
  {
    hide Shape, Linked, NobodyBanned, NamesDistinct, AccountsOk, Occupied, WithoutText;
    MayIsCommands(w, c);
    if MayCommand(w, c) {
      var ch := w.chan[w.conn[c].at.value];
      assert ChanOk(ch);
      WithoutTextKeeps(ch.bans, who);
    }
  }

  lemma {:induction false} WithoutTextKeeps(s: seq<string>, t: string)
    requires DistinctTexts(s)
    ensures forall e :: e in WithoutText(s, t) <==> e in s && !SameText(e, t)
  {
    hide Fold;
    WithoutTextIsOk(s, t);
    if s != [] {
      assert forall i | 0 <= i < |s[1..]| :: s[1..][i] == s[i + 1];
      WithoutTextKeeps(s[1..], t);
    }
  }

  /** A login gives the account to the one connection and takes it, and the connection with it, from
      whoever had it; everybody else keeps account and place. */
  lemma LoginLaw<K, C>(w: World<K, C>, c: C, e: Entry, initial: nat)
    requires Inv(w) && Allowed(w, Op<K, C>.Login(c, e, initial))
    ensures var b := LoggedIn(w, c, e, initial);
            && c in b.conn && b.conn[c] == w.conn[c].(account := Some(e), gavel := w.conn[c].gavel || GavelBit(initial))
            && (forall d | d in w.conn && w.conn[d].account == Some(e) :: d !in b.conn)
            && (forall d | d in w.conn && d != c && w.conn[d].account != Some(e) ::
                  d in b.conn && b.conn[d].account == w.conn[d].account && b.conn[d].at == w.conn[d].at)
  {
    hide Shape, ChansOk, Linked, NobodyBanned, NamesDistinct, Occupied, FindConn, Denotes, Left, HasGavel, GavelBit;
    GavelBitIs();
    RelievedKeepsInv(w, c, e);
    forall d | d in w.conn && w.conn[d].account == Some(e)
      ensures FindConn(w, e.name) == Some(d)
    {
      MatchIsFound(w, e.name, d);
    }
    var other := FindConn(w, e.name);
    if other.Some? && other.value in w.conn {
      LeftKeepsOthers(w, other.value);
      LeftTouchesMembers(w, other.value, c);
      NamedUses(w, e);
    }
  }

  /** Who is in no channel does not notice that somebody leaves one. */
  lemma LeftTouchesMembers<K, C>(w: World<K, C>, d: C, c: C)
    requires ChansOk(w) && Linked(w) && d in w.conn && c in w.conn && c != d && w.conn[c].at.None?
    ensures c in Left(w, d).conn && Left(w, d).conn[c] == w.conn[c]
  {
    hide ChansOk, Linked, Left;
    if w.conn[d].at.Some? {
      LeftUndisturbed(w, d, w.conn[d].at.value);
    } else {
      LeftNowhere(w, d);
    }
  }

  lemma LeftNowhere<K, C>(w: World<K, C>, d: C)
    requires d in w.conn && w.conn[d].at.None?
    ensures Left(w, d) == w
  {
  }

  lemma NamedUses<K, C>(w: World<K, C>, e: Entry)
    requires Shape(w) && AccountsOk(w) && e in w.accounts && Denotes(e.name, e)
    ensures var d := FindConn(w, e.name);
            d.Some? ==> d.value in w.conn && w.conn[d.value].account == Some(e)
  {
    hide Denotes, Unique;
    FindAccountFinds(w.accounts, e.name);
    var a := FindAccount(w.accounts, e.name);
    if a.Some? {
      DenotesAtMostOne((set x | x in w.accounts), e.name, a.value, e);
      FirstUsingFinds(w.conn, w.conns, a.value);
    }
  }

  /** Between the login and the turn on which the code destroys the other connection `d`, both are there. A ban
      that looks the account up in that time, and finds the new connection, puts the text on the list and moves
      nobody: `d` then stays in a channel that bans it, and nobody else does. */
  lemma WindowLaw<K, C>(w: World<K, C>, c: C, d: C, e: Entry, initial: nat, k: K, dest: string, spare: K, logged: bool)
    requires Inv(w) && Allowed(w, Op<K, C>.Login(c, e, initial))
    requires d in w.conn && w.conn[d].account == Some(e) && w.conn[d].at == Some(k)
    requires Denotes(dest, e) && !SameText(w.chan[k].info.name, VOID)
    requires FindConn(Attached(w, c, e, initial), dest) == Some(c)
    ensures var v := Attached(w, c, e, initial);
            var b := BanFrom(v, k, dest, Some(spare), logged);
            && b == WithBanIn(v, k, dest) && d in b.conn && d in b.chan[k].members && Banned(b.chan[k], b.conn[d])
            && NobodyElseBanned(b, d)
  {
    hide Shape, ChansOk, NamesDistinct, Occupied, FindConn, Denotes, Fold, HasGavel, WithBan, Banned;
    var v := Attached(w, c, e, initial);
    var b := WithBanIn(v, k, dest);
    BansMarked(w.chan[k], w.conn[d], dest, e);
    WithBanLaw(w.chan[k], dest);
    forall l, x | l in b.chan && x in b.chan[l].members && x in b.conn && x != d
      ensures !Banned(b.chan[l], b.conn[x])
    {
      assert x != c && b.conn[x] == w.conn[x] && !Banned(w.chan[l], w.conn[x]);
      if l == k && Banned(b.chan[k], w.conn[x]) {
        NewBanDenotes(w.chan[k], w.conn[x], dest);
        DenotesAtMostOne((set a | a in w.accounts), dest, w.conn[x].account.value, e);
      }
    }
  }

  /** A text put on the list keeps out the account it denotes, even if it was there in another case. */
  lemma BansMarked<K, C>(ch: Chan<C>, c: Conn<K>, dest: string, e: Entry)
    requires c.account == Some(e) && Denotes(dest, e) && !SameText(ch.info.name, VOID)
    ensures Banned(WithBan(ch, dest), c)
  {
    hide Denotes, Fold;
    var bans := WithBan(ch, dest).bans;
    if i :| 0 <= i < |ch.bans| && SameText(ch.bans[i], dest) {
      DenotesFolds(ch.bans[i], dest, e);
    } else {
      assert bans[|ch.bans|] == dest;
    }
  }

  lemma NewBanDenotes<K, C>(ch: Chan<C>, c: Conn<K>, dest: string)
    requires !Banned(ch, c) && Banned(WithBan(ch, dest), c)
    ensures c.account.Some? && Denotes(dest, c.account.value)
  {
    hide Denotes, Fold;
  }
}
