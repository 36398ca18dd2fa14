/** Who carries the operator flag, and how full a channel can get. */
module ChannelLaws {
  import opened Lists
  import opened Text
  import opened AccountIndex
  import opened ChannelModel
  import opened ChannelInvariant

  // ------------------------------------------------------------- member limits

  /** No channel with a positive limit has more members than that. */
  ghost predicate WithinLimits<K, C>(w: World<K, C>) {
    forall k | k in w.chan && w.chan[k].info.limit > 0 :: w.chan[k].count <= w.chan[k].info.limit
  }

  /** The guard that lets a full channel be entered: the name asked for is its full name, which is
      looked at before its room. */
  ghost predicate EntersFull<K, C>(w: World<K, C>, c: Conn<K>, name: string, logged: bool) {
    match TargetOf(w, c, name, logged)
    case Existing(k) =>
      && k in w.chan && SameText(w.chan[k].info.name, name) && !Banned(w.chan[k], c)
      && w.chan[k].info.limit > 0 && w.chan[k].count >= w.chan[k].info.limit
    case _ => false
  }

  lemma LeftKeepsLimits<K, C>(w: World<K, C>, c: C)
    requires ChansOk(w) && Linked(w) && c in w.conn && WithinLimits(w)
    ensures WithinLimits(Left(w, c))
  {
    hide Linked, ChanOk;
    if w.conn[c].at.Some? {
      LeftLeaves(w, c);
      var k, b := w.conn[c].at.value, Left(w, c);
      LeavesKeepsRest(w, b, c, k);
      if k in b.chan {
        CountIsLength(b.chan[k]);
        CountIsLength(w.chan[k]);
        assert |Without(w.chan[k].members, c)| <= |w.chan[k].members|;
      }
    }
  }

  lemma CountIsLength<C>(ch: Chan<C>)
    requires ChanOk(ch)
    ensures ch.count == |ch.members|
  {
  }

  /** Joining keeps every limit iff it does not enter a full channel by its full name; rollover
      channels included. */
  lemma LimitLaw<K, C>(w: World<K, C>, c: C, name: string, spare: Option<K>, logged: bool)
    requires ChansOk(w) && Linked(w) && c in w.conn && Inv(Left(w, c))
    requires (spare.Some? ==> spare.value !in w.chan) && WithinLimits(w)
    ensures WithinLimits(SetChannel(w, c, Some(name), spare, logged).0)
            <==> !EntersFull(Left(w, c), Left(w, c).conn[c], name, logged)
  {
    hide Linked, NobodyBanned, NamesDistinct, AccountsOk, Banned, Left, Entered, NoRepeat, TargetOf, SameText, ChanOk;
    LeftLinks(w, c);
    LeftKeepsLimits(w, c);
    var v := Left(w, c);
    TargetIsSound(v, v.conn[c], name, logged);
    match TargetOf(v, v.conn[c], name, logged) {
      case Existing(k) =>
        if !Banned(v.chan[k], v.conn[c]) {
          OneMoreCounted(v, k, c);
        }
      case Made(info, permanent) =>
        if spare.Some? {
          NewChannelHasRoom(v, c, spare.value, info, permanent);
        }
      case Nothing =>
    }
  }

  lemma OneMoreCounted<K, C>(v: World<K, C>, k: K, c: C)
    requires Inv(v) && WithinLimits(v) && k in v.chan && c in v.conn && v.conn[c].at.None?
    requires !Banned(v.chan[k], v.conn[c])
    ensures var w := Entered(v, k, c);
            WithinLimits(w) <==> (w.chan[k].info.limit > 0 ==> w.chan[k].count <= w.chan[k].info.limit)
    ensures Entered(v, k, c).chan[k].count == v.chan[k].count + 1 && Entered(v, k, c).chan[k].info == v.chan[k].info
  {
    hide Linked, NobodyBanned, NamesDistinct, AccountsOk, Banned, Entered, NoRepeat, ChanOk;
    EnteredKeepsInv(v, k, c);
    CountIsLength(v.chan[k]);
    CountIsLength(Entered(v, k, c).chan[k]);
  }

  lemma NewChannelHasRoom<K, C>(v: World<K, C>, c: C, k: K, info: Info, permanent: bool)
    requires Inv(v) && WithinLimits(v) && c in v.conn && v.conn[c].at.None? && k !in v.chan
    requires !NameTakenAnywhere(v, info.name) && (!permanent ==> info.allowBots)
    ensures WithinLimits(Admitted(Created(v, k, info, permanent), k, c).0)
  {
    hide Linked, NobodyBanned, NamesDistinct, AccountsOk, Banned, Entered, NoRepeat, SameText, ChanOk;
    CreatedKeepsCore(v, k, info, permanent);
    var u := Created(v, k, info, permanent);
    NewChannelAdmits<K, C>(info, permanent, u.conn[c]);
    if !Banned(u.chan[k], u.conn[c]) {
      EnteredKeepsInv(u, k, c);
      CountIsLength(Entered(u, k, c).chan[k]);
    }
  }

  /** The state, the connection and the name with which an operation calls conn_set_channel. */
  function Placement<K(==), C(==)>(w: World<K, C>, op: Op<K, C>): Option<(World<K, C>, C, string, K)>
    requires op.Join? || op.KickOp? || op.BanOp? ==> op.c in w.conn
  {
    match op
    case Join(c, name, spare) => Some((w, c, name, spare))
    case KickOp(c, who, spare) =>
      var kuc := KickTarget(w, c, who);
      if kuc.None? then None else Some((w, kuc.value, VOID, spare))
    case BanOp(c, who, spare) =>
      var k := BanTarget(w, c, who);
      if k.None? || Expelled(w, k.value, who).None? then None
      else Some((WithBanIn(w, k.value, who), Expelled(w, k.value, who).value, VOID, spare))
    case _ => None
  }

  /** An operation that puts somebody into a full channel through its full name. */
  ghost predicate Overfills<K, C>(w: World<K, C>, op: Op<K, C>, logged: bool)
    requires op.Join? || op.KickOp? || op.BanOp? ==> op.c in w.conn
  {
    var p := Placement(w, op);
    p.Some? && p.value.1 in p.value.0.conn &&
    var v := Left(p.value.0, p.value.1);
    EntersFull(v, v.conn[p.value.1], p.value.2, logged)
  }

  /** Every operation keeps every member limit iff it does not overfill. */
  lemma StepLimitLaw<K, C>(w: World<K, C>, op: Op<K, C>, logged: bool)
    requires Inv(w) && Allowed(w, op) && WithinLimits(w)
    ensures WithinLimits(Step(w, op, logged)) <==> !Overfills(w, op, logged)
  {
    hide Shape, NobodyBanned, NamesDistinct, AccountsOk, Occupied, Linked, ChanOk, FindConn, EntersFull,
         SetChannel, Left, BanTarget;
    match op {
      case Join(c, name, spare) =>
        LeaveKeepsInv(w, c);
        LimitLaw(w, c, name, Some(spare), logged);
      case KickOp(c, who, spare) =>
        var kuc := KickTarget(w, c, who);
        if kuc.Some? {
          LeaveKeepsInv(w, kuc.value);
          LimitLaw(w, kuc.value, VOID, Some(spare), logged);
        }
      case BanOp(c, who, spare) =>
        if BanTarget(w, c, who).Some? {
          BanLimitLaw(w, BanTarget(w, c, who).value, who, spare, logged);
        }
      case _ => OthersKeepLimits(w, op, logged);
    }
  }

  lemma BanLimitLaw<K, C>(w: World<K, C>, k: K, dest: string, spare: K, logged: bool)
    requires Inv(w) && k in w.chan && spare !in w.chan && WithinLimits(w)
    ensures var v, buc := WithBanIn(w, k, dest), Expelled(w, k, dest);
            WithinLimits(BanFrom(w, k, dest, Some(spare), logged))
            <==> !(buc.Some? && buc.value in v.conn
                   && EntersFull(Left(v, buc.value), Left(v, buc.value).conn[buc.value], VOID, logged))
  {
    hide Shape, NobodyBanned, NamesDistinct, AccountsOk, Occupied, Linked, ChanOk, FindConn, EntersFull,
         SetChannel, Left, HasText, Expelled;
    var v, buc := WithBanIn(w, k, dest), Expelled(w, k, dest);
    BetweenBanAndExpulsion(w, k, dest);
    assert WithinLimits(v);
    if buc.Some? {
      LeftKeepsInv(v, buc.value);
      LimitLaw(v, buc.value, VOID, Some(spare), logged);
    }
  }

  lemma OthersKeepLimits<K, C>(w: World<K, C>, op: Op<K, C>, logged: bool)
    requires Inv(w) && Allowed(w, op) && WithinLimits(w) && !op.Join? && !op.KickOp? && !op.BanOp?
    ensures WithinLimits(Step(w, op, logged))
  {
    hide Shape, NobodyBanned, NamesDistinct, AccountsOk, Occupied, Linked, ChanOk, FindConn, Left, Oldest, WithoutText,
         Relieved, Denotes;
    if op.Leave? || op.Close? {
      LeftKeepsLimits(w, op.c);
    } else if op.Login? {
      RelievedKeepsLimits(w, op.account);
    }
  }

  lemma RelievedKeepsLimits<K, C>(w: World<K, C>, e: Entry)
    requires Inv(w) && WithinLimits(w)
    ensures WithinLimits(Relieved(w, e))
  {
    hide Shape, NobodyBanned, NamesDistinct, AccountsOk, Occupied, Linked, ChanOk, FindConn, Left;
    var other := FindConn(w, e.name);
    if other.Some? && other.value in w.conn {
      LeftKeepsLimits(w, other.value);
    }
  }

  // ------------------------------------------------------- the operator's flag

  /** A member carries the operator flag iff it is the operator. */
  ghost predicate Crowned<K, C>(ch: Chan<C>, conn: map<C, Conn<K>>) {
    forall c | c in ch.members && c in conn :: conn[c].gavel <==> ch.opr == Some(c)
  }

  ghost predicate FlagsAgree<K, C>(w: World<K, C>) {
    && (forall k | k in w.chan :: Crowned(w.chan[k], w.conn))
    && (forall c | c in w.conn && w.conn[c].at.None? :: !w.conn[c].gavel)
  }

  /** Nobody is designated where there is no operator. */
  ghost predicate NoVacantDesignation<K, C>(w: World<K, C>) {
    forall k | k in w.chan && w.chan[k].opr.None? :: w.chan[k].next.None?
  }

  /** Electing with nobody preferred, or a newcomer where there is neither operator nor designee. */
  lemma ChooseCrowns<K, C>(ch: Chan<C>, conn: map<C, Conn<K>>, auth: map<Entry, Auth>, tryop: Option<C>)
    requires Crowned(ch, conn) && IsMember(ch, ch.next)
    requires tryop.Some? ==> ch.next.None? && ch.opr.None?
    ensures var (ch', conn') := Choose(ch, conn, auth, tryop);
            && Crowned(ch', conn')
            && forall c | c in conn && c !in ch.members ::
                 c in conn' && conn'[c].gavel == (conn[c].gavel && ch.opr != Some(c))
  {
    hide Entitled;
    OldestIsOldest(ch, conn, auth, tryop, ch.members);
  }

  lemma EnteringFlagsChannel<K, C>(w: World<K, C>, k: K, c: C)
    requires ChansOk(w) && Linked(w) && FlagsAgree(w) && k in w.chan && c in w.conn && w.conn[c].at == None
    ensures var b := Entered(w, k, c);
            Crowned(b.chan[k], b.conn) <==> !(w.chan[k].opr.None? && w.chan[k].next.Some?)
    ensures forall d | d in w.conn && d !in w.chan[k].members && d != c :: Entered(w, k, c).conn[d] == w.conn[d]
  {
    hide Entitled, Oldest, Shape, NobodyBanned, NamesDistinct, AccountsOk, Occupied, Choose;
    var ch := w.chan[k];
    assert ChanOk(ch) && Crowned(ch, w.conn);
    var conn := w.conn[c := w.conn[c].(at := Some(k))];
    var grown := ch.(members := [c] + ch.members, count := ch.count + 1);
    assert Crowned(grown, conn);
    ChooseKeeps(grown, conn, w.auth, Some(c));
    if ch.opr.None? && ch.next.Some? {
      VacantDesignation(grown, conn, w.auth, c);
      assert !Crowned(Entered(w, k, c).chan[k], Entered(w, k, c).conn);
    } else if ch.opr.None? {
      ChooseCrowns(grown, conn, w.auth, Some(c));
      ChooseElsewhere(grown, conn, w.auth, c);
    }
  }

  lemma VacantDesignation<K, C>(ch: Chan<C>, conn: map<C, Conn<K>>, auth: map<Entry, Auth>, c: C)
    requires ch.next.Some? && ch.next != Some(c)
    ensures Choose(ch, conn, auth, Some(c)) == (ch.(opr := ch.next, next := None), conn)
  {
  }

  lemma ChooseElsewhere<K, C>(ch: Chan<C>, conn: map<C, Conn<K>>, auth: map<Entry, Auth>, c: C)
    requires ch.opr.None? && ch.next.None?
    ensures forall d | d in conn && d != c ::
              d in Choose(ch, conn, auth, Some(c)).1 && Choose(ch, conn, auth, Some(c)).1[d] == conn[d]
  {
    OldestIsOldest(ch, conn, auth, Some(c), ch.members);
  }

  /** Entering a channel keeps the flags right iff no designee was waiting there without an operator:
      in that case the designee becomes operator and its flag is not set. */
  lemma EnteringFlags<K, C>(w: World<K, C>, k: K, c: C)
    requires ChansOk(w) && Linked(w) && FlagsAgree(w) && k in w.chan && c in w.conn && w.conn[c].at == None
    ensures FlagsAgree(Entered(w, k, c)) <==> !(w.chan[k].opr.None? && w.chan[k].next.Some?)
  {
    hide Crowned, Shape, NobodyBanned, NamesDistinct, AccountsOk, Occupied, Entered;
    EnteringFlagsChannel(w, k, c);
    EnteredEnters(w, k, c);
    var b := Entered(w, k, c);
    forall l | l in w.chan && l != k
      ensures Crowned(b.chan[l], b.conn)
    {
      SameMembersSameFlags(w.chan[l], w.conn, b.conn);
    }
    assert b.chan.Keys == w.chan.Keys;
  }

  lemma SameMembersSameFlags<K, C>(ch: Chan<C>, conn: map<C, Conn<K>>, conn': map<C, Conn<K>>)
    requires Crowned(ch, conn)
    requires forall d | d in ch.members && d in conn' :: d in conn && conn'[d].gavel == conn[d].gavel
    ensures Crowned(ch, conn')
  {
  }

  lemma PartedFlags<K, C>(ch: Chan<C>, conn: map<C, Conn<K>>, auth: map<Entry, Auth>, c: C)
    requires ChanOk(ch) && c in ch.members && c in conn && Crowned(ch, conn)
    ensures var (ch', conn') := Parted(ch, conn, auth, c);
            && Crowned(ch', conn') && c in conn' && !conn'[c].gavel
            && forall d | d in conn && d !in ch.members :: d in conn' && conn'[d].gavel == conn[d].gavel
  {
    hide Entitled, Oldest, Choose;
    WithoutNoRepeat(ch.members, c);
    var rest := ch.(members := Without(ch.members, c), count := ch.count - 1,
                    next := if ch.next == Some(c) then None else ch.next);
    assert Crowned(rest, conn);
    if ch.opr == Some(c) {
      ChooseCrowns(rest, conn, auth, None);
    }
  }

  lemma LeftKeepsFlagsElsewhere<K, C>(w: World<K, C>, c: C, l: K)
    requires ChansOk(w) && Linked(w) && c in w.conn && w.conn[c].at.Some? && w.conn[c].at != Some(l)
    requires l in w.chan && FlagsAgree(w)
    ensures l in Left(w, c).chan && Crowned(Left(w, c).chan[l], Left(w, c).conn)
  {
    hide ChanOk, Crowned, Parted;
    var k := w.conn[c].at.value;
    LeftLeaves(w, c);
    PartedKeeps(w.chan[k], w.conn, w.auth, c);
    PartedFlags(w.chan[k], w.conn, w.auth, c);
    SameMembersSameFlags(w.chan[l], w.conn, Left(w, c).conn);
  }

  lemma LeftKeepsFlags<K, C>(w: World<K, C>, c: C)
    requires ChansOk(w) && Linked(w) && c in w.conn && FlagsAgree(w)
    ensures FlagsAgree(Left(w, c))
  {
    hide Parted, ChanOk, Crowned;
    if w.conn[c].at.Some? {
      var k, b := w.conn[c].at.value, Left(w, c);
      assert k in w.chan && c in w.chan[k].members && ChanOk(w.chan[k]) && Crowned(w.chan[k], w.conn);
      PartedKeeps(w.chan[k], w.conn, w.auth, c);
      PartedFlags(w.chan[k], w.conn, w.auth, c);
      var (ch, conn) := Parted(w.chan[k], w.conn, w.auth, c);
      assert b.conn == conn[c := conn[c].(at := None)];
      if k in b.chan {
        SameMembersSameFlags(ch, conn, b.conn);
      }
      forall l | l in b.chan && l != k
        ensures Crowned(b.chan[l], b.conn)
      {
        LeftKeepsFlagsElsewhere(w, c, l);
      }
    }
  }

  lemma CreatedKeepsFlags<K, C>(w: World<K, C>, k: K, info: Info, permanent: bool)
    requires FlagsAgree(w) && k !in w.chan
    ensures FlagsAgree(Created(w, k, info, permanent))
  {
  }

  /** The guard that loses a flag: somebody is let into a channel that has no operator but a designee. */
  ghost predicate JoinsVacant<K, C>(w: World<K, C>, c: Conn<K>, name: string, logged: bool) {
    match TargetOf(w, c, name, logged)
    case Existing(k) => k in w.chan && !Banned(w.chan[k], c) && w.chan[k].opr.None? && w.chan[k].next.Some?
    case _ => false
  }

  /** Joining keeps the flags right iff it does not enter such a channel. */
  lemma JoinFlagLaw<K, C>(w: World<K, C>, c: C, name: string, spare: Option<K>, logged: bool)
    requires ChansOk(w) && Linked(w) && c in w.conn && (spare.Some? ==> spare.value !in w.chan) && FlagsAgree(w)
    ensures FlagsAgree(SetChannel(w, c, Some(name), spare, logged).0)
            <==> !JoinsVacant(Left(w, c), Left(w, c).conn[c], name, logged)
  {
    hide Left, Entered, TargetOf, Banned, ChanOk, Crowned, FlagsAgree;
    LeftLinks(w, c);
    LeftKeepsFlags(w, c);
    var v := Left(w, c);
    match TargetOf(v, v.conn[c], name, logged) {
      case Existing(k) =>
        if k in v.chan && !Banned(v.chan[k], v.conn[c]) {
          EnteringFlags(v, k, c);
        }
      case Made(info, permanent) =>
        if spare.Some? {
          CreatedKeepsFlags(v, spare.value, info, permanent);
          var u := Created(v, spare.value, info, permanent);
          CreatedLinks(v, spare.value, info, permanent);
          if !Banned(u.chan[spare.value], u.conn[c]) {
            EnteringFlags(u, spare.value, c);
          }
        }
      case Nothing =>
    }
  }

  lemma ResignKeepsFlags<K, C>(w: World<K, C>, c: C)
    requires ChansOk(w) && Linked(w) && c in w.conn && FlagsAgree(w)
    ensures FlagsAgree(Resign(w, c))
  {
    hide Choose, ChanOk, Crowned;
    var b := Resign(w, c);
    if b != w {
      var k := w.conn[c].at.value;
      assert ChanOk(w.chan[k]) && Crowned(w.chan[k], w.conn);
      ResignsTo(w.chan[k], w.conn, w.auth);
      forall l | l in b.chan && l != k
        ensures Crowned(b.chan[l], b.conn)
      {
        SameMembersSameFlags(w.chan[l], w.conn, b.conn);
      }
    }
  }

  lemma ResignsTo<K, C>(ch: Chan<C>, conn: map<C, Conn<K>>, auth: map<Entry, Auth>)
    requires ChanOk(ch) && Crowned(ch, conn)
    ensures var (ch', conn') := Choose(ch, conn, auth, None);
            && Crowned(ch', conn') && ch'.next.None? && OnlyFlags(conn, conn')
            && forall d | d in conn && d !in ch.members :: conn'[d] == conn[d]
  {
    hide Choose;
    ChooseKeeps(ch, conn, auth, None);
    ChooseCrowns(ch, conn, auth, None);
  }

  lemma DesignateKeepsFlags<K, C>(w: World<K, C>, c: C, who: string)
    requires c in w.conn && FlagsAgree(w)
    ensures FlagsAgree(Designate(w, c, who))
  {
    hide FindConn;
    assert forall l | l in w.chan :: Crowned(w.chan[l], w.conn);
  }

  lemma BansKeepFlags<K, C>(w: World<K, C>, k: K, bans: seq<string>)
    requires FlagsAgree(w) && k in w.chan
    ensures FlagsAgree(w.(chan := w.chan[k := w.chan[k].(bans := bans)]))
  {
    assert forall l | l in w.chan :: Crowned(w.chan[l], w.conn);
  }

  lemma WithBanKeepsFlags<K, C>(w: World<K, C>, k: K, dest: string)
    requires FlagsAgree(w) && k in w.chan
    ensures FlagsAgree(WithBanIn(w, k, dest))
  {
    hide FlagsAgree, HasText;
    var ch := w.chan[k];
    BansKeepFlags(w, k, WithBan(ch, dest).bans);
    assert WithBan(ch, dest) == ch.(bans := WithBan(ch, dest).bans);
  }

  lemma BanFlagLaw<K, C>(w: World<K, C>, k: K, dest: string, spare: K, logged: bool)
    requires Inv(w) && k in w.chan && spare !in w.chan && FlagsAgree(w)
    ensures var v, buc := WithBanIn(w, k, dest), Expelled(w, k, dest);
            FlagsAgree(BanFrom(w, k, dest, Some(spare), logged))
            <==> !(buc.Some? && buc.value in v.conn
                   && JoinsVacant(Left(v, buc.value), Left(v, buc.value).conn[buc.value], VOID, logged))
  {
    hide Shape, NobodyBanned, NamesDistinct, AccountsOk, Occupied, FindConn, SetChannel, Linked, ChanOk,
         FlagsAgree, WithBan, Expelled, JoinsVacant, Left;
    BetweenBanAndExpulsion(w, k, dest);
    WithBanKeepsFlags(w, k, dest);
    var buc := Expelled(w, k, dest);
    if buc.Some? {
      JoinFlagLaw(WithBanIn(w, k, dest), buc.value, VOID, Some(spare), logged);
    }
  }

  lemma UnbanKeepsFlags<K, C>(w: World<K, C>, c: C, who: string)
    requires FlagsAgree(w) && c in w.conn
    ensures FlagsAgree(Unban(w, c, who))
  {
    hide FlagsAgree;
    var k := Commands(w, c);
    if k.Some? && who != [] {
      BansKeepFlags(w, k.value, WithoutText(w.chan[k.value].bans, who));
    }
  }

  lemma OthersKeepFlags<K, C>(w: World<K, C>, op: Op<K, C>, logged: bool)
    requires Inv(w) && Allowed(w, op) && FlagsAgree(w)
    requires Apart(op)
    ensures FlagsAgree(Step(w, op, logged))
  {
    hide ChanOk, Shape, NobodyBanned, NamesDistinct, AccountsOk, Occupied, SetChannel, Left, LoggedIn, Disconnect;
  }

  lemma DisconnectKeepsFlags<K, C>(w: World<K, C>, c: C)
    requires Inv(w) && c in w.conn && FlagsAgree(w)
    ensures FlagsAgree(Disconnect(w, c))
  {
    hide Left, ChanOk, Shape, NobodyBanned, NamesDistinct, AccountsOk, Occupied;
    LeftLinks(w, c);
    LeftKeepsFlags(w, c);
  }

  lemma LoginFlagLaw<K, C>(w: World<K, C>, c: C, e: Entry, initial: nat)
    requires Inv(w) && Allowed(w, Op<K, C>.Login(c, e, initial)) && FlagsAgree(w)
    ensures FlagsAgree(LoggedIn(w, c, e, initial)) <==> !GavelBit(initial)
  {
    hide Inv, Disconnect, FindConn, Denotes, FlagsAgree, Attached, HasGavel, GavelBit;
    GavelBitIs();
    RelievedKeepsInv(w, c, e);
    var other := FindConn(w, e.name);
    if other.Some? && other.value in w.conn {
      DisconnectKeepsFlags(w, other.value);
    }
    AttachedFlags(Relieved(w, e), c, e, initial);
  }

  lemma AttachedFlags<K, C>(v: World<K, C>, c: C, e: Entry, initial: nat)
    requires Inv(v) && FlagsAgree(v) && c in v.conn && v.conn[c].at == None
    ensures FlagsAgree(Attached(v, c, e, initial)) <==> !HasGavel(initial)
  {
    hide HasGavel, Shape, ChansOk, NobodyBanned, NamesDistinct, AccountsOk, Occupied;
    assert forall l | l in v.chan :: Crowned(v.chan[l], v.conn);
    var b := Attached(v, c, e, initial);
    if HasGavel(initial) {
      assert b.conn[c].gavel && b.conn[c].at == None;
    }
  }

  /** Operator of the channel it is in. */
  ghost predicate Operates<K, C>(w: World<K, C>, c: C)
    requires c in w.conn
  {
    && w.conn[c].at.Some? && w.conn[c].at.value in w.chan
    && w.chan[w.conn[c].at.value].opr == Some(c)
  }

  /** The flag set or cleared against the role: by an administrator's /flag, or by initial flags that have it. */
  ghost predicate Mismarks<K, C>(w: World<K, C>, op: Op<K, C>) {
    match op
    case FlagOp(c, newflag) =>
      c in w.conn && Administers(w.auth, w.conn[c].account) && GavelBit(newflag) != Operates(w, c)
    case Login(_, _, initial) => GavelBit(initial)
    case _ => false
  }

  lemma FlagCommandLaw<K, C>(w: World<K, C>, c: C, newflag: nat)
    requires Inv(w) && c in w.conn && FlagsAgree(w)
    ensures FlagsAgree(WithFlags(w, c, newflag)) <==> !Mismarks(w, Op<K, C>.FlagOp(c, newflag))
  {
    GavelBitIs();
    hide HasGavel, GavelBit, Shape, ChansOk, NobodyBanned, NamesDistinct, AccountsOk, Occupied;
    assert forall l | l in w.chan :: Crowned(w.chan[l], w.conn);
    var b := WithFlags(w, c, newflag);
    if w.conn[c].at.Some? {
      var k := w.conn[c].at.value;
      assert c in w.chan[k].members && b.chan[k] == w.chan[k];
      assert Crowned(b.chan[k], b.conn) ==> (b.conn[c].gavel <==> w.chan[k].opr == Some(c));
      forall l | l in b.chan && l != k
        ensures Crowned(b.chan[l], b.conn)
      {
        assert c !in w.chan[l].members;
      }
    } else {
      assert IsAdmin(w, w.conn[c]) ==> b.conn[c].gavel == HasGavel(newflag) && b.conn[c].at.None?;
      assert forall l | l in w.chan :: c !in w.chan[l].members;
    }
  }

  /** An operation that lets somebody into a channel where a designee waits without an operator. */
  ghost predicate EntersVacant<K, C>(w: World<K, C>, op: Op<K, C>, logged: bool)
    requires op.Join? || op.KickOp? || op.BanOp? ==> op.c in w.conn
  {
    var p := Placement(w, op);
    p.Some? && p.value.1 in p.value.0.conn &&
    var v := Left(p.value.0, p.value.1);
    JoinsVacant(v, v.conn[p.value.1], p.value.2, logged)
  }

  /** An operation keeps "exactly the operators carry the flag" iff it does not enter such a channel and
      sets no flag against the role: a designation itself does no harm, and neither does anything else. */
  lemma FlagLaw<K, C>(w: World<K, C>, op: Op<K, C>, logged: bool)
    requires Inv(w) && Allowed(w, op) && FlagsAgree(w)
    ensures FlagsAgree(Step(w, op, logged)) <==> !EntersVacant(w, op, logged) && !Mismarks(w, op)
  {
    hide ChansOk, Linked, FlagsAgree, Shape, NobodyBanned, NamesDistinct, AccountsOk, Occupied, FindConn, SetChannel,
         Left, JoinsVacant, BanTarget, Operates, GavelBit, LoggedIn, WithFlags;
    match op {
      case Join(c, name, spare) => JoinFlagLaw(w, c, name, Some(spare), logged);
      case Leave(c) => LeftKeepsFlags(w, c);
      case DesignateOp(c, who) => DesignateKeepsFlags(w, c, who);
      case ResignOp(c) => ResignKeepsFlags(w, c);
      case KickOp(c, who, spare) =>
        var kuc := KickTarget(w, c, who);
        if kuc.Some? {
          JoinFlagLaw(w, kuc.value, VOID, Some(spare), logged);
        }
      case BanOp(c, who, spare) =>
        if BanTarget(w, c, who).Some? {
          BanFlagLaw(w, BanTarget(w, c, who).value, who, spare, logged);
        }
      case UnbanOp(c, who) => UnbanKeepsFlags(w, c, who);
      case Login(c, e, initial) => LoginFlagLaw(w, c, e, initial);
      case FlagOp(c, newflag) => FlagCommandLaw(w, c, newflag);
      case Close(c) => DisconnectKeepsFlags(w, c);
      case _ => OthersKeepFlags(w, op, logged);
    }
  }

  // ------------------------------------------------- where designees come to wait

  /** A designation that takes effect in a channel without an operator. */
  ghost predicate DesignatesVacant<K, C>(w: World<K, C>, op: Op<K, C>) {
    && op.DesignateOp? && op.c in w.conn
    && Designate(w, op.c, op.who) != w && w.chan[w.conn[op.c].at.value].opr.None?
  }

  lemma LeftKeepsVacancies<K, C>(w: World<K, C>, c: C)
    requires ChansOk(w) && Linked(w) && c in w.conn && NoVacantDesignation(w)
    ensures NoVacantDesignation(Left(w, c))
  {
    hide Entitled, Oldest, ChanOk, Without;
    if w.conn[c].at.Some? {
      var k := w.conn[c].at.value;
      assert ChanOk(w.chan[k]) && c in w.chan[k].members;
    }
  }

  lemma EnteringKeepsVacancies<K, C>(w: World<K, C>, k: K, c: C)
    requires NoVacantDesignation(w) && k in w.chan && c in w.conn
    ensures NoVacantDesignation(Entered(w, k, c))
  {
    hide Entitled, Oldest;
  }

  lemma JoinKeepsVacancies<K, C>(w: World<K, C>, c: C, name: string, spare: Option<K>, logged: bool)
    requires ChansOk(w) && Linked(w) && c in w.conn && NoVacantDesignation(w)
    ensures NoVacantDesignation(SetChannel(w, c, Some(name), spare, logged).0)
    ensures !JoinsVacant(Left(w, c), Left(w, c).conn[c], name, logged)
  {
    hide Left, Entered, TargetOf, Banned, ChanOk;
    LeftKeepsVacancies(w, c);
    var v := Left(w, c);
    match TargetOf(v, v.conn[c], name, logged) {
      case Existing(k) =>
        if k in v.chan {
          EnteringKeepsVacancies(v, k, c);
        }
      case Made(info, permanent) =>
        if spare.Some? {
          EnteringKeepsVacancies(Created(v, spare.value, info, permanent), spare.value, c);
        }
      case Nothing =>
    }
  }

  lemma BanKeepsVacancies<K, C>(w: World<K, C>, c: C, dest: string, spare: K, logged: bool)
    requires Inv(w) && c in w.conn && spare !in w.chan && NoVacantDesignation(w)
    ensures NoVacantDesignation(Ban(w, c, dest, Some(spare), logged))
    ensures !EntersVacant(w, BanOp(c, dest, spare), logged)
  {
    hide Shape, NobodyBanned, NamesDistinct, AccountsOk, Occupied, FindConn, SetChannel, Linked, ChanOk,
         Expelled, JoinsVacant, Left, HasText, BanTarget;
    var k := BanTarget(w, c, dest);
    if k.Some? {
      BetweenBanAndExpulsion(w, k.value, dest);
      var buc := Expelled(w, k.value, dest);
      if buc.Some? {
        JoinKeepsVacancies(WithBanIn(w, k.value, dest), buc.value, VOID, Some(spare), logged);
      }
    }
  }

  lemma OthersKeepVacancies<K, C>(w: World<K, C>, op: Op<K, C>, logged: bool)
    requires Inv(w) && Allowed(w, op) && NoVacantDesignation(w)
    requires !op.Join? && !op.KickOp? && !op.BanOp? && !op.DesignateOp?
    ensures NoVacantDesignation(Step(w, op, logged))
  {
    hide Left, ChanOk, Shape, NobodyBanned, NamesDistinct, AccountsOk, Occupied, Oldest, Entitled, WithoutText,
         FindConn, Denotes;
    if op.Leave? || op.Close? {
      LeftKeepsVacancies(w, op.c);
    } else if op.Login? {
      var other := FindConn(w, op.account.name);
      if other.Some? && other.value in w.conn {
        LeftKeepsVacancies(w, other.value);
      }
    }
  }

  /** Designees come to wait without an operator only by such a designation, and as long as none does no
      operation enters a channel where one waits. */
  lemma VacancyLaw<K, C>(w: World<K, C>, op: Op<K, C>, logged: bool)
    requires Inv(w) && Allowed(w, op) && NoVacantDesignation(w)
    ensures NoVacantDesignation(Step(w, op, logged)) <==> !DesignatesVacant(w, op)
    ensures !EntersVacant(w, op, logged)
  {
    hide Shape, NobodyBanned, NamesDistinct, AccountsOk, Occupied, FindConn, SetChannel, Linked, ChanOk,
         JoinsVacant, Left, HasText, BanTarget;
    match op {
      case Join(c, name, spare) => JoinKeepsVacancies(w, c, name, Some(spare), logged);
      case KickOp(c, who, spare) =>
        var kuc := KickTarget(w, c, who);
        if kuc.Some? {
          JoinKeepsVacancies(w, kuc.value, VOID, Some(spare), logged);
        }
      case BanOp(c, who, spare) => BanKeepsVacancies(w, c, who, spare, logged);
      case DesignateOp(c, who) =>
      case _ => OthersKeepVacancies(w, op, logged);
    }
  }

  // ------------------------------------------------------------ single records

  /** At most the record of connection `c` is another one. */
  ghost predicate OnlyRecord<K, C>(w: World<K, C>, b: World<K, C>, c: C) {
    && b.(conn := w.conn) == w && b.conn.Keys == w.conn.Keys
    && forall d | d in w.conn && d != c :: b.conn[d] == w.conn[d]
  }

  lemma CloseForgets<K, C>(w: World<K, C>, c: C)
    requires Inv(w) && c in w.conn
    ensures Left(w, c).conn.Keys == w.conn.Keys && c !in Disconnect(w, c).conns
  {
    LeaveKeepsInv(w, c);
    assert NoRepeat(w.conns) by {
      assert Shape(w);
    }
    WithoutNoRepeat(w.conns, c);
    hide Left, Inv, Without;
  }

  /** What the operations store that are about one account or one connection. */
  lemma RecordLaw<K, C>(w: World<K, C>, op: Op<K, C>, logged: bool)
    requires Inv(w) && Allowed(w, op)
    ensures var b := Step(w, op, logged);
            match op
            case Register(e) => b.accounts == [e] + w.accounts && b.(accounts := w.accounts) == w
            case Authorize(e, a) =>
              && e in b.auth && b.auth[e] == a && b.(auth := w.auth) == w
              && forall x | x != e :: if x in w.auth then x in b.auth && b.auth[x] == w.auth[x] else x !in b.auth
            case Connect(c, bot, country, realm) =>
              && b.conns == [c] + w.conns && b.(conns := w.conns, conn := w.conn) == w
              && b.conn.Keys == w.conn.Keys + {c}
              && (forall d | d in w.conn :: b.conn[d] == w.conn[d])
              && var r := b.conn[c];
                 && r.account == None && r.at == None && !r.gavel
                 && r.bot == bot && r.country == country && r.realm == realm
            case Place(c, country, realm) =>
              && OnlyRecord(w, b, c)
              && var r, q := b.conn[c], w.conn[c];
                 && r.country == country && r.realm == realm
                 && r.account == q.account && r.bot == q.bot && r.at == q.at && r.gavel == q.gavel
            case Classify(c, bot) =>
              && OnlyRecord(w, b, c)
              && var r, q := b.conn[c], w.conn[c];
                 && r.bot == bot && r.country == q.country && r.realm == q.realm
                 && r.account == q.account && r.at == q.at && r.gavel == q.gavel
            case FlagOp(c, newflag) =>
              && OnlyRecord(w, b, c)
              && var r, q := b.conn[c], w.conn[c];
                 && r.gavel == (if Administers(w.auth, q.account) then GavelBit(newflag) else q.gavel)
                 && r.country == q.country && r.realm == q.realm
                 && r.account == q.account && r.bot == q.bot && r.at == q.at
            case Close(c) =>
              var v := Step(w, Leave(c), logged);
              && b.(conns := v.conns, conn := v.conn) == v && b.conn.Keys == w.conn.Keys - {c} && c !in b.conns
              && forall d | d in w.conn && d != c :: d in v.conn && b.conn[d] == v.conn[d]
            case _ => true
  {
    hide Inv, HasGavel, GavelBit, SetChannel, Left, Kick, Ban, Resign, LoggedIn, Without;
    GavelBitIs();
    if op.Close? {
      CloseForgets(w, op.c);
    }
  }

  // ------------------------------------------------------------------ whole runs

  /** No operation of the run puts somebody into a full channel by its full name, or into a channel where
      a designee waits without an operator, or sets a flag against the role. */
  ghost predicate OrderlyRun<K, C>(w: World<K, C>, ops: seq<Op<K, C>>, logged: bool, end: World<K, C>)
    requires RunsTo(w, ops, logged, end)
    decreases ops
  {
    ops == [] ||
    (&& !Overfills(w, ops[0], logged) && !EntersVacant(w, ops[0], logged) && !Mismarks(w, ops[0])
     && OrderlyRun(Step(w, ops[0], logged), ops[1..], logged, end))
  }

  /** In every state of the run no channel is over its limit and exactly the operators carry the flag. */
  ghost predicate RightThroughout<K, C>(w: World<K, C>, ops: seq<Op<K, C>>, logged: bool, end: World<K, C>)
    requires RunsTo(w, ops, logged, end)
    decreases ops
  {
    && WithinLimits(w) && FlagsAgree(w)
    && (ops == [] || RightThroughout(Step(w, ops[0], logged), ops[1..], logged, end))
  }

  /** Limits and flags are right in every state of a run iff the run is orderly. */
  lemma {:induction false} OrderlyRunLaw<K, C>(w: World<K, C>, ops: seq<Op<K, C>>, logged: bool, end: World<K, C>)
    requires Inv(w) && WithinLimits(w) && FlagsAgree(w) && RunsTo(w, ops, logged, end)
    ensures RightThroughout(w, ops, logged, end) <==> OrderlyRun(w, ops, logged, end)
    decreases ops
  {
    hide Inv, Step, WithinLimits, FlagsAgree, Overfills, EntersVacant, Mismarks;
    if ops != [] {
      var v := Step(w, ops[0], logged);
      StepKeepsInv(w, ops[0], logged);
      StepLimitLaw(w, ops[0], logged);
      FlagLaw(w, ops[0], logged);
      if WithinLimits(v) && FlagsAgree(v) {
        OrderlyRunLaw(v, ops[1..], logged, end);
      }
    }
  }

  /** No operation of the run designates where there is no operator, or sets a flag against the role. */
  ghost predicate CarefulRun<K, C>(w: World<K, C>, ops: seq<Op<K, C>>, logged: bool, end: World<K, C>)
    requires RunsTo(w, ops, logged, end)
    decreases ops
  {
    ops == [] ||
    (&& !DesignatesVacant(w, ops[0]) && !Mismarks(w, ops[0])
     && CarefulRun(Step(w, ops[0], logged), ops[1..], logged, end))
  }

  /** A run that designates only where there is an operator, and sets no flag against the role, ends with the
      right flags. */
  lemma {:induction false} DesignationRunLaw<K, C>(w: World<K, C>, ops: seq<Op<K, C>>, logged: bool, end: World<K, C>)
    requires Inv(w) && FlagsAgree(w) && NoVacantDesignation(w)
    requires RunsTo(w, ops, logged, end) && CarefulRun(w, ops, logged, end)
    ensures FlagsAgree(end) && NoVacantDesignation(end)
    decreases ops
  {
    hide Inv, Step, FlagsAgree, NoVacantDesignation, DesignatesVacant, EntersVacant, Mismarks;
    if ops != [] {
      StepKeepsInv(w, ops[0], logged);
      VacancyLaw(w, ops[0], logged);
      FlagLaw(w, ops[0], logged);
      DesignationRunLaw(Step(w, ops[0], logged), ops[1..], logged, end);
    }
  }
}
