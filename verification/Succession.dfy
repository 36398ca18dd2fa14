/** Who follows an operator, whatever it is that takes the operator away, and who comes to be one where
    there was none. */
module Succession {
  import opened Lists
  import opened Text
  import opened AccountIndex
  import opened ChannelModel
  import opened ChannelInvariant
  import opened ChannelLaws

  // ---------------------------------------------------------------- one channel

  /** What entitles a connection to be operator of a channel: its account is operator of that very channel, or is
      operator and the channel allows operators. */
  ghost predicate MayLead<K>(info: Info, c: Conn<K>, auth: map<Entry, Auth>) {
    && c.account.Some? && c.account.value in auth
    && var a := auth[c.account.value];
       Fold(info.name) in a.operatorOf || (a.operator && info.allowOpers)
  }

  lemma MayLeadIs<K>()
    ensures forall info: Info, c: Conn<K>, auth :: MayLead(info, c, auth) <==> Entitled(info, c, auth)
  {
  }

  /** Who has to follow `gone` as operator: the designee; else the longest-standing other member who
      is entitled; else nobody. Members are listed newest first. */
  ghost predicate Succeeds<K, C>(ch: Chan<C>, conn: map<C, Conn<K>>, auth: map<Entry, Auth>, gone: C, heir: Option<C>) {
    if ch.next.Some? then heir == ch.next
    else if heir.None? then
      forall c | c in ch.members && c != gone && c in conn :: !MayLead(ch.info, conn[c], auth)
    else
      exists i | 0 <= i < |ch.members| ::
        && ch.members[i] == heir.value && heir.value != gone && heir.value in conn
        && MayLead(ch.info, conn[heir.value], auth)
        && forall j | i < j < |ch.members| && ch.members[j] != gone && ch.members[j] in conn ::
             !MayLead(ch.info, conn[ch.members[j]], auth)
  }

  lemma ChooseSucceeds<K, C>(ch: Chan<C>, conn: map<C, Conn<K>>, auth: map<Entry, Auth>, gone: C)
    requires ch.opr == Some(gone) && ch.next != Some(gone)
    requires forall c | c in ch.members :: c in conn
    ensures Succeeds(ch, conn, auth, gone, Choose(ch, conn, auth, None).0.opr)
  {
    MayLeadIs<K>();
    hide Entitled, MayLead, Oldest;
    OldestIsOldest(ch, conn, auth, None, ch.members);
  }

  /** When the operator resigns, the right one follows. */
  lemma ResignSuccession<K, C>(w: World<K, C>, c: C)
    requires Inv(w) && c in w.conn && w.conn[c].at.Some?
    requires w.chan[w.conn[c].at.value].opr == Some(c)
    ensures var k := w.conn[c].at.value;
            Succeeds(w.chan[k], w.conn, w.auth, c, Resign(w, c).chan[k].opr)
  {
    hide Entitled, MayLead, Oldest, Succeeds, Choose, Shape, NobodyBanned, NamesDistinct, AccountsOk, Occupied;
    var k := w.conn[c].at.value;
    assert ChanOk(w.chan[k]);
    ChooseSucceeds(w.chan[k], w.conn, w.auth, c);
  }

  lemma {:induction false} WithoutOrder<T>(s: seq<T>, x: T, i: nat) returns (j: nat)
    requires i < |Without(s, x)|
    ensures j < |s| && s[j] == Without(s, x)[i]
    ensures j == i || (j == i + 1 && x in s[..j])
    ensures forall n | j < n < |s| :: s[n] == x || s[n] in Without(s, x)[i + 1..]
  {
    if s[0] == x {
      j := i + 1;
      assert forall n | j < n < |s| :: s[n] == Without(s, x)[n - 1];
    } else if i == 0 {
      j := 0;
      forall n | 0 < n < |s|
        ensures s[n] == x || s[n] in Without(s, x)[1..]
      {
        assert Without(s, x)[1..] == Without(s[1..], x);
        assert s[n] in s[1..];
      }
    } else {
      var j' := WithoutOrder(s[1..], x, i - 1);
      j := j' + 1;
      assert Without(s, x)[i + 1..] == Without(s[1..], x)[i..];
      forall n | j < n < |s|
        ensures s[n] == x || s[n] in Without(s, x)[i + 1..]
      {
        assert s[n] == s[1..][n - 1];
      }
    }
  }

  /** When the operator leaves a channel that stays, the right one of those who remain follows. */
  lemma LeaveSuccession<K, C>(w: World<K, C>, c: C)
    requires ChansOk(w) && Linked(w) && c in w.conn && w.conn[c].at.Some?
    requires w.chan[w.conn[c].at.value].opr == Some(c)
    ensures var k := w.conn[c].at.value;
            k in Left(w, c).chan ==>
              Succeeds(w.chan[k], w.conn, w.auth, c, Left(w, c).chan[k].opr) && Left(w, c).chan[k].next.None?
  {
    MayLeadIs<K>();
    hide Entitled, MayLead, Oldest, Succeeds;
    var k := w.conn[c].at.value;
    var ch := w.chan[k];
    assert ChanOk(ch);
    var rest := ch.(members := Without(ch.members, c), count := ch.count - 1);
    ChooseSucceeds(rest, w.conn, w.auth, c);
    RestSucceeds(ch, w.conn, w.auth, c, Choose(rest, w.conn, w.auth, None).0.opr);
  }

  lemma RestSucceeds<K, C>(ch: Chan<C>, conn: map<C, Conn<K>>, auth: map<Entry, Auth>, gone: C, heir: Option<C>)
    requires ch.count > 0
    requires Succeeds(ch.(members := Without(ch.members, gone), count := ch.count - 1), conn, auth, gone, heir)
    ensures Succeeds(ch, conn, auth, gone, heir)
  {
    MayLeadIs<K>();
    hide Entitled, MayLead, Without;
    var rest := Without(ch.members, gone);
    if ch.next.None? && heir.Some? {
      var i :| 0 <= i < |rest| && rest[i] == heir.value && heir.value != gone && heir.value in conn
               && Entitled(ch.info, conn[heir.value], auth)
               && forall j | i < j < |rest| && rest[j] != gone && rest[j] in conn ::
                    !Entitled(ch.info, conn[rest[j]], auth);
      var n := WithoutOrder(ch.members, gone, i);
      forall j | n < j < |ch.members| && ch.members[j] != gone && ch.members[j] in conn
        ensures !Entitled(ch.info, conn[ch.members[j]], auth)
      {
        var m :| 0 <= m < |rest[i + 1..]| && rest[i + 1..][m] == ch.members[j];
        assert rest[i + 1 + m] == ch.members[j];
      }
    }
  }

  // ------------------------------------------------------------ every operation

  /** The operator is back: it left and entered again, nobody followed, and it is entitled. */
  ghost predicate Returns<K, C>(w: World<K, C>, b: World<K, C>, k: K, c: C)
    requires k in w.chan && k in b.chan && c in w.conn
  {
    && b.chan[k].opr == Some(c) && c in b.conn && b.conn[c].at == Some(k)
    && MayLead(w.chan[k].info, w.conn[c], w.auth) && Succeeds(w.chan[k], w.conn, w.auth, c, None)
  }

  /** Channel `k` has the operator it has to have after `c`. */
  ghost predicate RightHeir<K, C>(w: World<K, C>, b: World<K, C>, k: K, c: C)
    requires k in w.chan && k in b.chan && c in w.conn
  {
    Succeeds(w.chan[k], w.conn, w.auth, c, b.chan[k].opr) || Returns(w, b, k, c)
  }

  /** Whom an operation takes out of its channel, to another one or for good. */
  function Goer<K(==), C(==)>(w: World<K, C>, op: Op<K, C>): Option<C>
    requires op.Join? || op.KickOp? || op.BanOp? ==> op.c in w.conn
  {
    match op
    case Join(c, _, _) => Some(c)
    case Leave(c) => Some(c)
    case Close(c) => Some(c)
    case KickOp(c, who, _) => KickTarget(w, c, who)
    case BanOp(c, who, _) =>
      var k := BanTarget(w, c, who);
      if k.None? then None else Expelled(w, k.value, who)
    case Login(_, e, _) => FindConn(w, e.name)
    case _ => None
  }

  lemma LeftKeepsOperator<K, C>(w: World<K, C>, d: C, k: K, c: C)
    requires ChansOk(w) && Linked(w) && d in w.conn && k in w.chan && w.chan[k].opr == Some(c) && c != d
    ensures k in Left(w, d).chan && Left(w, d).chan[k].opr == Some(c)
  {
    hide Choose;
    assert ChanOk(w.chan[k]) && c in w.chan[k].members;
    hide ChanOk;
    if w.conn[d].at == Some(k) {
      StaysListed(w.chan[k].members, d, c);
    }
  }

  lemma StaysListed<T>(s: seq<T>, x: T, y: T)
    requires y in s && x != y
    ensures y in Without(s, x)
  {
  }

  lemma EnteredOperator<K, C>(v: World<K, C>, l: K, d: C, k: K)
    requires ChansOk(v) && Linked(v) && l in v.chan && d in v.conn && v.conn[d].at.None? && k in v.chan
    ensures var b := Entered(v, l, d);
            && k in b.chan
            && (k != l || v.chan[k].opr.Some? ==> b.chan[k].opr == v.chan[k].opr)
            && (k == l && v.chan[k].opr.None? ==>
                  if v.chan[k].next.Some? then b.chan[k].opr == v.chan[k].next
                  else b.chan[k].opr == if Entitled(v.chan[k].info, v.conn[d], v.auth) then Some(d) else None)
  {
    hide Entitled, MayLead;
    if k == l && v.chan[k].opr.None? && v.chan[k].next.None? {
      var conn := v.conn[d := v.conn[d].(at := Some(k))];
      var ch := v.chan[k].(members := [d] + v.chan[k].members, count := v.chan[k].count + 1);
      OldestIsOldest(ch, conn, v.auth, Some(d), ch.members);
      assert ch.members[0] == d;
      SameEntitlement(ch.info, conn[d], v.conn[d], v.auth);
    }
  }

  lemma SameEntitlement<K>(info: Info, a: Conn<K>, b: Conn<K>, auth: map<Entry, Auth>)
    requires a.account == b.account
    ensures Entitled(info, a, auth) == Entitled(info, b, auth)
  {
  }

  /** Between a departure and the entrance that follows it a channel keeps its operator; without operator and
      designee it gets at most the one who enters. */
  ghost predicate Held<K, C>(v: World<K, C>, b: World<K, C>, k: K, d: C)
    requires k in v.chan && d in v.conn
  {
    && k in b.chan
    && (v.chan[k].opr.Some? ==> b.chan[k].opr == v.chan[k].opr)
    && (b.chan[k].opr != v.chan[k].opr ==>
          && d in b.conn && b.conn[d].at == Some(k)
          && if v.chan[k].next.Some? then b.chan[k].opr == v.chan[k].next
             else b.chan[k].opr == Some(d) && Entitled(v.chan[k].info, v.conn[d], v.auth))
  }

  lemma AdmittedHolds<K, C>(v: World<K, C>, l: K, d: C, k: K)
    requires ChansOk(v) && Linked(v) && l in v.chan && d in v.conn && v.conn[d].at.None? && k in v.chan
    ensures Held(v, Admitted(v, l, d).0, k, d) && Admitted(v, l, d).0.chan.Keys == v.chan.Keys
  {
    hide Entitled, MayLead, Banned, Entered, ChanOk;
    EnteredOperator(v, l, d, k);
    EnteredEnters(v, l, d);
  }

  lemma CreatedHolds<K, C>(v: World<K, C>, spare: K, info: Info, permanent: bool, d: C, k: K)
    requires ChansOk(v) && Linked(v) && spare !in v.chan && d in v.conn && v.conn[d].at.None? && k in v.chan
    ensures var b := Admitted(Created(v, spare, info, permanent), spare, d).0;
            Held(v, b, k, d) && b.chan.Keys == v.chan.Keys + {spare}
  {
    hide Entitled, MayLead, Admitted;
    CreatedLinks(v, spare, info, permanent);
    AdmittedHolds(Created(v, spare, info, permanent), spare, d, k);
  }

  lemma SetChannelHolds<K, C>(w: World<K, C>, d: C, name: string, spare: K, logged: bool, k: K)
    requires ChansOk(w) && Linked(w) && d in w.conn && spare !in w.chan && k in Left(w, d).chan
    ensures Held(Left(w, d), SetChannel(w, d, Some(name), Some(spare), logged).0, k, d)
  {
    hide Left, ChansOk, Linked, TargetOf, Admitted, Created, Held;
    LeftLinks(w, d);
    var v := Left(w, d);
    HeldAsIs(v, k, d);
    match TargetOf(v, v.conn[d], name, logged) {
      case Existing(l) =>
        if l in v.chan {
          AdmittedHolds(v, l, d, k);
        }
      case Made(info, permanent) => CreatedHolds(v, spare, info, permanent, d, k);
      case Nothing =>
    }
  }

  lemma HeldAsIs<K, C>(v: World<K, C>, k: K, d: C)
    requires k in v.chan && d in v.conn
    ensures Held(v, v, k, d)
  {
  }

  /** No channel reappears, and a new one is called `spare`. */
  lemma SetChannelKeys<K, C>(w: World<K, C>, d: C, name: string, spare: K, logged: bool)
    requires ChansOk(w) && Linked(w) && d in w.conn && spare !in w.chan
    ensures SetChannel(w, d, Some(name), Some(spare), logged).0.chan.Keys <= Left(w, d).chan.Keys + {spare}
    ensures Left(w, d).chan.Keys <= w.chan.Keys
  {
    hide Left, ChansOk, Linked, TargetOf, Banned, Entered;
    LeftLinks(w, d);
    var v := Left(w, d);
    match TargetOf(v, v.conn[d], name, logged) {
      case Existing(l) =>
        if l in v.chan {
          EnteredEnters(v, l, d);
        }
      case Made(info, permanent) =>
        CreatedLinks(v, spare, info, permanent);
        EnteredEnters(Created(v, spare, info, permanent), spare, d);
      case Nothing =>
    }
  }

  lemma LeftIsTheSame<K, C>(w: World<K, C>, d: C)
    requires ChansOk(w) && Linked(w) && d in w.conn
    ensures var v := Left(w, d);
            && v.auth == w.auth && v.conn[d].account == w.conn[d].account
            && forall k | k in v.chan :: k in w.chan && v.chan[k].info == w.chan[k].info
  {
    hide ChanOk;
    if w.conn[d].at.Some? {
      LeftLeaves(w, d);
    }
  }

  /** One change of channel: where the one who goes was operator the right heir follows, and everywhere else
      the operator stays. */
  lemma SetChannelSuccession<K, C>(w: World<K, C>, d: C, name: string, spare: K, logged: bool, k: K, c: C)
    requires ChansOk(w) && Linked(w) && c in w.conn && d in w.conn && spare !in w.chan
    requires k in w.chan && w.chan[k].opr == Some(c)
    ensures var b := SetChannel(w, d, Some(name), Some(spare), logged).0;
            if c == d then k in b.chan ==> RightHeir(w, b, k, c) else k in b.chan && b.chan[k].opr == Some(c)
  {
    MayLeadIs<K>();
    hide Left, SetChannel, Entitled, MayLead, Succeeds;
    SetChannelKeys(w, d, name, spare, logged);
    OperatorIsIn(w, k, c);
    hide ChanOk, Linked, ChansOk;
    if c != d {
      LeftKeepsOperator(w, d, k, c);
      SetChannelHolds(w, d, name, spare, logged, k);
    } else if k in Left(w, c).chan {
      LeaveSuccession(w, c);
      LeftIsTheSame(w, c);
      SetChannelHolds(w, c, name, spare, logged, k);
      var v := Left(w, c);
      SameEntitlement(w.chan[k].info, v.conn[c], w.conn[c], w.auth);
    }
  }

  lemma OperatorIsIn<K, C>(w: World<K, C>, k: K, c: C)
    requires ChansOk(w) && Linked(w) && k in w.chan && w.chan[k].opr == Some(c)
    ensures c in w.conn && w.conn[c].at == Some(k)
  {
    assert ChanOk(w.chan[k]);
  }

  lemma BanKeepsHeir<K, C>(w: World<K, C>, l: K, dest: string, b: World<K, C>, k: K, c: C)
    requires l in w.chan && k in w.chan && k in b.chan && c in w.conn && RightHeir(WithBanIn(w, l, dest), b, k, c)
    ensures RightHeir(w, b, k, c)
  {
    MayLeadIs<K>();
    hide Entitled, MayLead, HasText;
  }

  lemma BanSuccession<K, C>(w: World<K, C>, l: K, dest: string, spare: K, logged: bool, k: K, c: C)
    requires Inv(w) && l in w.chan && spare !in w.chan && k in w.chan && c in w.conn && w.chan[k].opr == Some(c)
    ensures var b := BanFrom(w, l, dest, Some(spare), logged);
            if Expelled(w, l, dest) == Some(c) then k in b.chan ==> RightHeir(w, b, k, c)
            else k in b.chan && b.chan[k].opr == Some(c)
  {
    hide Shape, ChansOk, Linked, NobodyBanned, NamesDistinct, AccountsOk, Occupied, FindConn, SetChannel, HasText,
         RightHeir;
    BetweenBanAndExpulsion(w, l, dest);
    var v, buc := WithBanIn(w, l, dest), Expelled(w, l, dest);
    if buc.Some? {
      SetChannelSuccession(v, buc.value, VOID, spare, logged, k, c);
      var b := SetChannel(v, buc.value, Some(VOID), Some(spare), logged).0;
      if buc == Some(c) && k in b.chan {
        BanKeepsHeir(w, l, dest, b, k, c);
      }
    }
  }

  lemma DisconnectSuccession<K, C>(w: World<K, C>, d: C, k: K, c: C)
    requires Inv(w) && d in w.conn && k in w.chan && c in w.conn && w.chan[k].opr == Some(c)
    ensures var b := Left(w, d);
            && Disconnect(w, d).chan == b.chan
            && if c == d then k in b.chan ==> RightHeir(w, b, k, c) && RightHeir(w, Disconnect(w, d), k, c)
               else k in b.chan && b.chan[k].opr == Some(c)
  {
    hide Succeeds, Left, Entitled, MayLead;
    OperatorIsIn(w, k, c);
    if c == d {
      LeaveSuccession(w, c);
    } else {
      LeftKeepsOperator(w, d, k, c);
    }
  }

  lemma LoginSuccession<K, C>(w: World<K, C>, d: C, e: Entry, initial: nat, k: K, c: C)
    requires Inv(w) && Allowed(w, Op<K, C>.Login(d, e, initial))
    requires k in w.chan && c in w.conn && w.chan[k].opr == Some(c)
    ensures var b := LoggedIn(w, d, e, initial);
            if FindConn(w, e.name) == Some(c) then k in b.chan ==> RightHeir(w, b, k, c)
            else k in b.chan && b.chan[k].opr == Some(c)
  {
    hide Inv, Succeeds, Left, FindConn, Denotes, Entitled, MayLead, HasGavel;
    var other := FindConn(w, e.name);
    assert Inv(w) && ChansOk(w) && Linked(w) by {
      InvLinks(w);
    }
    if other.Some? && other.value in w.conn {
      OperatorIsIn(w, k, c);
      if c == other.value {
        LeaveSuccession(w, c);
      } else {
        LeftKeepsOperator(w, other.value, k, c);
      }
    }
  }

  lemma InvLinks<K, C>(w: World<K, C>)
    requires Inv(w)
    ensures ChansOk(w) && Linked(w)
  {
  }

  lemma ResigningSuccession<K, C>(w: World<K, C>, d: C, k: K, c: C)
    requires Inv(w) && d in w.conn && k in w.chan && c in w.conn && w.chan[k].opr == Some(c)
    ensures var b := Resign(w, d);
            if c == d then k in b.chan ==> RightHeir(w, b, k, c) else k in b.chan && b.chan[k].opr == Some(c)
  {
    hide Succeeds, Choose, Entitled, MayLead, Shape, NobodyBanned, NamesDistinct, AccountsOk, Occupied;
    OperatorIsIn(w, k, c);
    if c == d {
      ResignSuccession(w, c);
    }
  }

  lemma OthersKeepOperators<K, C>(w: World<K, C>, op: Op<K, C>, logged: bool, k: K)
    requires Inv(w) && Allowed(w, op) && k in w.chan
    requires Apart(op) || op.FlagOp? || op.DesignateOp? || op.UnbanOp?
    ensures var b := Step(w, op, logged);
            k in b.chan && b.chan[k].opr == w.chan[k].opr
  {
    hide Inv, SetChannel, Left, LoggedIn, Disconnect, Kick, Ban, Resign, FindConn, WithoutText, HasGavel, IsAdmin;
  }

  /** Whatever happens, an operator that stays and does not resign stays operator; if it goes, by a join
      elsewhere, a kick, a ban, a disconnection or a login to its account, or if it resigns, the right one
      follows. */
  lemma SuccessionLaw<K, C>(w: World<K, C>, op: Op<K, C>, logged: bool, k: K, c: C)
    requires Inv(w) && Allowed(w, op) && k in w.chan && c in w.conn && w.chan[k].opr == Some(c)
    ensures var b := Step(w, op, logged);
            if Goer(w, op) == Some(c) || op == ResignOp(c) then k in b.chan ==> RightHeir(w, b, k, c)
            else k in b.chan && b.chan[k].opr == Some(c)
  {
    hide Shape, ChansOk, Linked, NobodyBanned, NamesDistinct, AccountsOk, Occupied, FindConn, SetChannel, Left,
         BanTarget, Expelled, RightHeir, Resign, LoggedIn, KickTarget, Disconnect;
    match op {
      case Join(d, name, spare) => SetChannelSuccession(w, d, name, spare, logged, k, c);
      case Leave(d) => DisconnectSuccession(w, d, k, c);
      case Close(d) => DisconnectSuccession(w, d, k, c);
      case KickOp(d, who, spare) =>
        var kuc := KickTarget(w, d, who);
        KickedIsIn(w, d, who);
        if kuc.Some? {
          SetChannelSuccession(w, kuc.value, VOID, spare, logged, k, c);
        }
      case BanOp(d, who, spare) =>
        if BanTarget(w, d, who).Some? {
          BanSuccession(w, BanTarget(w, d, who).value, who, spare, logged, k, c);
        }
      case Login(d, e, initial) =>
        LoginSuccession(w, d, e, initial, k, c);
      case ResignOp(d) => ResigningSuccession(w, d, k, c);
      case _ => OthersKeepOperators(w, op, logged, k);
    }
  }

  lemma KickedIsIn<K, C>(w: World<K, C>, d: C, who: string)
    requires d in w.conn
    ensures KickTarget(w, d, who).Some? ==> KickTarget(w, d, who).value in w.conn
  {
  }

  // ---------------------------------------------------------- where there was none

  lemma LeftCrownsNobody<K, C>(w: World<K, C>, d: C, k: K)
    requires ChansOk(w) && Linked(w) && d in w.conn && k in w.chan && w.chan[k].opr.None? && k in Left(w, d).chan
    ensures Left(w, d).chan[k].opr.None?
  {
  }

  /** Channel `k` has got an operator when `x` entered it: the designee who was waiting, else `x` itself if
      entitled. */
  ghost predicate CrownedOnEntering<K, C>(v: World<K, C>, b: World<K, C>, k: K, x: C)
    requires k in b.chan && x in v.conn
  {
    && x in b.conn && b.conn[x].at == Some(k)
    && if k in v.chan && v.chan[k].next.Some? then b.chan[k].opr == v.chan[k].next
       else b.chan[k].opr == Some(x) && MayLead(b.chan[k].info, v.conn[x], v.auth)
  }

  lemma NewChannelCrowns<K, C>(v: World<K, C>, d: C, info: Info, permanent: bool, k: K)
    requires ChansOk(v) && Linked(v) && k !in v.chan && d in v.conn && v.conn[d].at.None?
    ensures var b := Admitted(Created(v, k, info, permanent), k, d).0;
            k in b.chan && (b.chan[k].opr.Some? ==> CrownedOnEntering(v, b, k, d))
  {
    MayLeadIs<K>();
    hide Entitled, MayLead, Banned, Entered, ChanOk;
    CreatedLinks(v, k, info, permanent);
    var u := Created(v, k, info, permanent);
    EnteredOperator(u, k, d, k);
    EnteredEnters(u, k, d);
  }

  lemma SetChannelCrowns<K, C>(w: World<K, C>, d: C, name: string, spare: K, logged: bool, k: K)
    requires ChansOk(w) && Linked(w) && d in w.conn && spare !in w.chan && (k in w.chan ==> w.chan[k].opr.None?)
    ensures var b := SetChannel(w, d, Some(name), Some(spare), logged).0;
            k in b.chan && b.chan[k].opr.Some? ==> CrownedOnEntering(Left(w, d), b, k, d)
  {
    MayLeadIs<K>();
    var v, b := Left(w, d), SetChannel(w, d, Some(name), Some(spare), logged).0;
    LeftLinks(w, d);
    SetChannelKeys(w, d, name, spare, logged);
    if k in v.chan {
      LeftCrownsNobody(w, d, k);
      SetChannelHolds(w, d, name, spare, logged, k);
      hide Left, SetChannel, ChansOk, Linked, Entitled, MayLead;
      assert k in b.chan && b.chan[k].opr.Some? ==> CrownedOnEntering(v, b, k, d) by {
        HoldsInfo(w, d, name, spare, logged, k);
      }
    } else if k in b.chan {
      hide Left, ChansOk, Linked, Admitted, TargetOf, CrownedOnEntering;
      var t := TargetOf(v, v.conn[d], name, logged);
      if t.Made? {
        NewChannelCrowns(v, d, t.info, t.permanent, k);
      } else if t.Existing? && t.k in v.chan {
        AdmittedKeys(v, t.k, d);
      }
    }
  }

  lemma AdmittedKeys<K, C>(v: World<K, C>, l: K, d: C)
    requires ChansOk(v) && Linked(v) && l in v.chan && d in v.conn && v.conn[d].at.None?
    ensures Admitted(v, l, d).0.chan.Keys == v.chan.Keys
    ensures forall k | k in v.chan ::
              k in Admitted(v, l, d).0.chan && Admitted(v, l, d).0.chan[k].info == v.chan[k].info
  {
    hide Banned, Entered, ChanOk;
    EnteredEnters(v, l, d);
  }

  /** A channel's settings never change. */
  lemma HoldsInfo<K, C>(w: World<K, C>, d: C, name: string, spare: K, logged: bool, k: K)
    requires ChansOk(w) && Linked(w) && d in w.conn && spare !in w.chan && k in Left(w, d).chan
    ensures var b := SetChannel(w, d, Some(name), Some(spare), logged).0;
            k in b.chan && b.chan[k].info == Left(w, d).chan[k].info
  {
    hide Left, ChansOk, Linked, Admitted, TargetOf;
    var v := Left(w, d);
    LeftLinks(w, d);
    match TargetOf(v, v.conn[d], name, logged) {
      case Existing(l) =>
        if l in v.chan {
          AdmittedKeys(v, l, d);
        }
      case Made(info, permanent) =>
        CreatedLinks(v, spare, info, permanent);
        AdmittedKeys(Created(v, spare, info, permanent), spare, d);
      case Nothing =>
    }
  }

  lemma BanCrowns<K, C>(w: World<K, C>, l: K, dest: string, spare: K, logged: bool, k: K)
    requires Inv(w) && l in w.chan && spare !in w.chan && (k in w.chan ==> w.chan[k].opr.None?)
    ensures var b := BanFrom(w, l, dest, Some(spare), logged);
            k in b.chan && b.chan[k].opr.Some? ==>
              var buc := Expelled(w, l, dest);
              buc.Some? && buc.value in w.conn
              && CrownedOnEntering(Left(WithBanIn(w, l, dest), buc.value), b, k, buc.value)
  {
    hide Shape, ChansOk, Linked, NobodyBanned, NamesDistinct, AccountsOk, Occupied, FindConn, SetChannel, HasText,
         CrownedOnEntering, Left;
    BetweenBanAndExpulsion(w, l, dest);
    var v, buc := WithBanIn(w, l, dest), Expelled(w, l, dest);
    if buc.Some? {
      SetChannelCrowns(v, buc.value, VOID, spare, logged, k);
    }
  }

  lemma OthersCrownNobody<K, C>(w: World<K, C>, op: Op<K, C>, logged: bool, k: K)
    requires Inv(w) && Allowed(w, op) && !op.Join? && !op.KickOp? && !op.BanOp? && k in Step(w, op, logged).chan
    requires k in w.chan ==> w.chan[k].opr.None?
    ensures Step(w, op, logged).chan[k].opr.None?
  {
    hide Shape, NobodyBanned, NamesDistinct, AccountsOk, Occupied, FindConn, Left, Choose, ChanOk, WithoutText,
         HasGavel, IsAdmin;
    match op {
      case Leave(d) =>
        LeftLinks(w, d);
        LeftCrownsNobody(w, d, k);
      case Close(d) =>
        LeftLinks(w, d);
        LeftCrownsNobody(w, d, k);
      case Login(d, e, initial) =>
        var other := FindConn(w, e.name);
        if other.Some? && other.value in w.conn {
          LeftLinks(w, other.value);
          LeftCrownsNobody(w, other.value, k);
        }
      case _ =>
    }
  }

  /** A channel without an operator gets one only when somebody enters it: the designee who was waiting, else
      the newcomer if entitled; nobody else who is there, however entitled. */
  lemma CrownLaw<K, C>(w: World<K, C>, op: Op<K, C>, logged: bool, k: K)
    requires Inv(w) && Allowed(w, op) && (k in w.chan ==> w.chan[k].opr.None?)
    requires k in Step(w, op, logged).chan && Step(w, op, logged).chan[k].opr.Some?
    ensures var p := Placement(w, op);
            && p.Some? && p.value.1 in p.value.0.conn
            && CrownedOnEntering(Left(p.value.0, p.value.1), Step(w, op, logged), k, p.value.1)
  {
    hide Shape, ChansOk, Linked, NobodyBanned, NamesDistinct, AccountsOk, Occupied, FindConn, SetChannel, Left,
         BanTarget, Expelled, CrownedOnEntering, KickTarget;
    match op {
      case Join(d, name, spare) => SetChannelCrowns(w, d, name, spare, logged, k);
      case KickOp(d, who, spare) =>
        var kuc := KickTarget(w, d, who);
        KickedIsIn(w, d, who);
        if kuc.Some? {
          SetChannelCrowns(w, kuc.value, VOID, spare, logged, k);
        }
      case BanOp(d, who, spare) =>
        if BanTarget(w, d, who).Some? {
          BanCrowns(w, BanTarget(w, d, who).value, who, spare, logged, k);
        }
      case _ => OthersCrownNobody(w, op, logged, k);
    }
  }
}
