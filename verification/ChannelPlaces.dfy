/** Where a join by name leads, in terms of the channel list: which channel is entered, when a copy of a full one
    is made and what it is like, and who is kept out. */
module ChannelPlaces {
  import opened Lists
  import opened Text
  import opened Numbers
  import opened AccountIndex
  import opened ChannelModel
  import opened ChannelInvariant

  /** A channel of that short name for the country and realm of the connection. */
  ghost predicate IsLocal<K>(info: Info, c: Conn<K>, name: string) {
    && info.shortname.Some? && Fold(info.shortname.value) == Fold(name)
    && info.country == c.country && info.realm == c.realm
  }

  /** A channel a join by that name may end in: it has the full name, or the short name and the place of the
      connection, and then it must have room. */
  ghost predicate Suits<K, C>(ch: Chan<C>, c: Conn<K>, name: string) {
    || Fold(ch.info.name) == Fold(name)
    || (IsLocal(ch.info, c, name) && (ch.info.limit < 0 || ch.count < ch.info.limit))
  }

  /** Channel `i` of the list suits and none before it does. */
  ghost predicate FirstThatSuits<K, C>(w: World<K, C>, c: Conn<K>, name: string, i: nat) {
    && i < |w.channels| && w.channels[i] in w.chan && Suits(w.chan[w.channels[i]], c, name)
    && forall j | 0 <= j < i :: w.channels[j] in w.chan ==> !Suits(w.chan[w.channels[j]], c, name)
  }

  ghost predicate NothingSuits<K, C>(w: World<K, C>, c: Conn<K>, name: string) {
    forall k | k in w.channels :: k in w.chan ==> !Suits(w.chan[k], c, name)
  }

  /** Channel `i` of the list has the short name and none behind it has. */
  ghost predicate LastOfShortName<K, C>(w: World<K, C>, name: string, i: nat) {
    && i < |w.channels| && w.channels[i] in w.chan && HasShortName(w.chan[w.channels[i]].info, name)
    && forall j | i < j < |w.channels| ::
         w.channels[j] in w.chan ==> !HasShortName(w.chan[w.channels[j]].info, name)
  }

  ghost predicate HasShortName(info: Info, name: string) {
    info.shortname.Some? && Fold(info.shortname.value) == Fold(name)
  }

  /** The channels of that short name and place. */
  ghost function Locals<K, C>(w: World<K, C>, c: Conn<K>, name: string): set<K> {
    set k | k in w.channels && k in w.chan && IsLocal(w.chan[k].info, c, name)
  }

  /** What copying `of` for the connection makes: everything but place and name is copied, the place is the
      connection's as far as it has one, and the name is made of realm, short name, country and the number. */
  ghost predicate CopiedFor<K>(info: Info, of: Info, c: Conn<K>, n: nat) {
    && info.shortname == of.shortname && info.shortname.Some? && info.tag == of.tag && info.limit == of.limit
    && info.allowBots == of.allowBots && info.allowOpers == of.allowOpers && info.logged == of.logged
    && info.country == (if c.country.Some? then c.country else of.country)
    && info.realm == (if c.realm.Some? then c.realm else of.realm)
    && info.name == (if info.realm.Some? then info.realm.value + " " else "") + info.shortname.value +
                    (if info.country.Some? then " " + info.country.value else "") + "-" + Decimal(n)
  }

  /** What a join by that name copies when nothing suits: the last channel of the short name, numbered one more than
      there are channels of that short name and place. */
  ghost predicate IsCopy<K, C>(w: World<K, C>, c: Conn<K>, name: string, info: Info) {
    exists i: nat ::
      LastOfShortName(w, name, i) && CopiedFor(info, w.chan[w.channels[i]].info, c, |Locals(w, c, name)| + 1)
  }

  /** The names and tag that a channel can be made with. */
  ghost predicate Acceptable(info: Info) {
    |info.name| > 0 && (info.shortname == Some("") ==> false) && (info.tag.Some? ==> |info.tag.value| == 4)
  }

  /** Who is let in: no bot where bots are kept out, and nobody whose account an entry of the ban list means. */
  ghost predicate MayEnter<K, C>(ch: Chan<C>, c: Conn<K>) {
    && (c.bot ==> ch.info.allowBots)
    && (c.account.Some? ==> forall text | text in ch.bans :: !Denotes(text, c.account.value))
  }

  // --------------------------------------------------------------- the traversal

  lemma SuitsIs<K, C>(ch: Chan<C>, c: Conn<K>, name: string)
    ensures Suits(ch, c, name) <==>
            SameText(ch.info.name, name)
            || (ShortMatch(ch.info, name) && SamePlace(ch.info, c.country, c.realm) && HasRoom(ch))
    ensures IsLocal(ch.info, c, name) <==> ShortMatch(ch.info, name) && SamePlace(ch.info, c.country, c.realm)
    ensures HasShortName(ch.info, name) <==> ShortMatch(ch.info, name)
  {
    hide Fold;
  }

  /** What the traversal finds from place `i` on, with `full` channels counted and `template` kept so far. */
  ghost predicate ScanFinds<K, C>(w: World<K, C>, c: Conn<K>, name: string, i: nat, full: nat, template: Option<Info>,
                                  r: Scan<K>)
    requires i <= |w.channels| && forall k | k in w.channels :: k in w.chan
  {
    match r
    case Hit(k) =>
      exists j | i <= j < |w.channels| ::
        && w.channels[j] == k && Suits(w.chan[k], c, name)
        && forall m | i <= m < j :: !Suits(w.chan[w.channels[m]], c, name)
    case End(n, t) =>
      && (forall m | i <= m < |w.channels| :: !Suits(w.chan[w.channels[m]], c, name))
      && n == full + |LocalsFrom(w, c, name, i)|
      && (if forall m | i <= m < |w.channels| :: !HasShortName(w.chan[w.channels[m]].info, name) then t == template
          else
            exists j | i <= j < |w.channels| ::
              && HasShortName(w.chan[w.channels[j]].info, name)
              && (forall m | j < m < |w.channels| :: !HasShortName(w.chan[w.channels[m]].info, name))
              && t == Some(Template(w.chan[w.channels[j]].info, c.country, c.realm)))
  }

  ghost function LocalsFrom<K, C>(w: World<K, C>, c: Conn<K>, name: string, i: nat): set<K>
    requires i <= |w.channels| && forall k | k in w.channels :: k in w.chan
  {
    set m | i <= m < |w.channels| && IsLocal(w.chan[w.channels[m]].info, c, name) :: w.channels[m]
  }

  lemma LocalsOneMore<K, C>(w: World<K, C>, c: Conn<K>, name: string, i: nat)
    requires i < |w.channels| && NoRepeat(w.channels) && forall k | k in w.channels :: k in w.chan
    ensures |LocalsFrom(w, c, name, i)| ==
            |LocalsFrom(w, c, name, i + 1)| + if IsLocal(w.chan[w.channels[i]].info, c, name) then 1 else 0
  {
    hide IsLocal;
    var k := w.channels[i];
    assert k !in LocalsFrom(w, c, name, i + 1);
    if IsLocal(w.chan[k].info, c, name) {
      assert LocalsFrom(w, c, name, i) == LocalsFrom(w, c, name, i + 1) + {k};
    } else {
      assert LocalsFrom(w, c, name, i) == LocalsFrom(w, c, name, i + 1);
    }
  }

  lemma {:induction false} ScanLaw<K, C>(w: World<K, C>, c: Conn<K>, name: string, i: nat, full: nat,
                                         template: Option<Info>)
    requires i <= |w.channels| && NoRepeat(w.channels) && forall k | k in w.channels :: k in w.chan
    ensures ScanFinds(w, c, name, i, full, template,
                      ScanFrom(w.chan, w.channels[i..], name, c.country, c.realm, full, template))
    decreases |w.channels| - i
  {
    hide Suits, IsLocal, HasShortName, SameText, ShortMatch, SamePlace, HasRoom, Template, NoRepeat, LocalsFrom;
    if i == |w.channels| {
      NoLocals(w, c, name);
    } else {
      var ch := w.chan[w.channels[i]];
      SuitsIs(ch, c, name);
      LocalsOneMore(w, c, name, i);
      assert w.channels[i..][1..] == w.channels[i + 1..];
      var local := full + if SamePlace(ch.info, c.country, c.realm) then 1 else 0;
      var kept := Some(Template(ch.info, c.country, c.realm));
      if !Suits(ch, c, name) {
        if ShortMatch(ch.info, name) {
          ScanLaw(w, c, name, i + 1, local, kept);
        } else {
          ScanLaw(w, c, name, i + 1, full, template);
        }
      }
    }
  }

  lemma NoLocals<K, C>(w: World<K, C>, c: Conn<K>, name: string)
    requires forall k | k in w.channels :: k in w.chan
    ensures LocalsFrom(w, c, name, |w.channels|) == {}
  {
  }

  // --------------------------------------------------------------- the outcome

  /** The join made a channel of that name for itself. */
  ghost predicate OnItsOwn<K, C>(v: World<K, C>, b: World<K, C>, c: C, name: string, spare: K, logged: bool)
    requires c in b.conn
  {
    if name == "" then b.channels == v.channels && b.conn[c].at == None
    else
      && b.channels == [spare] + v.channels && spare in b.chan && b.conn[c].at == Some(spare)
      && b.chan[spare].info == Info(name, Some(name), None, None, None, true, true, logged, -1)
      && !b.chan[spare].permanent
  }

  /** The join made a copy `info`, and entered it unless it keeps bots out. */
  ghost predicate IntoCopy<K, C>(v: World<K, C>, b: World<K, C>, c: C, info: Info, spare: K)
    requires c in b.conn && c in v.conn
  {
    && b.channels == [spare] + v.channels && spare in b.chan && b.chan[spare].info == info && b.chan[spare].permanent
    && b.conn[c].at == if v.conn[c].bot && !info.allowBots then None else Some(spare)
  }

  /** A name nobody has, in whatever case. */
  ghost predicate NameFree<K, C>(v: World<K, C>, name: string) {
    forall k | k in v.channels :: k in v.chan ==> Fold(v.chan[k].info.name) != Fold(name)
  }

  lemma AdmittedAt<K, C>(v: World<K, C>, k: K, c: C)
    requires ChansOk(v) && Linked(v) && k in v.chan && c in v.conn && v.conn[c].at.None?
    ensures var b := Admitted(v, k, c).0;
            && b.channels == v.channels && c in b.conn
            && b.conn[c].at == (if MayEnter(v.chan[k], v.conn[c]) then Some(k) else None)
            && k in b.chan && b.chan[k].info == v.chan[k].info && b.chan[k].permanent == v.chan[k].permanent
  {
    hide Entered, Denotes, ChanOk;
    EnteredEnters(v, k, c);
    MayEnterIs(v.chan[k], v.conn[c]);
  }

  lemma MayEnterIs<K, C>(ch: Chan<C>, c: Conn<K>)
    ensures MayEnter(ch, c) <==> !Banned(ch, c)
  {
    hide Denotes;
    if c.account.Some? {
      if i :| 0 <= i < |ch.bans| && Denotes(ch.bans[i], c.account.value) {
        assert ch.bans[i] in ch.bans;
      }
    }
  }

  lemma CreatedAt<K, C>(v: World<K, C>, spare: K, info: Info, permanent: bool, c: C)
    requires ChansOk(v) && Linked(v) && spare !in v.chan && c in v.conn && v.conn[c].at.None?
    ensures var b := Admitted(Created(v, spare, info, permanent), spare, c).0;
            && b.channels == [spare] + v.channels && c in b.conn && spare in b.chan
            && b.chan[spare].info == info && b.chan[spare].permanent == permanent
            && b.conn[c].at == if v.conn[c].bot && !info.allowBots then None else Some(spare)
  {
    hide Admitted, ChansOk, Linked;
    CreatedLinks(v, spare, info, permanent);
    AdmittedAt(Created(v, spare, info, permanent), spare, c);
  }

  lemma CopyIs<K>(of: Info, c: Conn<K>, n: nat)
    requires of.shortname.Some?
    ensures var t := Template(of, c.country, c.realm);
            CopiedFor(t.(name := FormatName(t, n)), of, c, n)
    ensures forall info | CopiedFor(info, of, c, n) ::
              info == Template(of, c.country, c.realm).(name := FormatName(Template(of, c.country, c.realm), n))
  {
    hide Decimal;
  }

  lemma AcceptableIs(info: Info)
    ensures Acceptable(info) <==> Creatable(info)
  {
  }

  lemma NameFreeIs<K, C>(v: World<K, C>, name: string)
    ensures NameFree(v, name) <==> !NameTaken(v.chan, v.channels, name)
  {
    hide Fold;
    if NameTaken(v.chan, v.channels, name) {
      var i :| 0 <= i < |v.channels| && v.channels[i] in v.chan && SameText(v.chan[v.channels[i]].info.name, name);
      assert v.channels[i] in v.channels;
    }
  }

  /** A join by name enters the first listed channel that suits, if that lets the connection in, and else none;
      the list stays as it is. `v` is the state in which the connection has left its channel. */
  lemma EntersFirst<K, C>(w: World<K, C>, c: C, name: string, spare: K, logged: bool, i: nat)
    requires Inv(w) && c in w.conn && spare !in w.chan
    requires FirstThatSuits(Left(w, c), Left(w, c).conn[c], name, i)
    ensures var v, b := Left(w, c), SetChannel(w, c, Some(name), Some(spare), logged).0;
            && c in b.conn && b.channels == v.channels
            && b.conn[c].at ==
               if MayEnter(v.chan[v.channels[i]], v.conn[c]) then Some(v.channels[i]) else None
  {
    KnowScan(w, c, name);
    HitLaw(Left(w, c), Left(w, c).conn[c], name, logged, i);
    InvIsShape(w);
    AfterTarget(w, c, name, spare, logged);
    hide Inv, Left, TargetOf, MayEnter, SetChannel, IntoCopy, OnItsOwn, OwnTarget, ScanFinds;
  }

  /** If no listed channel suits but some have the short name, a copy of the last of those is made, provided it can
      be made and its name is free; else the connection gets a channel of its own. */
  lemma MakesCopy<K, C>(w: World<K, C>, c: C, name: string, spare: K, logged: bool, info: Info)
    requires Inv(w) && c in w.conn && spare !in w.chan
    requires NothingSuits(Left(w, c), Left(w, c).conn[c], name) && IsCopy(Left(w, c), Left(w, c).conn[c], name, info)
    ensures var v, b := Left(w, c), SetChannel(w, c, Some(name), Some(spare), logged).0;
            && c in b.conn
            && if Acceptable(info) && NameFree(v, info.name) then IntoCopy(v, b, c, info, spare)
               else OnItsOwn(v, b, c, name, spare, logged)
  {
    KnowScan(w, c, name);
    CopyLaw(Left(w, c), Left(w, c).conn[c], name, logged, info);
    InvIsShape(w);
    AfterTarget(w, c, name, spare, logged);
    hide Inv, Left, TargetOf, IsCopy, Acceptable, NameFree, MayEnter, SetChannel, IntoCopy, OnItsOwn, OwnTarget,
         NothingSuits, ScanFinds;
  }

  /** If no listed channel suits and none has the short name, the connection gets a channel of its own. */
  lemma MakesOwn<K, C>(w: World<K, C>, c: C, name: string, spare: K, logged: bool)
    requires Inv(w) && c in w.conn && spare !in w.chan
    requires NothingSuits(Left(w, c), Left(w, c).conn[c], name) && NoneOfShortName(Left(w, c), name)
    ensures var v, b := Left(w, c), SetChannel(w, c, Some(name), Some(spare), logged).0;
            c in b.conn && OnItsOwn(v, b, c, name, spare, logged)
  {
    KnowScan(w, c, name);
    OwnLaw(Left(w, c), Left(w, c).conn[c], name, logged);
    InvIsShape(w);
    AfterTarget(w, c, name, spare, logged);
    hide Inv, Left, TargetOf, MayEnter, SetChannel, IntoCopy, OnItsOwn, OwnTarget, NothingSuits, NoneOfShortName,
         ScanFinds;
  }

  ghost predicate NoneOfShortName<K, C>(v: World<K, C>, name: string) {
    forall k | k in v.channels :: k in v.chan ==> !HasShortName(v.chan[k].info, name)
  }

  /** One of the three is the case, and if it is the second there is exactly one such copy. */
  lemma CasesAreComplete<K, C>(v: World<K, C>, d: Conn<K>, name: string)
    requires Shape(v)
    ensures (exists i: nat :: FirstThatSuits(v, d, name, i)) <==> !NothingSuits(v, d, name)
    ensures (exists info :: IsCopy(v, d, name, info)) <==> !NoneOfShortName(v, name)
    ensures forall a, b | IsCopy(v, d, name, a) && IsCopy(v, d, name, b) :: a == b
  {
    hide Suits, HasShortName, Locals, Template, FormatName, CopiedFor;
    if !NothingSuits(v, d, name) {
      var k :| k in v.channels && k in v.chan && Suits(v.chan[k], d, name);
      var n :| 0 <= n < |v.channels| && v.channels[n] == k;
      var i := FirstSuiting(v, d, name, n);
    }
    if !NoneOfShortName(v, name) {
      var k :| k in v.channels && k in v.chan && HasShortName(v.chan[k].info, name);
      var n :| 0 <= n < |v.channels| && v.channels[n] == k;
      var i := LastShort(v, name, n);
      var of := v.chan[v.channels[i]].info;
      ShortIsThere(of, name);
      CopyIs(of, d, |Locals(v, d, name)| + 1);
      TemplateHasShort(of, d);
      var copy := Template(of, d.country, d.realm);
      assert IsCopy(v, d, name, copy.(name := FormatName(copy, |Locals(v, d, name)| + 1)));
    }
    forall a, b | IsCopy(v, d, name, a) && IsCopy(v, d, name, b)
      ensures a == b
    {
      OneCopy(v, d, name, a, b);
    }
  }

  lemma OneCopy<K, C>(v: World<K, C>, d: Conn<K>, name: string, a: Info, b: Info)
    requires IsCopy(v, d, name, a) && IsCopy(v, d, name, b)
    ensures a == b
  {
    hide HasShortName, Locals, Template, FormatName, CopiedFor;
    var n := |Locals(v, d, name)| + 1;
    var i: nat :| LastOfShortName(v, name, i) && CopiedFor(a, v.chan[v.channels[i]].info, d, n);
    var j: nat :| LastOfShortName(v, name, j) && CopiedFor(b, v.chan[v.channels[j]].info, d, n);
    assert i == j;
    var of := v.chan[v.channels[i]].info;
    ShortIsThere(of, name);
    CopyIs(of, d, n);
  }

  lemma ShortIsThere(info: Info, name: string)
    requires HasShortName(info, name)
    ensures info.shortname.Some?
  {
  }

  lemma {:induction false} FirstSuiting<K, C>(v: World<K, C>, d: Conn<K>, name: string, n: nat) returns (i: nat)
    requires Shape(v) && n < |v.channels| && v.channels[n] in v.chan && Suits(v.chan[v.channels[n]], d, name)
    ensures FirstThatSuits(v, d, name, i)
  {
    hide Suits;
    if j: nat :| j < n && v.channels[j] in v.chan && Suits(v.chan[v.channels[j]], d, name) {
      i := FirstSuiting(v, d, name, j);
    } else {
      i := n;
    }
  }

  lemma {:induction false} LastShort<K, C>(v: World<K, C>, name: string, n: nat) returns (i: nat)
    requires Shape(v) && n < |v.channels| && v.channels[n] in v.chan
    requires HasShortName(v.chan[v.channels[n]].info, name)
    ensures LastOfShortName(v, name, i)
    decreases |v.channels| - n
  {
    hide HasShortName;
    if j: nat :| n < j < |v.channels| && v.channels[j] in v.chan && HasShortName(v.chan[v.channels[j]].info, name) {
      i := LastShort(v, name, j);
    } else {
      i := n;
    }
  }

  lemma KnowScan<K, C>(w: World<K, C>, c: C, name: string)
    requires Inv(w) && c in w.conn
    ensures var v, d := Left(w, c), Left(w, c).conn[c];
            && NoRepeat(v.channels) && (forall k | k in v.channels :: k in v.chan)
            && ScanFinds(v, d, name, 0, 0, None, ScanFrom(v.chan, v.channels, name, d.country, d.realm, 0, None))
  {
    LeaveKeepsInv(w, c);
    InvIsShape(Left(w, c));
    hide Inv, Left;
    var v := Left(w, c);
    AllListed(v);
    hide Shape;
    ScanLaw(v, v.conn[c], name, 0, 0, None);
    assert v.channels[0..] == v.channels;
  }

  lemma InvIsShape<K, C>(w: World<K, C>)
    requires Inv(w)
    ensures Shape(w) && ChansOk(w) && Linked(w)
  {
  }

  /** What becomes of the state once it is known which channel the join is after. */
  lemma AfterTarget<K, C>(w: World<K, C>, c: C, name: string, spare: K, logged: bool)
    requires ChansOk(w) && Linked(w) && c in w.conn && spare !in w.chan
    ensures var v, b := Left(w, c), SetChannel(w, c, Some(name), Some(spare), logged).0;
            var t := TargetOf(v, v.conn[c], name, logged);
            && c in b.conn
            && (t.Existing? && t.k in v.chan ==>
                  && b.channels == v.channels
                  && b.conn[c].at == if MayEnter(v.chan[t.k], v.conn[c]) then Some(t.k) else None)
            && (t.Made? && t.permanent ==> IntoCopy(v, b, c, t.info, spare))
            && (t == OwnTarget(name, logged) ==> OnItsOwn(v, b, c, name, spare, logged))
  {
    LeftLinks(w, c);
    var v := Left(w, c);
    hide Left, TargetOf, Admitted, Created, ChansOk, Linked, MayEnter;
    match TargetOf(v, v.conn[c], name, logged) {
      case Existing(k) =>
        if k in v.chan {
          AdmittedAt(v, k, c);
        }
      case Made(info, permanent) => CreatedAt(v, spare, info, permanent, c);
      case Nothing =>
    }
  }

  function OwnTarget<K>(name: string, logged: bool): Target<K> {
    if name == "" then Nothing else Made(Info(name, Some(name), None, None, None, true, true, logged, -1), false)
  }

  lemma AllListed<K, C>(v: World<K, C>)
    requires Shape(v)
    ensures NoRepeat(v.channels) && forall k | k in v.channels :: k in v.chan
  {
  }

  lemma HitLaw<K, C>(v: World<K, C>, d: Conn<K>, name: string, logged: bool, i: nat)
    requires NoRepeat(v.channels) && forall k | k in v.channels :: k in v.chan
    requires ScanFinds(v, d, name, 0, 0, None, ScanFrom(v.chan, v.channels, name, d.country, d.realm, 0, None))
    requires FirstThatSuits(v, d, name, i)
    ensures TargetOf(v, d, name, logged) == Existing(v.channels[i])
  {
    hide Suits, HasShortName, IsLocal, ScanFrom, Creatable, NameTaken, FormatName;
    match ScanFrom(v.chan, v.channels, name, d.country, d.realm, 0, None) {
      case Hit(k) =>
        var j :| 0 <= j < |v.channels| && v.channels[j] == k && Suits(v.chan[k], d, name)
                 && forall m | 0 <= m < j :: !Suits(v.chan[v.channels[m]], d, name);
        assert i == j;
      case End(_, _) =>
    }
  }

  lemma OwnLaw<K, C>(v: World<K, C>, d: Conn<K>, name: string, logged: bool)
    requires NoRepeat(v.channels) && forall k | k in v.channels :: k in v.chan
    requires ScanFinds(v, d, name, 0, 0, None, ScanFrom(v.chan, v.channels, name, d.country, d.realm, 0, None))
    requires NothingSuits(v, d, name)
    requires NoneOfShortName(v, name)
    ensures TargetOf(v, d, name, logged) == OwnTarget(name, logged)
  {
    hide Suits, HasShortName, IsLocal, ScanFrom, NameTaken, FormatName;
  }

  lemma CopyLaw<K, C>(v: World<K, C>, d: Conn<K>, name: string, logged: bool, info: Info)
    requires NoRepeat(v.channels) && forall k | k in v.channels :: k in v.chan
    requires ScanFinds(v, d, name, 0, 0, None, ScanFrom(v.chan, v.channels, name, d.country, d.realm, 0, None))
    requires NothingSuits(v, d, name) && IsCopy(v, d, name, info)
    ensures TargetOf(v, d, name, logged) ==
            if Acceptable(info) && NameFree(v, info.name) then Made(info, true) else OwnTarget(name, logged)
  {
    hide Suits, HasShortName, IsLocal, ScanFrom, NameTaken, FormatName, CopiedFor, Acceptable, NameFree, Template,
         Creatable, TemporaryInfo, OwnTarget, Fold;
    LocalsAreAll(v, d, name);
    var i: nat :| LastOfShortName(v, name, i)
                  && CopiedFor(info, v.chan[v.channels[i]].info, d, |Locals(v, d, name)| + 1);
    var of := v.chan[v.channels[i]].info;
    EndsWith(v, d, name, i);
    ShortIsThere(of, name);
    CopyIs(of, d, |Locals(v, d, name)| + 1);
    TemplateHasShort(of, d);
    AcceptableIs(info);
    NameFreeIs(v, info.name);
    OwnIsTemporary<K>(name, logged);
    hide ScanFinds, LastOfShortName, NothingSuits;
  }

  lemma EndsWith<K, C>(v: World<K, C>, d: Conn<K>, name: string, i: nat)
    requires forall k | k in v.channels :: k in v.chan
    requires ScanFinds(v, d, name, 0, 0, None, ScanFrom(v.chan, v.channels, name, d.country, d.realm, 0, None))
    requires NothingSuits(v, d, name) && LastOfShortName(v, name, i)
    ensures ScanFrom(v.chan, v.channels, name, d.country, d.realm, 0, None) ==
            End(|LocalsFrom(v, d, name, 0)|, Some(Template(v.chan[v.channels[i]].info, d.country, d.realm)))
  {
    hide Suits, HasShortName, ScanFrom, Template, LocalsFrom;
    match ScanFrom(v.chan, v.channels, name, d.country, d.realm, 0, None) {
      case Hit(_) =>
      case End(n, t) =>
        var j :| 0 <= j < |v.channels| && HasShortName(v.chan[v.channels[j]].info, name)
                 && (forall m | j < m < |v.channels| :: !HasShortName(v.chan[v.channels[m]].info, name))
                 && t == Some(Template(v.chan[v.channels[j]].info, d.country, d.realm));
        assert i == j;
    }
  }

  lemma TemplateHasShort<K>(of: Info, d: Conn<K>)
    requires of.shortname.Some?
    ensures Template(of, d.country, d.realm).shortname == of.shortname
  {
  }

  lemma OwnIsTemporary<K>(name: string, logged: bool)
    ensures OwnTarget<K>(name, logged) ==
            if Creatable(TemporaryInfo(name, logged)) then Made(TemporaryInfo(name, logged), false) else Nothing
  {
  }

  lemma LocalsAreAll<K, C>(v: World<K, C>, d: Conn<K>, name: string)
    requires forall k | k in v.channels :: k in v.chan
    ensures Locals(v, d, name) == LocalsFrom(v, d, name, 0)
  {
    hide IsLocal;
    forall k | k in Locals(v, d, name)
      ensures k in LocalsFrom(v, d, name, 0)
    {
      var m :| 0 <= m < |v.channels| && v.channels[m] == k;
    }
  }
}
