/** What holds of channels, connections and bans in every reachable state. */
module ChannelInvariant {
  import opened Lists
  import opened Text
  import opened AccountIndex
  import opened ChannelModel

  /** The oldest member that the loop would take: everyone older is passed over. */
  lemma {:induction false} OldestIsOldest<K, C>(ch: Chan<C>, conn: map<C, Conn<K>>, auth: map<Entry, Auth>,
                                                tryop: Option<C>, members: seq<C>)
    ensures var r := Oldest(ch, conn, auth, tryop, members);
            if r.None? then forall i | 0 <= i < |members| :: !Candidate(ch, conn, auth, tryop, members[i])
            else exists i | 0 <= i < |members| ::
                   && members[i] == r.value && Candidate(ch, conn, auth, tryop, members[i])
                   && forall j | i < j < |members| :: !Candidate(ch, conn, auth, tryop, members[j])
  {
    hide Candidate;
    if members != [] {
      var last := |members| - 1;
      OldestIsOldest(ch, conn, auth, tryop, members[..last]);
      var r := Oldest(ch, conn, auth, tryop, members[..last]);
      if !Candidate(ch, conn, auth, tryop, members[last]) && r.Some? {
        var i :| 0 <= i < last && members[..last][i] == r.value && Candidate(ch, conn, auth, tryop, members[..last][i])
                 && forall j | i < j < last :: !Candidate(ch, conn, auth, tryop, members[..last][j]);
        assert forall j | i < j < last :: members[..last][j] == members[j];
        assert members[i] == r.value;
      }
    }
  }

  // --------------------------------------------------------------- invariant

  ghost predicate Shape<K, C>(w: World<K, C>) {
    && NoRepeat(w.channels) && w.chan.Keys == (set k | k in w.channels)
    && NoRepeat(w.conns) && w.conn.Keys == (set c | c in w.conns)
  }

  ghost predicate DistinctTexts(s: seq<string>) {
    forall i, j | 0 <= i < j < |s| :: !SameText(s[i], s[j])
  }

  ghost predicate IsMember<C>(ch: Chan<C>, c: Option<C>) {
    c.Some? ==> c.value in ch.members
  }

  /** A channel on its own: no member twice, the count exact, both roles held by members and never
      by one and the same, no ban twice. */
  ghost predicate ChanOk<C>(ch: Chan<C>) {
    && NoRepeat(ch.members) && ch.count == |ch.members|
    && IsMember(ch, ch.opr) && IsMember(ch, ch.next)
    && (ch.opr.Some? ==> ch.opr != ch.next)
    && DistinctTexts(ch.bans)
  }

  ghost predicate ChansOk<K, C>(w: World<K, C>) {
    forall k | k in w.chan :: ChanOk(w.chan[k])
  }

  /** A connection's channel field and the member lists agree in both directions. */
  ghost predicate Linked<K, C>(w: World<K, C>) {
    && (forall k, c | k in w.chan && c in w.chan[k].members :: c in w.conn && w.conn[c].at == Some(k))
    && (forall c | c in w.conn && w.conn[c].at.Some? ::
          w.conn[c].at.value in w.chan && c in w.chan[w.conn[c].at.value].members)
  }

  ghost predicate Occupied<K, C>(w: World<K, C>) {
    forall k | k in w.chan :: w.chan[k].permanent || w.chan[k].members != []
  }

  /** No channel has a member that its own rules keep out. */
  ghost predicate NobodyBanned<K, C>(w: World<K, C>) {
    forall k, c | k in w.chan && c in w.chan[k].members && c in w.conn :: !Banned(w.chan[k], w.conn[c])
  }

  ghost predicate NamesDistinct<K, C>(w: World<K, C>) {
    forall k, l | k in w.chan && l in w.chan && k != l :: !SameText(w.chan[k].info.name, w.chan[l].info.name)
  }

  /** Accounts are distinct, connections only use listed ones, and no account is in use twice. */
  ghost predicate AccountsOk<K, C>(w: World<K, C>) {
    && Unique(set e | e in w.accounts)
    && (forall c | c in w.conn && w.conn[c].account.Some? :: w.conn[c].account.value in w.accounts)
    && (forall c, d | c in w.conn && d in w.conn && c != d && w.conn[c].account.Some? ::
          w.conn[c].account != w.conn[d].account)
  }

  ghost predicate Core<K, C>(w: World<K, C>) {
    Shape(w) && ChansOk(w) && Linked(w) && NobodyBanned(w) && NamesDistinct(w) && AccountsOk(w)
  }

  ghost predicate Inv<K, C>(w: World<K, C>) {
    Core(w) && Occupied(w)
  }

  // --------------------------------------------------- electing an operator

  /** Connections that differ in the operator flag only. */
  ghost predicate OnlyFlags<K, C>(a: map<C, Conn<K>>, b: map<C, Conn<K>>) {
    a.Keys == b.Keys && forall c | c in a :: b[c] == a[c].(gavel := b[c].gavel)
  }

  lemma ChooseKeeps<K, C>(ch: Chan<C>, conn: map<C, Conn<K>>, auth: map<Entry, Auth>, tryop: Option<C>)
    requires IsMember(ch, ch.next) && NoRepeat(ch.members) && ch.count == |ch.members| && DistinctTexts(ch.bans)
    requires ch.opr.Some? && ch.opr.value !in ch.members ==> tryop.None?
    ensures var (ch', conn') := Choose(ch, conn, auth, tryop);
            ChanOk(ch') && OnlyFlags(conn, conn') && ch' == ch.(opr := ch'.opr, next := None)
  {
    hide Chosen, Flagged, DistinctTexts, OnlyFlags;
    ChosenIsMember(ch, conn, auth, tryop);
    OnlyFlagsMoved(conn, ch.opr, Choose(ch, conn, auth, tryop).0.opr);
  }

  lemma ChosenIsMember<K, C>(ch: Chan<C>, conn: map<C, Conn<K>>, auth: map<Entry, Auth>, tryop: Option<C>)
    requires IsMember(ch, ch.next)
    ensures Chosen(ch, conn, auth, tryop) == ch.opr || IsMember(ch, Chosen(ch, conn, auth, tryop))
  {
    hide Candidate;
    OldestIsOldest(ch, conn, auth, tryop, ch.members);
  }

  lemma OnlyFlagsMoved<K, C>(conn: map<C, Conn<K>>, oldop: Option<C>, newop: Option<C>)
    ensures OnlyFlags(conn, conn) && OnlyFlags(conn, Flagged(Flagged(conn, oldop, false), newop, true))
  {
  }

  // -------------------------------------------------- the three primitive moves

  lemma PartedKeeps<K, C>(ch: Chan<C>, conn: map<C, Conn<K>>, auth: map<Entry, Auth>, c: C)
    requires ChanOk(ch) && c in ch.members
    ensures var (ch', conn') := Parted(ch, conn, auth, c);
            && ChanOk(ch') && OnlyFlags(conn, conn')
            && ch'.members == Without(ch.members, c) && c !in ch'.members
            && ch'.info == ch.info && ch'.permanent == ch.permanent && ch'.bans == ch.bans
  {
    hide Choose;
    WithoutNoRepeat(ch.members, c);
    var rest := ch.(members := Without(ch.members, c), count := ch.count - 1,
                    next := if ch.next == Some(c) then None else ch.next);
    if ch.opr == Some(c) {
      ChooseKeeps(rest, conn, auth, None);
    }
  }

  /** `b` is `a` after `c` left channel `k`, seen from outside: that channel loses `c`, or goes away
      if `c` was all it had; nothing else moves. */
  ghost predicate Leaves<K, C>(a: World<K, C>, b: World<K, C>, c: C, k: K) {
    && b.conn.Keys == a.conn.Keys && b.conns == a.conns && b.accounts == a.accounts && b.auth == a.auth
    && k in a.chan && c in a.conn && b.conn[c].at == None
    && (forall d | d in a.conn :: b.conn[d] == a.conn[d].(gavel := b.conn[d].gavel, at := b.conn[d].at))
    && (forall d | d in a.conn && d != c :: b.conn[d].at == a.conn[d].at)
    && (forall l | l in a.chan && l != k :: l in b.chan && b.chan[l] == a.chan[l])
    && (if k in b.chan then
          && b.chan.Keys == a.chan.Keys && b.channels == a.channels
          && ChanOk(b.chan[k]) && b.chan[k].members == Without(a.chan[k].members, c)
          && c !in b.chan[k].members
          && b.chan[k].info == a.chan[k].info && b.chan[k].permanent == a.chan[k].permanent
          && b.chan[k].bans == a.chan[k].bans
          && (b.chan[k].permanent || b.chan[k].members != [])
        else
          && b.chan.Keys == a.chan.Keys - {k} && b.channels == Without(a.channels, k)
          && !a.chan[k].permanent
          && forall d | d in a.chan[k].members :: d == c)
  }

  lemma LeftLeaves<K, C>(w: World<K, C>, c: C)
    requires ChansOk(w) && Linked(w) && c in w.conn && w.conn[c].at.Some?
    ensures w.conn[c].at.value in w.chan && Leaves(w, Left(w, c), c, w.conn[c].at.value)
  {
    hide Parted, ChanOk;
    PartedKeeps(w.chan[w.conn[c].at.value], w.conn, w.auth, c);
  }

  lemma LeavesKeepsShape<K, C>(a: World<K, C>, b: World<K, C>, c: C, k: K)
    requires Shape(a) && Leaves(a, b, c, k)
    ensures Shape(b)
  {
    hide ChanOk;
    WithoutNoRepeat(a.channels, k);
  }

  lemma LeavesKeepsLinks<K, C>(a: World<K, C>, b: World<K, C>, c: C, k: K)
    requires Linked(a) && Leaves(a, b, c, k) && a.conn[c].at == Some(k)
    ensures Linked(b)
  {
    hide ChanOk, Without;
    forall d | d in b.conn && b.conn[d].at.Some?
      ensures b.conn[d].at.value in b.chan && d in b.chan[b.conn[d].at.value].members
    {
      assert d != c && d in a.chan[a.conn[d].at.value].members;
    }
  }

  lemma LeavesKeepsRest<K, C>(a: World<K, C>, b: World<K, C>, c: C, k: K)
    requires Leaves(a, b, c, k)
    ensures ChansOk(a) ==> ChansOk(b)
    ensures NamesDistinct(a) ==> NamesDistinct(b)
    ensures AccountsOk(a) ==> AccountsOk(b)
    ensures Occupied(a) ==> Occupied(b)
  {
    hide ChanOk;
  }

  lemma LeavesKeepsBans<K, C>(a: World<K, C>, b: World<K, C>, c: C, k: K)
    requires Linked(a) && Leaves(a, b, c, k) && a.conn[c].at == Some(k) && NobodyElseBanned(a, c)
    ensures NobodyBanned(b)
  {
    hide ChanOk;
    forall l, d | l in b.chan && d in b.chan[l].members && d in b.conn
      ensures !Banned(b.chan[l], b.conn[d])
    {
      assert d in a.chan[l].members;
      assert d != c;
    }
  }

  ghost predicate NobodyElseBanned<K, C>(w: World<K, C>, c: C) {
    forall k, d | k in w.chan && d in w.chan[k].members && d in w.conn && d != c :: !Banned(w.chan[k], w.conn[d])
  }

  /** Leaving keeps the invariant, and restores it when the leaver was the only one banned from
      where it was. A channel left empty stays only if it is permanent. */
  lemma LeftKeepsInv<K, C>(w: World<K, C>, c: C)
    requires Shape(w) && ChansOk(w) && Linked(w) && NamesDistinct(w) && AccountsOk(w) && Occupied(w)
    requires c in w.conn && NobodyElseBanned(w, c) && (w.conn[c].at == None ==> NobodyBanned(w))
    ensures Inv(Left(w, c)) && Left(w, c).conn.Keys == w.conn.Keys && Left(w, c).conn[c].at == None
    ensures Left(w, c).conns == w.conns && Left(w, c).accounts == w.accounts && Left(w, c).auth == w.auth
    ensures forall l | l in Left(w, c).chan :: l in w.chan
    ensures Left(w, c).conn[c] == w.conn[c].(at := None, gavel := Left(w, c).conn[c].gavel)
  {
    hide Shape, ChansOk, Linked, NobodyBanned, NamesDistinct, AccountsOk, Occupied, NobodyElseBanned;
    if w.conn[c].at.Some? {
      LeftLeaves(w, c);
      var k, b := w.conn[c].at.value, Left(w, c);
      LeavesKeepsShape(w, b, c, k);
      LeavesKeepsLinks(w, b, c, k);
      LeavesKeepsRest(w, b, c, k);
      LeavesKeepsBans(w, b, c, k);
    }
  }

  lemma LeaveKeepsInv<K, C>(w: World<K, C>, c: C)
    requires Inv(w) && c in w.conn
    ensures Inv(Left(w, c)) && Left(w, c).conn.Keys == w.conn.Keys && Left(w, c).conn[c].at == None
    ensures Left(w, c).conns == w.conns && Left(w, c).accounts == w.accounts
    ensures forall l | l in Left(w, c).chan :: l in w.chan
  {
    LeftKeepsInv(w, c);
  }

  /** `b` is `a` after `c` entered channel `k`. */
  ghost predicate Enters<K, C>(a: World<K, C>, b: World<K, C>, c: C, k: K) {
    && b.channels == a.channels && b.conns == a.conns && b.accounts == a.accounts && b.auth == a.auth
    && b.conn.Keys == a.conn.Keys && b.chan.Keys == a.chan.Keys
    && k in a.chan && c in a.conn && b.conn[c].at == Some(k)
    && (forall d | d in a.conn :: b.conn[d] == a.conn[d].(gavel := b.conn[d].gavel, at := b.conn[d].at))
    && (forall d | d in a.conn && d != c :: b.conn[d].at == a.conn[d].at)
    && (forall l | l in a.chan && l != k :: b.chan[l] == a.chan[l])
    && ChanOk(b.chan[k]) && b.chan[k].members == [c] + a.chan[k].members
    && b.chan[k].info == a.chan[k].info && b.chan[k].permanent == a.chan[k].permanent
    && b.chan[k].bans == a.chan[k].bans
  }

  lemma EnteredEnters<K, C>(w: World<K, C>, k: K, c: C)
    requires ChansOk(w) && Linked(w) && k in w.chan && c in w.conn && w.conn[c].at.None?
    ensures Enters(w, Entered(w, k, c), c, k)
  {
    hide Choose, ChanOk;
    assert ChanOk(w.chan[k]);
    var conn := w.conn[c := w.conn[c].(at := Some(k))];
    var ch := w.chan[k].(members := [c] + w.chan[k].members, count := w.chan[k].count + 1);
    OneMoreIsOk(w.chan[k], c);
    if ch.opr.None? {
      ChooseKeeps(ch, conn, w.auth, Some(c));
    }
  }

  lemma OneMoreIsOk<C>(ch: Chan<C>, c: C)
    requires ChanOk(ch) && c !in ch.members
    ensures ChanOk(ch.(members := [c] + ch.members, count := ch.count + 1))
  {
    assert NoRepeat([c] + ch.members);
  }

  lemma EntersKeepsLinks<K, C>(a: World<K, C>, b: World<K, C>, c: C, k: K)
    requires Linked(a) && Enters(a, b, c, k) && a.conn[c].at == None
    ensures Linked(b)
  {
    hide ChanOk;
  }

  lemma EntersKeepsRest<K, C>(a: World<K, C>, b: World<K, C>, c: C, k: K)
    requires Enters(a, b, c, k)
    ensures Shape(a) ==> Shape(b)
    ensures ChansOk(a) ==> ChansOk(b)
    ensures NamesDistinct(a) ==> NamesDistinct(b)
    ensures AccountsOk(a) ==> AccountsOk(b)
    ensures (forall l | l in a.chan && l != k :: a.chan[l].permanent || a.chan[l].members != []) ==> Occupied(b)
  {
    hide ChanOk;
  }

  lemma EntersKeepsBans<K, C>(a: World<K, C>, b: World<K, C>, c: C, k: K)
    requires Enters(a, b, c, k) && NobodyBanned(a) && !Banned(a.chan[k], a.conn[c])
    ensures NobodyBanned(b)
  {
    hide ChanOk;
    forall l, d | l in b.chan && d in b.chan[l].members && d in b.conn
      ensures !Banned(b.chan[l], b.conn[d])
    {
      assert (d == c && l == k) || d in a.chan[l].members;
    }
  }

  /** Entering a channel that lets the connection in keeps the invariant. The channel itself may
      have been empty before, as one just created is. */
  lemma EnteredKeepsInv<K, C>(w: World<K, C>, k: K, c: C)
    requires Core(w) && k in w.chan && c in w.conn && w.conn[c].at == None && !Banned(w.chan[k], w.conn[c])
    requires forall l | l in w.chan && l != k :: w.chan[l].permanent || w.chan[l].members != []
    ensures Inv(Entered(w, k, c)) && Enters(w, Entered(w, k, c), c, k)
  {
    hide Shape, ChansOk, Linked, NobodyBanned, NamesDistinct, AccountsOk, Occupied, Banned, Enters, Entered;
    EnteredEnters(w, k, c);
    var b := Entered(w, k, c);
    EntersKeepsLinks(w, b, c, k);
    EntersKeepsRest(w, b, c, k);
    EntersKeepsBans(w, b, c, k);
  }

  lemma CreatedKeepsShape<K, C>(w: World<K, C>, k: K, info: Info, permanent: bool)
    requires Shape(w) && k !in w.chan
    ensures Shape(Created(w, k, info, permanent))
  {
    assert k !in w.channels;
  }

  lemma CreatedKeepsCore<K, C>(w: World<K, C>, k: K, info: Info, permanent: bool)
    requires Core(w) && k !in w.chan
    requires !NameTakenAnywhere(w, info.name)
    ensures Core(Created(w, k, info, permanent))
  {
    hide Shape, ChansOk, Linked, NamesDistinct, NobodyBanned, AccountsOk, Created;
    CreatedKeepsShape(w, k, info, permanent);
    CreatedLinks(w, k, info, permanent);
    CreatedKeepsNames(w, k, info, permanent);
    CreatedKeepsAccounts(w, k, info, permanent);
  }

  lemma CreatedKeepsNames<K, C>(w: World<K, C>, k: K, info: Info, permanent: bool)
    requires NamesDistinct(w) && k !in w.chan && !NameTakenAnywhere(w, info.name)
    ensures NamesDistinct(Created(w, k, info, permanent))
  {
    hide Fold;
  }

  lemma CreatedKeepsAccounts<K, C>(w: World<K, C>, k: K, info: Info, permanent: bool)
    requires NobodyBanned(w) && AccountsOk(w) && k !in w.chan
    ensures NobodyBanned(Created(w, k, info, permanent)) && AccountsOk(Created(w, k, info, permanent))
  {
    hide Banned, Unique;
  }

  ghost predicate NameTakenAnywhere<K, C>(w: World<K, C>, name: string) {
    exists k | k in w.chan :: SameText(w.chan[k].info.name, name)
  }

  // ------------------------------------------------------------ joining by name

  /** What the traversal means: a hit has the full name, or the short name and a free place; at the
      end neither kind exists, and the saved template belongs to a short-name match. */
  lemma {:induction false} ScanMeaning<K, C>(chan: map<K, Chan<C>>, rest: seq<K>, name: string,
      country: Option<string>, realm: Option<string>, full: nat, template: Option<Info>)
    requires forall k | k in rest :: k in chan
    ensures var r := ScanFrom(chan, rest, name, country, realm, full, template);
            match r
            case Hit(k) =>
              && k in rest
              && (SameText(chan[k].info.name, name)
                  || (ShortMatch(chan[k].info, name) && SamePlace(chan[k].info, country, realm) && HasRoom(chan[k])))
            case End(_, t) =>
              && (forall k | k in rest ::
                    && !SameText(chan[k].info.name, name)
                    && !(ShortMatch(chan[k].info, name) && SamePlace(chan[k].info, country, realm) && HasRoom(chan[k])))
              && (t == template || (t.Some? && ShortMatch(t.value, name)
                                    && exists k :: k in rest && chan[k].info.limit == t.value.limit))
  {
    hide SameText, SamePlace, HasRoom, ShortMatch;
    if rest != [] {
      var info := chan[rest[0]].info;
      var full' := full + if SamePlace(info, country, realm) then 1 else 0;
      ScanMeaning(chan, rest[1..], name, country, realm, full, template);
      ScanMeaning(chan, rest[1..], name, country, realm, full', Some(Template(info, country, realm)));
      TemplateKeepsShort(info, country, realm, name);
      assert rest[0] in rest;
    }
  }

  lemma TemplateKeepsShort(info: Info, country: Option<string>, realm: Option<string>, name: string)
    ensures ShortMatch(Template(info, country, realm), name) == ShortMatch(info, name)
  {
  }

  /** A channel made for a join has a name of its own, and room: it is a copy of a channel with the
      same limit, or has none. */
  lemma TargetIsSound<K, C>(w: World<K, C>, c: Conn<K>, name: string, logged: bool)
    requires Shape(w)
    ensures match TargetOf(w, c, name, logged)
            case Existing(k) => k in w.chan && (SameText(w.chan[k].info.name, name) || HasRoom(w.chan[k]))
            case Made(info, permanent) =>
              && !NameTakenAnywhere(w, info.name)
              && (permanent ==> exists k :: k in w.chan && w.chan[k].info.limit == info.limit)
              && (!permanent ==> info == TemporaryInfo(name, logged))
            case Nothing => true
  {
    hide SameText, HasRoom, ShortMatch, NoRepeat, SamePlace;
    ScanMeaning(w.chan, w.channels, name, c.country, c.realm, 0, None);
    if TargetOf(w, c, name, logged).Made? {
      var info := TargetOf(w, c, name, logged).info;
      forall k | k in w.chan
        ensures !SameText(w.chan[k].info.name, info.name)
      {
        assert k in w.channels;
        var i :| 0 <= i < |w.channels| && w.channels[i] == k;
      }
    }
  }

  /** A channel just made keeps nobody out unless it copies one that refuses bots, and those are
      permanent. */
  lemma NewChannelAdmits<K, C>(info: Info, permanent: bool, c: Conn<K>)
    requires !permanent ==> info.allowBots
    ensures Banned(Chan<C>.Chan(info, permanent, [], 0, None, None, []), c) ==> permanent
  {
  }

  lemma SetChannelKeepsInv<K, C>(w: World<K, C>, c: C, name: Option<string>, spare: Option<K>, logged: bool)
    requires Shape(w) && ChansOk(w) && Linked(w) && NamesDistinct(w) && AccountsOk(w) && Occupied(w)
    requires c in w.conn && NobodyElseBanned(w, c) && (w.conn[c].at == None ==> NobodyBanned(w))
    requires (spare.Some? ==> spare.value !in w.chan)
    ensures Inv(SetChannel(w, c, name, spare, logged).0)
  {
    hide ChansOk, Linked, NobodyBanned, NamesDistinct, AccountsOk, Banned, Left, Entered, NoRepeat, TargetOf, SameText;
    LeftKeepsInv(w, c);
    var v := Left(w, c);
    assert forall k | k in v.channels :: k in v.chan;
    if name.Some? {
      TargetIsSound(v, v.conn[c], name.value, logged);
      match TargetOf(v, v.conn[c], name.value, logged) {
        case Existing(k) =>
          if !Banned(v.chan[k], v.conn[c]) {
            EnteredKeepsInv(v, k, c);
          }
        case Made(info, permanent) =>
          if spare.Some? {
            CreatedKeepsCore(v, spare.value, info, permanent);
            var u := Created(v, spare.value, info, permanent);
            NewChannelAdmits<K, C>(info, permanent, u.conn[c]);
            if !Banned(u.chan[spare.value], u.conn[c]) {
              EnteredKeepsInv(u, spare.value, c);
            }
          }
        case Nothing =>
      }
    }
  }

  /** Replacing one channel by one with the same members, name and permanence. */
  ghost predicate Retouched<K, C>(a: World<K, C>, b: World<K, C>, k: K) {
    && k in a.chan && b.channels == a.channels && b.conns == a.conns && b.accounts == a.accounts && b.auth == a.auth
    && b.chan.Keys == a.chan.Keys && OnlyFlags(a.conn, b.conn)
    && (forall l | l in a.chan && l != k :: b.chan[l] == a.chan[l])
    && ChanOk(b.chan[k]) && b.chan[k].members == a.chan[k].members
    && b.chan[k].info == a.chan[k].info && b.chan[k].permanent == a.chan[k].permanent
  }

  lemma RetouchedKeepsLinks<K, C>(a: World<K, C>, b: World<K, C>, k: K)
    requires Retouched(a, b, k)
    ensures Shape(a) ==> Shape(b)
    ensures ChansOk(a) ==> ChansOk(b)
    ensures Linked(a) ==> Linked(b)
  {
    hide ChanOk;
  }

  lemma RetouchedKeepsRest<K, C>(a: World<K, C>, b: World<K, C>, k: K)
    requires Retouched(a, b, k)
    ensures NamesDistinct(a) ==> NamesDistinct(b)
    ensures AccountsOk(a) ==> AccountsOk(b)
    ensures Occupied(a) ==> Occupied(b)
  {
    hide ChanOk, Fold, Unique;
  }

  lemma RetouchedKeepsBans<K, C>(a: World<K, C>, b: World<K, C>, k: K)
    requires Retouched(a, b, k) && NobodyBanned(a)
    requires forall c | c in a.chan[k].members && c in a.conn ::
               Banned(b.chan[k], a.conn[c]) ==> Banned(a.chan[k], a.conn[c])
    ensures NobodyBanned(b)
  {
    hide ChanOk;
    forall l, d | l in b.chan && d in b.chan[l].members && d in b.conn
      ensures !Banned(b.chan[l], b.conn[d])
    {
      assert !Banned(a.chan[l], a.conn[d]);
    }
  }

  lemma DesignateKeepsInv<K, C>(w: World<K, C>, c: C, who: string)
    requires Inv(w) && c in w.conn
    ensures Inv(Designate(w, c, who))
  {
    hide Shape, NobodyBanned, NamesDistinct, AccountsOk, Occupied, FindConn;
    var b := Designate(w, c, who);
    if b != w {
      var k := w.conn[c].at.value;
      assert Retouched(w, b, k) by {
        hide FindConn, Shape, NobodyBanned, NamesDistinct, AccountsOk, Occupied;
        assert ChanOk(w.chan[k]);
      }
      RetouchedKeepsLinks(w, b, k);
      RetouchedKeepsRest(w, b, k);
      RetouchedKeepsBans(w, b, k);
    }
  }

  lemma ResignKeepsInv<K, C>(w: World<K, C>, c: C)
    requires Inv(w) && c in w.conn
    ensures Inv(Resign(w, c))
  {
    hide Shape, NobodyBanned, NamesDistinct, AccountsOk, Occupied, Choose, Linked;
    var b := Resign(w, c);
    if b != w {
      var k := w.conn[c].at.value;
      assert ChanOk(w.chan[k]);
      ChooseKeeps(w.chan[k], w.conn, w.auth, None);
      RetouchedKeepsLinks(w, b, k);
      RetouchedKeepsRest(w, b, k);
      RetouchedKeepsBans(w, b, k);
    }
  }

  lemma FindAccountFinds(accounts: seq<Entry>, who: string)
    ensures var r := FindAccount(accounts, who);
            if r.Some? then r.value in accounts && Denotes(who, r.value)
            else forall e | e in accounts :: !Denotes(who, e)
  {
    hide Denotes;
  }

  lemma {:induction false} FirstUsingFinds<K, C>(conn: map<C, Conn<K>>, conns: seq<C>, e: Entry)
    ensures var r := FirstUsing(conn, conns, e);
            if r.Some? then r.value in conns && r.value in conn && conn[r.value].account == Some(e)
            else forall c | c in conns && c in conn :: conn[c].account != Some(e)
  {
    if conns != [] {
      FirstUsingFinds(conn, conns[1..], e);
    }
  }

  /** Ban matching and lookup agree: the connection a text matches is the one the lookup finds. */
  lemma MatchIsFound<K, C>(w: World<K, C>, who: string, d: C)
    requires Shape(w) && AccountsOk(w) && d in w.conn && w.conn[d].account.Some?
    ensures Denotes(who, w.conn[d].account.value) <==> FindConn(w, who) == Some(d)
  {
    hide Denotes, Unique, NoRepeat;
    var e := w.conn[d].account.value;
    FindAccountFinds(w.accounts, who);
    var f := FindAccount(w.accounts, who);
    if f.Some? {
      FirstUsingFinds(w.conn, w.conns, f.value);
      if Denotes(who, e) {
        DenotesAtMostOne((set a | a in w.accounts), who, e, f.value);
        assert d in w.conns;
      }
    }
  }

  /** A new entry on a ban list matches no member but the one the command goes on to remove. */
  lemma BanMatchesOnlyFound<K, C>(w: World<K, C>, k: K, dest: string)
    requires Inv(w) && k in w.chan
    ensures forall d | d in w.chan[k].members && d in w.conn && Banned(WithBan(w.chan[k], dest), w.conn[d]) ::
              FindConn(w, dest) == Some(d)
  {
    hide Denotes, FindConn, Unique, HasText, Shape, AccountsOk, Linked;
    forall d | d in w.chan[k].members && d in w.conn && Banned(WithBan(w.chan[k], dest), w.conn[d])
      ensures FindConn(w, dest) == Some(d)
    {
      assert !Banned(w.chan[k], w.conn[d]);
      MatchIsFound(w, dest, d);
    }
  }

  lemma WithBanIsOk<C>(ch: Chan<C>, dest: string)
    requires ChanOk(ch)
    ensures ChanOk(WithBan(ch, dest))
  {
    hide Fold;
  }

  /** The state in between, where one member may be banned, is repaired by sending that one away. */
  lemma BanKeepsInv<K, C>(w: World<K, C>, c: C, dest: string, spare: Option<K>, logged: bool)
    requires Inv(w) && c in w.conn && (spare.Some? ==> spare.value !in w.chan)
    ensures Inv(Ban(w, c, dest, spare, logged))
  {
    hide Shape, NobodyBanned, NamesDistinct, AccountsOk, Occupied, FindConn, SetChannel, Linked, ChanOk, WithBan,
         Banned, BanTarget;
    var k := BanTarget(w, c, dest);
    if k.Some? {
      BetweenBanAndExpulsion(w, k.value, dest);
      var buc := Expelled(w, k.value, dest);
      if buc.Some? {
        SetChannelKeepsInv(WithBanIn(w, k.value, dest), buc.value, Some(VOID), spare, logged);
      }
    }
  }

  lemma BetweenBanAndExpulsion<K, C>(w: World<K, C>, k: K, dest: string)
    requires Inv(w) && k in w.chan
    ensures var v, buc := WithBanIn(w, k, dest), Expelled(w, k, dest);
            && Shape(v) && ChansOk(v) && Linked(v) && NamesDistinct(v) && AccountsOk(v) && Occupied(v)
            && (if buc.Some? then buc.value in v.conn && v.conn[buc.value].at.Some? && NobodyElseBanned(v, buc.value)
                else NobodyBanned(v))
  {
    hide Shape, NobodyBanned, NamesDistinct, AccountsOk, Occupied, FindConn, Linked, ChanOk, WithBan, Banned;
    var v := WithBanIn(w, k, dest);
    BanIsRetouch(w, k, dest);
    RetouchedKeepsLinks(w, v, k);
    RetouchedKeepsRest(w, v, k);
    BanMatchesOnlyFound(w, k, dest);
    if Expelled(w, k, dest).Some? {
      BanLeavesOthers(w, v, k, dest);
    } else {
      BanLeavesAll(w, v, k, dest);
    }
  }

  lemma BanIsRetouch<K, C>(w: World<K, C>, k: K, dest: string)
    requires k in w.chan && ChansOk(w)
    ensures Retouched(w, w.(chan := w.chan[k := WithBan(w.chan[k], dest)]), k)
  {
    hide ChanOk;
    WithBanIsOk(w.chan[k], dest);
  }

  lemma BanLeavesOthers<K, C>(w: World<K, C>, v: World<K, C>, k: K, dest: string)
    requires k in w.chan && v == w.(chan := w.chan[k := WithBan(w.chan[k], dest)]) && NobodyBanned(w)
    requires forall d | d in w.chan[k].members && d in w.conn && Banned(WithBan(w.chan[k], dest), w.conn[d]) ::
               FindConn(w, dest) == Some(d)
    ensures FindConn(w, dest).Some? ==> NobodyElseBanned(v, FindConn(w, dest).value)
  {
    hide FindConn, Banned;
  }

  lemma BanLeavesAll<K, C>(w: World<K, C>, v: World<K, C>, k: K, dest: string)
    requires k in w.chan && v == w.(chan := w.chan[k := WithBan(w.chan[k], dest)]) && NobodyBanned(w) && Linked(w)
    requires forall d | d in w.chan[k].members && d in w.conn && Banned(WithBan(w.chan[k], dest), w.conn[d]) ::
               FindConn(w, dest) == Some(d)
    requires forall d | d in w.conn && FindConn(w, dest) == Some(d) :: w.conn[d].at != Some(k)
    ensures NobodyBanned(v)
  {
    hide FindConn, Banned;
  }

  lemma {:induction false} WithoutTextFrom(s: seq<string>, t: string)
    ensures forall i | 0 <= i < |WithoutText(s, t)| :: WithoutText(s, t)[i] in s
  {
    hide SameText;
    if s != [] {
      WithoutTextFrom(s[1..], t);
      assert forall e | e in s[1..] :: e in s;
    }
  }

  lemma {:induction false} WithoutTextIsOk(s: seq<string>, t: string)
    requires DistinctTexts(s)
    ensures DistinctTexts(WithoutText(s, t)) && !HasText(WithoutText(s, t), t)
    ensures forall i | 0 <= i < |WithoutText(s, t)| :: WithoutText(s, t)[i] in s
  {
    hide Fold;
    WithoutTextFrom(s, t);
    if s != [] {
      DistinctRest(s);
      if !SameText(s[0], t) {
        WithoutTextIsOk(s[1..], t);
        WithoutTextFrom(s[1..], t);
        hide SameText;
        var rest := WithoutText(s[1..], t);
        assert forall i | 0 <= i < |rest| :: !SameText(s[0], rest[i]);
        assert WithoutText(s, t) == [s[0]] + rest;
      }
    }
  }

  lemma DistinctRest(s: seq<string>)
    requires DistinctTexts(s) && s != []
    ensures DistinctTexts(s[1..]) && forall e | e in s[1..] :: !SameText(s[0], e)
  {
    hide SameText;
    assert forall i | 0 <= i < |s[1..]| :: s[1..][i] == s[i + 1];
  }

  lemma UnbanKeepsInv<K, C>(w: World<K, C>, c: C, who: string)
    requires Inv(w) && c in w.conn
    ensures Inv(Unban(w, c, who))
  {
    hide Shape, NamesDistinct, AccountsOk, Occupied, Linked, NobodyBanned;
    var k := Commands(w, c);
    if k.Some? && who != [] {
      var b := Unban(w, c, who);
      var ch := w.chan[k.value];
      assert ChanOk(ch);
      WithoutTextIsOk(ch.bans, who);
      FewerBans(ch, b.chan[k.value], w.conn);
      RetouchedKeepsLinks(w, b, k.value);
      RetouchedKeepsRest(w, b, k.value);
      RetouchedKeepsBans(w, b, k.value);
    }
  }

  lemma FewerBans<K, C>(ch: Chan<C>, after: Chan<C>, conn: map<C, Conn<K>>)
    requires after.info == ch.info && forall i | 0 <= i < |after.bans| :: after.bans[i] in ch.bans
    ensures forall c | c in conn :: Banned(after, conn[c]) ==> Banned(ch, conn[c])
  {
    hide Denotes;
  }

  lemma DisconnectKeepsInv<K, C>(w: World<K, C>, c: C)
    requires Inv(w) && c in w.conn
    ensures Inv(Disconnect(w, c))
  {
    hide ChansOk, NobodyBanned, NamesDistinct, AccountsOk, Occupied, Left;
    LeaveKeepsInv(w, c);
    var v, b := Left(w, c), Disconnect(w, c);
    WithoutNoRepeat(v.conns, c);
    assert Shape(b);
    assert Linked(b);
    DropKeepsRest(v, b, c);
  }

  lemma DropKeepsRest<K, C>(v: World<K, C>, b: World<K, C>, c: C)
    requires Inv(v) && b == v.(conns := b.conns, conn := v.conn - {c})
    ensures NobodyBanned(b) && AccountsOk(b) && NamesDistinct(b) && Occupied(b) && ChansOk(b)
  {
    hide Banned, Unique, ChanOk, Fold;
  }

  /** Operations that are about no channel. */
  predicate Apart<K, C>(op: Op<K, C>) {
    op.Connect? || op.Place? || op.Classify? || op.Register? || op.Authorize?
  }

  lemma ApartKeepsInv<K, C>(w: World<K, C>, op: Op<K, C>, logged: bool)
    requires Inv(w) && Allowed(w, op) && Apart(op)
    ensures Inv(Step(w, op, logged))
  {
    hide ChansOk, Shape, Linked, NamesDistinct, Occupied, NobodyBanned, AccountsOk, Step, Allowed;
    var b := Step(w, op, logged);
    ApartKeepsChannels(w, b, op, logged);
    ApartKeepsLinks(w, b, op, logged);
    ApartKeepsBans(w, b, op, logged);
    ApartKeepsAccounts(w, b, op, logged);
  }

  lemma ApartKeepsChannels<K, C>(w: World<K, C>, b: World<K, C>, op: Op<K, C>, logged: bool)
    requires ChansOk(w) && NamesDistinct(w) && Occupied(w) && Allowed(w, op) && Apart(op)
    requires b == Step(w, op, logged)
    ensures ChansOk(b) && NamesDistinct(b) && Occupied(b) && b.chan == w.chan
  {
    hide Fold, ChanOk, SetChannel, Left, Designate, Resign, Kick, Ban, Unban, Disconnect, LoggedIn, WithFlags;
  }

  lemma ApartKeepsLinks<K, C>(w: World<K, C>, b: World<K, C>, op: Op<K, C>, logged: bool)
    requires Shape(w) && Linked(w) && Allowed(w, op) && Apart(op)
    requires b == Step(w, op, logged)
    ensures Shape(b) && Linked(b)
  {
    hide Shape, Linked, Fold, SetChannel, Left, Designate, Resign, Kick, Ban, Unban, Disconnect, LoggedIn, WithFlags;
    match op {
      case Connect(c, bot, country, realm) => ConnectKeepsLinks(w, c, Conn(None, bot, country, realm, None, false));
      case Place(c, country, realm) => RewriteKeepsLinks(w, c, w.conn[c].(country := country, realm := realm));
      case Classify(c, bot) => RewriteKeepsLinks(w, c, w.conn[c].(bot := bot));
      case _ => OnlyAccounts(w, b);
    }
  }

  lemma ConnectKeepsLinks<K, C>(w: World<K, C>, c: C, d: Conn<K>)
    requires Shape(w) && Linked(w) && c !in w.conn && d.at == None
    ensures var b := w.(conns := [c] + w.conns, conn := w.conn[c := d]);
            Shape(b) && Linked(b)
  {
  }

  lemma RewriteKeepsLinks<K, C>(w: World<K, C>, c: C, d: Conn<K>)
    requires Shape(w) && Linked(w) && c in w.conn && d.at == w.conn[c].at
    ensures var b := w.(conn := w.conn[c := d]);
            Shape(b) && Linked(b)
  {
  }

  lemma OnlyAccounts<K, C>(w: World<K, C>, b: World<K, C>)
    requires Shape(w) && Linked(w)
    requires b.channels == w.channels && b.chan == w.chan && b.conns == w.conns && b.conn == w.conn
    ensures Shape(b) && Linked(b)
  {
  }

  lemma ApartKeepsBans<K, C>(w: World<K, C>, b: World<K, C>, op: Op<K, C>, logged: bool)
    requires Linked(w) && NobodyBanned(w) && Allowed(w, op) && Apart(op) && b.chan == w.chan
    requires b == Step(w, op, logged)
    ensures NobodyBanned(b)
  {
    hide Fold, Banned, SetChannel, Left, Designate, Resign, Kick, Ban, Unban, Disconnect, LoggedIn, WithFlags;
    forall k, c | k in b.chan && c in b.chan[k].members && c in b.conn
      ensures !Banned(b.chan[k], b.conn[c])
    {
      BannedLooksAt(b.chan[k], w.conn[c], b.conn[c]);
    }
  }

  /** A ban looks at the class and the account only. */
  lemma BannedLooksAt<K, C>(ch: Chan<C>, a: Conn<K>, b: Conn<K>)
    requires a.bot == b.bot && a.account == b.account
    ensures Banned(ch, a) == Banned(ch, b)
  {
  }

  lemma ApartKeepsAccounts<K, C>(w: World<K, C>, b: World<K, C>, op: Op<K, C>, logged: bool)
    requires AccountsOk(w) && Allowed(w, op) && Apart(op)
    requires b == Step(w, op, logged)
    ensures AccountsOk(b)
  {
    hide Fold, SetChannel, Left, Designate, Resign, Kick, Ban, Unban, Disconnect, LoggedIn, WithFlags;
  }

  /** Once the connection that used the account is gone, nobody uses it, and the one that logs in is
      still there, outside any channel. */
  lemma RelievedKeepsInv<K, C>(w: World<K, C>, c: C, e: Entry)
    requires Inv(w) && Allowed(w, Op<K, C>.Login(c, e, 0))
    ensures var v := Relieved(w, e);
            && Inv(v) && v.accounts == w.accounts && c in v.conn && v.conn[c].account == None && v.conn[c].at == None
            && forall d | d in v.conn :: v.conn[d].account != Some(e)
  {
    hide Shape, ChansOk, Linked, NobodyBanned, NamesDistinct, Occupied, FindConn, Denotes, Left;
    forall d | d in w.conn && w.conn[d].account == Some(e)
      ensures FindConn(w, e.name) == Some(d)
    {
      MatchIsFound(w, e.name, d);
    }
    var other := FindConn(w, e.name);
    if other.Some? && other.value in w.conn {
      DisconnectKeepsInv(w, other.value);
      LeftKeepsOthers(w, other.value);
      assert w.conn[other.value].account.Some? by {
        FoundUses(w, e.name);
      }
    }
  }

  lemma FoundUses<K, C>(w: World<K, C>, who: string)
    ensures var d := FindConn(w, who);
            d.Some? ==> d.value in w.conn && w.conn[d.value].account.Some?
  {
    var e := FindAccount(w.accounts, who);
    if e.Some? {
      FirstUsingFinds(w.conn, w.conns, e.value);
    }
  }

  /** Leaving changes of other connections the flag at most. */
  lemma LeftKeepsOthers<K, C>(w: World<K, C>, c: C)
    requires Inv(w) && c in w.conn
    ensures var v := Left(w, c);
            && v.conn.Keys == w.conn.Keys && v.accounts == w.accounts
            && forall d | d in w.conn ::
                 v.conn[d].account == w.conn[d].account && (d != c ==> v.conn[d].at == w.conn[d].at)
  {
    hide ChanOk, NobodyBanned, NamesDistinct, AccountsOk, Occupied, Shape;
    if w.conn[c].at.Some? {
      LeftLeaves(w, c);
    }
  }

  lemma AttachedKeepsInv<K, C>(v: World<K, C>, c: C, e: Entry, initial: nat)
    requires Inv(v) && c in v.conn && v.conn[c].account == None && v.conn[c].at == None && e in v.accounts
    requires forall d | d in v.conn :: v.conn[d].account != Some(e)
    ensures Inv(Attached(v, c, e, initial))
  {
    hide Shape, Linked, NobodyBanned, AccountsOk, ChanOk, Fold;
    AttachedKeepsLinks(v, c, e, initial);
    AttachedKeepsBans(v, c, e, initial);
    AttachedKeepsAccounts(v, c, e, initial);
  }

  lemma AttachedKeepsLinks<K, C>(v: World<K, C>, c: C, e: Entry, initial: nat)
    requires Shape(v) && Linked(v) && c in v.conn
    ensures Shape(Attached(v, c, e, initial)) && Linked(Attached(v, c, e, initial))
  {
  }

  lemma AttachedKeepsBans<K, C>(v: World<K, C>, c: C, e: Entry, initial: nat)
    requires Linked(v) && NobodyBanned(v) && c in v.conn && v.conn[c].at == None
    ensures NobodyBanned(Attached(v, c, e, initial))
  {
    hide Banned;
  }

  lemma AttachedKeepsAccounts<K, C>(v: World<K, C>, c: C, e: Entry, initial: nat)
    requires AccountsOk(v) && c in v.conn && e in v.accounts && forall d | d in v.conn :: v.conn[d].account != Some(e)
    ensures AccountsOk(Attached(v, c, e, initial))
  {
    hide Unique;
  }

  lemma LoginKeepsInv<K, C>(w: World<K, C>, c: C, e: Entry, initial: nat)
    requires Inv(w) && Allowed(w, Op<K, C>.Login(c, e, initial))
    ensures Inv(LoggedIn(w, c, e, initial))
  {
    hide Inv, Relieved, Attached, Denotes;
    RelievedKeepsInv(w, c, e);
    AttachedKeepsInv(Relieved(w, e), c, e, initial);
  }

  lemma WithFlagsKeepsInv<K, C>(w: World<K, C>, c: C, newflag: nat)
    requires Inv(w) && c in w.conn
    ensures Inv(WithFlags(w, c, newflag))
  {
    hide Shape, ChanOk, NobodyBanned, NamesDistinct, Unique, HasGavel, IsAdmin, Banned;
    WithFlagsKeepsLinks(w, c, newflag);
    WithFlagsKeepsBans(w, c, newflag);
    assert AccountsOk(w) && Occupied(w) && ChansOk(w);
  }

  lemma WithFlagsKeepsLinks<K, C>(w: World<K, C>, c: C, newflag: nat)
    requires Shape(w) && Linked(w) && NamesDistinct(w) && c in w.conn
    ensures Shape(WithFlags(w, c, newflag)) && Linked(WithFlags(w, c, newflag))
    ensures NamesDistinct(WithFlags(w, c, newflag))
  {
    hide HasGavel, IsAdmin, SameText;
  }

  lemma WithFlagsKeepsBans<K, C>(w: World<K, C>, c: C, newflag: nat)
    requires Linked(w) && NobodyBanned(w) && c in w.conn
    ensures NobodyBanned(WithFlags(w, c, newflag))
  {
    hide HasGavel, IsAdmin, Banned;
    var b := WithFlags(w, c, newflag);
    forall k, d | k in b.chan && d in b.chan[k].members && d in b.conn
      ensures !Banned(b.chan[k], b.conn[d])
    {
      BannedLooksAt(b.chan[k], w.conn[d], b.conn[d]);
    }
  }

  /** Every operation keeps the invariant. */
  lemma StepKeepsInv<K, C>(w: World<K, C>, op: Op<K, C>, logged: bool)
    requires Inv(w) && Allowed(w, op)
    ensures Inv(Step(w, op, logged))
  {
    hide Inv;
    match op {
      case Join(c, name, spare) => JoinKeepsInv(w, c, Some(name), Some(spare), logged);
      case Leave(c) => LeaveKeepsInv(w, c);
      case DesignateOp(c, who) => DesignateKeepsInv(w, c, who);
      case ResignOp(c) => ResignKeepsInv(w, c);
      case KickOp(c, who, spare) => KickKeepsInv(w, c, who, Some(spare), logged);
      case BanOp(c, who, spare) => BanKeepsInv(w, c, who, Some(spare), logged);
      case UnbanOp(c, who) => UnbanKeepsInv(w, c, who);
      case Close(c) => DisconnectKeepsInv(w, c);
      case Login(c, e, initial) => LoginKeepsInv(w, c, e, initial);
      case FlagOp(c, newflag) => WithFlagsKeepsInv(w, c, newflag);
      case _ => ApartKeepsInv(w, op, logged);
    }
  }

  lemma JoinKeepsInv<K, C>(w: World<K, C>, c: C, name: Option<string>, spare: Option<K>, logged: bool)
    requires Inv(w) && c in w.conn && (spare.Some? ==> spare.value !in w.chan)
    ensures Inv(SetChannel(w, c, name, spare, logged).0)
  {
    SetChannelKeepsInv(w, c, name, spare, logged);
  }

  lemma KickKeepsInv<K, C>(w: World<K, C>, c: C, dest: string, spare: Option<K>, logged: bool)
    requires Inv(w) && c in w.conn && (spare.Some? ==> spare.value !in w.chan)
    ensures Inv(Kick(w, c, dest, spare, logged))
  {
    hide Inv, SetChannel, FindConn;
    var kuc := FindConn(w, dest);
    if kuc.Some? && kuc.value in w.conn {
      JoinKeepsInv(w, kuc.value, Some(VOID), spare, logged);
    }
  }

  /** A run: each operation can happen where it happens. */
  ghost predicate RunsTo<K, C>(w: World<K, C>, ops: seq<Op<K, C>>, logged: bool, end: World<K, C>)
    decreases ops
  {
    if ops == [] then end == w
    else Allowed(w, ops[0]) && RunsTo(Step(w, ops[0], logged), ops[1..], logged, end)
  }

  /** A server that starts with permanent, empty, distinctly named channels and no connections. */
  ghost predicate Initial<K, C>(w: World<K, C>) {
    && NoRepeat(w.channels) && w.chan.Keys == (set k | k in w.channels)
    && w.conns == [] && w.conn == map[] && w.accounts == []
    && NamesDistinct(w)
    && forall k | k in w.chan :: w.chan[k] == Chan(w.chan[k].info, true, [], 0, None, None, [])
  }

  /** In every reachable state of the channel system the invariant holds. */
  lemma {:induction false} RunKeepsInv<K, C>(w: World<K, C>, ops: seq<Op<K, C>>, logged: bool, end: World<K, C>)
    requires Inv(w) && RunsTo(w, ops, logged, end)
    ensures Inv(end)
    decreases ops
  {
    hide Inv, Step;
    if ops != [] {
      StepKeepsInv(w, ops[0], logged);
      RunKeepsInv(Step(w, ops[0], logged), ops[1..], logged, end);
    }
  }

  lemma InitialInv<K, C>(w: World<K, C>)
    requires Initial(w)
    ensures Inv(w)
  {
  }

  lemma LeftLinks<K, C>(w: World<K, C>, c: C)
    requires ChansOk(w) && Linked(w) && c in w.conn
    ensures ChansOk(Left(w, c)) && Linked(Left(w, c)) && Left(w, c).conn[c].at == None
    ensures forall l | l in Left(w, c).chan :: l in w.chan
  {
    hide ChanOk;
    if w.conn[c].at.Some? {
      LeftLeaves(w, c);
      LeavesKeepsRest(w, Left(w, c), c, w.conn[c].at.value);
      LeavesKeepsLinks(w, Left(w, c), c, w.conn[c].at.value);
    }
  }

  lemma CreatedLinks<K, C>(w: World<K, C>, k: K, info: Info, permanent: bool)
    requires ChansOk(w) && Linked(w) && k !in w.chan
    ensures ChansOk(Created(w, k, info, permanent)) && Linked(Created(w, k, info, permanent))
  {
  }
}
