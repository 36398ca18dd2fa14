/** The channel objects of src/bnetd/channel.c and the connection fields they hang together with.
    Every method is tied to the step of ChannelModel that says what it does. */
module Channels {
  import opened Lists
  import opened Text
  import opened AccountIndex
  import M = ChannelModel
  import I = ChannelInvariant

  class Connection {
    var account: Option<Entry>
    var bot: bool
    var country: Option<string>
    var realm: Option<string>
    var channel: Channel?
    var gavel: bool

    constructor (bot: bool, country: Option<string>, realm: Option<string>)
      ensures View() == M.Conn(None, bot, country, realm, None, false)
    {
      this.bot, this.country, this.realm := bot, country, realm;
      account, channel, gavel := None, null, false;
    }

    ghost function View(): M.Conn<Channel>
      reads this
    {
      M.Conn(account, bot, country, realm, OptionalChannel(channel), gavel)
    }
  }

  class Channel {
    const info: M.Info
    var permanent: bool
    var members: seq<Connection>
    var currmembers: nat
    var opr: Connection?
    var nextOpr: Connection?
    var bans: seq<string>

    constructor (info: M.Info, permanent: bool)
      ensures View() == M.Chan(info, permanent, [], 0, None, None, [])
    {
      this.info, this.permanent := info, permanent;
      members, currmembers, opr, nextOpr, bans := [], 0, null, null, [];
    }

    ghost function View(): M.Chan<Connection>
      reads this
    {
      M.Chan(info, permanent, members, currmembers,
             Optional(opr), Optional(nextOpr), bans)
    }
  }

  function Optional(c: Connection?): Option<Connection> {
    if c == null then None else Some(c)
  }

  function OptionalChannel(k: Channel?): Option<Channel> {
    if k == null then None else Some(k)
  }

  ghost function ScanResult(hit: Channel?, full: nat, template: Option<M.Info>): M.Scan<Channel> {
    var k := OptionalChannel(hit);
    if k.None? then M.End(full, template) else M.Hit(k.value)
  }

  class Server {
    var channels: seq<Channel>
    var conns: seq<Connection>
    var accounts: seq<Entry>
    var auth: map<Entry, M.Auth>
    const logged: bool

    ghost function Conns(): map<Connection, M.Conn<Channel>>
      reads this`conns, conns
    {
      map c | c in conns :: c.View()
    }

    ghost function Chans(): map<Channel, M.Chan<Connection>>
      reads this`channels, channels
    {
      map k | k in channels :: k.View()
    }

    ghost function World(): M.World<Channel, Connection>
      reads this, channels, conns
    {
      M.World(channels, Chans(), conns, Conns(), accounts, auth)
    }

    constructor (logged: bool)
      ensures I.Initial(World()) && channels == [] && this.logged == logged
    {
      this.logged, channels, conns, accounts, auth := logged, [], [], [], map[];
    }

    /** channel_choose_operator. The designee is always in the channel, so the check for one that is
        not never fires. */
    method ChooseOperator(k: Channel, tryop: Connection?)
      requires forall c | c in k.members :: c in conns
      requires k.opr != null ==> k.opr in conns
      requires k.nextOpr != null ==> k.nextOpr in conns
      modifies k`opr, k`nextOpr, conns`gavel
      ensures (k.View(), Conns()) == M.Choose(old(k.View()), old(Conns()), auth, Optional(tryop))
    {
      hide M.Chosen, M.Flagged, Conns;
      var oldop := k.opr;
      Elect(k, tryop);
      if tryop != null && k.opr != tryop {
        return;
      }
      if oldop == k.opr {
        k.opr := null;
      }
      MoveGavel(oldop, k.opr);
    }

    method Elect(k: Channel, tryop: Connection?)
      requires forall c | c in k.members :: c in conns
      requires k.opr != null ==> k.opr in conns
      requires k.nextOpr != null ==> k.nextOpr in conns
      modifies k`opr, k`nextOpr
      ensures var chosen := M.Chosen(old(k.View()), old(Conns()), auth, Optional(tryop));
              k.View() == old(k.View()).(opr := chosen, next := None)
      ensures k.opr != null ==> k.opr in conns
    {
      hide M.Oldest;
      if k.nextOpr != null {
        k.opr, k.nextOpr := k.nextOpr, null;
      } else {
        var newop := FindOperator(k, tryop);
        k.opr := newop;
      }
    }

    method MoveGavel(oldop: Connection?, newop: Connection?)
      requires oldop != null ==> oldop in conns
      requires newop != null ==> newop in conns
      modifies conns`gavel
      ensures Conns() == M.Flagged(M.Flagged(old(Conns()), Optional(oldop), false), Optional(newop), true)
    {
      if oldop != null {
        SetGavel(oldop, false);
      }
      if newop != null {
        SetGavel(newop, true);
      }
    }

    /** conn_add_flags and conn_del_flags for the operator flag. */
    method SetGavel(c: Connection, on: bool)
      requires c in conns
      modifies c`gavel
      ensures Conns() == M.Flagged(old(Conns()), Some(c), on)
    {
      c.gavel := on;
    }

    /** The last match of a pass over the newest-first list wins. */
    method FindOperator(k: Channel, tryop: Connection?) returns (newop: Connection?)
      requires forall c | c in k.members :: c in conns
      requires k.nextOpr == null
      ensures newop == k.opr || newop in k.members
      ensures Optional(newop) == M.Chosen(k.View(), Conns(), auth, Optional(tryop))
    {
      newop := k.opr;
      ghost var ch, conn := k.View(), Conns();
      for i := 0 to |k.members|
        invariant newop == k.opr || newop in k.members
        invariant var o := M.Oldest(ch, conn, auth, Optional(tryop), k.members[..i]);
                  Optional(newop) == if o.Some? then o else ch.opr
      {
        var curr := k.members[i];
        assert k.members[..i + 1][..i] == k.members[..i];
        if curr != k.opr && curr.account.Some? && (tryop == null || curr == tryop) {
          var a := M.AuthOf(auth, curr.account.value);
          if Fold(k.info.name) in a.operatorOf {
            newop := curr;
          } else if k.info.allowOpers && a.operator {
            newop := curr;
          }
        }
      }
      assert k.members[..|k.members|] == k.members;
    }

    // ------------------------------------------------------- joining, leaving

    /** channel_check_banning. */
    method CheckBanning(k: Channel, c: Connection) returns (banned: bool)
      ensures banned == M.Banned(k.View(), c.View())
    {
      if !k.info.allowBots && c.bot {
        return true;
      }
      if c.account.None? {
        return false;
      }
      for i := 0 to |k.bans|
        invariant forall j | 0 <= j < i :: !Denotes(k.bans[j], c.account.value)
      {
        if Denotes(k.bans[i], c.account.value) {
          return true;
        }
      }
      banned := false;
    }

    /** channel_add_connection, called once the connection's channel field is set. */
    method AddConnection(k: Channel, c: Connection) returns (ok: bool)
      requires k in channels && c in conns && c.channel == k
      requires forall d | d in k.members :: d in conns
      requires k.opr != null ==> k.opr in conns
      requires k.nextOpr != null ==> k.nextOpr in conns
      modifies k, conns
      ensures ok == !M.Banned(old(k.View()), old(c.View()))
      ensures World() == if ok then M.Entered(old(World()), k, c) else old(World())
    {
      hide M.Choose, M.Banned, M.Entered, Conns;
      var banned := CheckBanning(k, c);
      if banned {
        return false;
      }
      ghost var w := World();
      InWorld(k, c);
      Enroll(k, c);
      ViewChanged(k, w);
      EnteredIs(w, k, c, k.View(), Conns());
      ok := true;
    }

    lemma InWorld(k: Channel, c: Connection)
      requires k in channels && c in conns
      ensures k in World().chan && World().chan[k] == k.View()
      ensures c in World().conn && World().conn[c] == c.View()
    {
    }

    lemma ViewChanged(k: Channel, w: M.World<Channel, Connection>)
      requires k in channels && w.chan.Keys == set l | l in channels
      requires forall l | l in w.chan && l != k :: w.chan[l] == l.View()
      ensures Chans() == w.chan[k := k.View()]
    {
    }

    method Enroll(k: Channel, c: Connection)
      requires c in conns && c.channel == k
      requires forall d | d in k.members :: d in conns
      requires k.opr != null ==> k.opr in conns
      requires k.nextOpr != null ==> k.nextOpr in conns
      modifies k`members, k`currmembers, k`opr, k`nextOpr, conns`gavel
      ensures var conn := old(Conns())[c := old(Conns())[c].(at := Some(k))];
              var ch := old(k.View()).(members := [c] + old(k.members), count := old(k.currmembers) + 1);
              (k.View(), Conns()) == if ch.opr.Some? then (ch, conn) else M.Choose(ch, conn, auth, Some(c))
    {
      hide M.Choose;
      k.members := [c] + k.members;
      k.currmembers := k.currmembers + 1;
      assert Conns() == old(Conns())[c := old(Conns())[c].(at := Some(k))];
      if k.opr == null {
        ChooseOperator(k, c);
      }
    }

    /** The unlinking loop of channel_del_connection. */
    method Unlink(k: Channel, c: Connection) returns (found: bool)
      requires k.members != [] && k.currmembers > 0
      modifies k`members, k`currmembers
      ensures found == (c in old(k.members))
      ensures k.members == Without(old(k.members), c)
      ensures k.currmembers == if found then old(k.currmembers) - 1 else old(k.currmembers)
    {
      if k.members[0] == c {
        k.members, k.currmembers := k.members[1..], k.currmembers - 1;
        return true;
      }
      var curr := 0;
      while curr + 1 < |k.members| && k.members[curr + 1] != c
        invariant curr < |k.members| && k.members == old(k.members) && k.currmembers == old(k.currmembers)
        invariant c !in k.members[..curr + 1]
      {
        curr := curr + 1;
      }
      if curr + 1 < |k.members| {
        CutOut(k.members, c, curr + 1);
        k.members := k.members[..curr + 1] + k.members[curr + 2..];
        k.currmembers := k.currmembers - 1;
        return true;
      }
      found := false;
    }

    /** channel_del_connection. */
    method DelConnection(k: Channel, c: Connection)
      requires k in channels && c in k.members && k.currmembers > 0
      requires forall d | d in k.members :: d in conns
      requires k.opr != null ==> k.opr in conns
      requires k.nextOpr != null ==> k.nextOpr in conns
      modifies this`channels, k, conns`gavel
      ensures (k.View(), Conns()) == M.Parted(old(k.View()), old(Conns()), auth, c)
      ensures channels == if k.members == [] && !k.permanent then Without(old(channels), k) else old(channels)
    {
      hide M.Choose, Conns;
      var found := Unlink(k, c);
      if k.nextOpr == c {
        k.nextOpr := null;
      }
      assert Conns() == old(Conns());
      ghost var ch := old(k.View());
      assert k.View() == ch.(members := Without(ch.members, c), count := ch.count - 1,
                             next := if ch.next == Some(c) then None else ch.next);
      if k.opr == c {
        ChooseOperator(k, null);
      }
      if k.members == [] && !k.permanent {
        channels := Without(channels, k);
      }
    }

    method LeaveChannel(c: Connection)
      requires I.Shape(World()) && I.ChansOk(World()) && I.Linked(World()) && c in conns
      modifies this`channels, channels, conns
      ensures World() == M.Left(old(World()), c)
    {
      hide M.Parted, M.Left, I.Shape, I.Linked, I.ChansOk;
      if c.channel == null {
        StaysOut(World(), c);
        return;
      }
      var k := c.channel;
      ghost var w := World();
      PlaceIsKnown(c);
      RolesAreConns(k);
      ShapeHasNoRepeats(w);
      DelConnection(k, c);
      ChansAfter(k, w);
      ghost var conn := Conns();
      ClearChannel(c);
      LeftIs(w, c, k, k.View(), conn);
    }

    method ClearChannel(c: Connection)
      requires c in conns
      modifies c`channel
      ensures World() == old(World()).(conn := old(Conns())[c := old(Conns())[c].(at := None)])
    {
      c.channel := null;
    }

    lemma ChansAfter(k: Channel, w: M.World<Channel, Connection>)
      requires NoRepeat(w.channels) && k in w.channels
      requires w.chan.Keys == set l | l in w.channels
      requires channels == w.channels || channels == Without(w.channels, k)
      requires forall l | l in w.chan && l != k :: w.chan[l] == l.View()
      ensures Chans() == if channels == w.channels then w.chan[k := k.View()] else w.chan - {k}
    {
      hide NoRepeat;
      if channels == w.channels {
        assert Chans() == w.chan[k := k.View()];
      } else {
        WithoutNoRepeat(w.channels, k);
        hide Without;
        assert forall l :: l in channels <==> l in w.chan - {k};
        assert Chans() == w.chan - {k};
      }
    }

    lemma PlaceIsKnown(c: Connection)
      requires I.Linked(World()) && c in conns && c.channel != null
      ensures c.channel in channels && c in c.channel.members
    {
      var w := World();
      assert w.conn[c] == c.View();
      assert w.chan[c.channel] == c.channel.View();
    }

    lemma RolesAreConns(k: Channel)
      requires I.ChansOk(World()) && I.Linked(World()) && k in channels
      ensures forall d | d in k.members :: d in conns
      ensures k.opr != null ==> k.opr in conns
      ensures k.nextOpr != null ==> k.nextOpr in conns
      ensures k.currmembers == |k.members|
    {
      var w := World();
      assert w.chan[k] == k.View();
      assert I.ChanOk(w.chan[k]);
      assert forall d | d in w.chan[k].members :: d in w.conn;
    }

    // ------------------------------------------------------- finding by name

    /** The traversal of channellist_find_channel_by_name with its saved-away template. */
    method ScanChannels(name: string, country: Option<string>, realm: Option<string>)
        returns (hit: Channel?, full: nat, template: Option<M.Info>)
      ensures hit != null ==> hit in channels
      ensures M.ScanFrom(Chans(), channels, name, country, realm, 0, None) ==
              ScanResult(hit, full, template)
    {
      hide SameText;
      full, template, hit := 0, None, null;
      for i := 0 to |channels|
        invariant M.ScanFrom(Chans(), channels, name, country, realm, 0, None) ==
                  M.ScanFrom(Chans(), channels[i..], name, country, realm, full, template)
      {
        var k := channels[i];
        assert k in Chans() && Chans()[k] == k.View();
        assert channels[i..][1..] == channels[i + 1..];
        if SameText(k.info.name, name) {
          return k, full, template;
        }
        if M.ShortMatch(k.info, name) {
          if M.SamePlace(k.info, country, realm) {
            if k.info.limit < 0 || k.currmembers < k.info.limit {
              return k, full, template;
            }
            full := full + 1;
          }
          template := Some(M.Template(k.info, country, realm));
        }
      }
    }

    /** channel_create; only a permanent channel is checked against the names in use. */
    method CreateChannel(info: M.Info, permanent: bool) returns (k: Channel?)
      modifies this`channels
      ensures k == null <==> !M.Creatable(info) || (permanent && M.NameTaken(old(Chans()), old(channels), info.name))
      ensures k == null ==> channels == old(channels)
      ensures k != null ==> fresh(k) && World() == M.Created(old(World()), k, info, permanent)
      ensures k != null ==> k in channels && k.info == info && k.permanent == permanent
    {
      k := null;
      if !M.Creatable(info) {
        return;
      }
      if permanent {
        for i := 0 to |channels|
          invariant forall j | 0 <= j < i :: !SameText(channels[j].info.name, info.name)
        {
          if SameText(channels[i].info.name, info.name) {
            assert Chans()[channels[i]] == channels[i].View();
            return;
          }
        }
      }
      var made := new Channel(info, permanent);
      channels := [made] + channels;
      assert Chans() == old(Chans())[made := made.View()];
      k := made;
    }

    /** channellist_find_channel_by_name, then channel_create if that found nothing and could not
        make a copy either. */
    method FindOrCreate(name: string, c: Connection) returns (k: Channel?, made: bool)
      requires c in conns
      modifies this`channels
      ensures made ==> fresh(k) && World() == M.Created(old(World()), k, k.info, k.permanent)
      ensures k != null ==> k in channels
      ensures !made ==> World() == old(World())
      ensures match M.TargetOf(old(World()), old(c.View()), name, logged)
              case Existing(l) => k == l && !made
              case Made(info, permanent) =>
                made && k != null && k.info == info && k.permanent == permanent
              case Nothing => k == null && !made
    {
      hide M.ScanFrom, M.NameTaken, M.Creatable, M.Created, M.FormatName, M.TemporaryInfo, World;
      WorldFields();
      var hit, full, template := ScanChannels(name, c.country, c.realm);
      if hit != null {
        return hit, false;
      }
      if template.Some? && template.value.shortname.Some? {
        k := CreateChannel(template.value.(name := M.FormatName(template.value, full + 1)), true);
        if k != null {
          return k, true;
        }
      }
      k := CreateChannel(M.TemporaryInfo(name, logged), false);
      made := k != null;
    }

    /** The links that hold between any two requests. */
    ghost predicate Wired()
      reads this, channels, conns
    {
      I.Shape(World()) && I.ChansOk(World()) && I.Linked(World())
    }

    ghost predicate Valid()
      reads this, channels, conns
    {
      I.Inv(World())
    }

    /** conn_set_channel. A channel made for the join lets everybody in or is permanent, so there is
        none to destroy when the connection is kept out. */
    method SetChannel(c: Connection, name: Option<string>) returns (ok: bool, made: Channel?)
      requires Wired() && c in conns
      modifies this`channels, channels, conns
      ensures made != null ==> fresh(made)
      ensures (World(), ok) == M.SetChannel(old(World()), c, name, OptionalChannel(made), logged)
    {
      hide M.Left, M.TargetOf, M.Admitted, I.Linked, I.ChansOk, I.Shape, M.Created;
      ok, made := true, null;
      ghost var w := World();
      LeaveChannel(c);
      I.LeftLinks(w, c);
      if name.None? {
        return;
      }
      ghost var v := World();
      AtIsField(c);
      var k, isNew := FindOrCreate(name.value, c);
      if k == null {
        return false, null;
      }
      made := if isNew then k else null;
      if isNew {
        I.CreatedLinks(v, k, k.info, k.permanent);
        CreatedHasIt(v, k, k.info, k.permanent);
      }
      assert isNew || k in v.chan;
      RolesAreConns(k);
      ok := Admit(k, c);
    }

    method PutIn(c: Connection, k: Channel)
      requires c in conns
      modifies c`channel
      ensures c.channel == k
      ensures World() == old(World()).(conn := old(Conns())[c := old(Conns())[c].(at := Some(k))])
    {
      c.channel := k;
    }

    lemma AtIsField(c: Connection)
      requires c in conns
      ensures c in World().conn && World().conn[c] == c.View()
    {
    }

    method Admit(k: Channel, c: Connection) returns (ok: bool)
      requires k in channels && c in conns && c.channel == null
      requires forall d | d in k.members :: d in conns
      requires k.opr != null ==> k.opr in conns
      requires k.nextOpr != null ==> k.nextOpr in conns
      modifies k, conns
      ensures (World(), ok) == M.Admitted(old(World()), k, c)
    {
      hide M.Entered, M.Banned, World;
      ghost var w := World();
      WorldFields();
      PutIn(c, k);
      EnteredTwice(w, k, c);
      InAndOut(w.conn, c, k);
      ok := AddConnection(k, c);
      if !ok {
        WorldFields();
        ClearChannel(c);
      }
    }

    // ---------------------------------------------------------------- commands

    /** connlist_find_connection: the account first, then the first connection that uses it. */
    method FindConnection(who: string) returns (found: Connection?)
      ensures Optional(found) == M.FindConn(World(), who)
      ensures found != null ==> found in conns
    {
      found := null;
      var account := FindAccount(who);
      if account.None? {
        return;
      }
      for i := 0 to |conns|
        invariant M.FirstUsing(Conns(), conns[i..], account.value) == M.FirstUsing(Conns(), conns, account.value)
      {
        assert conns[i..][1..] == conns[i + 1..];
        assert Conns()[conns[i]] == conns[i].View();
        if conns[i].account == Some(account.value) {
          return conns[i];
        }
      }
    }

    method FindAccount(who: string) returns (found: Option<Entry>)
      ensures found == M.FindAccount(accounts, who)
    {
      for i := 0 to |accounts|
        invariant M.FindAccount(accounts[i..], who) == M.FindAccount(accounts, who)
      {
        assert accounts[i..][1..] == accounts[i + 1..];
        if Denotes(who, accounts[i]) {
          return Some(accounts[i]);
        }
      }
      found := None;
    }

    method IsAdmin(c: Connection) returns (admin: bool)
      requires c in conns
      ensures admin == M.IsAdmin(World(), c.View())
    {
      admin := c.account.Some? && M.AuthOf(auth, c.account.value).admin;
    }

    /** The guards /designate, /kick, /ban and /unban share. */
    method CommandedChannel(c: Connection) returns (k: Channel?)
      requires Wired() && c in conns
      ensures OptionalChannel(k) == M.Commands(World(), c)
      ensures k != null ==> k in channels
    {
      hide I.Shape, I.ChansOk;
      k := null;
      AtIsField(c);
      if c.channel == null {
        return;
      }
      PlaceIsKnown(c);
      assert World().chan[c.channel] == c.channel.View();
      var admin := IsAdmin(c);
      if admin || c.channel.opr == c {
        k := c.channel;
      }
    }

    /** channel_set_next_operator. */
    method SetNextOperator(k: Channel, c: Connection) returns (ok: bool)
      requires k in channels
      modifies k`nextOpr
      ensures ok == (k.opr != c)
      ensures World() == if ok then old(World()).(chan := old(Chans())[k := old(k.View()).(next := Some(c))])
                         else old(World())
    {
      if k.opr == c {
        return false;
      }
      k.nextOpr := c;
      assert Chans() == old(Chans())[k := k.View()];
      ok := true;
    }

    method DesignateNext(c: Connection, who: string)
      requires Valid() && c in conns
      modifies channels
      ensures World() == M.Designate(old(World()), c, who) && Valid()
    {
      hide I.Inv, M.FindConn, M.Commands, I.Shape, I.ChansOk, I.Linked, World, Chans, Conns;
      ghost var w := World();
      WorldFields();
      I.DesignateKeepsInv(w, c, who);
      ValidIsWired();
      if who == [] {
        return;
      }
      var k := CommandedChannel(c);
      if k == null {
        return;
      }
      var noc := FindConnection(who);
      if noc == null || noc.channel != k {
        return;
      }
      var ok := SetNextOperator(k, noc);
    }

    lemma WorldFields()
      ensures World().channels == channels && World().conns == conns
      ensures World().accounts == accounts && World().auth == auth
      ensures World().chan == Chans() && World().conn == Conns()
      ensures forall k | k in World().chan :: k in channels
      ensures forall k | k in channels :: k in World().chan && World().chan[k] == k.View()
      ensures forall d | d in conns :: d in World().conn && World().conn[d] == d.View()
      ensures forall d | d in World().conn :: d in conns
    {
    }

    lemma ValidIsWired()
      requires Valid()
      ensures Wired()
    {
    }

    method Reelect(k: Channel)
      requires k in channels
      requires forall c | c in k.members :: c in conns
      requires k.opr != null ==> k.opr in conns
      requires k.nextOpr != null ==> k.nextOpr in conns
      modifies k`opr, k`nextOpr, conns`gavel
      ensures var (ch, conn) := M.Choose(old(k.View()), old(Conns()), auth, None);
              World() == old(World()).(chan := old(Chans())[k := ch], conn := conn)
    {
      hide M.Choose, Conns;
      ChooseOperator(k, null);
      assert Chans() == old(Chans())[k := k.View()];
    }

    method ResignOperator(c: Connection)
      requires Valid() && c in conns
      modifies channels, conns
      ensures World() == M.Resign(old(World()), c) && Valid()
    {
      hide I.Inv, M.Choose, I.Shape, I.ChansOk, I.Linked, World;
      ghost var w := World();
      WorldFields();
      I.ResignKeepsInv(w, c);
      ValidIsWired();
      if c.channel == null {
        return;
      }
      PlaceIsKnown(c);
      var k := c.channel;
      if k.opr != c {
        return;
      }
      RolesAreConns(k);
      Reelect(k);
    }

    method KickMember(c: Connection, dest: string) returns (made: Channel?)
      requires Valid() && c in conns
      modifies this`channels, channels, conns
      ensures made != null ==> fresh(made)
      ensures World() == M.Kick(old(World()), c, dest, OptionalChannel(made), logged) && Valid()
    {
      hide I.Inv, M.FindConn, M.Commands, M.SetChannel, I.Shape, I.ChansOk, I.Linked, World, Chans, Conns;
      made := null;
      ghost var w := World();
      WorldFields();
      I.KickKeepsInv(w, c, dest, None, logged);
      ValidIsWired();
      if dest == [] {
        return;
      }
      var k := CommandedChannel(c);
      if k == null {
        return;
      }
      var kuc := FindConnection(dest);
      if kuc == null {
        return;
      }
      if kuc.channel != k {
        return;
      }
      var admin := IsAdmin(kuc);
      if admin {
        return;
      }
      var ok;
      ok, made := SetChannel(kuc, Some(M.VOID));
      I.KickKeepsInv(w, c, dest, OptionalChannel(made), logged);
    }

    /** channel_ban_user. */
    method BanUser(k: Channel, who: string)
      requires k in channels
      modifies k`bans
      ensures World() == old(World()).(chan := old(Chans())[k := M.WithBan(old(k.View()), who)])
    {
      hide Fold;
      if SameText(k.info.name, M.VOID) {
        assert Chans() == old(Chans())[k := k.View()];
        return;
      }
      for i := 0 to |k.bans|
        invariant forall j | 0 <= j < i :: !SameText(k.bans[j], who)
      {
        if SameText(k.bans[i], who) {
          assert Chans() == old(Chans())[k := k.View()];
          return;
        }
      }
      k.bans := k.bans + [who];
      assert Chans() == old(Chans())[k := k.View()];
    }

    method BanMember(c: Connection, dest: string) returns (made: Channel?)
      requires Valid() && c in conns
      modifies this`channels, channels, conns
      ensures made != null ==> fresh(made)
      ensures World() == M.Ban(old(World()), c, dest, OptionalChannel(made), logged) && Valid()
    {
      hide I.Inv, M.Commands, M.BanFrom, M.FindAccount, I.Shape, I.ChansOk, I.Linked, World, Chans, Conns;
      made := null;
      ghost var w := World();
      WorldFields();
      I.BanKeepsInv(w, c, dest, None, logged);
      ValidIsWired();
      if dest == [] {
        return;
      }
      var k := CommandedChannel(c);
      if k == null {
        return;
      }
      var account := FindAccount(dest);
      if account.Some? && M.AuthOf(auth, account.value).admin {
        return;
      }
      made := BanAndExpel(k, dest);
      I.BanKeepsInv(w, c, dest, OptionalChannel(made), logged);
    }

    method BanAndExpel(k: Channel, dest: string) returns (made: Channel?)
      requires Wired() && k in channels
      modifies this`channels, channels, conns
      ensures made != null ==> fresh(made)
      ensures World() == M.BanFrom(old(World()), k, dest, OptionalChannel(made), logged)
    {
      hide M.FindConn, M.SetChannel, M.WithBan, I.Shape, I.ChansOk, I.Linked, World, Chans, Conns;
      made := null;
      ghost var w := World();
      WorldFields();
      BanKeepsWired(w, k, dest);
      BanUser(k, dest);
      var buc := FindConnection(dest);
      FindConnIgnoresChannels(w, World(), dest);
      if buc != null && buc.channel == k {
        var ok;
        ok, made := SetChannel(buc, Some(M.VOID));
      }
    }

    /** channel_unban_user: the first entry equal to the text, ignoring case, is removed. */
    method UnbanUser(k: Channel, who: string) returns (found: bool)
      requires k in channels
      modifies k`bans
      ensures var ch := old(k.View()).(bans := M.WithoutText(old(k.bans), who));
              World() == old(World()).(chan := old(Chans())[k := ch])
    {
      hide Fold;
      for i := 0 to |k.bans|
        invariant k.bans == old(k.bans)
        invariant M.WithoutText(k.bans, who) == k.bans[..i] + M.WithoutText(k.bans[i..], who)
      {
        assert k.bans[i..][1..] == k.bans[i + 1..];
        if SameText(k.bans[i], who) {
          k.bans := k.bans[..i] + k.bans[i + 1..];
          assert Chans() == old(Chans())[k := k.View()];
          return true;
        }
      }
      assert k.bans[..|k.bans|] + [] == k.bans;
      assert Chans() == old(Chans())[k := k.View()];
      found := false;
    }

    method UnbanMember(c: Connection, who: string)
      requires Valid() && c in conns
      modifies channels
      ensures World() == M.Unban(old(World()), c, who) && Valid()
    {
      hide I.Inv, M.Commands, M.WithoutText, I.DistinctTexts, World, Conns, Chans;
      ghost var w := World();
      WorldFields();
      I.UnbanKeepsInv(w, c, who);
      ValidIsWired();
      if who == [] {
        return;
      }
      var k := CommandedChannel(c);
      if k == null {
        return;
      }
      assert w.chan[k] == k.View();
      var found := UnbanUser(k, who);
    }

    method JoinChannel(c: Connection, name: string) returns (ok: bool, made: Channel?)
      requires Valid() && c in conns
      modifies this`channels, channels, conns
      ensures made != null ==> fresh(made)
      ensures (World(), ok) == M.SetChannel(old(World()), c, Some(name), OptionalChannel(made), logged) && Valid()
    {
      hide I.Inv, M.SetChannel;
      ghost var w := World();
      ValidIsWired();
      ok, made := SetChannel(c, Some(name));
      I.JoinKeepsInv(w, c, Some(name), OptionalChannel(made), logged);
    }

    /** conn_destroy. */
    method DestroyConnection(c: Connection)
      requires Valid() && c in conns
      modifies this`channels, this`conns, channels, conns
      ensures World() == M.Disconnect(old(World()), c) && Valid()
    {
      hide I.Inv, M.Left, I.Shape, I.ChansOk, I.Linked;
      ghost var w := World();
      I.DisconnectKeepsInv(w, c);
      I.LeaveKeepsInv(w, c);
      InvHasNoRepeats(w);
      ValidIsWired();
      LeaveChannel(c);
      RemoveFromList(c);
    }

    // ---------------------------------------------------------------- the rest of a server's life

    /** channellist_load_permanent, from the lines as they were read: a line without a name gets one made
        from its other fields, and a line whose name is taken is left out. */
    method LoadPermanent(lines: seq<(Option<string>, M.Info)>)
      requires I.Initial(World()) && channels == []
      modifies this`channels
      ensures I.Initial(World())
      ensures Infos(channels) == M.Listed(lines)
    {
      hide I.Initial, M.WithLine;
      for i := 0 to |lines|
        invariant I.Initial(World()) && Infos(channels) == M.Listed(lines[..i])
      {
        assert lines[..i + 1][..i] == lines[..i];
        LoadLine(lines[i].0, lines[i].1);
      }
      assert lines[..|lines|] == lines;
    }

    method LoadLine(name: Option<string>, line: M.Info)
      requires I.Initial(World())
      modifies this`channels
      ensures I.Initial(World())
      ensures Infos(channels) == M.WithLine(old(Infos(channels)), name, line)
    {
      hide I.Initial, M.Creatable, M.NameTaken, M.NameListed, M.FormatName;
      ghost var w := World();
      TakenIsListed(w);
      var info := M.FullInfo(name, line);
      if info.Some? {
        var k := CreateChannel(info.value, true);
        if k != null {
          CreatedKeepsInitial(w, k, info.value);
          assert channels == [k] + old(channels);
        }
      }
    }

    /** In a server whose channels are listed in order, a name is taken if one of them has it. */
    lemma TakenIsListed(w: M.World<Channel, Connection>)
      requires w == World()
      ensures forall name :: M.NameTaken(Chans(), channels, name) <==> M.NameListed(Infos(channels), name)
    {
      hide SameText;
      forall name
        ensures M.NameTaken(Chans(), channels, name) <==> M.NameListed(Infos(channels), name)
      {
        assert forall i | 0 <= i < |channels| :: Infos(channels)[i] == channels[i].info == Chans()[channels[i]].info;
      }
    }

    method Register(e: Entry)
      requires Valid() && M.Allowed(World(), M.Register(e))
      modifies this`accounts
      ensures World() == M.Step(old(World()), M.Register(e), logged) && Valid()
    {
      hide I.Inv, World, Chans, M.SetChannel, M.Left, M.LoggedIn, M.Designate, M.Resign, M.Kick, M.Ban, M.Unban,
           M.Disconnect, M.WithFlags;
      WorldFields();
      I.StepKeepsInv(World(), M.Register(e), logged);
      accounts := [e] + accounts;
      WorldFields();
    }

    method Authorize(e: Entry, a: M.Auth)
      requires Valid()
      modifies this`auth
      ensures World() == M.Step(old(World()), M.Authorize(e, a), logged) && Valid()
    {
      hide I.Inv, World, Chans, M.SetChannel, M.Left, M.LoggedIn, M.Designate, M.Resign, M.Kick, M.Ban, M.Unban,
           M.Disconnect, M.WithFlags;
      WorldFields();
      I.StepKeepsInv(World(), M.Authorize(e, a), logged);
      auth := auth[e := a];
      WorldFields();
    }

    /** conn_create, as far as channels go. */
    method Connect(bot: bool, country: Option<string>, realm: Option<string>) returns (c: Connection)
      requires Valid()
      modifies this`conns
      ensures c !in old(conns) && M.Allowed(old(World()), M.Connect(c, bot, country, realm))
      ensures World() == M.Step(old(World()), M.Connect(c, bot, country, realm), logged) && Valid()
    {
      hide I.Inv, World, Conns, Chans, M.SetChannel, M.Left, M.LoggedIn, M.Designate, M.Resign, M.Kick, M.Ban, M.Unban,
           M.Disconnect, M.WithFlags;
      WorldFields();
      c := new Connection(bot, country, realm);
      I.StepKeepsInv(World(), M.Connect(c, bot, country, realm), logged);
      Enlist(c);
    }

    method Enlist(c: Connection)
      modifies this`conns
      ensures World() == old(World()).(conns := [c] + old(conns), conn := old(Conns())[c := c.View()])
    {
      conns := [c] + conns;
      assert Conns() == old(Conns())[c := c.View()];
    }

    /** conn_set_country and conn_set_realmname; the channel a connection is in does not mind. */
    method SetPlace(c: Connection, country: Option<string>, realm: Option<string>)
      requires Valid() && c in conns
      modifies c`country, c`realm
      ensures World() == M.Step(old(World()), M.Place(c, country, realm), logged) && Valid()
    {
      hide I.Inv, World, Conns, Chans, M.SetChannel, M.Left, M.LoggedIn, M.Designate, M.Resign, M.Kick, M.Ban, M.Unban,
           M.Disconnect, M.WithFlags;
      WorldFields();
      I.StepKeepsInv(World(), M.Place(c, country, realm), logged);
      Move(c, country, realm);
    }

    method Move(c: Connection, country: Option<string>, realm: Option<string>)
      requires c in conns
      modifies c`country, c`realm
      ensures World() == old(World()).(conn := old(Conns())[c := old(c.View()).(country := country, realm := realm)])
    {
      c.country, c.realm := country, realm;
      assert Conns() == old(Conns())[c := c.View()];
    }

    /** conn_set_class. */
    method SetClass(c: Connection, bot: bool)
      requires Valid() && M.Allowed(World(), M.Classify(c, bot))
      modifies c`bot
      ensures World() == M.Step(old(World()), M.Classify(c, bot), logged) && Valid()
    {
      hide I.Inv, World, Conns, Chans, M.SetChannel, M.Left, M.LoggedIn, M.Designate, M.Resign, M.Kick, M.Ban, M.Unban,
           M.Disconnect, M.WithFlags;
      WorldFields();
      I.StepKeepsInv(World(), M.Classify(c, bot), logged);
      PutClass(c, bot);
    }

    method PutClass(c: Connection, bot: bool)
      requires c in conns
      modifies c`bot
      ensures World() == old(World()).(conn := old(Conns())[c := old(c.View()).(bot := bot)])
    {
      c.bot := bot;
      assert Conns() == old(Conns())[c := c.View()];
    }

    /** The /flag command: conn_set_flags on the administrator's own connection. */
    method SetFlags(c: Connection, newflag: nat) returns (ok: bool)
      requires Valid() && c in conns
      modifies c`gavel
      ensures ok == M.IsAdmin(World(), old(c.View()))
      ensures World() == M.Step(old(World()), M.FlagOp(c, newflag), logged) && Valid()
    {
      hide I.Inv, World, Conns, Chans, M.HasGavel, M.SetChannel, M.Left, M.LoggedIn, M.Designate, M.Resign, M.Kick,
           M.Ban, M.Unban, M.Disconnect;
      WorldFields();
      I.StepKeepsInv(World(), M.FlagOp(c, newflag), logged);
      ok := IsAdmin(c);
      if ok {
        PutGavel(c, M.HasGavel(newflag));
      }
    }

    method PutGavel(c: Connection, on: bool)
      requires c in conns
      modifies c`gavel
      ensures World() == old(World()).(conn := old(Conns())[c := old(c.View()).(gavel := on)])
    {
      c.gavel := on;
      assert Conns() == old(Conns())[c := c.View()];
    }

    /** conn_set_account, with the destruction of the connection it marks. */
    method Login(c: Connection, e: Entry, initial: nat)
      requires Valid() && M.Allowed(World(), M.Login(c, e, initial))
      modifies this`channels, this`conns, channels, conns
      ensures World() == M.Step(old(World()), M.Login(c, e, initial), logged) && Valid()
    {
      hide I.Inv, M.Disconnect, World, Conns, Chans, M.Attached, Denotes;
      ghost var w := World();
      WorldFields();
      I.LoginKeepsInv(w, c, e, initial);
      I.RelievedKeepsInv(w, c, e);
      var other := FindConnection(e.name);
      if other != null {
        DestroyConnection(other);
      }
      WorldFields();
      assert World() == M.Relieved(w, e);
      Attach(c, e, initial);
    }

    method Attach(c: Connection, e: Entry, initial: nat)
      requires c in conns
      modifies c`account, c`gavel
      ensures World() == M.Attached(old(World()), c, e, initial)
    {
      hide M.HasGavel;
      c.account := Some(e);
      if M.HasGavel(initial) {
        c.gavel := true;
      }
      assert Conns() == old(Conns())[c := c.View()];
    }

    method RemoveFromList(c: Connection)
      requires NoRepeat(conns)
      modifies this`conns
      ensures World() == old(World()).(conns := Without(old(conns), c), conn := old(Conns()) - {c})
    {
      WithoutNoRepeat(conns, c);
      conns := Without(conns, c);
      hide Without, NoRepeat;
      assert Conns() == old(Conns()) - {c};
    }
  }

  lemma EnteredIs(w: M.World<Channel, Connection>, k: Channel, c: Connection,
                  ch: M.Chan<Connection>, conn: map<Connection, M.Conn<Channel>>)
    requires k in w.chan && c in w.conn
    requires var conn0 := w.conn[c := w.conn[c].(at := Some(k))];
             var ch0 := w.chan[k].(members := [c] + w.chan[k].members, count := w.chan[k].count + 1);
             (ch, conn) == if ch0.opr.Some? then (ch0, conn0) else M.Choose(ch0, conn0, w.auth, Some(c))
    ensures M.Entered(w, k, c) == w.(chan := w.chan[k := ch], conn := conn)
  {
    hide M.Choose;
  }

  lemma ShapeHasNoRepeats(w: M.World<Channel, Connection>)
    requires I.Shape(w)
    ensures NoRepeat(w.channels)
  {
  }

  lemma EnteredTwice(w: M.World<Channel, Connection>, k: Channel, c: Connection)
    requires k in w.chan && c in w.conn
    ensures M.Entered(w.(conn := w.conn[c := w.conn[c].(at := Some(k))]), k, c) == M.Entered(w, k, c)
    ensures M.Banned(w.chan[k], w.conn[c].(at := Some(k))) == M.Banned(w.chan[k], w.conn[c])
  {
    hide M.Choose;
    var put := w.conn[c].(at := Some(k));
    assert w.conn[c := put][c := put] == w.conn[c := put];
  }

  lemma InAndOut(conn: map<Connection, M.Conn<Channel>>, c: Connection, k: Channel)
    requires c in conn && conn[c].at == None
    ensures var put := conn[c := conn[c].(at := Some(k))];
            put[c := put[c].(at := None)] == conn
  {
  }

  lemma CreatedHasIt(w: M.World<Channel, Connection>, k: Channel, info: M.Info, permanent: bool)
    ensures k in M.Created(w, k, info, permanent).chan
    ensures M.Created(w, k, info, permanent).conn == w.conn
  {
  }

  function Infos(channels: seq<Channel>): (infos: seq<M.Info>)
    ensures |infos| == |channels| && forall i | 0 <= i < |infos| :: infos[i] == channels[i].info
  {
    seq(|channels|, i requires 0 <= i < |channels| => channels[i].info)
  }

  lemma CreatedKeepsInitial(w: M.World<Channel, Connection>, k: Channel, info: M.Info)
    requires I.Initial(w) && k !in w.channels && !M.NameTaken(w.chan, w.channels, info.name)
    ensures I.Initial(M.Created(w, k, info, true))
  {
  }

  lemma FindConnIgnoresChannels(a: M.World<Channel, Connection>, b: M.World<Channel, Connection>, who: string)
    requires a.accounts == b.accounts && a.conns == b.conns && a.conn == b.conn
    ensures M.FindConn(a, who) == M.FindConn(b, who)
  {
  }

  lemma BanKeepsWired(w: M.World<Channel, Connection>, k: Channel, dest: string)
    requires I.Shape(w) && I.ChansOk(w) && I.Linked(w) && k in w.chan
    ensures var v := w.(chan := w.chan[k := M.WithBan(w.chan[k], dest)]);
            I.Shape(v) && I.ChansOk(v) && I.Linked(v)
  {
    I.BanIsRetouch(w, k, dest);
    I.RetouchedKeepsLinks(w, w.(chan := w.chan[k := M.WithBan(w.chan[k], dest)]), k);
  }

  lemma InvHasNoRepeats(w: M.World<Channel, Connection>)
    requires I.Inv(w)
    ensures NoRepeat(w.conns)
  {
  }

  lemma StaysOut(w: M.World<Channel, Connection>, c: Connection)
    requires c in w.conn && w.conn[c].at.None?
    ensures M.Left(w, c) == w
  {
  }

  lemma LeftIs(w: M.World<Channel, Connection>, c: Connection, k: Channel,
               ch: M.Chan<Connection>, conn: map<Connection, M.Conn<Channel>>)
    requires c in w.conn && w.conn[c].at == Some(k) && k in w.chan && c in conn
    requires (ch, conn) == M.Parted(w.chan[k], w.conn, w.auth, c)
    ensures M.Left(w, c) ==
            if ch.members == [] && !ch.permanent then
              w.(channels := Without(w.channels, k), chan := w.chan - {k}, conn := conn[c := conn[c].(at := None)])
            else w.(chan := w.chan[k := ch], conn := conn[c := conn[c].(at := None)])
  {
    hide M.Parted;
  }

  lemma {:induction false} CutOut<T>(s: seq<T>, x: T, i: nat)
    requires i < |s| && s[i] == x && x !in s[..i]
    ensures Without(s, x) == s[..i] + s[i + 1..]
  {
    if i > 0 {
      assert s[..i][0] == s[0];
      assert x !in s[1..][..i - 1] by {
        assert s[1..][..i - 1] == s[..i][1..];
      }
      CutOut(s[1..], x, i - 1);
      assert s[..i] + s[i + 1..] == [s[0]] + (s[1..][..i - 1] + s[1..][i..]);
    }
  }
}
