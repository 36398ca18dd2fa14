/** The channel system as values: channels, connections and accounts that name each other, and
    what joining, leaving and the operator commands make of them (src/bnetd/channel.c,
    conn_set_channel in src/bnetd/connection.c, src/bnetd/command.c).

    `K` names channels and `C` names connections; Channels.dfy uses the objects themselves. */
module ChannelModel {
  import opened Lists
  import opened Text
  import opened Numbers
  import opened AccountIndex

  /** The account settings that matter here: administrator, operator of any channel that allows
      it, and operator of particular channels (folded names). */
  datatype Auth = Auth(admin: bool, operator: bool, operatorOf: set<string>)

  datatype Conn<K> = Conn(
    account: Option<Entry>, bot: bool, country: Option<string>, realm: Option<string>,
    at: Option<K>, gavel: bool)

  /** What is fixed when a channel is created; a negative `limit` means no limit. */
  datatype Info = Info(
    name: string, shortname: Option<string>, tag: Option<string>, country: Option<string>,
    realm: Option<string>, allowBots: bool, allowOpers: bool, logged: bool, limit: int)

  /** A channel; members are in list order, newest first. */
  datatype Chan<C> = Chan(
    info: Info, permanent: bool, members: seq<C>, count: nat,
    opr: Option<C>, next: Option<C>, bans: seq<string>)

  datatype World<K, C> = World(
    channels: seq<K>, chan: map<K, Chan<C>>, conns: seq<C>, conn: map<C, Conn<K>>,
    accounts: seq<Entry>, auth: map<Entry, Auth>)

  function AuthOf(auth: map<Entry, Auth>, e: Entry): Auth {
    if e in auth then auth[e] else Auth(false, false, {})
  }

  // --------------------------------------------------------------- operator

  /** Whether the account of a member entitles it to be operator of the channel. */
  predicate Entitled<K>(info: Info, c: Conn<K>, auth: map<Entry, Auth>) {
    c.account.Some? &&
    var a := AuthOf(auth, c.account.value);
    Fold(info.name) in a.operatorOf || (info.allowOpers && a.operator)
  }

  /** A member that the loop of channel_choose_operator would take: not the present operator, not
      passed over in favour of `tryop`, and entitled. */
  predicate Candidate<K, C(==)>(ch: Chan<C>, conn: map<C, Conn<K>>, auth: map<Entry, Auth>, tryop: Option<C>, c: C) {
    && Some(c) != ch.opr
    && (tryop.None? || tryop == Some(c))
    && c in conn && Entitled(ch.info, conn[c], auth)
  }

  /** The oldest candidate of a member list kept newest first. */
  function Oldest<K, C(==)>(ch: Chan<C>, conn: map<C, Conn<K>>, auth: map<Entry, Auth>, tryop: Option<C>,
                            members: seq<C>): Option<C>
  {
    if members == [] then None
    else
      var last := |members| - 1;
      if Candidate(ch, conn, auth, tryop, members[last]) then Some(members[last])
      else Oldest(ch, conn, auth, tryop, members[..last])
  }

  /** Who is operator after channel_choose_operator, before "nobody else" is considered. */
  function Chosen<K, C(==)>(ch: Chan<C>, conn: map<C, Conn<K>>, auth: map<Entry, Auth>, tryop: Option<C>): Option<C> {
    if ch.next.Some? then ch.next
    else
      var c := Oldest(ch, conn, auth, tryop, ch.members);
      if c.Some? then c else ch.opr
  }

  function Flagged<K, C(==)>(conn: map<C, Conn<K>>, c: Option<C>, gavel: bool): map<C, Conn<K>> {
    if c.Some? && c.value in conn then conn[c.value := conn[c.value].(gavel := gavel)] else conn
  }

  /** channel_choose_operator: the channel and the connections afterwards. */
  function Choose<K, C(==)>(ch: Chan<C>, conn: map<C, Conn<K>>, auth: map<Entry, Auth>, tryop: Option<C>)
      : (Chan<C>, map<C, Conn<K>>) {
    var opr := Chosen(ch, conn, auth, tryop);
    if tryop.Some? && opr != tryop then (ch.(opr := opr, next := None), conn)
    else
      var final := if opr == ch.opr then None else opr;
      (ch.(opr := final, next := None), Flagged(Flagged(conn, ch.opr, false), final, true))
  }

  // --------------------------------------------------------- joining, leaving

  predicate Banned<K, C>(ch: Chan<C>, c: Conn<K>) {
    || (!ch.info.allowBots && c.bot)
    || (c.account.Some? && exists i | 0 <= i < |ch.bans| :: Denotes(ch.bans[i], c.account.value))
  }

  /** channel_add_connection for a connection that is let in. */
  function Entered<K(==), C(==)>(w: World<K, C>, k: K, c: C): World<K, C>
    requires k in w.chan && c in w.conn
  {
    var conn := w.conn[c := w.conn[c].(at := Some(k))];
    var ch := w.chan[k].(members := [c] + w.chan[k].members, count := w.chan[k].count + 1);
    if ch.opr.Some? then w.(chan := w.chan[k := ch], conn := conn)
    else
      var (ch', conn') := Choose(ch, conn, w.auth, Some(c));
      w.(chan := w.chan[k := ch'], conn := conn')
  }

  /** channel_del_connection on the channel alone: unlink, forget a designation, and find a
      successor if the operator left. */
  function Parted<K, C(==)>(ch: Chan<C>, conn: map<C, Conn<K>>, auth: map<Entry, Auth>, c: C)
      : (Chan<C>, map<C, Conn<K>>)
  {
    if c !in ch.members || ch.count == 0 then (ch, conn)
    else
    var rest := ch.(members := Without(ch.members, c), count := ch.count - 1,
                    next := if ch.next == Some(c) then None else ch.next);
    if ch.opr == Some(c) then Choose(rest, conn, auth, None) else (rest, conn)
  }

  /** Leaving: an empty channel that is not permanent goes away. */
  function Left<K(==), C(==)>(w: World<K, C>, c: C): (r: World<K, C>)
    requires c in w.conn
    ensures c in r.conn
  {
    if w.conn[c].at.None? || w.conn[c].at.value !in w.chan then w
    else
      var k := w.conn[c].at.value;
      var (ch, conn) := Parted(w.chan[k], w.conn, w.auth, c);
      var conn' := conn[c := (if c in conn then conn[c] else w.conn[c]).(at := None)];
      if ch.members == [] && !ch.permanent then
        w.(channels := Without(w.channels, k), chan := w.chan - {k}, conn := conn')
      else w.(chan := w.chan[k := ch], conn := conn')
  }

  // ------------------------------------------------------------ finding by name

  datatype Scan<K> = Hit(k: K) | End(full: nat, template: Option<Info>)

  predicate HasRoom<C>(ch: Chan<C>) {
    ch.info.limit < 0 || ch.count < ch.info.limit
  }

  predicate ShortMatch(info: Info, name: string) {
    info.shortname.Some? && SameText(info.shortname.value, name)
  }

  predicate SamePlace(info: Info, country: Option<string>, realm: Option<string>) {
    info.country == country && info.realm == realm
  }

  function Template(info: Info, country: Option<string>, realm: Option<string>): Info {
    info.(country := if country.Some? then country else info.country,
          realm := if realm.Some? then realm else info.realm)
  }

  /** The traversal of channellist_find_channel_by_name over the rest of the channel list. */
  function ScanFrom<K, C>(chan: map<K, Chan<C>>, rest: seq<K>, name: string, country: Option<string>,
                          realm: Option<string>, full: nat, template: Option<Info>): Scan<K> {
    if rest == [] then End(full, template)
    else if rest[0] !in chan then ScanFrom(chan, rest[1..], name, country, realm, full, template)
    else
      var ch := chan[rest[0]];
      if SameText(ch.info.name, name) then Hit(rest[0])
      else if !ShortMatch(ch.info, name) then ScanFrom(chan, rest[1..], name, country, realm, full, template)
      else if SamePlace(ch.info, country, realm) && HasRoom(ch) then Hit(rest[0])
      else
        ScanFrom(chan, rest[1..], name, country, realm,
                 full + if SamePlace(ch.info, country, realm) then 1 else 0,
                 Some(Template(ch.info, country, realm)))
  }

  /** "%s %s %s-%d": realm, short name, country and instance number. */
  function FormatName(info: Info, n: nat): string
    requires info.shortname.Some?
  {
    (if info.realm.Some? then info.realm.value + " " else "") + info.shortname.value +
    (if info.country.Some? then " " + info.country.value else "") + "-" + Decimal(n)
  }

  /** channellist_find_channel_by_fullname, as a test. */
  predicate NameTaken<K, C>(chan: map<K, Chan<C>>, channels: seq<K>, name: string) {
    exists i | 0 <= i < |channels| :: channels[i] in chan && SameText(chan[channels[i]].info.name, name)
  }

  /** The argument checks of channel_create. */
  predicate Creatable(info: Info) {
    && info.name != []
    && (info.shortname.Some? ==> info.shortname.value != [])
    && (info.tag.Some? ==> |info.tag.value| == 4)
  }

  function Created<K(==), C>(w: World<K, C>, k: K, info: Info, permanent: bool): World<K, C> {
    w.(channels := [k] + w.channels, chan := w.chan[k := Chan(info, permanent, [], 0, None, None, [])])
  }

  predicate NameListed(infos: seq<Info>, name: string) {
    exists i | 0 <= i < |infos| :: SameText(infos[i].name, name)
  }

  /** A line of the channel file: a missing name is made up from the short name. */
  function FullInfo(name: Option<string>, info: Info): Option<Info> {
    if name.Some? then Some(info.(name := name.value))
    else if info.shortname.Some? then Some(info.(name := FormatName(info, 1)))
    else None
  }

  /** The permanent channels once a line has been read: of those with one name only the first is made. */
  function WithLine(before: seq<Info>, name: Option<string>, line: Info): seq<Info> {
    var info := FullInfo(name, line);
    if info.Some? && Creatable(info.value) && !NameListed(before, info.value.name) then [info.value] + before
    else before
  }

  /** What the whole file makes, newest first. */
  function Listed(lines: seq<(Option<string>, Info)>): seq<Info> {
    if lines == [] then []
    else
      var last := lines[|lines| - 1];
      WithLine(Listed(lines[..|lines| - 1]), last.0, last.1)
  }

  function TemporaryInfo(name: string, logged: bool): Info {
    Info(name, Some(name), None, None, None, true, true, logged, -1)
  }

  /** The channel a join by name ends in, created under the name `spare` if need be. */
  datatype Target<K> = Existing(k: K) | Made(info: Info, permanent: bool) | Nothing

  function TargetOf<K, C>(w: World<K, C>, c: Conn<K>, name: string, logged: bool): Target<K> {
    match ScanFrom(w.chan, w.channels, name, c.country, c.realm, 0, None)
    case Hit(k) => Existing(k)
    case End(full, template) =>
      var copy := if template.Some? && template.value.shortname.Some?
                  then Some(template.value.(name := FormatName(template.value, full + 1))) else None;
      if copy.Some? && Creatable(copy.value) && !NameTaken(w.chan, w.channels, copy.value.name) then
        Made(copy.value, true)
      else if Creatable(TemporaryInfo(name, logged)) then Made(TemporaryInfo(name, logged), false)
      else Nothing
  }

  /** conn_set_channel: leave, then join by name if there is one. A channel made on the way is
      called `spare`; it stays, if permanent, even when the connection is then kept out. */
  function SetChannel<K(==), C(==)>(w: World<K, C>, c: C, name: Option<string>, spare: Option<K>, logged: bool)
      : (World<K, C>, bool)
    requires c in w.conn
  {
    var v := Left(w, c);
    if name.None? then (v, true)
    else
      match TargetOf(v, v.conn[c], name.value, logged)
      case Existing(k) => if k in v.chan then Admitted(v, k, c) else (v, false)
      case Made(info, permanent) =>
        if spare.None? then (v, false) else Admitted(Created(v, spare.value, info, permanent), spare.value, c)
      case Nothing => (v, false)
  }

  function Admitted<K(==), C(==)>(w: World<K, C>, k: K, c: C): (World<K, C>, bool)
    requires k in w.chan && c in w.conn
  {
    if Banned(w.chan[k], w.conn[c]) then (w, false) else (Entered(w, k, c), true)
  }

  // ---------------------------------------------------------------- commands

  const VOID := "THE VOID"

  /** accountlist_find_account; AccountIndex shows that the hash table gives the same answer. */
  function FindAccount(accounts: seq<Entry>, who: string): Option<Entry> {
    if accounts == [] then None
    else if Denotes(who, accounts[0]) then Some(accounts[0])
    else FindAccount(accounts[1..], who)
  }

  function FirstUsing<K, C>(conn: map<C, Conn<K>>, conns: seq<C>, e: Entry): Option<C> {
    if conns == [] then None
    else if conns[0] in conn && conn[conns[0]].account == Some(e) then Some(conns[0])
    else FirstUsing(conn, conns[1..], e)
  }

  /** connlist_find_connection. */
  function FindConn<K, C>(w: World<K, C>, who: string): Option<C> {
    var e := FindAccount(w.accounts, who);
    if e.None? then None else FirstUsing(w.conn, w.conns, e.value)
  }

  predicate IsAdmin<K, C>(w: World<K, C>, c: Conn<K>) {
    c.account.Some? && AuthOf(w.auth, c.account.value).admin
  }

  /** The account is marked as an administrator's. */
  ghost predicate Administers(auth: map<Entry, Auth>, account: Option<Entry>) {
    account.Some? && account.value in auth && auth[account.value].admin
  }

  /** The channel `c` may give orders in: it is in it, and administrator or operator. */
  function Commands<K(==), C(==)>(w: World<K, C>, c: C): Option<K>
    requires c in w.conn
  {
    var at := w.conn[c].at;
    if at.Some? && at.value in w.chan && (IsAdmin(w, w.conn[c]) || w.chan[at.value].opr == Some(c)) then at else None
  }

  function Designate<K(==), C(==)>(w: World<K, C>, c: C, who: string): World<K, C>
    requires c in w.conn
  {
    var k, noc := Commands(w, c), FindConn(w, who);
    if k.None? || who == [] || noc.None? || noc.value !in w.conn || w.conn[noc.value].at != k
       || w.chan[k.value].opr == noc
    then w
    else w.(chan := w.chan[k.value := w.chan[k.value].(next := noc)])
  }

  function Resign<K(==), C(==)>(w: World<K, C>, c: C): World<K, C>
    requires c in w.conn
  {
    var at := w.conn[c].at;
    if at.None? || at.value !in w.chan || w.chan[at.value].opr != Some(c) then w
    else
      var (ch, conn) := Choose(w.chan[at.value], w.conn, w.auth, None);
      w.(chan := w.chan[at.value := ch], conn := conn)
  }

  /** The member a /kick removes, if the command gets that far. */
  function KickTarget<K(==), C(==)>(w: World<K, C>, c: C, dest: string): Option<C>
    requires c in w.conn
  {
    var k, kuc := Commands(w, c), FindConn(w, dest);
    if k.None? || dest == [] || kuc.None? || kuc.value !in w.conn || w.conn[kuc.value].at != k
       || IsAdmin(w, w.conn[kuc.value])
    then None
    else kuc
  }

  function Kick<K(==), C(==)>(w: World<K, C>, c: C, dest: string, spare: Option<K>, logged: bool): World<K, C>
    requires c in w.conn
  {
    var kuc := KickTarget(w, c, dest);
    if kuc.None? then w else SetChannel(w, kuc.value, Some(VOID), spare, logged).0
  }

  /** channel_ban_user: nobody is banned from the channel banned users are sent to. */
  function WithBan<C>(ch: Chan<C>, who: string): Chan<C> {
    if SameText(ch.info.name, VOID) || HasText(ch.bans, who) then ch else ch.(bans := ch.bans + [who])
  }

  predicate HasText(s: seq<string>, t: string) {
    exists i | 0 <= i < |s| :: SameText(s[i], t)
  }

  /** The channel a /ban is about, if the command gets that far: administrators cannot be banned. */
  function BanTarget<K(==), C(==)>(w: World<K, C>, c: C, dest: string): (k: Option<K>)
    requires c in w.conn
    ensures k.Some? ==> k.value in w.chan
  {
    var k, e := Commands(w, c), FindAccount(w.accounts, dest);
    if k.None? || dest == [] || (e.Some? && AuthOf(w.auth, e.value).admin) then None else k
  }

  function Ban<K(==), C(==)>(w: World<K, C>, c: C, dest: string, spare: Option<K>, logged: bool): World<K, C>
    requires c in w.conn
  {
    var k := BanTarget(w, c, dest);
    if k.None? then w else BanFrom(w, k.value, dest, spare, logged)
  }

  function WithBanIn<K(==), C>(w: World<K, C>, k: K, dest: string): World<K, C>
    requires k in w.chan
  {
    w.(chan := w.chan[k := WithBan(w.chan[k], dest)])
  }

  /** The connection a ban sends away: the one the text finds, if it is in the channel. */
  function Expelled<K(==), C(==)>(w: World<K, C>, k: K, dest: string): Option<C> {
    var buc := FindConn(w, dest);
    if buc.Some? && buc.value in w.conn && w.conn[buc.value].at == Some(k) then buc else None
  }

  function BanFrom<K(==), C(==)>(w: World<K, C>, k: K, dest: string, spare: Option<K>, logged: bool): World<K, C>
    requires k in w.chan
  {
    var v, buc := WithBanIn(w, k, dest), Expelled(w, k, dest);
    if buc.Some? && buc.value in v.conn then SetChannel(v, buc.value, Some(VOID), spare, logged).0 else v
  }

  /** channel_unban_user: the first entry that matches ignoring case goes. */
  function WithoutText(s: seq<string>, t: string): seq<string> {
    if s == [] then [] else if SameText(s[0], t) then s[1..] else [s[0]] + WithoutText(s[1..], t)
  }

  function Unban<K(==), C(==)>(w: World<K, C>, c: C, who: string): World<K, C>
    requires c in w.conn
  {
    var k := Commands(w, c);
    if k.None? || who == [] then w
    else
      var ch := w.chan[k.value];
      w.(chan := w.chan[k.value := ch.(bans := WithoutText(ch.bans, who))])
  }

  /** conn_destroy. */
  function Disconnect<K(==), C(==)>(w: World<K, C>, c: C): World<K, C>
    requires c in w.conn
  {
    var v := Left(w, c);
    v.(conns := Without(v.conns, c), conn := v.conn - {c})
  }

  /** The connection found by the account's name is on its way out and counts as gone. */
  function Relieved<K(==), C(==)>(w: World<K, C>, e: Entry): World<K, C> {
    var other := FindConn(w, e.name);
    if other.Some? && other.value in w.conn then Disconnect(w, other.value) else w
  }

  /** Of a connection's flag word only the bit MF_GAVEL is modelled. */
  const MF_GAVEL := 2

  predicate HasGavel(flags: nat) {
    flags / MF_GAVEL % 2 == 1
  }

  /** The bit of weight two. */
  ghost predicate GavelBit(flags: nat) {
    flags % 4 >= 2
  }

  lemma GavelBitIs()
    ensures forall flags: nat :: HasGavel(flags) <==> GavelBit(flags)
  {
  }

  /** The account's initial flags are added to those the connection has. */
  function Attached<K(==), C(==)>(w: World<K, C>, c: C, e: Entry, initial: nat): World<K, C> {
    if c in w.conn then
      w.(conn := w.conn[c := w.conn[c].(account := Some(e), gavel := w.conn[c].gavel || HasGavel(initial))])
    else w
  }

  /** conn_set_account: the account moves from the connection that had it to the new one. */
  function LoggedIn<K(==), C(==)>(w: World<K, C>, c: C, e: Entry, initial: nat): World<K, C> {
    Attached(Relieved(w, e), c, e, initial)
  }

  /** /flag: an administrator's own flags are replaced. */
  function WithFlags<K(==), C(==)>(w: World<K, C>, c: C, newflag: nat): World<K, C>
    requires c in w.conn
  {
    if IsAdmin(w, w.conn[c]) then w.(conn := w.conn[c := w.conn[c].(gavel := HasGavel(newflag))]) else w
  }

  // -------------------------------------------------------------------- runs

  datatype Op<K, C> =
    | Register(account: Entry)
    | Authorize(account: Entry, auth: Auth)
    | Connect(c: C, bot: bool, country: Option<string>, realm: Option<string>)
    | Place(c: C, country: Option<string>, realm: Option<string>)
    | Classify(c: C, bot: bool)
    | Login(c: C, account: Entry, initial: nat)
    | FlagOp(c: C, newflag: nat)
    | Join(c: C, name: string, spare: K)
    | Leave(c: C)
    | DesignateOp(c: C, who: string)
    | ResignOp(c: C)
    | KickOp(c: C, who: string, spare: K)
    | BanOp(c: C, who: string, spare: K)
    | UnbanOp(c: C, who: string)
    | Close(c: C)

  /** When an operation can happen: `spare` names no channel yet, a new account has a new name and
      uid, a connection shows what class it is before it logs in, and a login is from outside any channel
      to a listed account that answers to its name. */
  ghost predicate Allowed<K, C>(w: World<K, C>, op: Op<K, C>) {
    match op
    case Register(e) => forall a | a in w.accounts :: a.uid != e.uid && !SameText(a.name, e.name)
    case Authorize(_, _) => true
    case Connect(c, _, _, _) => c !in w.conn
    case Classify(c, _) => c in w.conn && w.conn[c].account == None && w.conn[c].at == None
    case Login(c, e, _) =>
      c in w.conn && w.conn[c].account == None && w.conn[c].at == None && e in w.accounts && Denotes(e.name, e)
    case Join(c, _, spare) => c in w.conn && spare !in w.chan
    case KickOp(c, _, spare) => c in w.conn && spare !in w.chan
    case BanOp(c, _, spare) => c in w.conn && spare !in w.chan
    case _ => op.c in w.conn
  }

  function Step<K(==), C(==)>(w: World<K, C>, op: Op<K, C>, logged: bool): World<K, C>
    requires Allowed(w, op)
  {
    match op
    case Register(e) => w.(accounts := [e] + w.accounts)
    case Authorize(e, a) => w.(auth := w.auth[e := a])
    case Connect(c, bot, country, realm) =>
      w.(conns := [c] + w.conns, conn := w.conn[c := Conn(None, bot, country, realm, None, false)])
    case Place(c, country, realm) => w.(conn := w.conn[c := w.conn[c].(country := country, realm := realm)])
    case Classify(c, bot) => w.(conn := w.conn[c := w.conn[c].(bot := bot)])
    case Login(c, e, initial) => LoggedIn(w, c, e, initial)
    case FlagOp(c, newflag) => WithFlags(w, c, newflag)
    case Join(c, name, spare) => SetChannel(w, c, Some(name), Some(spare), logged).0
    case Leave(c) => Left(w, c)
    case DesignateOp(c, who) => Designate(w, c, who)
    case ResignOp(c) => Resign(w, c)
    case KickOp(c, who, spare) => Kick(w, c, who, Some(spare), logged)
    case BanOp(c, who, spare) => Ban(w, c, who, Some(spare), logged)
    case UnbanOp(c, who) => Unban(w, c, who)
    case Close(c) => Disconnect(w, c)
  }
}
