/** The network-wide list of logged-in users that every BITS server keeps: a doubly linked list with the
    newest login in front, and the session ids its master hands out (src/bnetd/bits_login.c). */
module LoginList {
  import opened Numbers
  import opened Text

  const USER_NAME_MAX := 16

  datatype Login = Login(uid: nat, loginhost: nat, sessionid: nat, clienttag: string, gameAddr: nat, gamePort: nat,
                         chatname: string, playerinfo: Option<string>)

  // ------------------------------------------------------------ the list as a value

  /** Where the first login with session id `id` stands, or the length. */
  function FirstSession(s: seq<Login>, id: nat): (k: nat)
    ensures k <= |s| && (k < |s| ==> s[k].sessionid == id)
    ensures forall j | 0 <= j < k :: s[j].sessionid != id
  {
    if s == [] || s[0].sessionid == id then 0 else 1 + FirstSession(s[1..], id)
  }

  function FirstNamed(s: seq<Login>, name: string): (k: nat)
    ensures k <= |s| && (k < |s| ==> SameText(s[k].chatname, name))
    ensures forall j | 0 <= j < k :: !SameText(s[j].chatname, name)
  {
    if s == [] || SameText(s[0].chatname, name) then 0 else 1 + FirstNamed(s[1..], name)
  }

  predicate HasUid(s: seq<Login>, uid: nat) {
    exists i | 0 <= i < |s| :: s[i].uid == uid
  }

  predicate UidsDistinct(s: seq<Login>) {
    forall i, j | 0 <= i < j < |s| :: s[i].uid != s[j].uid
  }

  function WithoutAt<T>(s: seq<T>, k: nat): seq<T> {
    if k < |s| then s[..k] + s[k + 1..] else s
  }

  // ------------------------------------------------------------ the list on the heap

  class Entry {
    var prev: Entry?
    var next: Entry?
    var login: Login

    constructor (login: Login, next: Entry?)
      ensures this.login == login && this.next == next && prev == null
    {
      this.login, this.next, prev := login, next, null;
    }
  }

  function Values(nodes: seq<Entry>): (s: seq<Login>)
    reads nodes
    ensures |s| == |nodes|
    ensures forall i | 0 <= i < |nodes| :: s[i] == nodes[i].login
  {
    if nodes == [] then [] else [nodes[0].login] + Values(nodes[1..])
  }

  /** The node at place `i` of the chain; off either end there is none. */
  function At(nodes: seq<Entry>, i: int): Entry? {
    if 0 <= i < |nodes| then nodes[i] else null
  }

  ghost predicate Linked(nodes: seq<Entry>)
    reads nodes
  {
    && (forall i {:trigger nodes[i].next} | 0 <= i < |nodes| :: nodes[i].next == At(nodes, i + 1))
    && (forall i {:trigger nodes[i].prev} | 0 <= i < |nodes| :: nodes[i].prev == At(nodes, i - 1))
    && (forall i, j | 0 <= i < j < |nodes| :: nodes[i] != nodes[j])
  }

  lemma Neighbours(nodes: seq<Entry>, i: nat)
    requires Linked(nodes) && i < |nodes|
    ensures nodes[i].next == At(nodes, i + 1) && nodes[i].prev == At(nodes, i - 1)
  {
  }

  /** The links as they are once the neighbours of node `i` point past it. */
  ghost predicate Bypassed(nodes: seq<Entry>, i: nat)
    reads nodes
  {
    && (forall m {:trigger nodes[m].next} | 0 <= m < |nodes| && m != i ::
          nodes[m].next == At(nodes, if m == i - 1 then i + 1 else m + 1))
    && (forall m {:trigger nodes[m].prev} | 0 <= m < |nodes| && m != i ::
          nodes[m].prev == At(nodes, if m == i + 1 then i - 1 else m - 1))
    && (forall m, n | 0 <= m < n < |nodes| :: nodes[m] != nodes[n])
  }

  lemma BypassedIsLinked(nodes: seq<Entry>, i: nat)
    requires Bypassed(nodes, i) && i < |nodes|
    ensures Linked(WithoutAt(nodes, i))
    ensures At(WithoutAt(nodes, i), 0) == At(nodes, if i == 0 then 1 else 0)
  {
    var rest := WithoutAt(nodes, i);
    forall k | 0 <= k < |rest|
      ensures rest[k].next == At(rest, k + 1) && rest[k].prev == At(rest, k - 1)
    {
      var m := if k < i then k else k + 1;
      assert rest[k] == nodes[m];
      assert nodes[m].next == At(nodes, if m == i - 1 then i + 1 else m + 1);
      assert nodes[m].prev == At(nodes, if m == i + 1 then i - 1 else m - 1);
    }
  }

  lemma FreshUid(login: Login, s: seq<Login>)
    requires UidsDistinct(s) && !HasUid(s, login.uid)
    ensures UidsDistinct([login] + s)
  {
  }

  lemma Removed(s: seq<Login>, t: seq<Login>, k: nat)
    requires k < |s| && |t| == |s| - 1
    requires forall i | 0 <= i < |t| :: t[i] == s[if i < k then i else i + 1]
    ensures t == WithoutAt(s, k)
  {
  }

  lemma StillDistinct(s: seq<Login>, k: nat)
    requires UidsDistinct(s)
    ensures UidsDistinct(WithoutAt(s, k))
  {
  }

  /** `k` steps along `next`, or along `prev`, within `all`. */
  ghost function Along(e: Entry?, k: nat, forward: bool, all: set<Entry>): Entry?
    reads all
  {
    if k == 0 || e == null || e !in all then e else Along(if forward then e.next else e.prev, k - 1, forward, all)
  }

  class LoginList {
    var head: Entry?
    var currentSessionid: nat
    ghost var nodes: seq<Entry>

    ghost predicate Valid()
      reads this, nodes
    {
      && head == At(nodes, 0)
      && Linked(nodes)
      && UidsDistinct(Values(nodes))
      && currentSessionid < UINT_LIMIT
    }

    ghost function World(): Master
      reads this, nodes
    {
      Master(Contents(), currentSessionid)
    }

    ghost function Contents(): (s: seq<Login>)
      reads this, nodes
    {
      Values(nodes)
    }

    constructor ()
      ensures Valid() && Contents() == [] && currentSessionid == 1
    {
      head, currentSessionid, nodes := null, 1, [];
    }

    /** Puts a node that already points at the old head in front of it. */
    method PushFront(lle: Entry)
      requires head == At(nodes, 0) && Linked(nodes) && lle !in nodes && lle.next == head && lle.prev == null
      modifies `head, `nodes, nodes
      ensures head == lle && nodes == [lle] + old(nodes) && Linked(nodes)
      ensures lle.login == old(lle.login) && forall e | e in old(nodes) :: e.login == old(e.login)
    {
      if lle.next != null {
        lle.next.prev := lle;
      }
      head := lle;
      ghost var was := nodes;
      nodes := [lle] + was;
      forall i | 0 <= i < |nodes|
        ensures nodes[i].next == At(nodes, i + 1) && nodes[i].prev == At(nodes, i - 1)
      {
        if i > 0 {
          assert nodes[i] == was[i - 1] && nodes[i].next == At(was, i);
          assert i > 1 ==> was[i - 1] != was[0] && nodes[i].prev == was[i - 2];
        }
      }
    }

    /** Joins the neighbours of node `i` to each other. */
    method Unlink(lle: Entry, ghost i: nat)
      requires head == At(nodes, 0) && Linked(nodes) && lle == At(nodes, i)
      modifies `head, `nodes, nodes
      ensures nodes == WithoutAt(old(nodes), i)
      ensures head == At(nodes, 0) && Linked(nodes)
      ensures forall e | e in old(nodes) :: e.login == old(e.login)
    {
      if lle.prev == null {
        head := lle.next;
      } else {
        lle.prev.next := lle.next;
      }
      if lle.next != null {
        lle.next.prev := lle.prev;
      }
      assert Bypassed(nodes, i);
      BypassedIsLinked(nodes, i);
      nodes := WithoutAt(nodes, i);
    }

    /** 1 and no change if the uid is logged in already; otherwise the login goes in front. */
    method Add(login: Login) returns (rc: int)
      requires Valid()
      modifies this, nodes
      ensures Valid() && fresh(set e | e in nodes && e !in old(nodes))
      ensures rc == (if HasUid(old(Contents()), login.uid) then 1 else 0)
      ensures Contents() == if rc == 0 then [Entered(login)] + old(Contents()) else old(Contents())
      ensures currentSessionid == old(currentSessionid)
    {
      hide Values, FirstSession, Linked, UidsDistinct;
      var lle := head;
      ghost var i := 0;
      while lle != null
        invariant 0 <= i <= |nodes| && lle == At(nodes, i)
        invariant unchanged(this) && unchanged(nodes)
        invariant forall j | 0 <= j < i :: nodes[j].login.uid != login.uid
        decreases |nodes| - i
      {
        if lle.login.uid == login.uid {
          assert Contents()[i].uid == login.uid;
          return 1;
        }
        Neighbours(nodes, i);
        lle, i := lle.next, i + 1;
      }
      lle := new Entry(Entered(login), head);
      PushFront(lle);
      assert Contents() == [Entered(login)] + old(Contents());
      FreshUid(Entered(login), old(Contents()));
      return 0;
    }

    /** Takes out the first login with the session id, 0; 1 if there is none. */
    method Del(sessionid: nat) returns (rc: int)
      requires Valid()
      modifies this, nodes
      ensures Valid() && (forall e | e in nodes :: e in old(nodes))
      ensures rc == if FirstSession(old(Contents()), sessionid) < |old(Contents())| then 0 else 1
      ensures Contents() == WithoutAt(old(Contents()), FirstSession(old(Contents()), sessionid))
      ensures currentSessionid == old(currentSessionid)
    {
      hide Values, FirstSession, Linked, UidsDistinct;
      var lle := head;
      ghost var i := 0;
      while lle != null
        invariant 0 <= i <= |nodes| && lle == At(nodes, i)
        invariant unchanged(this) && unchanged(nodes)
        invariant forall j | 0 <= j < i :: nodes[j].login.sessionid != sessionid
        decreases |nodes| - i
      {
        if lle.login.sessionid == sessionid {
          assert FirstSession(Contents(), sessionid) == i;
          Unlink(lle, i);
          Removed(old(Contents()), Contents(), i);
          StillDistinct(old(Contents()), i);
          return 0;
        }
        Neighbours(nodes, i);
        lle, i := lle.next, i + 1;
      }
      return 1;
    }

    method BySessionid(sessionid: nat) returns (lle: Entry?)
      requires Valid()
      ensures lle == At(nodes, FirstSession(Contents(), sessionid))
    {
      lle := head;
      ghost var i := 0;
      while lle != null
        invariant 0 <= i <= |nodes| && lle == At(nodes, i)
        invariant forall j | 0 <= j < i :: nodes[j].login.sessionid != sessionid
        decreases |nodes| - i
      {
        if lle.login.sessionid == sessionid {
          return;
        }
        Neighbours(nodes, i);
        lle, i := lle.next, i + 1;
      }
    }

    method ByName(name: string) returns (lle: Entry?)
      requires Valid()
      ensures lle == At(nodes, FirstNamed(Contents(), name))
    {
      lle := head;
      ghost var i := 0;
      while lle != null
        invariant 0 <= i <= |nodes| && lle == At(nodes, i)
        invariant forall j | 0 <= j < i :: !SameText(nodes[j].login.chatname, name)
        decreases |nodes| - i
      {
        var same := StrCaseEqual(lle.login.chatname, name);
        if same {
          return;
        }
        Neighbours(nodes, i);
        lle, i := lle.next, i + 1;
      }
    }

    /** The next id; 0 is never given out because it stands for no session. */
    method FreeSessionid() returns (id: nat)
      requires Valid()
      modifies `currentSessionid
      ensures Valid() && Contents() == old(Contents()) && nodes == old(nodes)
      ensures id == (if old(currentSessionid) == 0 then 1 else old(currentSessionid))
      ensures currentSessionid == (id + 1) % UINT_LIMIT
    {
      hide Values, UidsDistinct, Linked;
      if currentSessionid == 0 {
        currentSessionid := currentSessionid + 1;
      }
      id := currentSessionid;
      currentSessionid := (currentSessionid + 1) % UINT_LIMIT;
    }

    /** What the master does with a login request for an account it knows. */
    method Login(login: Login) returns (rc: int)
      requires Valid()
      modifies this, nodes
      ensures Valid() && fresh(set e | e in nodes && e !in old(nodes))
      ensures World() == Step(old(World()), LoggedIn(login))
      ensures rc == 0 <==> !HasUid(old(Contents()), login.uid)
    {
      var sid := FreeSessionid();
      rc := Add(login.(sessionid := sid));
    }

    method Logout(sessionid: nat)
      requires Valid()
      modifies this, nodes
      ensures Valid() && (forall e | e in nodes :: e in old(nodes))
      ensures World() == Step(old(World()), LoggedOut(sessionid))
    {
      var rc := Del(sessionid);
    }

    /** Fills in what is known of the player of the first login with the session id; -1 if there is none. */
    method SetPlayerinfo(sessionid: nat, playerinfo: string) returns (rc: int)
      requires Valid()
      modifies nodes
      ensures Valid() && nodes == old(nodes)
      ensures
        var s, k := old(Contents()), FirstSession(old(Contents()), sessionid);
        && rc == (if k < |s| then 0 else -1)
        && Contents() == if k < |s| then s[k := s[k].(playerinfo := Some(playerinfo))] else s
    {
      hide Values, FirstSession;
      var lle := BySessionid(sessionid);
      if lle == null {
        return -1;
      }
      lle.login := lle.login.(playerinfo := Some(playerinfo));
      return 0;
    }
  }

  // ------------------------------------------------------------ the list following its pointers

  /** Forward links lead through the list in order and then off its end, backward links the other way. */
  lemma {:induction false} WalkIsList(nodes: seq<Entry>, i: int, k: nat, forward: bool)
    requires Linked(nodes) && -1 <= i <= |nodes|
    ensures Along(At(nodes, i), k, forward, set e | e in nodes) ==
            At(nodes, if 0 <= i < |nodes| then if forward then i + k else i - k else i)
    decreases k
  {
    if 0 <= i < |nodes| && k > 0 {
      Neighbours(nodes, i);
      WalkIsList(nodes, if forward then i + 1 else i - 1, k - 1, forward);
    }
  }

  /** No walk comes back to where it started, and every step is undone by one the other way. */
  lemma LinksAreInverseAndAcyclic(nodes: seq<Entry>, e: Entry, k: nat, forward: bool)
    requires Linked(nodes) && e in nodes && k > 0
    ensures
      var all := set n | n in nodes;
      var there := Along(e, k, forward, all);
      there != e && (there != null ==> Along(there, k, !forward, all) == e)
  {
    var i :| 0 <= i < |nodes| && nodes[i] == e;
    WalkIsList(nodes, i, k, forward);
    var j := if forward then i + k else i - k;
    if 0 <= j < |nodes| {
      WalkIsList(nodes, j, k, !forward);
    }
  }

  // ------------------------------------------------------------ session ids over whole runs

  /** The master's list and its counter. */
  datatype Master = Master(list: seq<Login>, counter: nat)

  datatype Event = LoggedIn(login: Login) | LoggedOut(sessionid: nat)

  function Drawn(counter: nat): nat {
    if counter == 0 then 1 else counter
  }

  /** A login request draws a session id even when the user turns out to be logged in already. */
  function Step(m: Master, e: Event): Master {
    match e
    case LoggedIn(l) =>
      var id := Drawn(m.counter);
      Master(if HasUid(m.list, l.uid) then m.list else [Entered(l.(sessionid := id))] + m.list, (id + 1) % UINT_LIMIT)
    case LoggedOut(id) =>
      Master(WithoutAt(m.list, FirstSession(m.list, id)), m.counter)
  }

  /** A state together with how many ids were drawn on the way to it, and which draw each listed login
      got its id from. */
  datatype Traced = Traced(m: Master, draws: nat, live: seq<nat>)

  function TracedStep(t: Traced, e: Event): Traced {
    match e
    case LoggedIn(l) =>
      Traced(Step(t.m, e), t.draws + 1, if HasUid(t.m.list, l.uid) then t.live else [t.draws] + t.live)
    case LoggedOut(id) =>
      Traced(Step(t.m, e), t.draws, WithoutAt(t.live, FirstSession(t.m.list, id)))
  }

  function Trace(events: seq<Event>): Traced {
    if events == [] then Traced(Master([], 1), 0, [])
    else TracedStep(Trace(events[..|events| - 1]), events[|events| - 1])
  }

  /** Ids count up from 1 and start over after the largest. */
  function IdOf(draw: nat): nat {
    draw % (UINT_LIMIT - 1) + 1
  }

  lemma IdsCountUp(draw: nat)
    ensures Drawn((IdOf(draw) + 1) % UINT_LIMIT) == IdOf(draw + 1)
  {
    if draw % (UINT_LIMIT - 1) == UINT_LIMIT - 2 {
      assert (draw + 1) % (UINT_LIMIT - 1) == 0;
    } else {
      assert (draw + 1) % (UINT_LIMIT - 1) == draw % (UINT_LIMIT - 1) + 1;
    }
  }

  /** Every listed login has the id of its draw, later draws stand in front, and uids differ. */
  ghost predicate IdsKept(t: Traced) {
    && Drawn(t.m.counter) == IdOf(t.draws)
    && |t.live| == |t.m.list|
    && (forall i | 0 <= i < |t.live| :: t.live[i] < t.draws && t.m.list[i].sessionid == IdOf(t.live[i]))
    && (forall i, j | 0 <= i < j < |t.live| :: t.live[i] > t.live[j])
    && UidsDistinct(t.m.list)
  }

  lemma LoginKeepsIds(t: Traced, l: Login)
    requires IdsKept(t)
    ensures IdsKept(TracedStep(t, LoggedIn(l)))
  {
    hide IdOf;
    IdsCountUp(t.draws);
  }

  lemma LogoutKeepsIds(t: Traced, id: nat)
    requires IdsKept(t)
    ensures IdsKept(TracedStep(t, LoggedOut(id)))
  {
    hide IdOf, FirstSession, UidsDistinct;
    var k := FirstSession(t.m.list, id);
    StillDistinct(t.m.list, k);
    var after := TracedStep(t, LoggedOut(id));
    forall i | 0 <= i < |after.live|
      ensures after.live[i] < t.draws && after.m.list[i].sessionid == IdOf(after.live[i])
    {
      var o := if i < k then i else i + 1;
      assert k < |t.live| ==> after.live[i] == t.live[o] && after.m.list[i] == t.m.list[o];
    }
  }

  lemma {:induction false} TraceKeepsIds(events: seq<Event>)
    ensures IdsKept(Trace(events))
  {
    if events == [] {
      FirstId();
    } else {
      hide IdsKept, TracedStep;
      var before, e := events[..|events| - 1], events[|events| - 1];
      TraceKeepsIds(before);
      if e.LoggedIn? {
        LoginKeepsIds(Trace(before), e.login);
      } else {
        LogoutKeepsIds(Trace(before), e.sessionid);
      }
    }
  }

  lemma FirstId()
    ensures IdOf(0) == 1
  {
  }

  /** Two listed logins share a session id exactly when their draws are a whole cycle of ids apart. */
  lemma SessionIdLaw(events: seq<Event>, i: nat, j: nat)
    requires i < j < |Trace(events).m.list|
    ensures
      var t := Trace(events);
      && |t.live| == |t.m.list| && t.live[j] < t.live[i] < t.draws
      && (t.m.list[i].sessionid == t.m.list[j].sessionid <==> (t.live[i] - t.live[j]) % (UINT_LIMIT - 1) == 0)
  {
    hide Trace;
    TraceKeepsIds(events);
    SameRemainder(Trace(events).live[i], Trace(events).live[j]);
  }

  lemma SameRemainder(a: nat, b: nat)
    ensures a % (UINT_LIMIT - 1) == b % (UINT_LIMIT - 1) <==> (a - b) % (UINT_LIMIT - 1) == 0
  {
  }

  /** Of the logins with the session id, if there are any, a logout takes out the one that is listed first; the others
      keep their order, and the counter stays. */
  lemma LogoutLaw(m: Master, id: nat)
    ensures var t := Step(m, LoggedOut(id));
            && t.counter == m.counter
            && if forall l | l in m.list :: l.sessionid != id then t.list == m.list
               else
                 exists k | 0 <= k < |m.list| ::
                   && m.list[k].sessionid == id && (forall j | 0 <= j < k :: m.list[j].sessionid != id)
                   && t.list == m.list[..k] + m.list[k + 1..]
  {
    var k := FirstSession(m.list, id);
    if k < |m.list| {
      assert m.list[k] in m.list;
    }
  }

  /** So until the ids start over, nobody has id 0, no two have the same, and logging out by session id
      takes out that one login and no other. */
  lemma LogoutRemovesOne(events: seq<Event>, k: nat)
    requires Trace(events).draws < UINT_LIMIT && k < |Trace(events).m.list|
    ensures
      var s := Trace(events).m.list;
      && s[k].sessionid != 0
      && Trace(events + [LoggedOut(s[k].sessionid)]).m.list == s[..k] + s[k + 1..]
  {
    var t := Trace(events);
    var id := t.m.list[k].sessionid;
    assert (events + [LoggedOut(id)])[..|events|] == events;
    assert Trace(events + [LoggedOut(id)]) == TracedStep(t, LoggedOut(id));
    hide Trace;
    TraceKeepsIds(events);
    OnlyOne(events, k);
  }

  lemma IdsApart(events: seq<Event>, i: nat, j: nat)
    requires Trace(events).draws < UINT_LIMIT && i < j < |Trace(events).m.list|
    ensures Trace(events).m.list[i].sessionid != Trace(events).m.list[j].sessionid
  {
    hide Trace;
    SessionIdLaw(events, i, j);
  }

  lemma OnlyOne(events: seq<Event>, k: nat)
    requires Trace(events).draws < UINT_LIMIT && k < |Trace(events).m.list|
    ensures FirstSession(Trace(events).m.list, Trace(events).m.list[k].sessionid) == k
  {
    hide Trace;
    var s := Trace(events).m.list;
    forall j: nat | j < k
      ensures s[j].sessionid != s[k].sessionid
    {
      IdsApart(events, j, k);
    }
  }

  /** What is stored of a login: the name is cut to the field, and nothing is known of the player yet. */
  function Entered(login: Login): Login {
    login.(chatname := if |login.chatname| <= USER_NAME_MAX then login.chatname else login.chatname[..USER_NAME_MAX],
           playerinfo := None)
  }

  /** A login of a user who is not listed is found by its name, as far as the field holds it, and by its uid, and
      is stored as it came in, with the id drawn for it and nothing known of the player; behind it the list is as
      it was. A user who is listed changes nothing. */
  lemma StoredLaw(m: Master, l: Login)
    ensures var t := Step(m, LoggedIn(l));
            if exists i :: 0 <= i < |m.list| && m.list[i].uid == l.uid then t.list == m.list
            else
              && |t.list| == |m.list| + 1 && t.list[1..] == m.list
              && var s := t.list[0];
                 && s.uid == l.uid && s.loginhost == l.loginhost && s.clienttag == l.clienttag
                 && s.gameAddr == l.gameAddr && s.gamePort == l.gamePort && s.playerinfo.None?
                 && s.sessionid == (if m.counter == 0 then 1 else m.counter)
                 && s.chatname <= l.chatname && |s.chatname| == (if |l.chatname| < 16 then |l.chatname| else 16)
                 && FirstNamed(t.list, l.chatname[..|s.chatname|]) == 0
  {
    var t := Step(m, LoggedIn(l));
    if !HasUid(m.list, l.uid) {
      var name := t.list[0].chatname;
      assert l.chatname[..|name|] == name;
      assert SameText(name, name);
    }
  }
}
