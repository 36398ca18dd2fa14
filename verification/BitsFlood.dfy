/** How an attribute change spreads over the tree of BITS servers (send_bits_packet_for_account in
    src/bnetd/bits_packet.c, send_bits_va_set_attr in src/bnetd/bits_va.c and the BITS_VA_SET_ATTR branch
    of src/bnetd/handle_bits.c): every server that learns of it passes it to its uplink and to the clients
    that have locked the account, but not back to where it came from. */
module BitsFlood {
  import opened Lists
  import opened Counting
  import opened Text

  /** Server 0 is the master; every other server connects to one that was there before it. `locked` holds
      the servers whose uplink has the account in the locklist of their connection. */
  datatype Net = Net(parent: seq<nat>, locked: set<nat>)

  predicate Tree(net: Net) {
    |net.parent| > 0 && forall i | 0 < i < |net.parent| :: net.parent[i] < i
  }

  predicate IsServer(net: Net, v: nat) {
    v < |net.parent|
  }

  /** Server `v` forwards to `w`, unless it heard from `w`. */
  predicate Forwards(net: Net, v: nat, w: nat) {
    && IsServer(net, v) && IsServer(net, w)
    && ((v > 0 && w == net.parent[v]) || (w > 0 && net.parent[w] == v && w in net.locked))
  }

  datatype Message = Message(src: nat, dst: nat)

  /** The messages server `v` puts on the wire. */
  function Outgoing(net: Net, v: nat, from: Option<nat>): set<Message> {
    set w: nat | w < |net.parent| && Forwards(net, v, w) && Some(w) != from :: Message(v, w)
  }

  /** `delivered` are the servers in the order in which the change reached them. */
  datatype State = State(delivered: seq<nat>, flight: multiset<Message>)

  function Started(net: Net, origin: nat): State {
    State([], multiset(Outgoing(net, origin, None)))
  }

  /** Any message under way may be the next to arrive. */
  function Arrived(net: Net, s: State, m: Message): State
    requires m in s.flight
  {
    State(s.delivered + [m.dst], s.flight - multiset{m} + multiset(Outgoing(net, m.dst, Some(m.src))))
  }

  /** The state after the messages arrived in this order, if that order is possible. */
  function Run(net: Net, origin: nat, order: seq<Message>): Option<State> {
    if order == [] then Some(Started(net, origin))
    else
      var m := order[|order| - 1];
      match Run(net, origin, order[..|order| - 1])
      case None => None
      case Some(s) => if m in s.flight then Some(Arrived(net, s, m)) else None
  }

  // ------------------------------------------------------------------ who should hear of it

  predicate Above(net: Net, x: nat, v: nat)
    requires Tree(net) && IsServer(net, v)
    decreases v
  {
    x == v || (v > 0 && Above(net, x, net.parent[v]))
  }

  /** The servers between the origin and the master hear of the change, and any server that has locked the
      account with one that hears of it. */
  predicate Reached(net: Net, origin: nat, x: nat)
    requires Tree(net) && IsServer(net, origin) && IsServer(net, x)
    decreases x
  {
    Above(net, x, origin) || (x > 0 && x in net.locked && Reached(net, origin, net.parent[x]))
  }

  /** The whole chain of uplinks of `x` holds its lock. */
  predicate ChainLocked(net: Net, x: nat)
    requires Tree(net) && IsServer(net, x)
    decreases x
  {
    x == 0 || (x in net.locked && ChainLocked(net, net.parent[x]))
  }

  // ------------------------------------------------------------------ the invariant

  ghost predicate Knows(origin: nat, s: State, v: nat) {
    v == origin || v in s.delivered
  }

  /** The servers that know are a connected piece of the tree with top `t`. */
  ghost predicate Connected(net: Net, origin: nat, s: State, t: nat) {
    && Knows(origin, s, t)
    && forall v: nat | Knows(origin, s, v) ::
         IsServer(net, v) && t <= v && (v != t ==> v > 0 && Knows(origin, s, net.parent[v]))
  }

  /** Under way, once each, are exactly the messages from a server that knows to one that does not. */
  ghost predicate Frontier(net: Net, origin: nat, s: State) {
    forall m: Message :: s.flight[m] ==
      if Knows(origin, s, m.src) && !Knows(origin, s, m.dst) && Forwards(net, m.src, m.dst) then 1 else 0
  }

  ghost predicate NoneTwice(origin: nat, s: State) {
    && (forall i, j | 0 <= i < j < |s.delivered| :: s.delivered[i] != s.delivered[j])
    && origin !in s.delivered
  }

  ghost predicate Deserved(net: Net, origin: nat, s: State)
    requires Tree(net) && IsServer(net, origin)
  {
    forall v: nat | Knows(origin, s, v) :: IsServer(net, v) && Reached(net, origin, v)
  }

  ghost predicate Inv(net: Net, origin: nat, s: State)
    requires Tree(net) && IsServer(net, origin)
  {
    && (exists t :: Connected(net, origin, s, t))
    && Frontier(net, origin, s)
    && NoneTwice(origin, s)
    && Deserved(net, origin, s)
  }

  /** In a tree, a server next to a connected piece that it is not part of has only one neighbour there. */
  lemma OneNeighbour(net: Net, origin: nat, s: State, t: nat, v: nat, w: nat, d: nat)
    requires Tree(net) && Connected(net, origin, s, t) && !Knows(origin, s, d)
    requires Knows(origin, s, v) && Knows(origin, s, w)
    requires Forwards(net, v, d) && (Forwards(net, w, d) || Forwards(net, d, w))
    ensures v == w
  {
  }

  lemma StartedInv(net: Net, origin: nat)
    requires Tree(net) && IsServer(net, origin)
    ensures Inv(net, origin, Started(net, origin))
  {
    assert Connected(net, origin, Started(net, origin), origin);
  }

  lemma ArrivedConnected(net: Net, origin: nat, s: State, t: nat, m: Message)
    requires Tree(net) && Connected(net, origin, s, t)
    requires m in s.flight && Knows(origin, s, m.src) && !Knows(origin, s, m.dst) && Forwards(net, m.src, m.dst)
    ensures exists u :: Connected(net, origin, Arrived(net, s, m), u)
  {
    var s' := Arrived(net, s, m);
    var u := if m.src > 0 && m.dst == net.parent[m.src] then m.dst else t;
    assert m.src > 0 && m.dst == net.parent[m.src] ==> m.src == t;
    forall v: nat | Knows(origin, s', v)
      ensures IsServer(net, v) && u <= v && (v != u ==> v > 0 && Knows(origin, s', net.parent[v]))
    {
      assert v == m.dst || Knows(origin, s, v);
    }
    assert Connected(net, origin, s', u);
  }

  lemma ArrivedFrontier(net: Net, origin: nat, s: State, t: nat, m: Message)
    requires Tree(net) && Connected(net, origin, s, t) && Frontier(net, origin, s) && m in s.flight
    ensures Frontier(net, origin, Arrived(net, s, m))
  {
    var s' := Arrived(net, s, m);
    forall x: Message
      ensures s'.flight[x] ==
              if Knows(origin, s', x.src) && !Knows(origin, s', x.dst) && Forwards(net, x.src, x.dst) then 1 else 0
    {
      if x.src == m.dst {
        if Forwards(net, x.src, x.dst) && Knows(origin, s, x.dst) {
          OneNeighbour(net, origin, s, t, m.src, x.dst, m.dst);
        }
      } else if x.dst == m.dst && Knows(origin, s, x.src) && Forwards(net, x.src, x.dst) {
        OneNeighbour(net, origin, s, t, m.src, x.src, m.dst);
      }
    }
  }

  /** The top of the piece is between the origin and the master. */
  lemma {:induction false} TopIsAbove(net: Net, origin: nat, s: State, t: nat, v: nat)
    requires Tree(net) && Connected(net, origin, s, t) && Knows(origin, s, v)
    ensures Above(net, t, v)
    decreases v
  {
    if v != t {
      TopIsAbove(net, origin, s, t, net.parent[v]);
    }
  }

  lemma {:induction false} AboveGoesUp(net: Net, x: nat, v: nat)
    requires Tree(net) && IsServer(net, v) && Above(net, x, v) && IsServer(net, x) && x > 0
    ensures Above(net, net.parent[x], v)
    decreases v
  {
    if x != v {
      AboveGoesUp(net, x, net.parent[v]);
    }
  }

  lemma ArrivedDeserved(net: Net, origin: nat, s: State, t: nat, m: Message)
    requires Tree(net) && IsServer(net, origin) && Connected(net, origin, s, t) && Deserved(net, origin, s)
    requires m in s.flight && Knows(origin, s, m.src) && !Knows(origin, s, m.dst) && Forwards(net, m.src, m.dst)
    ensures Deserved(net, origin, Arrived(net, s, m))
  {
    if m.src > 0 && m.dst == net.parent[m.src] {
      assert m.src == t;
      TopIsAbove(net, origin, s, t, origin);
      AboveGoesUp(net, t, origin);
    }
    assert Reached(net, origin, m.dst);
    forall v: nat | Knows(origin, Arrived(net, s, m), v)
      ensures IsServer(net, v) && Reached(net, origin, v)
    {
      assert v == m.dst || Knows(origin, s, v);
    }
  }

  lemma ArrivedInv(net: Net, origin: nat, s: State, m: Message)
    requires Tree(net) && IsServer(net, origin) && Inv(net, origin, s) && m in s.flight
    ensures Inv(net, origin, Arrived(net, s, m))
  {
    hide Connected, Deserved, Forwards;
    var t :| Connected(net, origin, s, t);
    assert s.flight[m] > 0;
    ArrivedConnected(net, origin, s, t, m);
    ArrivedFrontier(net, origin, s, t, m);
    ArrivedDeserved(net, origin, s, t, m);
  }

  lemma {:induction false} RunInv(net: Net, origin: nat, order: seq<Message>)
    requires Tree(net) && IsServer(net, origin) && Run(net, origin, order).Some?
    ensures Inv(net, origin, Run(net, origin, order).value)
    ensures |Run(net, origin, order).value.delivered| == |order|
  {
    hide Inv;
    if order == [] {
      StartedInv(net, origin);
    } else {
      var before := order[..|order| - 1];
      RunInv(net, origin, before);
      ArrivedInv(net, origin, Run(net, origin, before).value, order[|order| - 1]);
    }
  }

  // ------------------------------------------------------------------ the theorem

  lemma {:induction false} AllAboveKnow(net: Net, origin: nat, s: State, x: nat, v: nat)
    requires Tree(net) && IsServer(net, v) && Frontier(net, origin, s) && s.flight == multiset{}
    requires Knows(origin, s, v) && Above(net, x, v)
    ensures Knows(origin, s, x)
    decreases v
  {
    if x != v {
      assert Forwards(net, v, net.parent[v]) && s.flight[Message(v, net.parent[v])] == 0;
      AllAboveKnow(net, origin, s, x, net.parent[v]);
    }
  }

  lemma {:induction false} ReachedKnow(net: Net, origin: nat, s: State, x: nat)
    requires Tree(net) && IsServer(net, origin) && Frontier(net, origin, s) && s.flight == multiset{}
    requires IsServer(net, x) && Reached(net, origin, x)
    ensures Knows(origin, s, x)
    decreases x
  {
    if Above(net, x, origin) {
      AllAboveKnow(net, origin, s, x, origin);
    } else {
      ReachedKnow(net, origin, s, net.parent[x]);
      assert Forwards(net, net.parent[x], x) && s.flight[Message(net.parent[x], x)] == 0;
    }
  }

  /** In whatever order messages arrive: there are fewer arrivals than servers, so the flood stops; no
      server gets the change twice and the origin never gets it back; and when nothing is under way any
      more, the servers that got it are exactly those that should. */
  lemma FloodLaw(net: Net, origin: nat, order: seq<Message>)
    requires Tree(net) && IsServer(net, origin) && Run(net, origin, order).Some?
    ensures
      var s := Run(net, origin, order).value;
      && |s.delivered| == |order| < |net.parent|
      && NoRepeat(s.delivered) && origin !in s.delivered
      && (forall x | x in s.delivered :: IsServer(net, x) && Reached(net, origin, x))
      && (s.flight == multiset{} ==>
            forall x: nat | IsServer(net, x) && Reached(net, origin, x) :: x == origin || x in s.delivered)
  {
    var s := Run(net, origin, order).value;
    RunInv(net, origin, order);
    hide Run;
    DeliveredFit(net, origin, s);
    if s.flight == multiset{} {
      forall x: nat | IsServer(net, x) && Reached(net, origin, x)
        ensures x == origin || x in s.delivered
      {
        ReachedKnow(net, origin, s, x);
      }
    }
    forall x | x in s.delivered
      ensures IsServer(net, x) && Reached(net, origin, x)
    {
      assert Knows(origin, s, x);
    }
  }

  lemma DeliveredFit(net: Net, origin: nat, s: State)
    requires Tree(net) && IsServer(net, origin) && NoneTwice(origin, s) && Deserved(net, origin, s)
    ensures |s.delivered| < |net.parent|
  {
    var all := s.delivered + [origin];
    hide Elements, Between;
    ElementCount(all);
    RangeSize(0, |net.parent|);
    forall x | x in Elements(all)
      ensures x in Between(0, |net.parent|)
    {
      assert Knows(origin, s, x);
    }
    SubsetSize(Elements(all), Between(0, |net.parent|));
  }

  /** A server whose whole chain of uplinks holds its lock always hears of the change. */
  lemma {:induction false} LockedChainIsReached(net: Net, origin: nat, x: nat)
    requires Tree(net) && IsServer(net, origin) && IsServer(net, x) && ChainLocked(net, x)
    ensures Reached(net, origin, x)
    decreases x
  {
    if x == 0 {
      MasterIsAbove(net, origin);
    } else {
      LockedChainIsReached(net, origin, net.parent[x]);
    }
  }

  lemma {:induction false} MasterIsAbove(net: Net, v: nat)
    requires Tree(net) && IsServer(net, v)
    ensures Above(net, 0, v)
    decreases v
  {
    if v > 0 {
      MasterIsAbove(net, net.parent[v]);
    }
  }

  // ------------------------------------------------------------------ the code of one server

  datatype Packet = Packet(uid: nat, name: string, val: Option<string>)

  /** A connection, with the server at its other end when it is a BITS connection. */
  class Connection {
    const peer: nat
    const bits: bool
    var locklist: set<nat>
    var outQueue: seq<Packet>

    constructor (peer: nat, bits: bool)
      ensures this.peer == peer && this.bits == bits && locklist == {} && outQueue == []
    {
      this.peer, this.bits, locklist, outQueue := peer, bits, {}, [];
    }

    method Push(p: Packet)
      modifies `outQueue
      ensures outQueue == old(outQueue) + [p]
    {
      outQueue := outQueue + [p];
    }
  }

  class Server {
    const id: nat
    var connlist: seq<Connection>
    var uplink: Connection?

    constructor (id: nat)
      ensures this.id == id && connlist == [] && uplink == null
    {
      this.id, connlist, uplink := id, [], null;
    }

    /** The connections are those of server `id` in the tree, one per neighbour, and the locklists hold
        `uid` as the tree says. */
    ghost predicate Fits(net: Net, uid: nat)
      reads this, connlist
    {
      && Tree(net) && IsServer(net, id)
      && (forall i, j | 0 <= i < j < |connlist| :: connlist[i] != connlist[j])
      && (forall c, d | c in connlist && d in connlist && c.bits && d.bits && c.peer == d.peer :: c == d)
      && (forall w: nat | Forwards(net, id, w) :: exists c :: c in connlist && c.bits && c.peer == w)
      && (id == 0 <==> uplink == null)
      && (uplink != null ==> uplink in connlist && uplink.bits)
      && forall c | c in connlist && c.bits ::
           && IsServer(net, c.peer)
           && (c == uplink ==> c.peer == net.parent[id] && uid !in c.locklist)
           && (c != uplink ==> c.peer > 0 && net.parent[c.peer] == id && (uid in c.locklist <==> c.peer in net.locked))
    }

    /** Puts the packet on the uplink and on every connection that has locked the account, but not on
        the one it came in by. */
    method SendForAccount(p: Packet, from: Connection?)
      requires forall i, j | 0 <= i < j < |connlist| :: connlist[i] != connlist[j]
      modifies connlist
      ensures forall c | c in connlist ::
                && c.locklist == old(c.locklist)
                && c.outQueue == old(c.outQueue) +
                     if c.bits && (p.uid in c.locklist || c == uplink) && c != from then [p] else []
    {
      var curr := 0;
      while curr < |connlist|
        invariant 0 <= curr <= |connlist|
        invariant forall c | c in connlist :: c.locklist == old(c.locklist)
        invariant forall i | 0 <= i < curr ::
                    connlist[i].outQueue == old(connlist[i].outQueue) +
                      if connlist[i].bits && (p.uid in connlist[i].locklist || connlist[i] == uplink)
                         && connlist[i] != from then [p] else []
        invariant forall i | curr <= i < |connlist| :: connlist[i].outQueue == old(connlist[i].outQueue)
      {
        var c := connlist[curr];
        if c.bits {
          if (p.uid in c.locklist || c == uplink) && c != from {
            c.Push(p);
          }
        }
        curr := curr + 1;
      }
    }

    /** What a server does with a change that is made on it (`from` is null) or comes in over `from`: every
        neighbour gets the packet exactly once or not at all, as the flood has it. */
    method SendSetAttr(uid: nat, name: string, val: Option<string>, from: Connection?, ghost net: Net)
      requires Fits(net, uid) && (from != null ==> from in connlist && from.bits)
      modifies connlist
      ensures Fits(net, uid)
      ensures forall c | c in connlist ::
                c.outQueue == old(c.outQueue) +
                  if c.bits && Message(id, c.peer) in Outgoing(net, id, if from == null then None else Some(from.peer))
                  then [Packet(uid, name, val)] else []
    {
      SendForAccount(Packet(uid, name, val), from);
      var src := if from == null then None else Some(from.peer);
      forall c | c in connlist && c.bits
        ensures Message(id, c.peer) in Outgoing(net, id, src) <==> (uid in c.locklist || c == uplink) && c != from
      {
        assert Forwards(net, id, c.peer) <==> uid in c.locklist || c == uplink;
      }
    }
  }
}
