/** How the BITS master gives addresses to the servers that connect to it (bits_new_dyn_addr in
    src/bnetd/bits.c, called from src/bnetd/handle_bits.c). */
module BitsAddress {
  import opened Lists
  import opened Counting

  const U16 := 0x1_0000
  const BITS_ADDR_DYNAMIC_START := 0x1000
  const DYNAMIC_ADDRESSES := U16 - BITS_ADDR_DYNAMIC_START
  const TRIES := 4096

  predicate Dynamic(a: int) {
    BITS_ADDR_DYNAMIC_START <= a < U16
  }

  /** One step up in 16 bits, back to the start of the dynamic range after the last address. */
  function Bump(a: nat): (b: nat)
    ensures Dynamic(b)
  {
    var b := (a + 1) % U16;
    if b < BITS_ADDR_DYNAMIC_START then BITS_ADDR_DYNAMIC_START else b
  }

  function Start(a: nat): nat {
    if a < BITS_ADDR_DYNAMIC_START then BITS_ADDR_DYNAMIC_START else a
  }

  /** The first address from `a` on that no host has, giving up after so many tries. */
  function Search(hosts: seq<nat>, a: nat, tries: nat): nat
    decreases tries
  {
    if tries == 0 || a !in hosts then a else Search(hosts, Bump(a), tries - 1)
  }

  /** The address `k` places after `a`, counting round the dynamic range. */
  function Candidate(a: nat, k: nat): (c: nat)
    requires Dynamic(a)
    ensures Dynamic(c)
  {
    BITS_ADDR_DYNAMIC_START + (a - BITS_ADDR_DYNAMIC_START + k) % DYNAMIC_ADDRESSES
  }

  // ------------------------------------------------------------------ one search

  lemma BumpIsNext(a: nat)
    requires Dynamic(a)
    ensures Candidate(a, 0) == a && Bump(a) == Candidate(a, 1)
  {
  }

  lemma CandidatesShift(a: nat, k: nat)
    requires Dynamic(a)
    ensures Candidate(Bump(a), k) == Candidate(a, k + 1)
  {
    if a < U16 - 1 {
      assert Bump(a) == a + 1;
    } else {
      assert Bump(a) == BITS_ADDR_DYNAMIC_START;
      assert (DYNAMIC_ADDRESSES - 1 + (k + 1)) % DYNAMIC_ADDRESSES == k % DYNAMIC_ADDRESSES;
    }
  }

  lemma CandidatesApart(a: nat, j: nat, k: nat)
    requires Dynamic(a) && j < k < j + DYNAMIC_ADDRESSES
    ensures Candidate(a, j) != Candidate(a, k)
  {
    var x := a - BITS_ADDR_DYNAMIC_START + j;
    var y := x + (k - j);
    assert 0 < y - x < DYNAMIC_ADDRESSES;
  }

  /** The search stays in the dynamic range, and what it returns is free exactly when one of the addresses
      it can reach is. */
  lemma {:induction false} SearchLaw(hosts: seq<nat>, a: nat, tries: nat)
    requires Dynamic(a)
    ensures Dynamic(Search(hosts, a, tries))
    ensures Search(hosts, a, tries) !in hosts <==> exists k: nat | k <= tries :: Candidate(a, k) !in hosts
    decreases tries
  {
    BumpIsNext(a);
    if tries > 0 && a in hosts {
      var b := Bump(a);
      SearchLaw(hosts, b, tries - 1);
      if Search(hosts, b, tries - 1) !in hosts {
        var k: nat :| k <= tries - 1 && Candidate(b, k) !in hosts;
        CandidatesShift(a, k);
        assert Candidate(a, k + 1) !in hosts;
      }
      if k: nat :| k <= tries && Candidate(a, k) !in hosts {
        CandidatesShift(a, k - 1);
        assert Candidate(b, k - 1) !in hosts;
      }
    } else if tries == 0 && a in hosts {
      assert forall k: nat | k <= 0 :: Candidate(a, k) == a;
    }
  }

  /** Pigeonholes: with no more hosts than tries there is a free address within reach. */
  lemma SearchFinds(hosts: seq<nat>, a: nat)
    requires Dynamic(a) && |hosts| <= TRIES
    ensures Search(hosts, a, TRIES) !in hosts
  {
    SearchLaw(hosts, a, TRIES);
    if forall k: nat | k <= TRIES :: Candidate(a, k) in hosts {
      TooMany(hosts, a, TRIES + 1);
    }
  }

  /** So many reachable addresses, all taken, need as many hosts. */
  lemma TooMany(hosts: seq<nat>, a: nat, n: nat)
    requires Dynamic(a) && n <= DYNAMIC_ADDRESSES
    requires forall k: nat | k < n :: Candidate(a, k) in hosts
    ensures n <= |hosts|
  {
    var taken := set k: nat | k < n :: Candidate(a, k);
    CountCandidates(a, n);
    ElementCount(hosts);
    SubsetSize(taken, Elements(hosts));
  }

  lemma {:induction false} CountCandidates(a: nat, n: nat)
    requires Dynamic(a) && n <= DYNAMIC_ADDRESSES
    ensures |set k: nat | k < n :: Candidate(a, k)| == n
  {
    var s := set k: nat | k < n :: Candidate(a, k);
    if n > 0 {
      CountCandidates(a, n - 1);
      var t := set k: nat | k < n - 1 :: Candidate(a, k);
      assert s == t + {Candidate(a, n - 1)};
      forall k: nat | k < n - 1
        ensures Candidate(a, k) != Candidate(a, n - 1)
      {
        CandidatesApart(a, k, n - 1);
      }
    }
  }

  // ------------------------------------------------------------------ whole runs

  datatype Hosts = Hosts(addresses: seq<nat>, current: nat)

  /** A server is let in: it gets the address found and joins the list; the counter stays on it. */
  function Admitted(h: Hosts): Hosts {
    var a := Search(h.addresses, Start(h.current), TRIES);
    Hosts(h.addresses + [a], a)
  }

  /** The master after letting in `n` servers; none is ever taken off the list. */
  function AfterAdmitting(n: nat): Hosts {
    if n == 0 then Hosts([], BITS_ADDR_DYNAMIC_START) else Admitted(AfterAdmitting(n - 1))
  }

  function FirstAddresses(n: nat): (s: seq<nat>)
    ensures |s| == n && forall i | 0 <= i < n :: s[i] == BITS_ADDR_DYNAMIC_START + i
  {
    seq(n, i requires 0 <= i < n => BITS_ADDR_DYNAMIC_START + i)
  }

  lemma SearchStepsOnce(hosts: seq<nat>, a: nat)
    requires a in hosts && Bump(a) !in hosts
    ensures Search(hosts, a, TRIES) == Bump(a)
  {
    assert Search(hosts, Bump(a), TRIES - 1) == Bump(a);
  }

  /** Until they run out, addresses are given out in order. */
  lemma {:induction false} GivenInOrder(n: nat)
    requires n <= DYNAMIC_ADDRESSES
    ensures AfterAdmitting(n) ==
            Hosts(FirstAddresses(n), BITS_ADDR_DYNAMIC_START + if n == 0 then 0 else n - 1)
  {
    hide FirstAddresses, Admitted;
    if n == 0 {
      assert FirstAddresses(0) == [];
    } else {
      GivenInOrder(n - 1);
      if n == 1 {
        FirstGiven();
      } else {
        NextGiven(n - 1);
      }
    }
  }

  lemma FirstGiven()
    ensures Admitted(Hosts(FirstAddresses(0), BITS_ADDR_DYNAMIC_START)) ==
            Hosts(FirstAddresses(1), BITS_ADDR_DYNAMIC_START)
  {
    hide Search;
    SearchHit(FirstAddresses(0), BITS_ADDR_DYNAMIC_START);
  }

  lemma NextGiven(n: nat)
    requires 1 <= n < DYNAMIC_ADDRESSES
    ensures Admitted(Hosts(FirstAddresses(n), BITS_ADDR_DYNAMIC_START + n - 1)) ==
            Hosts(FirstAddresses(n + 1), BITS_ADDR_DYNAMIC_START + n)
  {
    hide Search, FirstAddresses;
    var hosts, last := FirstAddresses(n), BITS_ADDR_DYNAMIC_START + n - 1;
    assert hosts[n - 1] == last && Bump(last) == last + 1 && last + 1 !in hosts;
    SearchStepsOnce(hosts, last);
    assert hosts + [last + 1] == FirstAddresses(n + 1);
  }

  lemma SearchHit(hosts: seq<nat>, a: nat)
    requires a !in hosts
    ensures Search(hosts, a, TRIES) == a
  {
  }

  lemma StartIsDynamic(a: nat)
    requires a < U16
    ensures Dynamic(Start(a))
  {
  }

  lemma {:induction false} AllDynamic(n: nat)
    ensures |AfterAdmitting(n).addresses| == n
    ensures Dynamic(AfterAdmitting(n).current)
    ensures forall a | a in AfterAdmitting(n).addresses :: Dynamic(a)
  {
    if n == 0 {
    } else {
      AllDynamic(n - 1);
      hide Search;
      var h := AfterAdmitting(n - 1);
      StartIsDynamic(h.current);
      SearchLaw(h.addresses, Start(h.current), TRIES);
    }
  }

  /** The hosts' addresses differ exactly as long as there are no more hosts than dynamic addresses: the
      caller's test for "out of free addresses" never fires, and the next server shares one. */
  lemma AddressLaw(n: nat)
    ensures NoRepeat(AfterAdmitting(n).addresses) <==> n <= DYNAMIC_ADDRESSES
  {
    hide AfterAdmitting;
    if n <= DYNAMIC_ADDRESSES {
      hide FirstAddresses;
      GivenInOrder(n);
    } else {
      AllDynamic(n);
      if NoRepeat(AfterAdmitting(n).addresses) {
        FitsInRange(AfterAdmitting(n).addresses);
      }
    }
  }

  lemma FitsInRange(s: seq<nat>)
    requires NoRepeat(s) && forall a | a in s :: Dynamic(a)
    ensures |s| <= DYNAMIC_ADDRESSES
  {
    hide Elements, Between;
    ElementCount(s);
    RangeSize(BITS_ADDR_DYNAMIC_START, U16);
    SubsetSize(Elements(s), Between(BITS_ADDR_DYNAMIC_START, U16));
  }

  // ------------------------------------------------------------------ the code

  class Master {
    var currentAddr: nat
    var hostlist: seq<nat>

    ghost function World(): Hosts
      reads this
    {
      Hosts(hostlist, currentAddr)
    }

    constructor ()
      ensures World() == AfterAdmitting(0)
    {
      currentAddr, hostlist := BITS_ADDR_DYNAMIC_START, [];
    }

    method NewDynAddr() returns (a: nat)
      requires currentAddr < U16
      modifies `currentAddr
      ensures a == currentAddr == Search(hostlist, Start(old(currentAddr)), TRIES)
      ensures Dynamic(a) && (|hostlist| <= TRIES ==> a !in hostlist)
    {
      if currentAddr < BITS_ADDR_DYNAMIC_START {
        currentAddr := BITS_ADDR_DYNAMIC_START;
      }
      ghost var from := currentAddr;
      var bad, counter := true, 0;
      while bad && counter < TRIES
        invariant 0 <= counter <= TRIES
        invariant Search(hostlist, from, TRIES) ==
                  if bad then Search(hostlist, currentAddr, TRIES - counter) else currentAddr
        decreases TRIES - counter
      {
        bad := false;
        counter := counter + 1;
        ghost var tried := currentAddr;
        var i := 0;
        while i < |hostlist|
          invariant 0 <= i <= |hostlist| && !bad && currentAddr == tried
          invariant tried !in hostlist[..i]
        {
          if hostlist[i] == currentAddr {
            currentAddr := (currentAddr + 1) % U16;
            if currentAddr < BITS_ADDR_DYNAMIC_START {
              currentAddr := BITS_ADDR_DYNAMIC_START;
            }
            bad := true;
            break;
          }
          i := i + 1;
        }
        assert if bad then tried in hostlist && currentAddr == Bump(tried)
               else tried !in hostlist && currentAddr == tried;
      }
      a := currentAddr;
      SearchLaw(hostlist, from, TRIES);
      if |hostlist| <= TRIES {
        SearchFinds(hostlist, from);
      }
    }

    /** A server has shown that it may connect. */
    method Admit() returns (na: nat)
      requires currentAddr < U16
      modifies this
      ensures World() == Admitted(old(World())) && na == currentAddr && Dynamic(na)
    {
      na := NewDynAddr();
      if na != 0 {
        hostlist := hostlist + [na];
      }
    }
  }
}
