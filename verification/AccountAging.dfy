/** Which accounts the regular sweeps drop from memory (account_save in src/bnetd/account.c). */
module AccountAging {
  import opened Text
  import opened Attributes
  import opened AttributeFile
  import opened AccountStore
  import opened AccountRuns

  /** The account after a run. */
  ghost function After(s: Snapshot, ops: seq<Op>, cfg: Config): (t: Snapshot)
    requires Coherent(s) && forall i | 0 <= i < |ops| :: Storable(ops[i])
    ensures Coherent(t)
    decreases ops
  {
    if ops == [] then s
    else
      StepLaw(s, ops[0], cfg);
      After(Step(s, ops[0], cfg).0, ops[1..], cfg)
  }

  lemma {:induction false} AfterBoth(s: Snapshot, a: seq<Op>, b: seq<Op>, cfg: Config)
    requires Coherent(s) && forall i | 0 <= i < |a| :: Storable(a[i])
    requires forall i | 0 <= i < |b| :: Storable(b[i])
    ensures forall i | 0 <= i < |a + b| :: Storable((a + b)[i])
    ensures After(s, a + b, cfg) == After(After(s, a, cfg), b, cfg)
    decreases a
  {
    hide Coherent, Step, Storable;
    if a == [] {
      assert a + b == b;
    } else {
      WritableNow(s);
      StepLaw(s, a[0], cfg);
      assert (a + b)[1..] == a[1..] + b && (a + b)[0] == a[0];
      assert forall i | 0 <= i < |a[1..]| :: a[1..][i] == a[i + 1];
      AfterBoth(Step(s, a[0], cfg).0, a[1..], b, cfg);
      assert forall i | 0 < i < |a + b| :: (a + b)[i] == (a[1..] + b)[i - 1];
    }
  }

  // ------------------------------------------------------------- left alone

  function Sum(deltas: seq<nat>): nat {
    if deltas == [] then 0 else deltas[0] + Sum(deltas[1..])
  }

  function Sweeps(deltas: seq<nat>): (ops: seq<Op>)
    ensures |ops| == |deltas|
    ensures forall i | 0 <= i < |ops| :: ops[i] == SweepOp(deltas[i], true)
  {
    seq(|deltas|, i requires 0 <= i < |deltas| => SweepOp(deltas[i], true))
  }

  /** An account in memory that is neither read nor changed is kept as long as its age and the time that has gone
      by stay below the flush time, and not longer. */
  lemma {:induction false} IdleLaw(s: Snapshot, deltas: seq<nat>, cfg: Config)
    requires Coherent(s) && s.loaded && !s.dirty && !s.accessed
    ensures After(s, Sweeps(deltas), cfg).loaded <==>
            forall i | 1 <= i <= |deltas| :: s.age + Sum(deltas[..i]) < cfg.flush
    decreases deltas
  {
    hide Coherent;
    if deltas != [] {
      var ops := Sweeps(deltas);
      WritableNow(s);
      StepLaw(s, ops[0], cfg);
      var t := Step(s, ops[0], cfg).0;
      assert ops[1..] == Sweeps(deltas[1..]);
      assert deltas[..1] == [deltas[0]] && Sum(deltas[..1]) == deltas[0];
      if t.loaded {
        assert t.age == s.age + deltas[0];
        IdleLaw(t, deltas[1..], cfg);
        forall i | 1 <= i < |deltas|
          ensures Sum(deltas[..i + 1]) == deltas[0] + Sum(deltas[1..][..i])
        {
          assert deltas[..i + 1][1..] == deltas[1..][..i];
        }
        forall i | 1 < i <= |deltas|
          ensures Sum(deltas[..i]) == deltas[0] + Sum(deltas[1..][..i - 1])
        {
          assert deltas[..i][1..] == deltas[1..][..i - 1];
        }
      } else {
        StaysDropped(t, deltas[1..], cfg);
        assert !(s.age + Sum(deltas[..1]) < cfg.flush);
      }
    }
  }

  lemma {:induction false} StaysDropped(s: Snapshot, deltas: seq<nat>, cfg: Config)
    requires Coherent(s) && !s.loaded
    ensures !After(s, Sweeps(deltas), cfg).loaded
    decreases deltas
  {
    hide Coherent;
    if deltas != [] {
      var ops := Sweeps(deltas);
      WritableNow(s);
      StepLaw(s, ops[0], cfg);
      assert ops[1..] == Sweeps(deltas[1..]);
      StaysDropped(Step(s, ops[0], cfg).0, deltas[1..], cfg);
    }
  }

  // ------------------------------------------------------------------- in use

  /** Every sweep comes after a read that no other sweep comes after. */
  predicate ReadBeforeEachSweep(ops: seq<Op>, read: bool)
    decreases ops
  {
    ops == [] ||
    match ops[0]
    case GetOp(_, _) => ReadBeforeEachSweep(ops[1..], true)
    case SetOp(_, _, _) => ReadBeforeEachSweep(ops[1..], read)
    case SweepOp(_, _) => read && ReadBeforeEachSweep(ops[1..], false)
  }

  /** No account gets older than one and a half flush times. */
  lemma AgeIsBounded(s: Snapshot, op: Op, cfg: Config)
    requires Coherent(s) && s.age <= 3 * cfg.flush / 2
    ensures Step(s, op, cfg).0.age <= 3 * cfg.flush / 2
  {
    hide LoadLines, Lines, Assign, SaveText, Answered;
  }

  /** An account that is read before every sweep is never dropped, whatever else is done to it. */
  lemma {:induction false} InUseLaw(s: Snapshot, ops: seq<Op>, cfg: Config)
    requires Coherent(s) && forall i | 0 <= i < |ops| :: Storable(ops[i])
    requires cfg.flush > 0 && s.loaded && s.age <= 3 * cfg.flush / 2
    requires ReadBeforeEachSweep(ops, s.accessed)
    ensures After(s, ops, cfg).loaded
    decreases ops
  {
    hide Coherent, Storable;
    if ops != [] {
      WritableNow(s);
      StepLaw(s, ops[0], cfg);
      AgeIsBounded(s, ops[0], cfg);
      ReadKeepsLoaded(s, ops[0], cfg);
      InUseLaw(Step(s, ops[0], cfg).0, ops[1..], cfg);
    }
  }

  lemma ReadKeepsLoaded(s: Snapshot, op: Op, cfg: Config)
    requires Coherent(s) && cfg.flush > 0 && s.loaded && s.age <= 3 * cfg.flush / 2
    requires op.SweepOp? ==> s.accessed
    ensures var t := Step(s, op, cfg).0;
            t.loaded && t.accessed == if op.SweepOp? then false else op.GetOp? || s.accessed
  {
    hide LoadLines, Lines, Assign, SaveText, Answered;
  }

  function Power2(k: nat): (p: nat)
    ensures p >= 1
  {
    if k == 0 then 1 else 2 * Power2(k - 1)
  }

  /** `k` times a read and then a sweep. */
  function ReadsAndSweeps(key: string, deltas: seq<nat>): seq<Op> {
    if deltas == [] then [] else [GetOp(key, true), SweepOp(deltas[0], true)] + ReadsAndSweeps(key, deltas[1..])
  }

  lemma {:induction false} ReadsAreStorable(key: string, deltas: seq<nat>)
    ensures forall i | 0 <= i < |ReadsAndSweeps(key, deltas)| :: Storable(ReadsAndSweeps(key, deltas)[i])
  {
    if deltas != [] {
      ReadsAreStorable(key, deltas[1..]);
    }
  }

  lemma HalfOfShare(a: nat, k: nat)
    ensures a / 2 / Power2(k) == a / Power2(k + 1)
  {
    var p := Power2(k);
    var q, r := a / (2 * p), a % (2 * p);
    assert a == 2 * p * q + r;
    assert a / 2 == p * q + r / 2;
    assert r / 2 < p;
    QuotientIs(a / 2, p, q, r / 2);
  }

  lemma QuotientIs(x: nat, p: nat, q: nat, r: nat)
    requires p >= 1 && x == p * q + r && r < p
    ensures x / p == q
  {
    var d, m := x / p, x % p;
    assert x == p * d + m && 0 <= m < p;
    if q > d {
      assert p * (q - d) == m - r;
      AtLeastOnce(p, q - d);
    } else if d > q {
      assert p * (d - q) == r - m;
      AtLeastOnce(p, d - q);
    }
  }

  lemma {:induction false} AtLeastOnce(p: nat, e: nat)
    requires e >= 1
    ensures p * e >= p
  {
    if e > 1 {
      AtLeastOnce(p, e - 1);
      assert p * e == p * (e - 1) + p;
    }
  }

  /** Every sweep that finds an account read halves its age. */
  lemma {:induction false} HalvingLaw(s: Snapshot, key: string, deltas: seq<nat>, cfg: Config)
    requires Coherent(s) && s.loaded && !s.dirty && cfg.flush > 0 && s.age <= 3 * cfg.flush / 2
    requires deltas != []
    ensures forall i | 0 <= i < |ReadsAndSweeps(key, deltas)| :: Storable(ReadsAndSweeps(key, deltas)[i])
    ensures var t := After(s, ReadsAndSweeps(key, deltas), cfg);
            t.loaded && !t.dirty && !t.accessed && t.age == s.age / Power2(|deltas|)
    decreases deltas
  {
    hide Coherent, Storable;
    ReadsAreStorable(key, deltas);
    var ops := ReadsAndSweeps(key, deltas);
    var read, swept := ops[0], ops[1];
    WritableNow(s);
    StepLaw(s, read, cfg);
    var t := Step(s, read, cfg).0;
    assert t == s.(accessed := true);
    WritableNow(t);
    StepLaw(t, swept, cfg);
    var u := Step(t, swept, cfg).0;
    assert ops[1..][1..] == ReadsAndSweeps(key, deltas[1..]);
    assert u == s.(accessed := false, age := s.age / 2);
    assert After(s, ops, cfg) == After(u, ReadsAndSweeps(key, deltas[1..]), cfg) by {
      hide Step;
      assert ops[1..][0] == swept;
    }
    if |deltas| > 1 {
      HalvingLaw(u, key, deltas[1..], cfg);
      HalfOfShare(s.age, |deltas| - 1);
    } else {
      assert Power2(1) == 2;
    }
  }

  /** How long an account stays that has been in use: after `k` sweeps that found it read it is dropped when its
      age, halved `k` times, and the time since then reach the flush time. */
  lemma FadingLaw(s: Snapshot, key: string, busy: seq<nat>, idle: seq<nat>, cfg: Config)
    requires Coherent(s) && s.loaded && !s.dirty && cfg.flush > 0 && s.age <= 3 * cfg.flush / 2 && busy != []
    ensures forall i | 0 <= i < |ReadsAndSweeps(key, busy) + Sweeps(idle)| ::
              Storable((ReadsAndSweeps(key, busy) + Sweeps(idle))[i])
    ensures After(s, ReadsAndSweeps(key, busy) + Sweeps(idle), cfg).loaded <==>
            forall i | 1 <= i <= |idle| :: s.age / Power2(|busy|) + Sum(idle[..i]) < cfg.flush
  {
    hide Coherent, Sum;
    HalvingLaw(s, key, busy, cfg);
    SweepsAreStorable(idle);
    AfterBoth(s, ReadsAndSweeps(key, busy), Sweeps(idle), cfg);
    IdleLaw(After(s, ReadsAndSweeps(key, busy), cfg), idle, cfg);
  }

  lemma SweepsAreStorable(deltas: seq<nat>)
    ensures forall i | 0 <= i < |Sweeps(deltas)| :: Storable(Sweeps(deltas)[i])
  {
  }

  // ------------------------------------------------------------------- unsaved

  /** Changes that are not saved yet are never dropped: a sweep saves them and keeps them, or just keeps them. */
  lemma UnsavedLaw(s: Snapshot, delta: nat, writable: bool, cfg: Config)
    requires Coherent(s) && s.loaded && s.dirty
    ensures var t := Step(s, SweepOp(delta, writable), cfg).0;
            && t.loaded && t.attrs == s.attrs && t.dirty == !writable
            && t.file == if writable then Some(SaveText(s.attrs)) else s.file
  {
  }

  /** Reading and sweeping alone never writes the file. */
  lemma {:induction false} UnchangedLaw(s: Snapshot, ops: seq<Op>, cfg: Config)
    requires Coherent(s) && !s.dirty && forall i | 0 <= i < |ops| :: !ops[i].SetOp?
    ensures var t := After(s, ops, cfg);
            !t.dirty && t.file == s.file
    decreases ops
  {
    hide Coherent;
    if ops != [] {
      WritableNow(s);
      StepLaw(s, ops[0], cfg);
      UnchangedStep(s, ops[0], cfg);
      UnchangedLaw(Step(s, ops[0], cfg).0, ops[1..], cfg);
    }
  }

  lemma UnchangedStep(s: Snapshot, op: Op, cfg: Config)
    requires Coherent(s) && !s.dirty && !op.SetOp?
    ensures var t := Step(s, op, cfg).0;
            !t.dirty && t.file == s.file
  {
    hide LoadLines, Lines, SaveText, Answered;
  }
}
