/** The flood quota of a connection: a sliding window over the lines it sent (conn_quota_exceeded in
    src/bnetd/connection.c). */
module Quota {
  /** The settings as the preference getters hand them out (src/bnetd/prefs.c). */
  datatype Prefs = Prefs(lines: nat, time: nat, wrapline: nat, maxline: nat, dobae: nat)

  /** The settings are read as unsigned numbers; nought becomes one and too much becomes `above`. */
  function Clamp(x: nat, top: nat, above: nat): nat {
    if x < 1 then 1 else if x > top then above else x
  }

  /** Whatever is configured, every setting is at least one; over ten seconds the quota time is a minute. */
  function Effective(lines: nat, time: nat, wrapline: nat, maxline: nat, dobae: nat): (p: Prefs)
    ensures Sane(p)
    ensures Nearest(lines, p.lines, 100) && Nearest(wrapline, p.wrapline, 256) && Nearest(maxline, p.maxline, 256)
    ensures Nearest(dobae, p.dobae, 100) && if time > 10 then p.time == 60 else Nearest(time, p.time, 10)
  {
    Prefs(Clamp(lines, 100, 100), Clamp(time, 10, 60), Clamp(wrapline, 256, 256), Clamp(maxline, 256, 256),
          Clamp(dobae, 100, 100))
  }

  /** Of the values from one to `top`, `y` is the nearest to `x`. */
  ghost predicate Nearest(x: nat, y: nat, top: nat) {
    1 <= y <= top && forall z | 1 <= z <= top :: Distance(x, y) <= Distance(x, z)
  }

  function Distance(x: nat, y: nat): nat {
    if x < y then y - x else x - y
  }

  predicate Sane(p: Prefs) {
    && 1 <= p.lines <= 100 && 1 <= p.time <= 60 && 1 <= p.wrapline <= 256 && 1 <= p.maxline <= 256
    && 1 <= p.dobae <= 100
  }

  datatype Verdict = Accepted | Refused | Destroyed

  /** A line as it comes in, and as it is remembered. */
  datatype Line = Line(len: nat, time: int)
  datatype Entry = Entry(inf: int, count: nat)

  /** Wrapped lines counted in full: max(1, ceil(len / wrapline)). */
  function Weight(len: nat, p: Prefs): (w: nat)
    requires p.wrapline >= 1
    ensures w >= 1 && (w - 1) * p.wrapline <= len && (len > 0 ==> (w - 1) * p.wrapline < len) && len <= w * p.wrapline
  {
    if len > p.wrapline then RoundedUp(len, p.wrapline) else 1
  }

  function RoundedUp(len: nat, wrap: nat): (w: nat)
    requires wrap >= 1
    ensures len <= w * wrap && (len > 0 ==> w >= 1 && (w - 1) * wrap < len)
  {
    (len + wrap - 1) / wrap
  }

  /** Lines over the length limit are refused without being remembered. */
  function Remembered(lines: seq<Line>, p: Prefs): seq<Entry>
    requires Sane(p)
  {
    if lines == [] then []
    else
      var n := |lines| - 1;
      Remembered(lines[..n], p) +
      if lines[n].len <= p.maxline then [Entry(lines[n].time, Weight(lines[n].len, p))] else []
  }

  /** The entries less than the quota time old. */
  function Young(entries: seq<Entry>, now: int, p: Prefs): seq<Entry> {
    if entries == [] then []
    else
      var n := |entries| - 1;
      Young(entries[..n], now, p) + if now < entries[n].inf + p.time then [entries[n]] else []
  }

  function Sum(entries: seq<Entry>): nat {
    if entries == [] then 0 else Sum(entries[..|entries| - 1]) + entries[|entries| - 1].count
  }

  /** The weight that counts against line `j`: its own and that of everything remembered which is
      younger than the quota time when it comes in. */
  function Load(lines: seq<Line>, j: nat, p: Prefs): nat
    requires Sane(p) && j < |lines|
  {
    Sum(Young(Remembered(lines[..j], p), lines[j].time, p)) + Weight(lines[j].len, p)
  }

  /** What has to happen to line `j`. */
  function Judged(lines: seq<Line>, j: nat, p: Prefs): Verdict
    requires Sane(p) && j < |lines|
  {
    if lines[j].len > p.maxline then Refused
    else if Load(lines, j, p) < p.lines then Accepted
    else if Load(lines, j, p) < p.dobae then Refused
    else Destroyed
  }

  ghost predicate InOrder(lines: seq<Line>) {
    forall i, j | 0 <= i < j < |lines| :: lines[i].time <= lines[j].time
  }

  ghost predicate Sorted(entries: seq<Entry>) {
    forall i, j | 0 <= i < j < |entries| :: entries[i].inf <= entries[j].inf
  }

  // ------------------------------------------------------------------ lemmas

  lemma {:induction false} RememberedInOrder(lines: seq<Line>, p: Prefs)
    requires Sane(p) && InOrder(lines)
    ensures Sorted(Remembered(lines, p))
    ensures forall e | e in Remembered(lines, p) :: exists i :: 0 <= i < |lines| && lines[i].time == e.inf
  {
    hide Weight;
    if lines != [] {
      var n := |lines| - 1;
      RememberedInOrder(lines[..n], p);
      forall e | e in Remembered(lines, p)
        ensures exists i :: 0 <= i < |lines| && lines[i].time == e.inf
      {
        if e in Remembered(lines[..n], p) {
          var i :| 0 <= i < n && lines[..n][i].time == e.inf;
          assert lines[i].time == e.inf;
        } else {
          assert lines[n].time == e.inf;
        }
      }
    }
  }

  /** Entries that were old once are old for ever. */
  lemma {:induction false} YoungAgain(entries: seq<Entry>, before: int, now: int, p: Prefs)
    requires before <= now
    ensures Young(Young(entries, before, p), now, p) == Young(entries, now, p)
  {
    if entries != [] {
      var n := |entries| - 1;
      YoungAgain(entries[..n], before, now, p);
      var y := Young(entries[..n], before, p);
      if before < entries[n].inf + p.time {
        assert (y + [entries[n]])[..|y|] == y;
      } else {
        assert y + [] == y;
      }
    }
  }

  lemma {:induction false} YoungIsSorted(entries: seq<Entry>, now: int, p: Prefs)
    requires Sorted(entries)
    ensures Sorted(Young(entries, now, p))
    ensures forall e | e in Young(entries, now, p) :: e in entries
  {
    if entries != [] {
      var n := |entries| - 1;
      YoungIsSorted(entries[..n], now, p);
      forall e | e in Young(entries[..n], now, p)
        ensures e.inf <= entries[n].inf
      {
        assert e in entries[..n];
      }
    }
  }

  /** In a list in time order the old entries are a prefix. */
  lemma {:induction false} YoungIsSuffix(entries: seq<Entry>, k: nat, now: int, p: Prefs)
    requires k <= |entries|
    requires forall i | 0 <= i < k :: now >= entries[i].inf + p.time
    requires forall i | k <= i < |entries| :: now < entries[i].inf + p.time
    ensures Young(entries, now, p) == entries[k..]
  {
    if entries != [] {
      var n := |entries| - 1;
      if k <= n {
        YoungIsSuffix(entries[..n], k, now, p);
        assert entries[k..] == entries[..n][k..] + [entries[n]];
      } else {
        YoungIsSuffix(entries[..n], n, now, p);
      }
    }
  }

  lemma {:induction false} SumSplits(entries: seq<Entry>, k: nat)
    requires k <= |entries|
    ensures Sum(entries) == Sum(entries[..k]) + Sum(entries[k..])
  {
    var n := |entries| - 1;
    if k == |entries| {
      assert entries[..k] == entries && entries[k..] == [];
    } else {
      SumSplits(entries[..n], k);
      assert entries[..n][..k] == entries[..k];
      assert entries[k..][..n - k] == entries[..n][k..];
    }
  }

  // ----------------------------------------------------------- window safety

  /** The weight of the lines accepted at a time in [from, from + quota time). */
  function AcceptedIn(lines: seq<Line>, from: int, p: Prefs): nat
    requires Sane(p)
  {
    if lines == [] then 0
    else
      var n := |lines| - 1;
      AcceptedIn(lines[..n], from, p) +
      if Judged(lines, n, p) == Accepted && from <= lines[n].time < from + p.time then Weight(lines[n].len, p) else 0
  }

  lemma YoungOneMore(entries: seq<Entry>, e: Entry, now: int, p: Prefs)
    ensures now < e.inf + p.time ==> Young(entries + [e], now, p) == Young(entries, now, p) + [e]
    ensures now < e.inf + p.time ==> Sum(Young(entries + [e], now, p)) == Sum(Young(entries, now, p)) + e.count
    ensures now >= e.inf + p.time ==> Young(entries + [e], now, p) == Young(entries, now, p)
    ensures Sum(Young(entries + [e], now, p)) >= Sum(Young(entries, now, p))
  {
    assert (entries + [e])[..|entries|] == entries;
    var y := Young(entries, now, p);
    assert (y + [e])[..|y|] == y;
    assert y + [] == y;
  }

  lemma {:induction false} AcceptedAreYoung(lines: seq<Line>, from: int, now: int, p: Prefs)
    requires Sane(p) && now < from + p.time
    ensures AcceptedIn(lines, from, p) <= Sum(Young(Remembered(lines, p), now, p))
  {
    hide Weight, Load, Young, Sum;
    if lines == [] {
    } else {
      var n := |lines| - 1;
      AcceptedAreYoung(lines[..n], from, now, p);
      var r := Remembered(lines[..n], p);
      if lines[n].len <= p.maxline {
        var e := Entry(lines[n].time, Weight(lines[n].len, p));
        YoungOneMore(r, e, now, p);
        assert Remembered(lines, p) == r + [e];
      } else {
        assert r + [] == r;
      }
    }
  }

  /** Safety of the sliding window: however the lines are timed, those accepted within any stretch of
      one quota time weigh less than the quota. */
  lemma {:induction false} WindowSafety(lines: seq<Line>, from: int, p: Prefs)
    requires Sane(p)
    ensures AcceptedIn(lines, from, p) < p.lines
  {
    if lines != [] {
      var n := |lines| - 1;
      if Judged(lines, n, p) == Accepted && from <= lines[n].time < from + p.time {
        AcceptedAreYoung(lines[..n], from, lines[n].time, p);
      } else {
        WindowSafety(lines[..n], from, p);
      }
    }
  }

  // ------------------------------------------------------------ the verdict

  /** The wrapped lines of those of the first `n` lines that have an allowed length and are less than the quota
      time old at `now`. */
  function WeightAt(lines: seq<Line>, n: nat, now: int, p: Prefs): nat
    requires Sane(p) && n <= |lines|
  {
    if n == 0 then 0
    else
      WeightAt(lines, n - 1, now, p) +
      if lines[n - 1].len <= p.maxline && now < lines[n - 1].time + p.time then Weight(lines[n - 1].len, p) else 0
  }

  lemma {:induction false} YoungWeight(lines: seq<Line>, n: nat, now: int, p: Prefs)
    requires Sane(p) && n <= |lines|
    ensures Sum(Young(Remembered(lines[..n], p), now, p)) == WeightAt(lines, n, now, p)
  {
    hide Weight, Young, Sum, Remembered;
    if n == 0 {
      NothingYoung(now, p);
      assert lines[..0] == [];
    } else {
      YoungWeight(lines, n - 1, now, p);
      RememberedOneMore(lines, n - 1, p);
      var e := Entry(lines[n - 1].time, Weight(lines[n - 1].len, p));
      YoungOneMore(Remembered(lines[..n - 1], p), e, now, p);
    }
  }

  lemma NothingYoung(now: int, p: Prefs)
    requires Sane(p)
    ensures Remembered([], p) == [] && Sum(Young([], now, p)) == 0
  {
  }

  lemma RememberedOneMore(lines: seq<Line>, m: nat, p: Prefs)
    requires Sane(p) && m < |lines|
    ensures var before := Remembered(lines[..m], p);
            Remembered(lines[..m + 1], p) ==
            if lines[m].len <= p.maxline then before + [Entry(lines[m].time, Weight(lines[m].len, p))] else before
  {
    hide Weight;
    assert lines[..m + 1][..m] == lines[..m];
  }

  /** The verdict on a line in terms of the lines alone: a line that is too long is refused; any other is
      accepted exactly below the quota, and throws its sender out exactly from both limits on. */
  lemma VerdictLaw(lines: seq<Line>, j: nat, p: Prefs)
    requires Sane(p) && j < |lines|
    ensures var v, weight := Judged(lines, j, p), WeightAt(lines, j + 1, lines[j].time, p);
            if lines[j].len > p.maxline then v == Refused
            else
              && (v == Accepted <==> weight < p.lines)
              && (v == Destroyed <==> weight >= p.lines && weight >= p.dobae)
  {
    hide Young, Remembered, Sum, Weight;
    YoungWeight(lines, j, lines[j].time, p);
  }

  // -------------------------------------------------------------- the object

  /** The list is what was left after a purge no later than the last line. */
  ghost predicate Purged(lines: seq<Line>, list: seq<Entry>, p: Prefs)
    requires Sane(p) && lines != []
  {
    exists at :: at <= lines[|lines| - 1].time && list == Young(Remembered(lines, p), at, p)
  }

  lemma PurgedStartsSorted(lines: seq<Line>, list: seq<Entry>, now: int, p: Prefs)
    requires Sane(p) && InOrder(lines)
    requires if lines == [] then list == [] else Purged(lines, list, p) && lines[|lines| - 1].time <= now
    ensures Sorted(list)
    ensures Young(list, now, p) == Young(Remembered(lines, p), now, p)
  {
    if lines != [] {
      var at :| at <= lines[|lines| - 1].time && list == Young(Remembered(lines, p), at, p);
      RememberedInOrder(lines, p);
      YoungIsSorted(Remembered(lines, p), at, p);
      YoungAgain(Remembered(lines, p), at, now, p);
    }
  }

  lemma LongLineKeepsList(lines: seq<Line>, l: Line, list: seq<Entry>, p: Prefs)
    requires Sane(p) && l.len > p.maxline
    requires if lines == [] then list == [] else Purged(lines, list, p) && lines[|lines| - 1].time <= l.time
    ensures Purged(lines + [l], list, p)
  {
    assert (lines + [l])[..|lines|] == lines;
    assert Remembered(lines + [l], p) == Remembered(lines, p);
    if lines == [] {
      assert list == Young(Remembered(lines + [l], p), l.time, p);
    }
  }

  /** Stopping at the first entry that is still young misses nothing. */
  lemma PurgeIsExact(lines: seq<Line>, list: seq<Entry>, k: nat, now: int, p: Prefs)
    requires Sane(p) && InOrder(lines)
    requires if lines == [] then list == [] else Purged(lines, list, p) && lines[|lines| - 1].time <= now
    requires k <= |list| && (k < |list| ==> now < list[k].inf + p.time)
    requires forall i | 0 <= i < k :: now >= list[i].inf + p.time
    ensures list[k..] == Young(Remembered(lines, p), now, p)
  {
    hide Young, Remembered, Purged;
    PurgedStartsSorted(lines, list, now, p);
    YoungIsSuffix(list, k, now, p);
  }

  lemma {:induction false} LineJoins(lines: seq<Line>, l: Line, list: seq<Entry>, p: Prefs)
    requires Sane(p) && l.len <= p.maxline
    requires list == Young(Remembered(lines, p), l.time, p)
    ensures
      var e := Entry(l.time, Weight(l.len, p));
      && list + [e] == Young(Remembered(lines + [l], p), l.time, p)
      && Purged(lines + [l], list + [e], p)
      && Sum(list + [e]) == Sum(list) + e.count == Load(lines + [l], |lines|, p)
  {
    hide Young, Sum, Weight;
    var e := Entry(l.time, Weight(l.len, p));
    assert (lines + [l])[..|lines|] == lines;
    YoungOneMore(Remembered(lines, p), e, l.time, p);
    assert Remembered(lines + [l], p) == Remembered(lines, p) + [e];
  }

  lemma SumHead(entries: seq<Entry>)
    requires entries != []
    ensures Sum(entries) == entries[0].count + Sum(entries[1..])
  {
    SumSplits(entries, 1);
    assert entries[..1] == [entries[0]] && entries[..1][..0] == [];
  }

  lemma WeightIs(len: nat, p: Prefs)
    requires p.wrapline >= 1
    ensures Weight(len, p) == if len > p.wrapline then RoundedUp(len, p.wrapline) else 1
  {
  }

  class LineQuota {
    const prefs: Prefs
    var list: seq<Entry>
    var totcount: nat
    ghost var lines: seq<Line>

    /** The running total is the weight of the list, and the list is what is left of everything
        remembered after dropping what was old at some purge before the last line. */
    ghost predicate Valid()
      reads this
    {
      && Sane(prefs) && InOrder(lines)
      && (if lines == [] then list == [] else Purged(lines, list, prefs))
      && totcount == Sum(list)
    }

    constructor (prefs: Prefs)
      requires Sane(prefs)
      ensures Valid() && lines == [] && this.prefs == prefs
    {
      this.prefs, list, totcount, lines := prefs, [], 0, [];
    }

    /** One line comes in. The list is then exactly what is younger than the quota time, and the verdict
        is the one due to the line, judged from the whole history. Taking a purged entry off the running
        total never goes below zero, and as long as nobody is thrown out the total stays below a hundred. */
    method QuotaExceeded(len: nat, now: int) returns (v: Verdict)
      requires Valid()
      requires lines != [] ==> lines[|lines| - 1].time <= now
      modifies this
      ensures Valid() && lines == old(lines) + [Line(len, now)]
      ensures v == Judged(lines, |lines| - 1, prefs)
      ensures var weight := WeightAt(lines, |lines|, now, prefs);
              if len > prefs.maxline then v == Refused
              else
                && (v == Accepted <==> weight < prefs.lines)
                && (v == Destroyed <==> weight >= prefs.lines && weight >= prefs.dobae)
      ensures len <= prefs.maxline ==> list == Young(Remembered(lines, prefs), now, prefs)
      ensures len > prefs.maxline ==> list == old(list)
      ensures len <= prefs.maxline && v != Destroyed ==> totcount < 100
    {
      hide Young, Sum, Weight, Remembered, Purged, Load, Sorted, WeightAt;
      ghost var past, was := lines, list;
      ghost var k := 0;
      lines := past + [Line(len, now)];
      VerdictLaw(lines, |past|, prefs);
      if len > prefs.maxline {
        LongLineKeepsList(past, Line(len, now), list, prefs);
        return Refused;
      }
      while list != [] && now >= list[0].inf + prefs.time
        invariant 0 <= k <= |was| && list == was[k..]
        invariant forall i | 0 <= i < k :: now >= was[i].inf + prefs.time
        invariant totcount == Sum(list) && lines == past + [Line(len, now)]
      {
        SumHead(list);
        totcount := totcount - list[0].count;
        list := list[1..];
        k := k + 1;
      }
      PurgeIsExact(past, was, k, now, prefs);
      var qline := Entry(now, if len > prefs.wrapline then RoundedUp(len, prefs.wrapline) else 1);
      WeightIs(len, prefs);
      LineJoins(past, Line(len, now), list, prefs);
      list := list + [qline];
      totcount := totcount + qline.count;
      if totcount >= prefs.lines {
        if totcount >= prefs.dobae {
          return Destroyed;
        }
        return Refused;
      }
      return Accepted;
    }
  }
}
