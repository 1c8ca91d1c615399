/** The largest number of overlapping intervals, by one sweep over sorted events
    (`max_concurrency` in docs/scripts/stats.py). */
module ConcurrencySweep {
  datatype Interval = Interval(start: real, end: real)
  datatype Event = Event(stamp: real, delta: int)

  /** Reference definition: how many half-open intervals `[start, end)` hold `t`. */
  function Overlap(intervals: seq<Interval>, t: real): nat {
    if intervals == [] then 0 else
      var last := intervals[|intervals| - 1];
      Overlap(intervals[..|intervals| - 1], t) + (if last.start <= t < last.end then 1 else 0)
  }

  predicate Forward(intervals: seq<Interval>) {
    forall i :: 0 <= i < |intervals| ==> intervals[i].start <= intervals[i].end
  }

  // ----- the events in order -----

  function Starts(intervals: seq<Interval>): seq<Event> {
    seq(|intervals|, i requires 0 <= i < |intervals| => Event(intervals[i].start, 1))
  }

  function Ends(intervals: seq<Interval>): seq<Event> {
    seq(|intervals|, i requires 0 <= i < |intervals| => Event(intervals[i].end, -1))
  }

  /** Tuple order: by stamp, and at one stamp ends before starts. */
  predicate NotAfter(a: Event, b: Event) {
    a.stamp < b.stamp || (a.stamp == b.stamp && a.delta <= b.delta)
  }

  predicate Sorted(es: seq<Event>) {
    forall i, j :: 0 <= i < j < |es| ==> NotAfter(es[i], es[j])
  }

  function Insert(es: seq<Event>, e: Event): (out: seq<Event>)
    ensures multiset(out) == multiset(es) + multiset{e}
  {
    if es == [] || NotAfter(es[|es| - 1], e) then es + [e] else
      assert es == es[..|es| - 1] + [es[|es| - 1]];
      Insert(es[..|es| - 1], e) + [es[|es| - 1]]
  }

  function Sort(es: seq<Event>): (out: seq<Event>)
    ensures multiset(out) == multiset(es)
  {
    if es == [] then [] else
      assert es == es[..|es| - 1] + [es[|es| - 1]];
      Insert(Sort(es[..|es| - 1]), es[|es| - 1])
  }

  lemma {:induction false} InsertSorted(es: seq<Event>, e: Event)
    requires Sorted(es)
    ensures Sorted(Insert(es, e))
  {
    if es != [] && !NotAfter(es[|es| - 1], e) {
      var init, last := es[..|es| - 1], es[|es| - 1];
      InsertSorted(init, e);
      var out := Insert(init, e);
      forall i | 0 <= i < |out| ensures NotAfter(out[i], last) {
        assert out[i] in multiset(out);
        assert out[i] in multiset(init) || out[i] == e;
      }
    } else {
      forall i | 0 <= i < |es| ensures NotAfter(es[i], e) {
        assert i == |es| - 1 || NotAfter(es[i], es[|es| - 1]);
      }
    }
  }

  lemma {:induction false} SortSorts(es: seq<Event>)
    ensures Sorted(Sort(es))
  {
    if es != [] {
      SortSorts(es[..|es| - 1]);
      InsertSorted(Sort(es[..|es| - 1]), es[|es| - 1]);
    }
  }

  // ----- running sums -----

  function Sum(es: seq<Event>): int {
    if es == [] then 0 else Sum(es[..|es| - 1]) + es[|es| - 1].delta
  }

  /** The sum of the events up to and including instant `t`. */
  function SumUpTo(es: seq<Event>, t: real): int {
    if es == [] then 0 else
      var last := es[|es| - 1];
      SumUpTo(es[..|es| - 1], t) + (if last.stamp <= t then last.delta else 0)
  }

  lemma {:induction false} SumUpToConcat(a: seq<Event>, b: seq<Event>, t: real)
    ensures SumUpTo(a + b, t) == SumUpTo(a, t) + SumUpTo(b, t)
  {
    if b == [] {
      assert a + b == a;
    } else {
      assert (a + b)[..|a + b| - 1] == a + b[..|b| - 1];
      SumUpToConcat(a, b[..|b| - 1], t);
    }
  }

  lemma {:induction false} SumUpToOrder(a: seq<Event>, b: seq<Event>, t: real)
    requires multiset(a) == multiset(b)
    ensures SumUpTo(a, t) == SumUpTo(b, t)
    decreases |a|
  {
    if a == [] {
      assert |multiset(b)| == 0;
      assert b == [];
    } else {
      var n := |a| - 1;
      assert a == a[..n] + [a[n]];
      assert a[n] in multiset(a);
      var i :| 0 <= i < |b| && b[i] == a[n];
      var rest := b[..i] + b[i + 1..];
      assert b == b[..i] + [b[i]] + b[i + 1..];
      assert multiset(a[..n]) == multiset(a) - multiset{a[n]};
      assert multiset(rest) == multiset(b) - multiset{a[n]};
      SumUpToOrder(a[..n], rest, t);
      SumUpToConcat(b[..i] + [b[i]], b[i + 1..], t);
      SumUpToConcat(b[..i], [b[i]], t);
      SumUpToConcat(b[..i], b[i + 1..], t);
      assert [b[i]][..0] == [];
    }
  }

  lemma {:induction false} StartsMinusEnds(intervals: seq<Interval>, t: real)
    requires Forward(intervals)
    ensures SumUpTo(Starts(intervals), t) + SumUpTo(Ends(intervals), t) == Overlap(intervals, t)
  {
    if intervals != [] {
      var n := |intervals| - 1;
      StartsMinusEnds(intervals[..n], t);
      assert Starts(intervals)[..n] == Starts(intervals[..n]);
      assert Ends(intervals)[..n] == Ends(intervals[..n]);
    }
  }

  function Events(intervals: seq<Interval>): seq<Event> {
    Sort(Starts(intervals) + Ends(intervals))
  }

  /** Summed up to an instant, the events give the overlap there. */
  lemma {:induction false} EventsCountOverlap(intervals: seq<Interval>, t: real)
    requires Forward(intervals)
    ensures SumUpTo(Events(intervals), t) == Overlap(intervals, t)
  {
    SumUpToOrder(Events(intervals), Starts(intervals) + Ends(intervals), t);
    SumUpToConcat(Starts(intervals), Ends(intervals), t);
    StartsMinusEnds(intervals, t);
  }

  /** A prefix that ends where the stamps pass `t` sums to the overlap at `t`. */
  lemma {:induction false} PrefixSum(es: seq<Event>, k: nat, t: real)
    requires k <= |es|
    requires forall i :: 0 <= i < k ==> es[i].stamp <= t
    requires forall i :: k <= i < |es| ==> es[i].stamp > t
    ensures Sum(es[..k]) == SumUpTo(es, t)
  {
    if k < |es| {
      var n := |es| - 1;
      assert es[..n][..k] == es[..k];
      PrefixSum(es[..n], k, t);
    } else {
      assert es[..k] == es;
      AllSummed(es, t);
    }
  }

  lemma {:induction false} AllSummed(es: seq<Event>, t: real)
    requires forall i :: 0 <= i < |es| ==> es[i].stamp <= t
    ensures Sum(es) == SumUpTo(es, t)
  {
    if es != [] {
      AllSummed(es[..|es| - 1], t);
    }
  }

  /** The end of the run of events stamped at most `t`. */
  lemma {:induction false} Passed(es: seq<Event>, t: real) returns (k: nat)
    requires Sorted(es)
    ensures k <= |es|
    ensures forall i :: 0 <= i < k ==> es[i].stamp <= t
    ensures forall i :: k <= i < |es| ==> es[i].stamp > t
  {
    k := |es|;
    while k > 0 && es[k - 1].stamp > t
      invariant k <= |es|
      invariant forall i :: k <= i < |es| ==> es[i].stamp > t
    {
      k := k - 1;
    }
  }

  /** Between two starts at one stamp the sum only grows. */
  lemma {:induction false} GrowsToStampEnd(es: seq<Event>, k: nat, end: nat)
    requires Sorted(es) && 1 <= k <= end <= |es| && es[k - 1].delta == 1
    requires forall i :: 0 <= i < |es| ==> es[i].delta == 1 || es[i].delta == -1
    requires es[end - 1].stamp == es[k - 1].stamp
    ensures Sum(es[..k]) <= Sum(es[..end])
  {
    if k < end {
      assert NotAfter(es[k - 1], es[end - 1]);
      assert es[..end][..end - 1] == es[..end - 1];
      if end - 1 > k {
        assert NotAfter(es[k - 1], es[end - 2]) && NotAfter(es[end - 2], es[end - 1]);
      }
      GrowsToStampEnd(es, k, end - 1);
    }
  }

  lemma EventDeltas(intervals: seq<Interval>)
    ensures forall i :: 0 <= i < |Events(intervals)| ==>
              Events(intervals)[i].delta == 1 || Events(intervals)[i].delta == -1
  {
    var es, all := Events(intervals), Starts(intervals) + Ends(intervals);
    forall i | 0 <= i < |es| ensures es[i].delta == 1 || es[i].delta == -1 {
      assert es[i] in multiset(es);
      assert es[i] in multiset(all);
    }
  }

  /** Every running count is reached, or exceeded, by a true overlap. */
  lemma {:induction false} RunningIsReached(intervals: seq<Interval>, k: nat) returns (t: real)
    requires Forward(intervals) && k <= |Events(intervals)|
    ensures Sum(Events(intervals)[..k]) <= Overlap(intervals, t)
  {
    var es := Events(intervals);
    SortSorts(Starts(intervals) + Ends(intervals));
    EventDeltas(intervals);
    if k == 0 {
      t := 0.0;
    } else if es[k - 1].delta == 1 {
      t := es[k - 1].stamp;
      var end := Passed(es, t);
      PrefixSum(es, end, t);
      EventsCountOverlap(intervals, t);
      assert k == end || NotAfter(es[k - 1], es[end - 1]);
      GrowsToStampEnd(es, k, end);
    } else {
      t := RunningIsReached(intervals, k - 1);
      assert es[..k][..k - 1] == es[..k - 1];
    }
  }

  // ----- the sweep -----

  function Peak(es: seq<Event>): int {
    if es == [] then 0 else
      var before := Peak(es[..|es| - 1]);
      if Sum(es) > before then Sum(es) else before
  }

  lemma {:induction false} PeakIsGreatest(es: seq<Event>, k: nat)
    requires k <= |es|
    ensures Sum(es[..k]) <= Peak(es) && 0 <= Peak(es)
  {
    if es == [] {
    } else if k < |es| {
      assert es[..|es| - 1][..k] == es[..k];
      PeakIsGreatest(es[..|es| - 1], k);
    } else {
      assert es[..k] == es;
      PeakIsGreatest(es[..|es| - 1], 0);
    }
  }

  lemma {:induction false} PeakIsReached(es: seq<Event>) returns (k: nat)
    ensures k <= |es| && Sum(es[..k]) == Peak(es)
  {
    if es == [] {
      k := 0;
    } else {
      var n := |es| - 1;
      var before := PeakIsReached(es[..n]);
      if Sum(es) > Peak(es[..n]) {
        k := |es|;
        assert es[..k] == es;
      } else {
        k := before;
        assert es[..n][..k] == es[..k];
      }
    }
  }

  /** The sweep ends with nothing running. */
  lemma {:induction false} EndsAtZero(intervals: seq<Interval>)
    requires Forward(intervals)
    ensures Sum(Events(intervals)) == 0
    ensures exists t :: Overlap(intervals, t) == 0
  {
    var es := Events(intervals);
    var t := if es == [] then 0.0 else es[|es| - 1].stamp;
    SortSorts(Starts(intervals) + Ends(intervals));
    forall i | 0 <= i < |es| ensures es[i].stamp <= t {
      assert i == |es| - 1 || NotAfter(es[i], es[|es| - 1]);
    }
    AllSummed(es, t);
    EventsCountOverlap(intervals, t);
    NoneAfterEnd(intervals, t);
  }

  lemma {:induction false} NoneAfterEnd(intervals: seq<Interval>, t: real)
    requires forall i :: 0 <= i < |Events(intervals)| ==> Events(intervals)[i].stamp <= t
    ensures Overlap(intervals, t) == 0
  {
    var es, all := Events(intervals), Starts(intervals) + Ends(intervals);
    forall i | 0 <= i < |intervals| ensures intervals[i].end <= t {
      assert all[|intervals| + i] == Event(intervals[i].end, -1);
      assert all[|intervals| + i] in multiset(es);
      assert all[|intervals| + i] in es;
    }
    NoneHolds(intervals, t);
  }

  lemma {:induction false} NoneHolds(intervals: seq<Interval>, t: real)
    requires forall i :: 0 <= i < |intervals| ==> intervals[i].end <= t
    ensures Overlap(intervals, t) == 0
  {
    if intervals != [] {
      NoneHolds(intervals[..|intervals| - 1], t);
    }
  }

  ghost predicate IsMaximum(intervals: seq<Interval>, peak: int) {
    && (forall t :: Overlap(intervals, t) <= peak)
    && exists t :: Overlap(intervals, t) == peak
  }

  /** The curve: at the last event of each stamp, the overlap there; after the last event, zero. */
  ghost predicate IsCurve(intervals: seq<Interval>, curve: seq<(real, int)>) {
    && |curve| == 2 * |intervals|
    && (forall i, j :: 0 <= i < j < |curve| ==> curve[i].0 <= curve[j].0)
    && (forall i :: 0 <= i < |curve| && (i == |curve| - 1 || curve[i].0 < curve[i + 1].0) ==>
          curve[i].1 == Overlap(intervals, curve[i].0))
    && (curve != [] ==> curve[|curve| - 1].1 == 0)
  }

  lemma PeakIsMaximum(intervals: seq<Interval>)
    requires Forward(intervals)
    ensures IsMaximum(intervals, Peak(Events(intervals)))
  {
    var es := Events(intervals);
    SortSorts(Starts(intervals) + Ends(intervals));
    forall t ensures Overlap(intervals, t) <= Peak(es) {
      var k := Passed(es, t);
      PrefixSum(es, k, t);
      EventsCountOverlap(intervals, t);
      PeakIsGreatest(es, k);
    }
    var k := PeakIsReached(es);
    var t := RunningIsReached(intervals, k);
    assert Overlap(intervals, t) == Peak(es);
  }

  lemma {:induction false} LastOfStamp(intervals: seq<Interval>, i: nat)
    requires Forward(intervals) && i < |Events(intervals)|
    requires i == |Events(intervals)| - 1 || Events(intervals)[i].stamp < Events(intervals)[i + 1].stamp
    ensures Sum(Events(intervals)[..i + 1]) == Overlap(intervals, Events(intervals)[i].stamp)
  {
    var es := Events(intervals);
    var t := es[i].stamp;
    SortSorts(Starts(intervals) + Ends(intervals));
    forall j | 0 <= j < i + 1 ensures es[j].stamp <= t {
      assert j == i || NotAfter(es[j], es[i]);
    }
    forall j | i + 1 <= j < |es| ensures es[j].stamp > t {
      assert j == i + 1 || NotAfter(es[i + 1], es[j]);
    }
    PrefixSum(es, i + 1, t);
    EventsCountOverlap(intervals, t);
  }

  /** `max_concurrency` (docs/scripts/stats.py:56-64). */
  method MaxConcurrency(intervals: seq<Interval>) returns (peak: int, curve: seq<(real, int)>)
    requires Forward(intervals)
    ensures IsMaximum(intervals, peak)
    ensures IsCurve(intervals, curve)
  {
    var events := Events(intervals);
    var running := 0;
    peak, curve := 0, [];
    for i := 0 to |events|
      invariant running == Sum(events[..i]) && peak == Peak(events[..i])
      invariant |curve| == i
      invariant forall j :: 0 <= j < i ==> curve[j] == (events[j].stamp, Sum(events[..j + 1]))
    {
      assert events[..i + 1][..i] == events[..i];
      running := running + events[i].delta;
      peak := if running > peak then running else peak;
      curve := curve + [(events[i].stamp, running)];
    }
    assert events[..|events|] == events;
    PeakIsMaximum(intervals);
    CurveIs(intervals, curve);
  }

  lemma EventsSize(intervals: seq<Interval>)
    ensures |Events(intervals)| == 2 * |intervals|
  {
    SortSorts(Starts(intervals) + Ends(intervals));
    assert |multiset(Events(intervals))| == |multiset(Starts(intervals) + Ends(intervals))|;
  }

  lemma CurveIs(intervals: seq<Interval>, curve: seq<(real, int)>)
    requires Forward(intervals) && |curve| == |Events(intervals)|
    requires forall j :: 0 <= j < |curve| ==> curve[j] == (Events(intervals)[j].stamp, Sum(Events(intervals)[..j + 1]))
    ensures IsCurve(intervals, curve)
  {
    var es := Events(intervals);
    SortSorts(Starts(intervals) + Ends(intervals));
    EndsAtZero(intervals);
    EventsSize(intervals);
    assert es[..|es|] == es;
    forall i, j | 0 <= i < j < |curve| ensures curve[i].0 <= curve[j].0 {
      assert NotAfter(es[i], es[j]);
    }
    forall i | 0 <= i < |curve| && (i == |curve| - 1 || curve[i].0 < curve[i + 1].0)
      ensures curve[i].1 == Overlap(intervals, curve[i].0)
    {
      LastOfStamp(intervals, i);
    }
  }
}
