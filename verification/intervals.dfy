/**
 Pause accounting: the union of a list of time intervals, computed the way
 the plot calculator does it (sort by start, sweep and merge any interval
 that starts at or before the running end), and its measure in seconds.
 An interval (s, e) covers the seconds s, s + 1, ..., e - 1.
 */
module Intervals {
  import opened Common

  /** (start, end), both Unix seconds. */
  type Interval = (int, int)

  predicate WellFormed(iv: Interval) {
    iv.0 <= iv.1
  }

  predicate AllWellFormed(ivs: seq<Interval>) {
    forall i :: 0 <= i < |ivs| ==> WellFormed(ivs[i])
  }

  function Len(iv: Interval): int {
    iv.1 - iv.0
  }

  /** `reduce((sum, [s, e]) => sum + (e - s), 0)` */
  function SumLen(ivs: seq<Interval>): int {
    if |ivs| == 0 then 0 else Len(ivs[0]) + SumLen(ivs[1..])
  }

  /** Second `t` lies in the interval. */
  predicate Covers(iv: Interval, t: int) {
    iv.0 <= t < iv.1
  }

  /** The seconds one interval covers. */
  ghost function Span(iv: Interval): set<int> {
    set t | iv.0 <= t < iv.1 && Covers(iv, t)
  }

  /** The seconds a list of intervals covers: the union of their spans. */
  ghost function Points(ivs: seq<Interval>): set<int> {
    if |ivs| == 0 then {} else Span(ivs[0]) + Points(ivs[1..])
  }

  lemma {:induction false} SpanSize(iv: Interval)
    requires WellFormed(iv)
    ensures |Span(iv)| == Len(iv)
    decreases Len(iv)
  {
    if iv.0 == iv.1 {
      assert Span(iv) == {};
    } else {
      var shorter := (iv.0, iv.1 - 1);
      assert Span(iv) == Span(shorter) + {iv.1 - 1};
      SpanSize(shorter);
    }
  }

  lemma {:induction false} PointsMembers(ivs: seq<Interval>, t: int)
    ensures t in Points(ivs) <==> exists iv :: iv in ivs && iv.0 <= t < iv.1
    decreases |ivs|
  {
    if |ivs| > 0 {
      PointsMembers(ivs[1..], t);
      if t !in Points(ivs) {
        forall iv | iv in ivs ensures !(iv.0 <= t < iv.1) {
          if iv != ivs[0] {
            assert iv in ivs[1..];
          }
        }
      }
    }
  }

  /** Lists holding the same intervals, in any order and multiplicity, cover the same seconds. */
  lemma SamePoints(a: seq<Interval>, b: seq<Interval>)
    requires forall iv :: iv in a <==> iv in b
    ensures Points(a) == Points(b)
  {
    forall t ensures t in Points(a) <==> t in Points(b) {
      PointsMembers(a, t);
      PointsMembers(b, t);
    }
  }

  /** The union is no larger than the sum of the lengths. */
  lemma {:induction false} UnionAtMostSum(ivs: seq<Interval>)
    requires AllWellFormed(ivs)
    ensures |Points(ivs)| <= SumLen(ivs)
    decreases |ivs|
  {
    if |ivs| > 0 {
      UnionAtMostSum(ivs[1..]);
      SpanSize(ivs[0]);
      assert |Span(ivs[0]) + Points(ivs[1..])| <= |Span(ivs[0])| + |Points(ivs[1..])|;
    }
  }

  /** The union is at least as long as any single interval. */
  lemma UnionAtLeastEach(ivs: seq<Interval>, i: nat)
    requires AllWellFormed(ivs) && i < |ivs|
    ensures Len(ivs[i]) <= |Points(ivs)|
  {
    var iv := ivs[i];
    SpanSize(iv);
    forall t | t in Span(iv) ensures t in Points(ivs) {
      PointsMembers(ivs, t);
    }
    var rest := Points(ivs) - Span(iv);
    assert Points(ivs) == Span(iv) + rest;
  }

  predicate SortedByStart(ivs: seq<Interval>) {
    forall i, j :: 0 <= i < j < |ivs| ==> ivs[i].0 <= ivs[j].0
  }

  /** Insertion after every element with a start no later than `x`'s, keeping the sort stable. */
  function Insert(x: Interval, ivs: seq<Interval>): (r: seq<Interval>)
    ensures |r| == |ivs| + 1
  {
    if |ivs| == 0 then [x]
    else if x.0 < ivs[0].0 then [x] + ivs
    else [ivs[0]] + Insert(x, ivs[1..])
  }

  /** Insertion adds `x` and loses nothing. */
  lemma {:induction false} InsertPerm(x: Interval, ivs: seq<Interval>)
    ensures multiset(Insert(x, ivs)) == multiset(ivs) + multiset{x}
    decreases |ivs|
  {
    if |ivs| > 0 && x.0 >= ivs[0].0 {
      assert ivs == [ivs[0]] + ivs[1..];
      InsertPerm(x, ivs[1..]);
    }
  }

  lemma {:induction false} InsertLowerBound(x: Interval, ivs: seq<Interval>, lo: int)
    requires lo <= x.0
    requires forall i :: 0 <= i < |ivs| ==> lo <= ivs[i].0
    ensures forall i :: 0 <= i < |Insert(x, ivs)| ==> lo <= Insert(x, ivs)[i].0
    decreases |ivs|
  {
    if |ivs| > 0 && x.0 >= ivs[0].0 {
      InsertLowerBound(x, ivs[1..], lo);
    }
  }

  lemma {:induction false} InsertSorted(x: Interval, ivs: seq<Interval>)
    requires SortedByStart(ivs)
    ensures SortedByStart(Insert(x, ivs))
    decreases |ivs|
  {
    if |ivs| > 0 && x.0 >= ivs[0].0 {
      var tail := Insert(x, ivs[1..]);
      InsertSorted(x, ivs[1..]);
      InsertLowerBound(x, ivs[1..], ivs[0].0);
      var r := [ivs[0]] + tail;
      assert forall j :: 0 < j < |r| ==> r[j] == tail[j - 1];
    }
  }

  /** `intervals.sort((a, b) => a[0] - b[0])`, a stable sort by start. */
  function Sort(ivs: seq<Interval>): (r: seq<Interval>)
    ensures |r| == |ivs|
  {
    if |ivs| == 0 then []
    else Insert(ivs[|ivs| - 1], Sort(ivs[..|ivs| - 1]))
  }

  /** The sorted list is a permutation of the input, ordered by start. */
  lemma {:induction false} SortCorrect(ivs: seq<Interval>)
    ensures multiset(Sort(ivs)) == multiset(ivs)
    ensures SortedByStart(Sort(ivs))
    decreases |ivs|
  {
    if |ivs| > 0 {
      var init := ivs[..|ivs| - 1];
      assert ivs == init + [ivs[|ivs| - 1]];
      SortCorrect(init);
      InsertPerm(ivs[|ivs| - 1], Sort(init));
      InsertSorted(ivs[|ivs| - 1], Sort(init));
    }
  }

  /** Adjacent merged intervals leave at least one uncovered second between them. */
  predicate Separated(ms: seq<Interval>) {
    forall i :: 0 <= i < |ms| - 1 ==> ms[i].1 < ms[i + 1].0
  }

  /**
   The sweep: `cur` is the interval being grown; the next interval is
   absorbed when it starts at or before the current end, otherwise `cur`
   is emitted and the next interval becomes current.
   */
  function MergeFrom(cur: Interval, rest: seq<Interval>): (ms: seq<Interval>)
    ensures |ms| >= 1 && ms[0].0 == cur.0
    decreases |rest|
  {
    if |rest| == 0 then [cur]
    else if rest[0].0 <= cur.1 then MergeFrom((cur.0, Max(cur.1, rest[0].1)), rest[1..])
    else [cur] + MergeFrom(rest[0], rest[1..])
  }

  /** The sweep over sorted input covers exactly the input's seconds and emits well-formed, separated intervals. */
  lemma {:induction false} MergeFromCorrect(cur: Interval, rest: seq<Interval>)
    requires WellFormed(cur) && AllWellFormed(rest) && SortedByStart(rest)
    requires |rest| > 0 ==> cur.0 <= rest[0].0
    ensures Points(MergeFrom(cur, rest)) == Span(cur) + Points(rest)
    ensures AllWellFormed(MergeFrom(cur, rest)) && Separated(MergeFrom(cur, rest))
    decreases |rest|
  {
    if |rest| == 0 {
      assert Points([cur]) == Span(cur) + Points([]);
    } else if rest[0].0 <= cur.1 {
      var grown := (cur.0, Max(cur.1, rest[0].1));
      MergeFromCorrect(grown, rest[1..]);
      assert Span(grown) == Span(cur) + Span(rest[0]);
    } else {
      var tail := MergeFrom(rest[0], rest[1..]);
      MergeFromCorrect(rest[0], rest[1..]);
      assert ([cur] + tail)[1..] == tail;
    }
  }

  /** The merged list for the calculator: empty input stays empty. */
  function Merge(ivs: seq<Interval>): (ms: seq<Interval>)
    ensures |ms| == 0 <==> |ivs| == 0
  {
    if |ivs| == 0 then []
    else
      var sorted := Sort(ivs);
      MergeFrom(sorted[0], sorted[1..])
  }

  lemma MergeCorrect(ivs: seq<Interval>)
    requires AllWellFormed(ivs)
    ensures Points(Merge(ivs)) == Points(ivs)
    ensures AllWellFormed(Merge(ivs)) && Separated(Merge(ivs))
  {
    if |ivs| > 0 {
      var sorted := Sort(ivs);
      SortCorrect(ivs);
      assert forall iv :: iv in sorted <==> iv in ivs by {
        forall iv ensures iv in sorted <==> iv in ivs {
          assert iv in sorted <==> iv in multiset(sorted);
        }
      }
      assert AllWellFormed(sorted) by {
        forall i | 0 <= i < |sorted| ensures WellFormed(sorted[i]) {
          assert sorted[i] in ivs;
        }
      }
      MergeFromCorrect(sorted[0], sorted[1..]);
      assert sorted == [sorted[0]] + sorted[1..];
      SamePoints(sorted, ivs);
    }
  }

  /** In a separated list, every later interval starts after every earlier one ends. */
  lemma {:induction false} SeparatedFar(ms: seq<Interval>, i: nat, j: nat)
    requires AllWellFormed(ms) && Separated(ms)
    requires i < j < |ms|
    ensures ms[i].1 < ms[j].0
    decreases j - i
  {
    if j > i + 1 {
      SeparatedFar(ms, i + 1, j);
    }
  }

  /** Separated intervals do not overlap, so the measure of their union is the sum of their lengths. */
  lemma {:induction false} SeparatedMeasure(ms: seq<Interval>)
    requires AllWellFormed(ms) && Separated(ms)
    ensures |Points(ms)| == SumLen(ms)
    decreases |ms|
  {
    if |ms| > 0 {
      var tail := ms[1..];
      assert AllWellFormed(tail) && Separated(tail);
      SeparatedMeasure(tail);
      SpanSize(ms[0]);
      forall t | t in Points(tail) ensures t !in Span(ms[0]) {
        PointsMembers(tail, t);
        var iv :| iv in tail && iv.0 <= t < iv.1;
        var k :| 0 <= k < |tail| && tail[k] == iv;
        SeparatedFar(ms, 0, k + 1);
      }
      assert Span(ms[0]) * Points(tail) == {};
    }
  }

  /** The sweep swallows each input interval whole: some emitted interval contains it. */
  lemma {:induction false} MergeFromAbsorbs(cur: Interval, rest: seq<Interval>, iv: Interval) returns (m: Interval)
    requires SortedByStart(rest)
    requires |rest| > 0 ==> cur.0 <= rest[0].0
    requires iv == cur || iv in rest
    ensures m in MergeFrom(cur, rest) && m.0 <= iv.0 && iv.1 <= m.1
    decreases |rest|
  {
    if |rest| == 0 {
      m := cur;
    } else {
      assert rest == [rest[0]] + rest[1..];
      if rest[0].0 <= cur.1 {
        var grown := (cur.0, Max(cur.1, rest[0].1));
        if iv == cur || iv == rest[0] {
          m := MergeFromAbsorbs(grown, rest[1..], grown);
        } else {
          m := MergeFromAbsorbs(grown, rest[1..], iv);
        }
      } else if iv == cur {
        m := cur;
      } else {
        m := MergeFromAbsorbs(rest[0], rest[1..], iv);
      }
    }
  }

  /** Every interval the sweep emits ends where some input interval ends. */
  lemma {:induction false} MergeFromEnd(cur: Interval, rest: seq<Interval>, m: Interval) returns (iv: Interval)
    requires m in MergeFrom(cur, rest)
    ensures (iv == cur || iv in rest) && iv.1 == m.1
    decreases |rest|
  {
    if |rest| == 0 {
      iv := cur;
    } else {
      assert rest == [rest[0]] + rest[1..];
      if rest[0].0 <= cur.1 {
        var grown := (cur.0, Max(cur.1, rest[0].1));
        iv := MergeFromEnd(grown, rest[1..], m);
        if iv == grown {
          iv := if cur.1 >= rest[0].1 then cur else rest[0];
        }
      } else if m == cur {
        iv := cur;
      } else {
        iv := MergeFromEnd(rest[0], rest[1..], m);
      }
    }
  }

  /** `Merge` keeps every input interval inside one merged interval. */
  lemma MergeAbsorbs(ivs: seq<Interval>, iv: Interval) returns (m: Interval)
    requires iv in ivs
    ensures m in Merge(ivs) && m.0 <= iv.0 && iv.1 <= m.1
  {
    var sorted := Sort(ivs);
    SortCorrect(ivs);
    assert iv in multiset(ivs);
    assert iv in sorted;
    assert sorted == [sorted[0]] + sorted[1..];
    m := MergeFromAbsorbs(sorted[0], sorted[1..], iv);
  }

  /** Each merged interval ends where some input interval ends. */
  lemma MergeEnd(ivs: seq<Interval>, m: Interval) returns (iv: Interval)
    requires m in Merge(ivs)
    ensures iv in ivs && iv.1 == m.1
  {
    var sorted := Sort(ivs);
    SortCorrect(ivs);
    iv := MergeFromEnd(sorted[0], sorted[1..], m);
    assert sorted == [sorted[0]] + sorted[1..];
    assert iv in multiset(sorted);
  }

  /**
   A merged interval ends at `now` exactly when `now` itself is not covered
   and some input interval ends at `now` (an empty one included).
   */
  lemma OngoingIffEnding(ivs: seq<Interval>, now: int)
    requires AllWellFormed(ivs)
    ensures EndingAt(Merge(ivs), now).Some? <==>
      now !in Points(ivs) && exists i :: 0 <= i < |ivs| && ivs[i].1 == now
  {
    var ms := Merge(ivs);
    MergeCorrect(ivs);
    if EndingAt(ms, now).Some? {
      OngoingRun(ms, EndingAt(ms, now).value, now);
      var k :| 0 <= k < |ms| && ms[k] == (EndingAt(ms, now).value, now);
      var iv := MergeEnd(ivs, ms[k]);
      var i :| 0 <= i < |ivs| && ivs[i] == iv;
    } else if now !in Points(ivs) && exists i :: 0 <= i < |ivs| && ivs[i].1 == now {
      var i :| 0 <= i < |ivs| && ivs[i].1 == now;
      var m := MergeAbsorbs(ivs, ivs[i]);
      var k :| 0 <= k < |ms| && ms[k] == m;
      PointsMembers(ms, now);
      assert false;
    }
  }

  /** The first merged interval that ends exactly at `now`, by its start. */
  function EndingAt(ms: seq<Interval>, now: int): (r: Option<int>)
    ensures r.None? ==> forall i :: 0 <= i < |ms| ==> ms[i].1 != now
    ensures r.Some? ==> exists i :: 0 <= i < |ms| && ms[i] == (r.value, now)
  {
    if |ms| == 0 then None
    else if ms[0].1 == now then Some(ms[0].0)
    else
      var r := EndingAt(ms[1..], now);
      assert r.Some? ==> exists i :: 0 <= i < |ms[1..]| && ms[1..][i] == (r.value, now);
      r
  }

  datatype PauseSummary = PauseSummary(duration: int, pausedAt: Option<int>)

  /**
   Total paused seconds and the start of the ongoing pause. The total is the
   number of seconds some interval covers: never more than the sum of the
   lengths and never less than any one length. The ongoing pause, when
   there is one, starts where the unbroken run of paused seconds reaching
   `now` begins.
   */
  function Summarise(ivs: seq<Interval>, now: int): (r: PauseSummary)
    requires AllWellFormed(ivs)
    ensures |ivs| == 0 ==> r == PauseSummary(0, None)
    ensures r.duration == |Points(ivs)|
    ensures r.duration <= SumLen(ivs)
    ensures forall i :: 0 <= i < |ivs| ==> Len(ivs[i]) <= r.duration
    ensures r.pausedAt.Some? ==>
      var s := r.pausedAt.value;
      && s <= now
      && (forall t :: s <= t < now ==> t in Points(ivs))
      && s - 1 !in Points(ivs)
      && now !in Points(ivs)
    ensures r.pausedAt.None? ==> !(now - 1 in Points(ivs) && now !in Points(ivs))
    ensures r.pausedAt.Some? <==> now !in Points(ivs) && exists i :: 0 <= i < |ivs| && ivs[i].1 == now
  {
    if |ivs| == 0 then PauseSummary(0, None)
    else
      SummaryMeasure(ivs);
      SummaryRun(ivs, now);
      OngoingIffEnding(ivs, now);
      PauseSummary(SumLen(Merge(ivs)), EndingAt(Merge(ivs), now))
  }

  /** The run facts `Summarise` promises, read from the merged list. */
  lemma SummaryRun(ivs: seq<Interval>, now: int)
    requires AllWellFormed(ivs)
    ensures EndingAt(Merge(ivs), now).Some? ==>
      var s := EndingAt(Merge(ivs), now).value;
      && s <= now
      && (forall t :: s <= t < now ==> t in Points(ivs))
      && s - 1 !in Points(ivs)
      && now !in Points(ivs)
    ensures EndingAt(Merge(ivs), now).None? ==> !(now - 1 in Points(ivs) && now !in Points(ivs))
  {
    MergeCorrect(ivs);
    RunTransfers(Merge(ivs), Points(ivs), now);
  }

  /** The measure facts `Summarise` promises, read from the merged list. */
  lemma SummaryMeasure(ivs: seq<Interval>)
    requires AllWellFormed(ivs)
    ensures SumLen(Merge(ivs)) == |Points(ivs)| <= SumLen(ivs)
    ensures forall i :: 0 <= i < |ivs| ==> Len(ivs[i]) <= |Points(ivs)|
  {
    MergeCorrect(ivs);
    SeparatedMeasure(Merge(ivs));
    UnionAtMostSum(ivs);
    forall i | 0 <= i < |ivs| ensures Len(ivs[i]) <= |Points(ivs)| {
      UnionAtLeastEach(ivs, i);
    }
  }

  /**
   The interval of a separated list that ends at `now`, if any, is a maximal
   run of the seconds `p` the list covers.
   */
  lemma RunTransfers(ms: seq<Interval>, p: set<int>, now: int)
    requires AllWellFormed(ms) && Separated(ms) && Points(ms) == p
    ensures EndingAt(ms, now).Some? ==>
      var s := EndingAt(ms, now).value;
      && s <= now
      && (forall t :: s <= t < now ==> t in p)
      && s - 1 !in p
      && now !in p
    ensures EndingAt(ms, now).None? ==> !(now - 1 in p && now !in p)
  {
    if EndingAt(ms, now).Some? {
      OngoingRun(ms, EndingAt(ms, now).value, now);
    } else {
      NoRunEndsAt(ms, now);
    }
  }

  /** When no interval of the list ends at `now`, the covered seconds do not stop at `now`. */
  lemma NoRunEndsAt(ms: seq<Interval>, now: int)
    requires forall i :: 0 <= i < |ms| ==> ms[i].1 != now
    ensures now - 1 in Points(ms) ==> now in Points(ms)
  {
    PointsMembers(ms, now - 1);
    if now - 1 in Points(ms) {
      var iv :| iv in ms && iv.0 <= now - 1 < iv.1;
      var k :| 0 <= k < |ms| && ms[k] == iv;
      PointsMembers(ms, now);
    }
  }

  /** In a separated list, a member (s, now) is a maximal run of covered seconds. */
  lemma OngoingRun(ms: seq<Interval>, s: int, now: int)
    requires AllWellFormed(ms) && Separated(ms)
    requires exists i :: 0 <= i < |ms| && ms[i] == (s, now)
    ensures s <= now
    ensures forall t :: s <= t < now ==> t in Points(ms)
    ensures s - 1 !in Points(ms)
    ensures now !in Points(ms)
  {
    var i :| 0 <= i < |ms| && ms[i] == (s, now);
    forall t | s <= t < now ensures t in Points(ms) {
      PointsMembers(ms, t);
    }
    PointsMembers(ms, s - 1);
    if s - 1 in Points(ms) {
      var iv :| iv in ms && iv.0 <= s - 1 < iv.1;
      var k :| 0 <= k < |ms| && ms[k] == iv;
      if k < i {
        SeparatedFar(ms, k, i);
      } else if k > i {
        SeparatedFar(ms, i, k);
      }
    }
    PointsMembers(ms, now);
    if now in Points(ms) {
      var iv :| iv in ms && iv.0 <= now < iv.1;
      var k :| 0 <= k < |ms| && ms[k] == iv;
      if k < i {
        SeparatedFar(ms, k, i);
      } else if k > i {
        SeparatedFar(ms, i, k);
      }
    }
  }
}
