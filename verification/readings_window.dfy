/**
 * The readings hook: keep the readings of the selected time window, sort them
 * by time (stably), and average one metric over them. The chart component
 * repeats the same filter and sort; both use `FilterReadings`.
 */
module ReadingWindow {
  import opened Wrappers
  import opened Types

  /** The selectable windows: last day, last week, last month. */
  datatype TimeRange = Last24h | Last7d | Last30d

  /** Milliseconds in one day; calendar days are taken as fixed 24-hour days. */
  const DayMs: int := 86_400_000

  /** The hook's initial range when the caller passes none. */
  function InitialRange(requested: Option<TimeRange>): (r: TimeRange)
    ensures requested.None? ==> r == Last7d
    ensures requested.Some? ==> r == requested.value
  {
    requested.GetOr(Last7d)
  }

  /** Number of days a range looks back: 7, 30, and 1 for every other tag. */
  function WindowDays(range: TimeRange): nat {
    match range
    case Last7d => 7
    case Last30d => 30
    case _ => 1
  }

  /** The filter date: `now` moved back by the window's days. */
  function Cutoff(now: int, range: TimeRange): int {
    now - WindowDays(range) * DayMs
  }

  /** The wider the window, the earlier its cutoff, and every cutoff lies before `now`. */
  lemma CutoffsNested(now: int)
    ensures Cutoff(now, Last30d) < Cutoff(now, Last7d) < Cutoff(now, Last24h) < now
    ensures Cutoff(now, Last24h) == now - DayMs
  {
  }

  /** `new Date(reading.timestamp) >= filterDate`: false for an unparsed timestamp. */
  predicate InWindow(r: Reading, cutoff: int) {
    r.timestamp.Some? && r.timestamp.value >= cutoff
  }

  /** `readings.filter(...)`: the readings in the window, in input order. */
  function Keep(s: seq<Reading>, cutoff: int): (r: seq<Reading>)
    ensures |r| <= |s|
    ensures forall x :: x in r ==> InWindow(x, cutoff)
    ensures forall x :: multiset(r)[x] == if InWindow(x, cutoff) then multiset(s)[x] else 0
  {
    if |s| == 0 then []
    else
      assert s == [s[0]] + s[1..];
      (if InWindow(s[0], cutoff) then [s[0]] else []) + Keep(s[1..], cutoff)
  }

  /**
   * The sort key `new Date(timestamp).getTime()`. The sort only ever sees
   * readings that passed `InWindow`, whose timestamp parsed, so the fallback
   * is never consulted.
   */
  function TimeKey(r: Reading): int {
    r.timestamp.GetOr(0)
  }

  /** Non-decreasing by time. */
  predicate Sorted(s: seq<Reading>) {
    forall i, j :: 0 <= i < j < |s| ==> TimeKey(s[i]) <= TimeKey(s[j])
  }

  /** A reading no later than the head of a sorted list can go in front of it. */
  lemma ConsSorted(y: Reading, t: seq<Reading>)
    requires Sorted(t) && (|t| == 0 || TimeKey(y) <= TimeKey(t[0]))
    ensures Sorted([y] + t)
  {
    var r := [y] + t;
    forall i, j | 0 <= i < j < |r| ensures TimeKey(r[i]) <= TimeKey(r[j]) {
      assert r[j] == t[j - 1];
      if i == 0 {
        assert TimeKey(t[0]) <= TimeKey(t[j - 1]);
      } else {
        assert r[i] == t[i - 1];
      }
    }
  }

  /** Places `x` before the first element whose time is not earlier than its own. */
  function Insert(x: Reading, s: seq<Reading>): (r: seq<Reading>)
    requires Sorted(s)
    ensures Sorted(r)
    ensures multiset(r) == multiset(s) + multiset{x}
    ensures |r| == |s| + 1 && (r[0] == x || (|s| > 0 && r[0] == s[0]))
  {
    if |s| == 0 then [x]
    else if TimeKey(x) <= TimeKey(s[0]) then
      ConsSorted(x, s);
      [x] + s
    else
      assert s == [s[0]] + s[1..];
      var rest := Insert(x, s[1..]);
      // rest starts with x, later than s[0], or with s[1], which the sorted s puts after s[0]
      assert TimeKey(s[0]) <= TimeKey(rest[0]);
      ConsSorted(s[0], rest);
      assert multiset([s[0]] + rest) == multiset{s[0]} + multiset(rest);
      [s[0]] + rest
  }

  /** `.sort((a, b) => a.time - b.time)`: a stable sort by time. */
  function SortByTime(s: seq<Reading>): (r: seq<Reading>)
    ensures Sorted(r)
    ensures multiset(r) == multiset(s)
  {
    if |s| == 0 then []
    else
      assert s == [s[0]] + s[1..];
      Insert(s[0], SortByTime(s[1..]))
  }

  /** The readings stamped exactly at instant `t`, in their order in `s`. */
  function StampedAt(s: seq<Reading>, t: int): seq<Reading> {
    if |s| == 0 then []
    else (if s[0].timestamp == Some(t) then [s[0]] else []) + StampedAt(s[1..], t)
  }

  lemma StampedAtSingle(y: Reading, t: int)
    ensures StampedAt([y], t) == if y.timestamp == Some(t) then [y] else []
  {
    assert [y][1..] == [];
  }

  lemma {:induction false} StampedAtAppend(a: seq<Reading>, b: seq<Reading>, t: int)
    ensures StampedAt(a + b, t) == StampedAt(a, t) + StampedAt(b, t)
  {
    if |a| == 0 {
      assert a + b == b;
    } else {
      assert (a + b)[0] == a[0];
      assert (a + b)[1..] == a[1..] + b;
      StampedAtAppend(a[1..], b, t);
    }
  }

  /** Two blocks of which at least one is empty commute. */
  lemma SwapEmptyBlock(sx: seq<Reading>, sh: seq<Reading>, tail: seq<Reading>)
    requires sx == [] || sh == []
    ensures sh + (sx + tail) == sx + (sh + tail)
  {
  }

  lemma InsertPastHead(x: Reading, s: seq<Reading>)
    requires Sorted(s) && |s| > 0 && TimeKey(x) > TimeKey(s[0])
    ensures Insert(x, s) == [s[0]] + Insert(x, s[1..])
  {
  }

  /**
   * The inductive step of `InsertStable`, stated without `Insert`: a reading
   * passing a head with another time keeps its place among the readings
   * stamped `t`.
   */
  lemma PassHeadStable(x: Reading, head: Reading, tail: seq<Reading>, rest: seq<Reading>, t: int)
    requires TimeKey(x) != TimeKey(head)
    requires StampedAt(rest, t) == StampedAt([x] + tail, t)
    ensures StampedAt([head] + rest, t) == StampedAt([x] + ([head] + tail), t)
  {
    StampedAtSingle(x, t);
    StampedAtSingle(head, t);
    var sx, sh, st := StampedAt([x], t), StampedAt([head], t), StampedAt(tail, t);
    // x and head have different times, so at most one of them is stamped at t
    assert sx == [] || sh == [];
    StampedAtAppend([head], rest, t);
    StampedAtAppend([x], tail, t);
    StampedAtAppend([head], tail, t);
    StampedAtAppend([x], [head] + tail, t);
    SwapEmptyBlock(sx, sh, st);
  }

  /** Inserting `x` keeps it ahead of every later reading stamped at the same instant. */
  lemma {:induction false} InsertStable(x: Reading, s: seq<Reading>, t: int)
    requires Sorted(s)
    ensures StampedAt(Insert(x, s), t) == StampedAt([x] + s, t)
  {
    if |s| > 0 && TimeKey(x) > TimeKey(s[0]) {
      InsertPastHead(x, s);
      InsertStable(x, s[1..], t);
      PassHeadStable(x, s[0], s[1..], Insert(x, s[1..]), t);
      assert s == [s[0]] + s[1..];
    }
  }

  /** Prepending one reading to two lists with the same readings at `t` keeps them equal at `t`. */
  lemma ConsStable(y: Reading, a: seq<Reading>, b: seq<Reading>, t: int)
    requires StampedAt(a, t) == StampedAt(b, t)
    ensures StampedAt([y] + a, t) == StampedAt([y] + b, t)
  {
    StampedAtAppend([y], a, t);
    StampedAtAppend([y], b, t);
  }

  /** Stability: readings with equal timestamps keep their input order. */
  lemma {:induction false} SortStable(s: seq<Reading>, t: int)
    ensures StampedAt(SortByTime(s), t) == StampedAt(s, t)
  {
    if |s| > 0 {
      var sortedTail := SortByTime(s[1..]);
      SortStable(s[1..], t);
      InsertStable(s[0], sortedTail, t);
      ConsStable(s[0], sortedTail, s[1..], t);
      assert s == [s[0]] + s[1..];
    }
  }

  /** Sorting an already sorted list changes nothing. */
  lemma {:induction false} SortSortedIdentity(s: seq<Reading>)
    requires Sorted(s)
    ensures SortByTime(s) == s
  {
    if |s| > 0 {
      SortSortedIdentity(s[1..]);
      assert s == [s[0]] + s[1..];
    }
  }

  /** The filter-then-sort of the hook (and of the chart) against a given cutoff. */
  function FilterAt(s: seq<Reading>, cutoff: int): (r: seq<Reading>)
    ensures Sorted(r)
    ensures forall x :: x in r ==> x.timestamp.Some? && x.timestamp.value >= cutoff
    ensures forall x :: multiset(r)[x] == if InWindow(x, cutoff) then multiset(s)[x] else 0
    ensures |s| == 0 ==> r == []
  {
    if |s| == 0 then []
    else
      var kept := Keep(s, cutoff);
      var r := SortByTime(kept);
      assert forall x :: x in r ==> x in kept by {
        forall x | x in r ensures x in kept {
          assert x in multiset(r);
        }
      }
      r
  }

  /** `filteredReadings`: the readings of the selected window, oldest first. */
  function FilterReadings(s: seq<Reading>, now: int, range: TimeRange): (r: seq<Reading>)
    ensures Sorted(r)
    ensures forall x :: x in r ==> x.timestamp.Some? && x.timestamp.value >= Cutoff(now, range)
    ensures forall x :: x in s && InWindow(x, Cutoff(now, range)) ==> x in r
    ensures forall x :: x in s && x.timestamp.None? ==> x !in r
    ensures multiset(r) <= multiset(s)
  {
    FilterAt(s, Cutoff(now, range))
  }

  lemma {:induction false} StampedAtKeep(s: seq<Reading>, cutoff: int, t: int)
    ensures StampedAt(Keep(s, cutoff), t) == if t >= cutoff then StampedAt(s, t) else []
  {
    if |s| > 0 {
      StampedAtKeep(s[1..], cutoff, t);
      StampedAtAppend(if InWindow(s[0], cutoff) then [s[0]] else [], Keep(s[1..], cutoff), t);
    }
  }

  /** Readings stamped at the same instant appear in the result in their input order. */
  lemma FilterStable(s: seq<Reading>, now: int, range: TimeRange, t: int)
    ensures StampedAt(FilterReadings(s, now, range), t) ==
            if t >= Cutoff(now, range) then StampedAt(s, t) else []
  {
    if |s| > 0 {
      SortStable(Keep(s, Cutoff(now, range)), t);
      StampedAtKeep(s, Cutoff(now, range), t);
    }
  }

  /** The last day's readings are among the last week's, which are among the last month's. */
  lemma WindowsNested(s: seq<Reading>, now: int)
    ensures multiset(FilterReadings(s, now, Last24h)) <= multiset(FilterReadings(s, now, Last7d))
    ensures multiset(FilterReadings(s, now, Last7d)) <= multiset(FilterReadings(s, now, Last30d))
  {
    CutoffsNested(now);
    var a := FilterAt(s, Cutoff(now, Last24h));
    var b := FilterAt(s, Cutoff(now, Last7d));
    var c := FilterAt(s, Cutoff(now, Last30d));
    forall x ensures multiset(a)[x] <= multiset(b)[x] && multiset(b)[x] <= multiset(c)[x] {
      assert InWindow(x, Cutoff(now, Last24h)) ==> InWindow(x, Cutoff(now, Last7d));
      assert InWindow(x, Cutoff(now, Last7d)) ==> InWindow(x, Cutoff(now, Last30d));
    }
  }

  /** Keeping everything when everything is in the window. */
  lemma {:induction false} KeepAll(s: seq<Reading>, cutoff: int)
    requires forall x :: x in s ==> InWindow(x, cutoff)
    ensures Keep(s, cutoff) == s
  {
    if |s| > 0 {
      assert s[0] in s;
      assert forall x :: x in s[1..] ==> x in s;
      KeepAll(s[1..], cutoff);
      assert s == [s[0]] + s[1..];
    }
  }

  /**
   * Filtering an already filtered list again, with a cutoff no later than the
   * first, returns it unchanged (the dashboard hands the hook's result to the
   * chart, which filters it again).
   */
  lemma RefilterIdempotent(s: seq<Reading>, first: int, again: int)
    requires again <= first
    ensures FilterAt(FilterAt(s, first), again) == FilterAt(s, first)
  {
    var r := FilterAt(s, first);
    if |r| > 0 {
      KeepAll(r, again);
      SortSortedIdentity(r);
    }
  }

  /** The same filter applied twice with the same clock and range is the filter once. */
  lemma FilterIdempotent(s: seq<Reading>, now: int, range: TimeRange)
    ensures FilterReadings(FilterReadings(s, now, range), now, range) == FilterReadings(s, now, range)
  {
    RefilterIdempotent(s, Cutoff(now, range), Cutoff(now, range));
  }

  /** Every reading's timestamp parsed. */
  predicate AllParsed(s: seq<Reading>) {
    forall i :: 0 <= i < |s| ==> s[i].timestamp.Some?
  }

  /** On a sorted, fully parsed list the window is a suffix. */
  lemma {:induction false} KeepSortedIsSuffix(s: seq<Reading>, cutoff: int)
    requires Sorted(s) && AllParsed(s)
    ensures exists j :: 0 <= j <= |s| && Keep(s, cutoff) == s[j..]
  {
    if |s| > 0 {
      if InWindow(s[0], cutoff) {
        assert s[0..] == s;
        assert forall x :: x in s ==> InWindow(x, cutoff) by {
          forall x | x in s ensures InWindow(x, cutoff) {
            var i :| 0 <= i < |s| && s[i] == x;
            assert TimeKey(s[0]) <= TimeKey(s[i]);
          }
        }
        KeepAll(s, cutoff);
        assert 0 <= 0 <= |s| && Keep(s, cutoff) == s[0..];
      } else {
        KeepSortedIsSuffix(s[1..], cutoff);
        var j :| 0 <= j <= |s[1..]| && Keep(s[1..], cutoff) == s[1..][j..];
        assert s[1..][j..] == s[j + 1..];
        assert Keep(s, cutoff) == Keep(s[1..], cutoff);
        assert 0 <= j + 1 <= |s| && Keep(s, cutoff) == s[j + 1..];
      }
    } else {
      assert 0 <= 0 <= |s| && Keep(s, cutoff) == s[0..];
    }
  }

  /** Filtering a chronologically sorted, parsed list yields one of its suffixes, order kept. */
  lemma SortedFilterIsSuffix(s: seq<Reading>, cutoff: int)
    requires Sorted(s) && AllParsed(s)
    ensures exists j :: 0 <= j <= |s| && FilterAt(s, cutoff) == s[j..]
  {
    if |s| == 0 {
      assert FilterAt(s, cutoff) == s[0..];
    } else {
      KeepSortedIsSuffix(s, cutoff);
      var j :| 0 <= j <= |s| && Keep(s, cutoff) == s[j..];
      assert Sorted(s[j..]);
      SortSortedIdentity(s[j..]);
    }
  }

  /** Sum of metric `m` over the readings. */
  function Sum(s: seq<Reading>, m: Metric): real {
    if |s| == 0 then 0.0 else MetricOf(s[0], m) + Sum(s[1..], m)
  }

  /** The arithmetic mean of metric `m`. */
  function Mean(s: seq<Reading>, m: Metric): real
    requires |s| > 0
  {
    Sum(s, m) / (|s| as real)
  }

  /** `r` is a whole number of hundredths. */
  predicate WholeHundredths(r: real) {
    (r * 100.0).Floor as real == r * 100.0
  }

  /**
   * `r` is what `toFixed(2)` makes of `x`: a whole number of hundredths at
   * most half a hundredth away, and on a tie the one farther from zero
   * (`toFixed` rounds the magnitude and puts the sign back).
   */
  predicate NearestHundredth(x: real, r: real) {
    && x - 0.005 <= r <= x + 0.005
    && WholeHundredths(r)
    && (r - x == 0.005 ==> x >= 0.0)
    && (x - r == 0.005 ==> x < 0.0)
  }

  lemma NegatedHundredths(r: real)
    requires WholeHundredths(r)
    ensures WholeHundredths(-r)
  {
    var n := (r * 100.0).Floor;
    assert (-r) * 100.0 == (-n) as real;
  }

  /** Rounding a magnitude: half a hundredth and more goes up. */
  function RoundMagnitude(y: real): (r: real)
    requires y >= 0.0
    ensures y - 0.005 < r <= y + 0.005
    ensures WholeHundredths(r)
  {
    var n := (y * 100.0 + 0.5).Floor;
    assert (n as real / 100.0) * 100.0 == n as real;
    n as real / 100.0
  }

  /** `parseFloat(x.toFixed(2))` on an exact value. */
  function RoundHundredths(x: real): (r: real)
    ensures NearestHundredth(x, r)
  {
    if x < 0.0 then
      var m := RoundMagnitude(-x);
      NegatedHundredths(m);
      -m
    else RoundMagnitude(x)
  }

  /** Two whole hundredths within half a hundredth of `x` are equal unless `x` lies exactly between them. */
  lemma HundredthsClose(x: real, a: real, b: real)
    requires x - 0.005 <= a <= x + 0.005 && x - 0.005 <= b <= x + 0.005
    requires WholeHundredths(a) && WholeHundredths(b) && a < b
    ensures a == x - 0.005 && b == x + 0.005
  {
    var i, j := (a * 100.0).Floor, (b * 100.0).Floor;
    assert i < j;
    assert (j - i) as real == b * 100.0 - a * 100.0 <= 1.0;
  }

  /** The tie rule makes the rounded value unique: `NearestHundredth` is a definition of `toFixed(2)`. */
  lemma {:induction false} RoundUnique(x: real, r: real)
    requires NearestHundredth(x, r)
    ensures r == RoundHundredths(x)
  {
    var q := RoundHundredths(x);
    if r < q {
      HundredthsClose(x, r, q);
    } else if q < r {
      HundredthsClose(x, q, r);
    }
  }

  /** Rounding is symmetric about zero. */
  lemma {:induction false} RoundOdd(x: real)
    ensures RoundHundredths(-x) == -RoundHundredths(x)
  {
    var r := RoundHundredths(x);
    NegatedHundredths(r);
    RoundUnique(-x, -r);
  }

  /** `aggregateData`: null for an empty window, otherwise the mean rounded as `toFixed(2)` rounds it. */
  function Average(filtered: seq<Reading>, m: Metric): (r: Option<real>)
    ensures r.None? <==> |filtered| == 0
    ensures r.Some? ==> NearestHundredth(Mean(filtered, m), r.value)
  {
    if |filtered| == 0 then None else Some(RoundHundredths(Mean(filtered, m)))
  }

  /** A single reading at −0.125 averages to −0.13: the tie goes away from zero. */
  lemma NegativeTieAverage()
    ensures Average([Reading(Some(0), 0.0, -0.125, 0.0, 0.0)], Temperature) == Some(-0.13)
  {
    var s := [Reading(Some(0), 0.0, -0.125, 0.0, 0.0)];
    assert Sum(s, Temperature) == -0.125;
    assert Mean(s, Temperature) == -0.125;
    assert WholeHundredths(-0.13) by {
      assert -0.13 * 100.0 == -13.0;
    }
    RoundUnique(-0.125, -0.13);
  }

  /** Smallest value of metric `m`. */
  function MinOf(s: seq<Reading>, m: Metric): (r: real)
    requires |s| > 0
    ensures forall x :: x in s ==> r <= MetricOf(x, m)
    ensures r in set x | x in s :: MetricOf(x, m)
  {
    if |s| == 1 then MetricOf(s[0], m)
    else
      var rest := MinOf(s[1..], m);
      assert forall x :: x in s ==> x == s[0] || x in s[1..];
      if MetricOf(s[0], m) <= rest then MetricOf(s[0], m) else rest
  }

  /** Largest value of metric `m`. */
  function MaxOf(s: seq<Reading>, m: Metric): (r: real)
    requires |s| > 0
    ensures forall x :: x in s ==> MetricOf(x, m) <= r
    ensures r in set x | x in s :: MetricOf(x, m)
  {
    if |s| == 1 then MetricOf(s[0], m)
    else
      var rest := MaxOf(s[1..], m);
      assert forall x :: x in s ==> x == s[0] || x in s[1..];
      if MetricOf(s[0], m) >= rest then MetricOf(s[0], m) else rest
  }

  lemma {:induction false} SumBounds(s: seq<Reading>, m: Metric, lo: real, hi: real)
    requires forall i :: 0 <= i < |s| ==> lo <= MetricOf(s[i], m) <= hi
    ensures lo * (|s| as real) <= Sum(s, m) <= hi * (|s| as real)
  {
    if |s| == 0 {
      assert lo * 0.0 == 0.0 && hi * 0.0 == 0.0;
    } else {
      var v, rest := MetricOf(s[0], m), Sum(s[1..], m);
      assert Sum(s, m) == v + rest;
      assert lo <= v <= hi;
      SumBounds(s[1..], m, lo, hi);
      var n, total := |s[1..]| as real, |s| as real;
      assert total == n + 1.0;
      Distribute(lo, n);
      Distribute(hi, n);
      assert lo * total == lo * n + lo;
      assert hi * total == hi * n + hi;
    }
  }

  lemma Distribute(a: real, n: real)
    ensures a * (n + 1.0) == a * n + a
  {
  }

  lemma QuotientBetween(total: real, n: real, lo: real, hi: real)
    requires n > 0.0 && lo * n <= total <= hi * n
    ensures lo <= total / n <= hi
  {
    var q := total / n;
    assert q * n == total;
    if q < lo {
      ScaleStrict(q, lo, n);
    }
    if hi < q {
      ScaleStrict(hi, q, n);
    }
  }

  lemma ScaleStrict(a: real, b: real, n: real)
    requires a < b && n > 0.0
    ensures a * n < b * n
  {
  }

  /** A mean of values in [lo, hi] is in [lo, hi]. */
  lemma MeanBetween(s: seq<Reading>, m: Metric, lo: real, hi: real)
    requires |s| > 0
    requires forall i :: 0 <= i < |s| ==> lo <= MetricOf(s[i], m) <= hi
    ensures lo <= Mean(s, m) <= hi
  {
    SumBounds(s, m, lo, hi);
    QuotientBetween(Sum(s, m), |s| as real, lo, hi);
  }

  /** Before rounding, the mean lies between the metric's minimum and maximum. */
  lemma MeanWithinRange(s: seq<Reading>, m: Metric)
    requires |s| > 0
    ensures MinOf(s, m) <= Mean(s, m) <= MaxOf(s, m)
  {
    var lo, hi := MinOf(s, m), MaxOf(s, m);
    forall i | 0 <= i < |s| ensures lo <= MetricOf(s[i], m) <= hi {
      assert s[i] in s;
    }
    MeanBetween(s, m, lo, hi);
  }
}
