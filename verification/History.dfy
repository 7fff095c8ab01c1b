/** GetMetricsHistory: downsampling snapshots into time buckets (internal/database/metrics.go).
    Timestamps are whole seconds since the epoch. */
module History {
  import opened Base

  const TARGET_HISTORY_POINTS: nat := 288

  datatype Snapshot = Snapshot(timestamp: nat, running: nat, queued: nat)

  datatype Point = Point(timestamp: nat, running: nat, queued: nat)

  /** The two columns that are averaged. */
  datatype Column = Running | Queued

  function Cell(s: Snapshot, col: Column): nat {
    if col == Running then s.running else s.queued
  }

  function BucketSeconds(window: nat): (b: nat)
    ensures b >= 1
  {
    if window / TARGET_HISTORY_POINTS < 1 then 1 else window / TARGET_HISTORY_POINTS
  }

  // ---- division -------------------------------------------------------------------

  lemma MulMonotone(x: int, y: int, b: nat)
    ensures x <= y ==> x * b <= y * b
  {
  }

  lemma DivMod(a: int, b: nat)
    requires b >= 1
    ensures a / b * b <= a < (a / b + 1) * b
  {
    assert a == b * (a / b) + a % b;
    assert (a / b + 1) * b == a / b * b + b;
  }

  lemma QuotientBelow(a: int, k: int, b: nat)
    requires b >= 1 && a < k * b
    ensures a / b < k
  {
    DivMod(a, b);
    MulMonotone(k, a / b, b);
  }

  lemma QuotientAtLeast(a: int, k: int, b: nat)
    requires b >= 1 && k * b <= a
    ensures k <= a / b
  {
    DivMod(a, b);
    MulMonotone(a / b + 1, k, b);
  }

  lemma DivMonotone(a: int, c: int, b: nat)
    requires b >= 1 && a <= c
    ensures a / b <= c / b
  {
    DivMod(a, b);
    QuotientAtLeast(c, a / b, b);
  }

  lemma ExactQuotient(q: int, b: nat)
    requires b >= 1
    ensures (q * b) / b == q
  {
    QuotientAtLeast(q * b, q, b);
    assert q * b < (q + 1) * b by {
      assert (q + 1) * b == q * b + b;
    }
    QuotientBelow(q * b, q + 1, b);
  }

  lemma BucketBounds(timestamp: nat, b: nat)
    requires b >= 1
    ensures timestamp / b * b <= timestamp < timestamp / b * b + b
    ensures (timestamp / b * b) / b == timestamp / b
    ensures timestamp / b * b >= 0
  {
    var q := timestamp / b;
    DivMod(timestamp, b);
    QuotientAtLeast(timestamp, 0, b);
    assert (q + 1) * b == q * b + b;
    MulMonotone(0, q, b);
    ExactQuotient(q, b);
  }

  /** The start of the bucket a timestamp falls into. */
  function BucketOf(timestamp: nat, b: nat): (start: nat)
    requires b >= 1
    ensures start <= timestamp < start + b && start / b == timestamp / b
  {
    BucketBounds(timestamp, b);
    timestamp / b * b
  }

  // ---- grouping -------------------------------------------------------------------

  function InBucket(snaps: seq<Snapshot>, cutoff: int, b: nat, start: nat): seq<Snapshot>
    requires b >= 1
  {
    if snaps == [] then []
    else
      var s := snaps[|snaps| - 1];
      InBucket(snaps[..|snaps| - 1], cutoff, b, start)
      + if s.timestamp >= cutoff && BucketOf(s.timestamp, b) == start then [s] else []
  }

  function Sum(snaps: seq<Snapshot>, col: Column): nat {
    if snaps == [] then 0 else Sum(snaps[..|snaps| - 1], col) + Cell(snaps[|snaps| - 1], col)
  }

  /** ROUND(AVG(x)): halves round up, counts being non-negative. */
  function RoundedAverage(sum: nat, n: nat): nat
    requires n >= 1
  {
    (2 * sum + n) / (2 * n)
  }

  /** The buckets that hold a snapshot of the window. */
  function Buckets(snaps: seq<Snapshot>, cutoff: int, b: nat): set<nat>
    requires b >= 1
  {
    set s | s in snaps && s.timestamp >= cutoff :: BucketOf(s.timestamp, b)
  }

  lemma {:induction false} InBucketContents(snaps: seq<Snapshot>, cutoff: int, b: nat, start: nat)
    requires b >= 1
    ensures forall s :: s in InBucket(snaps, cutoff, b, start) <==>
              s in snaps && s.timestamp >= cutoff && BucketOf(s.timestamp, b) == start
  {
    if snaps != [] {
      InBucketContents(snaps[..|snaps| - 1], cutoff, b, start);
      assert snaps == snaps[..|snaps| - 1] + [snaps[|snaps| - 1]];
    }
  }

  function PointOf(snaps: seq<Snapshot>, cutoff: int, b: nat, start: nat): Point
    requires b >= 1 && InBucket(snaps, cutoff, b, start) != []
  {
    var g := InBucket(snaps, cutoff, b, start);
    Point(start, RoundedAverage(Sum(g, Running), |g|), RoundedAverage(Sum(g, Queued), |g|))
  }

  method MinOf(s: set<nat>) returns (m: nat)
    requires s != {}
    ensures m in s && forall y :: y in s ==> m <= y
  {
    m :| m in s;
    var rest := s - {m};
    while rest != {}
      invariant rest <= s && m in s
      invariant forall y :: y in s ==> y in rest || m <= y
      decreases rest
    {
      var x :| x in rest;
      if x < m {
        m := x;
      }
      rest := rest - {x};
    }
  }

  predicate HasRow(rows: seq<Point>, start: nat) {
    exists i :: 0 <= i < |rows| && rows[i].timestamp == start
  }

  predicate Increasing(rows: seq<Point>) {
    forall i, j :: 0 <= i < j < |rows| ==> rows[i].timestamp < rows[j].timestamp
  }

  /** Row i is the average of its bucket. */
  predicate RowOk(snaps: seq<Snapshot>, cutoff: int, b: nat, row: Point)
    requires b >= 1
  {
    InBucket(snaps, cutoff, b, row.timestamp) != [] && row == PointOf(snaps, cutoff, b, row.timestamp)
  }

  /** The row starts on a multiple of b seconds and averages, to the nearest, the snapshots that
      fall into them. */
  ghost predicate Averages(snaps: seq<Snapshot>, cutoff: int, b: nat, row: Point)
    requires b >= 1
  {
    var g := InBucket(snaps, cutoff, b, row.timestamp);
    && g != [] && row.timestamp % b == 0
    && IsRoundedAverage(row.running, Sum(g, Running), |g|) && IsRoundedAverage(row.queued, Sum(g, Queued), |g|)
  }

  lemma RowAverages(snaps: seq<Snapshot>, cutoff: int, b: nat, row: Point)
    requires b >= 1 && RowOk(snaps, cutoff, b, row)
    ensures Averages(snaps, cutoff, b, row)
  {
    var g := InBucket(snaps, cutoff, b, row.timestamp);
    RoundedAverageIs(Sum(g, Running), |g|);
    RoundedAverageIs(Sum(g, Queued), |g|);
    InBucketContents(snaps, cutoff, b, row.timestamp);
    assert g[0] in g;
    AlignedBucket(g[0].timestamp, b, 0);
  }

  /** The query: one row per non-empty bucket of b seconds, in increasing order. */
  method SelectBuckets(snaps: seq<Snapshot>, cutoff: int, b: nat) returns (rows: seq<Point>)
    requires b >= 1
    ensures Increasing(rows) && |rows| == |Buckets(snaps, cutoff, b)|
    ensures forall i :: 0 <= i < |rows| ==> RowOk(snaps, cutoff, b, rows[i])
    ensures forall x :: x in Buckets(snaps, cutoff, b) ==> HasRow(rows, x)
  {
    rows := [];
    var rest := Buckets(snaps, cutoff, b);
    ghost var all := rest;
    while rest != {}
      invariant rest <= all && |rows| + |rest| == |all|
      invariant Increasing(rows)
      invariant forall i, x :: 0 <= i < |rows| && x in rest ==> rows[i].timestamp < x
      invariant forall i :: 0 <= i < |rows| ==> RowOk(snaps, cutoff, b, rows[i])
      invariant forall x :: x in all ==> x in rest || HasRow(rows, x)
      decreases rest
    {
      var start := MinOf(rest);
      NonEmptyBucket(snaps, cutoff, b, start);
      ghost var before := rows;
      rows := rows + [PointOf(snaps, cutoff, b, start)];
      RowsGrow(before, rows[|before|]);
      rest := rest - {start};
    }
  }

  /** One row per non-empty bucket, in increasing order, each the rounded average of exactly the
      snapshots in it, so every snapshot of the window is in exactly one of them. */
  method GetMetricsHistory(snaps: seq<Snapshot>, now: nat, window: nat) returns (rows: seq<Point>)
    ensures Increasing(rows)
    ensures forall i :: 0 <= i < |rows| ==> Averages(snaps, now - window, BucketSeconds(window), rows[i])
    ensures forall s :: s in snaps && s.timestamp >= now - window ==>
              exists i :: 0 <= i < |rows|
                          && rows[i].timestamp <= s.timestamp < rows[i].timestamp + BucketSeconds(window)
    ensures |rows| == |Buckets(snaps, now - window, BucketSeconds(window))|
  {
    var cutoff := now - window;
    var bucketSeconds := window / TARGET_HISTORY_POINTS;
    if bucketSeconds < 1 {
      bucketSeconds := 1;
    }
    rows := SelectBuckets(snaps, cutoff, bucketSeconds);
    forall s | s in snaps && s.timestamp >= cutoff
      ensures exists i :: 0 <= i < |rows| && rows[i].timestamp <= s.timestamp < rows[i].timestamp + bucketSeconds
    {
      var start := BucketOf(s.timestamp, bucketSeconds);
      assert HasRow(rows, start);
    }
    forall i | 0 <= i < |rows| ensures Averages(snaps, cutoff, bucketSeconds, rows[i]) {
      RowAverages(snaps, cutoff, bucketSeconds, rows[i]);
    }
  }

  lemma RowsGrow(rows: seq<Point>, row: Point)
    ensures forall x :: HasRow(rows, x) ==> HasRow(rows + [row], x)
    ensures HasRow(rows + [row], row.timestamp)
  {
    forall x | HasRow(rows, x) ensures HasRow(rows + [row], x) {
      var i :| 0 <= i < |rows| && rows[i].timestamp == x;
      assert (rows + [row])[i].timestamp == x;
    }
    assert (rows + [row])[|rows|] == row;
  }

  lemma NonEmptyBucket(snaps: seq<Snapshot>, cutoff: int, b: nat, start: nat)
    requires b >= 1 && start in Buckets(snaps, cutoff, b)
    ensures InBucket(snaps, cutoff, b, start) != []
  {
    InBucketContents(snaps, cutoff, b, start);
    var s :| s in snaps && s.timestamp >= cutoff && BucketOf(s.timestamp, b) == start;
    assert s in InBucket(snaps, cutoff, b, start);
  }

  // ---- the bound ------------------------------------------------------------------

  function CeilDiv(a: nat, b: nat): nat
    requires b >= 1
  {
    (a + b - 1) / b
  }

  function Between(lo: int, hi: int): (s: set<int>)
    requires lo <= hi + 1
    ensures forall x :: x in s <==> lo <= x <= hi
    ensures |s| == hi - lo + 1
    decreases hi - lo + 1
  {
    if lo > hi then {} else Between(lo, hi - 1) + {hi}
  }

  lemma {:induction false} ImageCount(starts: set<nat>, indices: set<int>, b: nat)
    requires b >= 1 && forall x :: x in starts ==> x / b in indices && x == x / b * b
    ensures |starts| <= |indices|
    decreases |starts|
  {
    if starts != {} {
      var x :| x in starts;
      ImageCount(starts - {x}, indices - {x / b}, b);
      assert indices == (indices - {x / b}) + {x / b};
    }
  }

  lemma QuotientSpan(cutoff: int, window: nat, b: nat)
    requires b >= 1
    ensures (cutoff + window) / b - cutoff / b <= CeilDiv(window, b)
  {
    var q, n := cutoff / b, CeilDiv(window, b);
    DivMod(cutoff, b);
    DivMod(window + b - 1, b);
    assert (n + 1) * b == n * b + b;
    assert (q + n + 1) * b == (q + 1) * b + n * b;
    QuotientBelow(cutoff + window, q + n + 1, b);
  }

  /** Snapshots of a window of W seconds fall into at most ceil(W / b) + 1 buckets of b seconds. */
  lemma BucketCountBound(snaps: seq<Snapshot>, cutoff: int, window: nat, b: nat)
    requires b >= 1 && forall s :: s in snaps ==> s.timestamp <= cutoff + window
    ensures |Buckets(snaps, cutoff, b)| <= CeilDiv(window, b) + 1
  {
    var lo, hi := cutoff / b, (cutoff + window) / b;
    DivMonotone(cutoff, cutoff + window, b);
    var indices := Between(lo, hi);
    var starts := Buckets(snaps, cutoff, b);
    forall x | x in starts ensures x / b in indices && x == x / b * b {
      var s :| s in snaps && s.timestamp >= cutoff && BucketOf(s.timestamp, b) == x;
      DivMonotone(cutoff, s.timestamp, b);
      DivMonotone(s.timestamp, cutoff + window, b);
    }
    ImageCount(starts, indices, b);
    QuotientSpan(cutoff, window, b);
  }

  lemma CeilAtMost(window: nat)
    ensures CeilDiv(window, BucketSeconds(window)) <= 575
  {
    var b := BucketSeconds(window);
    assert window < 576 || (b >= 2 && window < 288 * b + 288);
    QuotientBelow(window + b - 1, 576, b);
  }

  /** No snapshot is from the future. */
  predicate Past(snaps: seq<Snapshot>, now: nat) {
    forall s :: s in snaps ==> s.timestamp <= now
  }

  /** Whatever the window, a response has at most 576 points, twice the target the source
      names: 301 for the hour and 289 for the day, the week and the month of 30 days. */
  lemma HistorySize(snaps: seq<Snapshot>, now: nat, window: nat)
    requires Past(snaps, now)
    ensures var n := |Buckets(snaps, now - window, BucketSeconds(window))|;
            && n <= 576
            && (window == 3600 ==> n <= 301)
            && (window == 86400 || window == 604800 || window == 2592000 ==> n <= 289)
  {
    BucketCountBound(snaps, now - window, window, BucketSeconds(window));
    CeilAtMost(window);
  }

  /** One snapshot in each of n seconds. */
  function EverySecond(from: nat, n: nat): seq<Snapshot> {
    seq(n, i requires 0 <= i < n => Snapshot(from + i, 0, 0))
  }

  /** The starts of the buckets 0 to k. */
  function Starts(k: nat, b: nat): (s: set<nat>)
    requires b >= 1
    ensures |s| == k + 1 && forall x :: x in s ==> x <= k * b
    ensures forall x :: x in s ==> exists i: nat :: i <= k && x == i * b
  {
    if k == 0 then {0}
    else
      assert k * b == (k - 1) * b + b;
      Starts(k - 1, b) + {k * b}
  }

  lemma EverySecondFills(window: nat, b: nat, i: nat)
    requires b >= 1 && i <= CeilDiv(window, b)
    ensures i * b in Buckets(EverySecond(b - 1, window + 1), b - 1, b)
  {
    var snaps := EverySecond(b - 1, window + 1);
    DivMod(window + b - 1, b);
    MulMonotone(i, CeilDiv(window, b), b);
    var t := if i == 0 then b - 1 else i * b;
    assert i > 0 ==> b <= i * b by {
      MulMonotone(1, i, b);
    }
    assert snaps[t - (b - 1)] == Snapshot(t, 0, 0);
    if i == 0 {
      QuotientBelow(t, 1, b);
      QuotientAtLeast(t, 0, b);
    } else {
      ExactQuotient(i, b);
    }
    assert BucketOf(t, b) == i * b;
  }

  /** The bound is attained in every window, for every bucket size: by a snapshot in each of its
      seconds when it starts at the last second of a bucket. */
  lemma BucketBoundAttained(window: nat, b: nat)
    requires b >= 1
    ensures Past(EverySecond(b - 1, window + 1), b - 1 + window)
    ensures |Buckets(EverySecond(b - 1, window + 1), b - 1, b)| == CeilDiv(window, b) + 1
  {
    var snaps, k := EverySecond(b - 1, window + 1), CeilDiv(window, b);
    BucketCountBound(snaps, b - 1, window, b);
    QuotientAtLeast(window + b - 1, 0, b);
    var starts := Starts(k, b);
    forall x | x in starts ensures x in Buckets(snaps, b - 1, b) {
      var i: nat :| i <= k && x == i * b;
      EverySecondFills(window, b, i);
    }
    Subset(starts, Buckets(snaps, b - 1, b));
  }

  /** A response for this window never has more points than the target. */
  ghost predicate AlwaysCapped(window: nat) {
    forall snaps, now: nat :: Past(snaps, now) ==>
      |Buckets(snaps, now - window, BucketSeconds(window))| <= TARGET_HISTORY_POINTS
  }

  /** The documented cap of 288 points holds for a window exactly when the window is shorter than
      288 seconds; the longest response to a longer one has ceil(W / b) + 1 points. */
  lemma CapHoldsIff(window: nat)
    ensures AlwaysCapped(window) <==> window < TARGET_HISTORY_POINTS
  {
    var b := BucketSeconds(window);
    if window < TARGET_HISTORY_POINTS {
      forall snaps, now: nat | Past(snaps, now)
        ensures |Buckets(snaps, now - window, b)| <= TARGET_HISTORY_POINTS
      {
        BucketCountBound(snaps, now - window, window, b);
      }
    } else {
      BucketBoundAttained(window, b);
      DivMod(window, TARGET_HISTORY_POINTS);
      QuotientAtLeast(window + b - 1, TARGET_HISTORY_POINTS, b);
      var snaps, now := EverySecond(b - 1, window + 1), b - 1 + window;
      assert Past(snaps, now) && now - window == b - 1;
      assert |Buckets(snaps, now - window, b)| > TARGET_HISTORY_POINTS;
    }
  }

  /** So the overall bound of 576 is reached, by a window of 575 seconds. */
  lemma HistorySizeReached()
    ensures exists snaps, now: nat :: Past(snaps, now) && |Buckets(snaps, now - 575, BucketSeconds(575))| == 576
  {
    BucketBoundAttained(575, 1);
    assert Past(EverySecond(0, 576), 575) && 575 - 575 == 0;
  }

  // ---- grouping is exact ----------------------------------------------------------

  /** A bucket holds exactly the snapshots of the window in its b seconds, each as often as it
      was taken. */
  lemma {:induction false} BucketIsExact(snaps: seq<Snapshot>, cutoff: int, b: nat, start: nat, s: Snapshot)
    requires b >= 1 && start % b == 0
    ensures multiset(InBucket(snaps, cutoff, b, start))[s] ==
            if s.timestamp >= cutoff && start <= s.timestamp < start + b then multiset(snaps)[s] else 0
  {
    if snaps != [] {
      var n := |snaps| - 1;
      BucketIsExact(snaps[..n], cutoff, b, start, s);
      assert snaps == snaps[..n] + [snaps[n]];
      AlignedBucket(snaps[n].timestamp, b, start);
    }
  }

  lemma AlignedBucket(timestamp: nat, b: nat, start: nat)
    requires b >= 1 && start % b == 0
    ensures BucketOf(timestamp, b) == start <==> start <= timestamp < start + b
    ensures BucketOf(timestamp, b) % b == 0
  {
    var q := start / b;
    DivMod(start, b);
    assert start == b * q + start % b;
    assert q * b == b * q && (q + 1) * b == q * b + b;
    if start <= timestamp < start + b {
      QuotientAtLeast(timestamp, q, b);
      QuotientBelow(timestamp, q + 1, b);
    }
    Multiple(timestamp / b, b);
  }

  lemma Multiple(q: nat, b: nat)
    requires b >= 1
    ensures (q * b) % b == 0
  {
    ExactQuotient(q, b);
    assert q * b == b * ((q * b) / b) + (q * b) % b;
  }

  /** The sum adds up the named column and nothing else. */
  lemma {:induction false} SumIsTotal(a: seq<Snapshot>, b: seq<Snapshot>, s: Snapshot)
    ensures Sum(a + b, Running) == Sum(a, Running) + Sum(b, Running)
    ensures Sum(a + b, Queued) == Sum(a, Queued) + Sum(b, Queued)
    ensures Sum([s], Running) == s.running && Sum([s], Queued) == s.queued
  {
    assert [s][..0] == [];
    if b == [] {
      assert a + b == a;
    } else {
      assert (a + b)[..|a + b| - 1] == a + b[..|b| - 1];
      SumIsTotal(a, b[..|b| - 1], s);
    }
  }

  /** `r` is the average of n counts that add up to `sum`, rounded to the nearest, halves up. */
  predicate IsRoundedAverage(r: nat, sum: nat, n: nat) {
    2 * sum - n < 2 * (n * r) <= 2 * sum + n
  }

  lemma RoundedAverageIs(sum: nat, n: nat)
    requires n >= 1
    ensures IsRoundedAverage(RoundedAverage(sum, n), sum, n)
  {
    var r := RoundedAverage(sum, n);
    DivMod(2 * sum + n, 2 * n);
    assert r * (2 * n) == 2 * (n * r);
    assert (r + 1) * (2 * n) == 2 * (n * r) + 2 * n;
  }

  // ---- averages -------------------------------------------------------------------

  lemma {:induction false} SumBetween(snaps: seq<Snapshot>, col: Column, lo: nat, hi: nat)
    requires forall i :: 0 <= i < |snaps| ==> lo <= Cell(snaps[i], col) <= hi
    ensures lo * |snaps| <= Sum(snaps, col) <= hi * |snaps|
  {
    if snaps != [] {
      SumBetween(snaps[..|snaps| - 1], col, lo, hi);
      var n := |snaps| - 1;
      assert lo * (n + 1) == lo * n + lo && hi * (n + 1) == hi * n + hi;
    }
  }

  /** A point lies within the range of the counts its bucket averages, in either column. */
  lemma PointWithinBucket(snaps: seq<Snapshot>, cutoff: int, b: nat, start: nat, col: Column, lo: nat, hi: nat)
    requires b >= 1 && InBucket(snaps, cutoff, b, start) != []
    requires forall s :: s in snaps && s.timestamp >= cutoff && BucketOf(s.timestamp, b) == start ==>
               lo <= Cell(s, col) <= hi
    ensures var p := PointOf(snaps, cutoff, b, start);
            lo <= (if col == Running then p.running else p.queued) <= hi
  {
    var g := InBucket(snaps, cutoff, b, start);
    InBucketContents(snaps, cutoff, b, start);
    assert forall i :: 0 <= i < |g| ==> g[i] in g;
    SumBetween(g, col, lo, hi);
    AverageBetween(Sum(g, col), |g|, lo, hi);
  }

  lemma AverageBetween(sum: nat, n: nat, lo: nat, hi: nat)
    requires n >= 1 && lo * n <= sum <= hi * n
    ensures lo <= RoundedAverage(sum, n) <= hi
  {
    var d, a := 2 * n, 2 * sum + n;
    assert (hi + 1) * d == 2 * (hi * n) + 2 * n;
    assert lo * d == 2 * (lo * n);
    QuotientBelow(a, hi + 1, d);
    QuotientAtLeast(a, lo, d);
  }
}
