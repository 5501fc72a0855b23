/** Latency histograms as a monotone bucketing plus an array of counts, and what recording,
    merging and reading quantiles mean for the samples behind the counts. */
module Histogram {
  import opened Arithmetic

  const MIN_US: nat := 1
  const MAX_US: nat := 60_000_000

  /** Any fixed number of buckets works; every histogram of a fleet has the same bounds. */
  const BUCKETS: nat := 17_408

  type Counts = h: seq<nat> | |h| == BUCKETS witness seq(BUCKETS, i => 0)

  /** Which bucket a value falls in, and the value reported for a bucket. */
  datatype Bucketing = Bucketing(index: nat -> nat, top: nat -> nat)
  {
    /** What a histogram reports for a sample: the greatest value that falls in its bucket. */
    function Reported(v: nat): nat { top(index(v)) }
  }

  /** Buckets and their tops ascend, and the top of a value's bucket is in it, not below the value. */
  ghost predicate IsLayout(b: Bucketing) {
    && (forall v :: b.index(v) < BUCKETS)
    && (forall u, v :: u <= v ==> b.index(u) <= b.index(v))
    && (forall i, j :: i <= j ==> b.top(i) <= b.top(j))
    && (forall v: nat :: v <= MAX_US ==> v <= b.Reported(v) && b.index(b.Reported(v)) == b.index(v))
  }

  type Layout = b: Bucketing | IsLayout(b)
    ghost witness Bucketing(v => if v < 4096 * BUCKETS then v / 4096 else BUCKETS - 1, i => 4096 * i + 4095)

  function Empty(): (h: Counts)
    ensures forall i :: 0 <= i < BUCKETS ==> h[i] == 0
  {
    seq(BUCKETS, i => 0)
  }

  function Clamp(us: nat): nat { if us < MIN_US then MIN_US else if us > MAX_US then MAX_US else us }

  function Record(l: Layout, h: Counts, us: nat): Counts {
    var i := l.index(Clamp(us));
    h[i := h[i] + 1]
  }

  function Plus(a: Counts, b: Counts): (r: Counts)
    ensures forall i :: 0 <= i < BUCKETS ==> r[i] == a[i] + b[i]
  {
    seq(BUCKETS, i requires 0 <= i < BUCKETS => a[i] + b[i])
  }

  /** One histogram fed the samples in order. */
  function HistOf(l: Layout, samples: seq<nat>): Counts {
    if samples == [] then Empty()
    else Record(l, HistOf(l, samples[..|samples| - 1]), samples[|samples| - 1])
  }

  function MergeAll(hs: seq<Counts>): Counts {
    if hs == [] then Empty() else Plus(MergeAll(hs[..|hs| - 1]), hs[|hs| - 1])
  }

  /** Samples in the first n buckets. */
  function Below(h: Counts, n: nat): nat
    requires n <= BUCKETS
  {
    if n == 0 then 0 else Below(h, n - 1) + h[n - 1]
  }

  function Total(h: Counts): nat { Below(h, BUCKETS) }

  /** A quantile in (0, 1]. */
  datatype Quantile = Q(num: pos, den: pos)

  ghost predicate IsQuantile(q: Quantile) { q.num <= q.den }

  function Rank(h: Counts, q: Quantile): nat { CeilDiv(q.num * Total(h), q.den) }

  lemma RankWithin(h: Counts, q: Quantile)
    requires IsQuantile(q)
    ensures Rank(h, q) <= Total(h)
    ensures Total(h) > 0 ==> Rank(h, q) > 0
  {
    var t := Total(h);
    MulMono(q.num, q.den, t);
    CeilGalois(q.num * t, q.den, t);
    CeilGalois(q.num * t, q.den, 0);
    if t > 0 {
      MulMono(1, t, q.num);
    }
  }

  /** First bucket from i on at which the running count reaches the rank. */
  function Scan(h: Counts, rank: nat, i: nat): (r: nat)
    requires i < BUCKETS && rank <= Total(h)
    requires i > 0 ==> Below(h, i) < rank
    ensures i <= r < BUCKETS && Below(h, r + 1) >= rank
    ensures r > 0 ==> rank == 0 || Below(h, r) < rank
    decreases BUCKETS - i
  {
    if i + 1 == BUCKETS || Below(h, i + 1) >= rank then i else Scan(h, rank, i + 1)
  }

  function QuantileBucket(h: Counts, q: Quantile): nat
    requires IsQuantile(q)
  {
    RankWithin(h, q);
    Scan(h, Rank(h, q), 0)
  }

  function ValueAt(l: Layout, h: Counts, q: Quantile): nat
    requires IsQuantile(q)
  {
    if Total(h) == 0 then 0 else l.top(QuantileBucket(h, q))
  }

  datatype Summary = Summary(count: nat, p50: nat, p95: nat, p99: nat, p999: nat, max: nat)

  function Summarize(l: Layout, h: Counts): Summary {
    Summary(Total(h), ValueAt(l, h, Q(50, 100)), ValueAt(l, h, Q(95, 100)),
            ValueAt(l, h, Q(99, 100)), ValueAt(l, h, Q(999, 1000)), ValueAt(l, h, Q(1, 1)))
  }

  /** No figure of one summary is below that of the other, and the counts are the same. */
  ghost predicate AtLeast(a: Summary, b: Summary) {
    && a.count == b.count && a.p50 >= b.p50 && a.p95 >= b.p95
    && a.p99 >= b.p99 && a.p999 >= b.p999 && a.max >= b.max
  }

  // ---- the paired histograms of a worker ----

  lemma RecordPlus(l: Layout, a: Counts, b: Counts, us: nat)
    ensures Record(l, Plus(a, b), us) == Plus(a, Record(l, b, us)) == Plus(Record(l, a, us), b)
  {
    var x, y, z := Record(l, Plus(a, b), us), Plus(a, Record(l, b, us)), Plus(Record(l, a, us), b);
    assert |x| == |y| == |z|;
    assert forall i :: 0 <= i < BUCKETS ==> x[i] == y[i] == z[i];
    assert x == y;
    assert x == z;
  }

  lemma {:induction false} PooledTwo(l: Layout, a: seq<nat>, b: seq<nat>)
    ensures HistOf(l, a + b) == Plus(HistOf(l, a), HistOf(l, b))
  {
    if b == [] {
      assert a + b == a;
      var x := Plus(HistOf(l, a), Empty());
      assert forall i :: 0 <= i < BUCKETS ==> x[i] == HistOf(l, a)[i];
      assert x == HistOf(l, a);
    } else {
      var k := |b| - 1;
      assert (a + b)[..|a + b| - 1] == a + b[..k];
      PooledTwo(l, a, b[..k]);
      RecordPlus(l, HistOf(l, a), HistOf(l, b[..k]), b[k]);
    }
  }

  class Histos {
    const layout: Layout
    var corrected: Counts
    var uncorrected: Counts

    /** The histograms hold exactly these corrected and uncorrected samples. */
    ghost predicate Holds(c: seq<nat>, u: seq<nat>)
      reads this
    {
      corrected == HistOf(layout, c) && uncorrected == HistOf(layout, u)
    }

    constructor (layout: Layout)
      ensures this.layout == layout && Holds([], [])
    {
      this.layout := layout;
      corrected, uncorrected := Empty(), Empty();
    }

    method RecordPair(correctedUs: nat, uncorrectedUs: nat, ghost c: seq<nat>, ghost u: seq<nat>)
      requires Holds(c, u)
      modifies this
      ensures Holds(c + [correctedUs], u + [uncorrectedUs])
    {
      corrected := Record(layout, corrected, correctedUs);
      uncorrected := Record(layout, uncorrected, uncorrectedUs);
      assert (c + [correctedUs])[..|c|] == c;
      assert (u + [uncorrectedUs])[..|u|] == u;
    }

    /** Adding another pair leaves exactly the histograms of the pooled samples. */
    method Merge(other: Histos, ghost c: seq<nat>, ghost u: seq<nat>, ghost oc: seq<nat>, ghost ou: seq<nat>)
      requires other.layout == layout && Holds(c, u) && other.Holds(oc, ou)
      modifies this
      ensures Holds(c + oc, u + ou)
    {
      PooledTwo(layout, c, oc);
      PooledTwo(layout, u, ou);
      corrected, uncorrected := Plus(corrected, other.corrected), Plus(uncorrected, other.uncorrected);
    }
  }

  // ---- merging is lossless ----

  /** Recording a sample earlier or last makes no difference. */
  lemma MoveToEnd(l: Layout, b1: seq<nat>, x: nat, b2: seq<nat>)
    ensures HistOf(l, b1 + [x] + b2) == HistOf(l, b1 + b2 + [x])
  {
    PooledTwo(l, b1 + [x], b2);
    PooledTwo(l, b1, b2);
    assert (b1 + [x])[..|b1|] == b1;
    assert (b1 + b2 + [x])[..|b1 + b2|] == b1 + b2;
    RecordPlus(l, HistOf(l, b1), HistOf(l, b2), x);
  }

  lemma FindSample(a: seq<nat>, b: seq<nat>) returns (b1: seq<nat>, b2: seq<nat>)
    requires a != [] && multiset(a) == multiset(b)
    ensures b == b1 + [a[|a| - 1]] + b2 && multiset(a[..|a| - 1]) == multiset(b1 + b2)
  {
    var k := |a| - 1;
    var x := a[k];
    assert a == a[..k] + [x];
    assert x in multiset(b);
    var j :| 0 <= j < |b| && b[j] == x;
    b1, b2 := b[..j], b[j + 1..];
    assert b == b1 + [x] + b2;
    assert multiset(b1 + b2) == multiset(b) - multiset{x};
    assert multiset(a[..k]) == multiset(a) - multiset{x};
  }

  /** The counts depend on which samples were recorded, never on their order. */
  lemma {:induction false} OrderIrrelevant(l: Layout, a: seq<nat>, b: seq<nat>)
    requires multiset(a) == multiset(b)
    ensures HistOf(l, a) == HistOf(l, b)
  {
    if a == [] {
      assert |multiset(b)| == 0;
    } else {
      var b1, b2 := FindSample(a, b);
      var x := a[|a| - 1];
      OrderIrrelevant(l, a[..|a| - 1], b1 + b2);
      MoveToEnd(l, b1, x, b2);
      assert (b1 + b2 + [x])[..|b1 + b2|] == b1 + b2;
    }
  }

  function Concat(parts: seq<seq<nat>>): seq<nat> {
    if parts == [] then [] else Concat(parts[..|parts| - 1]) + parts[|parts| - 1]
  }

  /** Merging the workers' histograms gives the histogram of the pooled samples, in any order. */
  lemma {:induction false} MergeIsLossless(l: Layout, parts: seq<seq<nat>>, hs: seq<Counts>, pooled: seq<nat>)
    requires |hs| == |parts| && forall w :: 0 <= w < |hs| ==> hs[w] == HistOf(l, parts[w])
    requires multiset(pooled) == multiset(Concat(parts))
    ensures MergeAll(hs) == HistOf(l, pooled)
  {
    OrderIrrelevant(l, pooled, Concat(parts));
    if parts != [] {
      var k := |parts| - 1;
      MergeIsLossless(l, parts[..k], hs[..k], Concat(parts[..k]));
      PooledTwo(l, Concat(parts[..k]), parts[k]);
    }
  }

  // ---- quantiles ----

  lemma {:induction false} BelowPlus(a: Counts, b: Counts, n: nat)
    requires n <= BUCKETS
    ensures Below(Plus(a, b), n) == Below(a, n) + Below(b, n)
  {
    if n > 0 {
      BelowPlus(a, b, n - 1);
    }
  }

  lemma {:induction false} BelowEmpty(n: nat)
    requires n <= BUCKETS
    ensures Below(Empty(), n) == 0
  {
    if n > 0 {
      BelowEmpty(n - 1);
    }
  }

  lemma {:induction false} BelowMono(h: Counts, m: nat, n: nat)
    requires m <= n <= BUCKETS
    ensures Below(h, m) <= Below(h, n)
  {
    if m < n {
      BelowMono(h, m, n - 1);
    }
  }

  lemma {:induction false} BelowRecord(l: Layout, h: Counts, us: nat, n: nat)
    requires n <= BUCKETS
    ensures Below(Record(l, h, us), n) == Below(h, n) + if l.index(Clamp(us)) < n then 1 else 0
  {
    if n > 0 {
      BelowRecord(l, h, us, n - 1);
    }
  }

  /** The two sides of "the running count through bucket i has reached the rank", cleared of
      division so that they add up over merged histograms. */
  function Need(h: Counts, q: Quantile): nat { q.num * Total(h) }

  function Have(h: Counts, q: Quantile, i: nat): nat
    requires i < BUCKETS
  {
    Below(h, i + 1) * q.den
  }

  lemma RankReached(h: Counts, rank: nat, i: nat)
    requires 0 < rank <= Total(h) && i < BUCKETS
    ensures Scan(h, rank, 0) <= i <==> rank <= Below(h, i + 1)
  {
    var r := Scan(h, rank, 0);
    if r <= i {
      BelowMono(h, r + 1, i + 1);
    } else {
      BelowMono(h, i + 1, r);
    }
  }

  lemma QuantileAtMost(h: Counts, q: Quantile, i: nat)
    requires IsQuantile(q) && Total(h) > 0 && i < BUCKETS
    ensures QuantileBucket(h, q) <= i <==> Need(h, q) <= Have(h, q, i)
  {
    RankWithin(h, q);
    RankReached(h, Rank(h, q), i);
    CeilGalois(q.num * Total(h), q.den, Below(h, i + 1));
  }

  lemma NeedHavePlus(a: Counts, b: Counts, q: Quantile, i: nat)
    requires i < BUCKETS
    ensures Need(Plus(a, b), q) == Need(a, q) + Need(b, q)
    ensures Have(Plus(a, b), q, i) == Have(a, q, i) + Have(b, q, i)
    ensures Total(Plus(a, b)) == Total(a) + Total(b)
  {
    BelowPlus(a, b, i + 1);
    BelowPlus(a, b, BUCKETS);
    assert q.num * (Total(a) + Total(b)) == q.num * Total(a) + q.num * Total(b);
    assert (Below(a, i + 1) + Below(b, i + 1)) * q.den == Below(a, i + 1) * q.den + Below(b, i + 1) * q.den;
  }

  lemma NoSamples(h: Counts, q: Quantile, i: nat)
    requires i < BUCKETS && Total(h) == 0
    ensures Need(h, q) == 0 == Have(h, q, i)
  {
    BelowMono(h, i + 1, BUCKETS);
  }

  /** Sample by sample c >= u, so at every bucket c has accumulated no more samples than u. */
  lemma {:induction false} DominatedCounts(l: Layout, c: seq<nat>, u: seq<nat>, n: nat)
    requires |c| == |u| && n <= BUCKETS
    requires forall i :: 0 <= i < |c| ==> c[i] >= u[i]
    ensures Below(HistOf(l, c), n) <= Below(HistOf(l, u), n)
  {
    if c != [] {
      var k := |c| - 1;
      DominatedCounts(l, c[..k], u[..k], n);
      BelowRecord(l, HistOf(l, c[..k]), c[k], n);
      BelowRecord(l, HistOf(l, u[..k]), u[k], n);
      assert l.index(Clamp(u[k])) <= l.index(Clamp(c[k]));
    }
  }

  lemma {:induction false} TotalIsLength(l: Layout, s: seq<nat>)
    ensures Total(HistOf(l, s)) == |s|
  {
    if s == [] {
      BelowEmpty(BUCKETS);
    } else {
      TotalIsLength(l, s[..|s| - 1]);
      BelowRecord(l, HistOf(l, s[..|s| - 1]), s[|s| - 1], BUCKETS);
    }
  }

  /** Pointwise larger samples give a value at least as large at every quantile. */
  lemma QuantilesDominate(l: Layout, c: seq<nat>, u: seq<nat>, q: Quantile)
    requires |c| == |u| && IsQuantile(q)
    requires forall i :: 0 <= i < |c| ==> c[i] >= u[i]
    ensures ValueAt(l, HistOf(l, c), q) >= ValueAt(l, HistOf(l, u), q)
  {
    var hc, hu := HistOf(l, c), HistOf(l, u);
    TotalIsLength(l, c);
    TotalIsLength(l, u);
    if c != [] {
      var i := QuantileBucket(hc, q);
      DominatedCounts(l, c, u, i + 1);
      QuantileAtMost(hc, q, i);
      MulMono(Below(hc, i + 1), Below(hu, i + 1), q.den);
      QuantileAtMost(hu, q, i);
    }
  }

  // ---- merged quantiles ----

  ghost predicate Reports(hs: seq<Counts>, w: int) { 0 <= w < |hs| && Total(hs[w]) > 0 }

  lemma {:induction false} MergedCountAtLeast(hs: seq<Counts>, q: Quantile, i: nat)
    requires IsQuantile(q) && i < BUCKETS
    requires forall w :: Reports(hs, w) ==> QuantileBucket(hs[w], q) <= i
    ensures Need(MergeAll(hs), q) <= Have(MergeAll(hs), q, i)
  {
    if hs == [] {
      BelowEmpty(BUCKETS);
      NoSamples(Empty(), q, i);
    } else {
      var k := |hs| - 1;
      forall w | Reports(hs[..k], w)
        ensures QuantileBucket(hs[..k][w], q) <= i
      {
        assert Reports(hs, w);
      }
      MergedCountAtLeast(hs[..k], q, i);
      NeedHavePlus(MergeAll(hs[..k]), hs[k], q, i);
      if Total(hs[k]) > 0 {
        assert Reports(hs, k);
        QuantileAtMost(hs[k], q, i);
      } else {
        NoSamples(hs[k], q, i);
      }
    }
  }

  lemma {:induction false} MergedCountLess(hs: seq<Counts>, q: Quantile, i: nat)
    requires IsQuantile(q) && i < BUCKETS
    requires forall w :: Reports(hs, w) ==> QuantileBucket(hs[w], q) > i
    ensures Have(MergeAll(hs), q, i) <= Need(MergeAll(hs), q)
    ensures Total(MergeAll(hs)) > 0 ==> Have(MergeAll(hs), q, i) < Need(MergeAll(hs), q)
  {
    if hs == [] {
      BelowEmpty(BUCKETS);
      NoSamples(Empty(), q, i);
    } else {
      var k := |hs| - 1;
      forall w | Reports(hs[..k], w)
        ensures QuantileBucket(hs[..k][w], q) > i
      {
        assert Reports(hs, w);
      }
      MergedCountLess(hs[..k], q, i);
      NeedHavePlus(MergeAll(hs[..k]), hs[k], q, i);
      if Total(hs[k]) > 0 {
        assert Reports(hs, k);
        QuantileAtMost(hs[k], q, i);
      } else {
        NoSamples(hs[k], q, i);
      }
    }
  }

  lemma {:induction false} MergedTotalPositive(hs: seq<Counts>, w: int)
    requires Reports(hs, w)
    ensures Total(MergeAll(hs)) > 0
  {
    var k := |hs| - 1;
    BelowPlus(MergeAll(hs[..k]), hs[k], BUCKETS);
    if w < k {
      MergedTotalPositive(hs[..k], w);
    }
  }

  ghost predicate Least(hs: seq<Counts>, q: Quantile, lo: int)
    requires IsQuantile(q)
  {
    Reports(hs, lo) && forall w :: Reports(hs, w) ==> QuantileBucket(hs[lo], q) <= QuantileBucket(hs[w], q)
  }

  ghost predicate Greatest(hs: seq<Counts>, q: Quantile, hi: int)
    requires IsQuantile(q)
  {
    Reports(hs, hi) && forall w :: Reports(hs, w) ==> QuantileBucket(hs[w], q) <= QuantileBucket(hs[hi], q)
  }

  /** The positions of the least and the greatest of the numbers that count. */
  lemma {:induction false} Extremes(counts: seq<bool>, vs: seq<nat>, some: nat) returns (lo: nat, hi: nat)
    requires |counts| == |vs| && some < |vs| && counts[some]
    ensures lo < |vs| && hi < |vs| && counts[lo] && counts[hi]
    ensures forall i :: 0 <= i < |vs| && counts[i] ==> vs[lo] <= vs[i] <= vs[hi]
  {
    var k := |vs| - 1;
    if exists i: nat :: i < k && counts[i] {
      var i: nat :| i < k && counts[i];
      lo, hi := Extremes(counts[..k], vs[..k], i);
      if counts[k] && vs[k] < vs[lo] { lo := k; }
      if counts[k] && vs[k] > vs[hi] { hi := k; }
    } else {
      lo, hi := some, some;
    }
  }

  lemma ExtremeWorkers(hs: seq<Counts>, q: Quantile, some: int) returns (lo: int, hi: int)
    requires IsQuantile(q) && Reports(hs, some)
    ensures Least(hs, q, lo) && Greatest(hs, q, hi)
  {
    var counts := seq(|hs|, w requires 0 <= w < |hs| => Total(hs[w]) > 0);
    var buckets := seq(|hs|, w requires 0 <= w < |hs| => QuantileBucket(hs[w], q));
    lo, hi := Extremes(counts, buckets, some);
    forall w | Reports(hs, w)
      ensures QuantileBucket(hs[lo], q) <= QuantileBucket(hs[w], q) <= QuantileBucket(hs[hi], q)
    {
      assert counts[w] && buckets[w] == QuantileBucket(hs[w], q);
    }
  }

  lemma MergedBucketAtMost(hs: seq<Counts>, q: Quantile, hi: int)
    requires IsQuantile(q) && Greatest(hs, q, hi)
    ensures QuantileBucket(MergeAll(hs), q) <= QuantileBucket(hs[hi], q)
  {
    MergedTotalPositive(hs, hi);
    var b := QuantileBucket(hs[hi], q);
    MergedCountAtLeast(hs, q, b);
    QuantileAtMost(MergeAll(hs), q, b);
  }

  lemma MergedBucketAtLeast(hs: seq<Counts>, q: Quantile, lo: int)
    requires IsQuantile(q) && Least(hs, q, lo)
    ensures QuantileBucket(hs[lo], q) <= QuantileBucket(MergeAll(hs), q)
  {
    MergedTotalPositive(hs, lo);
    var a := QuantileBucket(hs[lo], q);
    if a > 0 {
      MergedCountLess(hs, q, a - 1);
      QuantileAtMost(MergeAll(hs), q, a - 1);
    }
  }

  /** Every quantile of the merge lies between the least and the greatest value that a worker
      with samples reports for it. */
  lemma MergedQuantileBetween(l: Layout, hs: seq<Counts>, q: Quantile)
    requires IsQuantile(q)
    requires exists w :: Reports(hs, w)
    ensures exists lo, hi :: Reports(hs, lo) && Reports(hs, hi)
              && ValueAt(l, hs[lo], q) <= ValueAt(l, MergeAll(hs), q) <= ValueAt(l, hs[hi], q)
  {
    var some :| Reports(hs, some);
    var lo, hi := ExtremeWorkers(hs, q, some);
    MergedBucketAtMost(hs, q, hi);
    MergedBucketAtLeast(hs, q, lo);
    MergedTotalPositive(hs, lo);
    assert Reports(hs, lo) && Reports(hs, hi);
    assert ValueAt(l, hs[lo], q) <= ValueAt(l, MergeAll(hs), q) <= ValueAt(l, hs[hi], q);
  }
}
