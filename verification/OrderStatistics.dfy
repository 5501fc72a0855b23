/** What a histogram says of the samples behind it: how many lie in its lower buckets, and that a
    quantile reads the sample of that rank. */
module OrderStatistics {
  import opened Arithmetic
  import opened Histogram

  /** The samples as they are counted: kept as they are from one microsecond to a minute, and moved
      to the nearer end otherwise. */
  ghost predicate CountedAs(us: nat, c: nat) {
    && (1 <= us <= 60_000_000 ==> c == us)
    && (us == 0 ==> c == 1)
    && (us > 60_000_000 ==> c == 60_000_000)
  }

  ghost predicate AllCountedAs(s: seq<nat>, c: seq<nat>) {
    |c| == |s| && forall i :: 0 <= i < |s| ==> CountedAs(s[i], c[i])
  }

  ghost function InBucketsBelow(l: Layout, c: seq<nat>, n: nat): set<nat> {
    set i: nat | i < |c| && l.index(c[i]) < n
  }

  lemma BucketsGrow(l: Layout, c: seq<nat>, n: nat)
    requires c != []
    ensures var k := |c| - 1;
            |InBucketsBelow(l, c, n)| == |InBucketsBelow(l, c[..k], n)| + if l.index(c[k]) < n then 1 else 0
  {
    var k := |c| - 1;
    assert InBucketsBelow(l, c, n) == InBucketsBelow(l, c[..k], n) + if l.index(c[k]) < n then {k} else {};
  }

  /** The running count through a bucket is the number of samples that fall no higher. */
  lemma {:induction false} CountsAreSamples(l: Layout, s: seq<nat>, c: seq<nat>, n: nat)
    requires AllCountedAs(s, c) && n <= BUCKETS
    ensures Below(HistOf(l, s), n) == |InBucketsBelow(l, c, n)|
  {
    if s == [] {
      BelowEmpty(n);
    } else {
      var k := |s| - 1;
      CountsAreSamples(l, s[..k], c[..k], n);
      BelowRecord(l, HistOf(l, s[..k]), s[k], n);
      assert CountedAs(s[k], c[k]);
      BucketsGrow(l, c, n);
    }
  }

  ghost predicate Ascending(r: seq<nat>) { forall i, j :: 0 <= i <= j < |r| ==> r[i] <= r[j] }

  /** The counted samples in ascending order. */
  ghost predicate Ranked(s: seq<nat>, r: seq<nat>) {
    Ascending(r) && exists c: seq<nat> :: AllCountedAs(s, c) && multiset(r) == multiset(c)
  }

  lemma {:induction false} Inserted(r: seq<nat>, x: nat) returns (more: seq<nat>)
    requires Ascending(r)
    ensures Ascending(more) && multiset(more) == multiset(r) + multiset{x}
    ensures forall y :: y in more ==> y == x || y in r
  {
    var k := |r| - 1;
    if r == [] || r[k] <= x {
      more := r + [x];
    } else {
      var init := Inserted(r[..k], x);
      forall i | 0 <= i < |init|
        ensures init[i] <= r[k]
      {
        assert init[i] in init;
      }
      more := init + [r[k]];
      assert r == r[..k] + [r[k]];
    }
  }

  lemma {:induction false} SomeRanking(s: seq<nat>) returns (c: seq<nat>, r: seq<nat>)
    ensures AllCountedAs(s, c) && Ascending(r) && multiset(r) == multiset(c)
  {
    if s == [] {
      c, r := [], [];
    } else {
      var k := |s| - 1;
      c, r := SomeRanking(s[..k]);
      var x := if s[k] == 0 then 1 else Min(s[k], 60_000_000);
      r := Inserted(r, x);
      c := c + [x];
    }
  }

  /** Whatever was recorded can be ranked. */
  lemma AnySamplesRank(s: seq<nat>)
    ensures exists r :: Ranked(s, r)
  {
    var c, r := SomeRanking(s);
    assert Ranked(s, r);
  }

  lemma RecordCounted(l: Layout, h: Counts, us: nat, c: nat)
    requires CountedAs(us, c)
    ensures Record(l, h, us) == Record(l, h, c)
  {
  }

  lemma {:induction false} CountedHist(l: Layout, s: seq<nat>, c: seq<nat>)
    requires AllCountedAs(s, c)
    ensures HistOf(l, s) == HistOf(l, c)
  {
    if s != [] {
      var k := |s| - 1;
      CountedHist(l, s[..k], c[..k]);
      RecordCounted(l, HistOf(l, s[..k]), s[k], c[k]);
    }
  }

  lemma RankedHist(l: Layout, s: seq<nat>, r: seq<nat>)
    requires Ranked(s, r)
    ensures HistOf(l, s) == HistOf(l, r) && |r| == |s|
    ensures forall i :: 0 <= i < |r| ==> 1 <= r[i] <= 60_000_000
  {
    var c: seq<nat> :| AllCountedAs(s, c) && multiset(r) == multiset(c);
    CountedHist(l, s, c);
    OrderIrrelevant(l, c, r);
    assert |multiset(r)| == |multiset(c)|;
    forall i | 0 <= i < |r|
      ensures 1 <= r[i] <= 60_000_000
    {
      assert r[i] in multiset(c);
      var j :| 0 <= j < |c| && c[j] == r[i];
      assert CountedAs(s[j], c[j]);
    }
  }

  lemma {:induction false} CountAtMost(l: Layout, s: seq<nat>, n: nat)
    requires n <= BUCKETS
    ensures Below(HistOf(l, s), n) <= |s|
  {
    BelowMono(HistOf(l, s), n, BUCKETS);
    TotalIsLength(l, s);
  }

  /** Of ascending samples at least k fall below a bucket exactly when the k-th does. */
  lemma {:induction false} KthFalls(l: Layout, r: seq<nat>, n: nat, k: nat)
    requires Ascending(r) && n <= BUCKETS && 0 < k <= |r|
    requires forall i :: 0 <= i < |r| ==> 1 <= r[i] <= 60_000_000
    ensures k <= Below(HistOf(l, r), n) <==> l.index(r[k - 1]) < n
  {
    var m := |r| - 1;
    BelowRecord(l, HistOf(l, r[..m]), r[m], n);
    CountAtMost(l, r[..m], n);
    assert l.index(r[k - 1]) <= l.index(r[m]);
    if k <= m {
      KthFalls(l, r[..m], n, k);
    }
    if l.index(r[m]) < n && m > 0 {
      KthFalls(l, r[..m], n, m);
      assert l.index(r[m - 1]) <= l.index(r[m]);
    }
  }

  /** The least rank that the share q of n samples does not exceed. */
  ghost predicate IsRank(n: nat, q: Quantile, k: nat) {
    0 < k <= n && (k - 1) * q.den < q.num * n <= k * q.den
  }

  lemma RankIsCeiling(n: nat, q: Quantile)
    requires IsQuantile(q) && n > 0
    ensures IsRank(n, q, CeilDiv(q.num * n, q.den))
  {
    var k := CeilDiv(q.num * n, q.den);
    MulMono(q.num, q.den, n);
    CeilGalois(q.num * n, q.den, n);
    CeilGalois(q.num * n, q.den, 0);
    MulMono(1, n, q.num);
    CeilGalois(q.num * n, q.den, k - 1);
    CeilGalois(q.num * n, q.den, k);
  }

  function RankOf(n: nat, q: Quantile): (k: nat)
    requires IsQuantile(q) && n > 0
    ensures IsRank(n, q, k)
  {
    RankIsCeiling(n, q);
    CeilDiv(q.num * n, q.den)
  }

  lemma ScanStops(h: Counts, k: nat, x: nat)
    requires 0 < k <= Total(h) && x < BUCKETS
    requires forall n: nat :: n <= BUCKETS ==> (k <= Below(h, n) <==> x < n)
    ensures Scan(h, k, 0) == x
  {
    var b := Scan(h, k, 0);
    RankReached(h, k, b);
    RankReached(h, k, x);
  }

  lemma BucketOfRank(l: Layout, r: seq<nat>, q: Quantile)
    requires IsQuantile(q) && r != [] && Ascending(r)
    requires forall i :: 0 <= i < |r| ==> 1 <= r[i] <= 60_000_000
    ensures QuantileBucket(HistOf(l, r), q) == l.index(r[RankOf(|r|, q) - 1])
  {
    var h, k := HistOf(l, r), RankOf(|r|, q);
    TotalIsLength(l, r);
    forall n: nat | n <= BUCKETS
      ensures k <= Below(h, n) <==> l.index(r[k - 1]) < n
    {
      KthFalls(l, r, n, k);
    }
    ScanStops(h, k, l.index(r[k - 1]));
  }

  /** A quantile q of n samples reads what is reported for the ceil(q * n)-th smallest: not less than
      that sample, and in the same bucket. */
  ghost predicate Reads(l: Layout, r: seq<nat>, q: Quantile, v: nat)
    requires IsQuantile(q) && r != []
  {
    var x := r[RankOf(|r|, q) - 1];
    v == l.Reported(x) && x <= v && l.index(v) == l.index(x)
  }

  lemma QuantileIsOrderStatistic(l: Layout, s: seq<nat>, r: seq<nat>, q: Quantile)
    requires IsQuantile(q) && s != [] && Ranked(s, r)
    ensures |r| == |s| && Reads(l, r, q, ValueAt(l, HistOf(l, s), q))
  {
    RankedHist(l, s, r);
    TotalIsLength(l, r);
    BucketOfRank(l, r, q);
  }

  lemma GreatestIsRead(l: Layout, s: seq<nat>, r: seq<nat>)
    requires s != [] && Ranked(s, r)
    ensures |r| == |s| && ValueAt(l, HistOf(l, s), Q(1, 1)) == l.Reported(r[|r| - 1])
  {
    QuantileIsOrderStatistic(l, s, r, Q(1, 1));
    assert RankOf(|r|, Q(1, 1)) == |r|;
  }

  /** Every figure of a summary: how many samples there are, their median and tail quantiles, and
      what is reported for the greatest; all zero without samples. */
  lemma SummaryOfSamples(l: Layout, s: seq<nat>, r: seq<nat>)
    requires Ranked(s, r)
    ensures var f := Summarize(l, HistOf(l, s));
            && f.count == |s| == |r|
            && (s == [] ==> f.p50 == 0 && f.p95 == 0 && f.p99 == 0 && f.p999 == 0 && f.max == 0)
            && (s != [] ==>
                  && Reads(l, r, Q(50, 100), f.p50) && Reads(l, r, Q(95, 100), f.p95)
                  && Reads(l, r, Q(99, 100), f.p99) && Reads(l, r, Q(999, 1000), f.p999)
                  && f.max == l.Reported(r[|r| - 1]))
  {
    RankedHist(l, s, r);
    TotalIsLength(l, s);
    if s != [] {
      QuantileIsOrderStatistic(l, s, r, Q(50, 100));
      QuantileIsOrderStatistic(l, s, r, Q(95, 100));
      QuantileIsOrderStatistic(l, s, r, Q(99, 100));
      QuantileIsOrderStatistic(l, s, r, Q(999, 1000));
      GreatestIsRead(l, s, r);
    }
  }
}
