/** The coordinator's per-tick aggregator: partials parked by tick until every worker has reported
    it, whatever the order in which the workers' streams interleave. */
module Aggregation {
  import opened Arithmetic
  import opened Verdicts
  import opened Histogram
  import opened TickEmitter

  // ---- combining partials ----

  /** What a set of partials adds up to. */
  datatype Share = Share(
    counts: Tally, rps: nat, onset: Option<real>, corrected: Option<Counts>, uncorrected: Option<Counts>)

  const NOTHING := Share(ZERO, 0, None, None, None)

  function ShareOf(p: Partial): Share {
    Share(SumTallies(p.buckets), p.rps, p.onset, p.corrected, p.uncorrected)
  }

  function EarlierOnset(a: Option<real>, b: Option<real>): Option<real> {
    match (a, b)
    case (None, _) => b
    case (_, None) => a
    case (Some(x), Some(y)) => Some(if y < x then y else x)
  }

  /** The least onset among those reported, if any is. */
  ghost predicate IsLeastOnset(onsets: seq<Option<real>>, onset: Option<real>) {
    match onset
    case None => forall j :: 0 <= j < |onsets| ==> onsets[j].None?
    case Some(x) =>
      && Some(x) in onsets
      && (forall j :: 0 <= j < |onsets| && onsets[j].Some? ==> x <= onsets[j].value)
  }

  lemma LeastOnsetMore(onsets: seq<Option<real>>, onset: Option<real>, next: Option<real>)
    requires IsLeastOnset(onsets, onset)
    ensures IsLeastOnset(onsets + [next], EarlierOnset(onset, next))
  {
  }

  function MergeSome(a: Option<Counts>, b: Option<Counts>): Option<Counts> {
    match (a, b)
    case (None, _) => b
    case (_, None) => a
    case (Some(x), Some(y)) => Some(Plus(x, y))
  }

  function Combine(a: Share, b: Share): Share {
    Share(a.counts.Plus(b.counts), a.rps + b.rps, EarlierOnset(a.onset, b.onset),
          MergeSome(a.corrected, b.corrected), MergeSome(a.uncorrected, b.uncorrected))
  }

  lemma PlusCommutes(a: Counts, b: Counts)
    ensures Plus(a, b) == Plus(b, a)
  {
    var x, y := Plus(a, b), Plus(b, a);
    assert |x| == |y| && forall i :: 0 <= i < BUCKETS ==> x[i] == y[i];
    assert x == y;
  }

  lemma PlusAssociative(a: Counts, b: Counts, c: Counts)
    ensures Plus(Plus(a, b), c) == Plus(a, Plus(b, c))
  {
    var x, y := Plus(Plus(a, b), c), Plus(a, Plus(b, c));
    assert |x| == |y| && forall i :: 0 <= i < BUCKETS ==> x[i] == y[i];
    assert x == y;
  }

  lemma MergeSomeSwaps(a: Option<Counts>, b: Option<Counts>, c: Option<Counts>)
    ensures MergeSome(MergeSome(a, b), c) == MergeSome(MergeSome(a, c), b)
  {
    if a.Some? && b.Some? && c.Some? {
      PlusAssociative(a.value, b.value, c.value);
      PlusAssociative(a.value, c.value, b.value);
    }
    if b.Some? && c.Some? {
      PlusCommutes(b.value, c.value);
    }
  }

  /** The order of two partials does not matter. */
  lemma CombineSwaps(a: Share, b: Share, c: Share)
    ensures Combine(Combine(a, b), c) == Combine(Combine(a, c), b)
  {
    MergeSomeSwaps(a.corrected, b.corrected, c.corrected);
    MergeSomeSwaps(a.uncorrected, b.uncorrected, c.uncorrected);
  }

  /** The combined share of some workers' partials for one tick. */
  ghost function Fold(bucket: map<nat, Partial>, keys: set<nat>): Share
    requires keys <= bucket.Keys
  {
    if keys == {} then NOTHING
    else
      var w :| w in keys;
      Combine(Fold(bucket, keys - {w}), ShareOf(bucket[w]))
  }

  lemma {:induction false} FoldRemove(bucket: map<nat, Partial>, keys: set<nat>, x: nat)
    requires keys <= bucket.Keys && x in keys
    ensures Fold(bucket, keys) == Combine(Fold(bucket, keys - {x}), ShareOf(bucket[x]))
    decreases keys
  {
    var w :| w in keys && Fold(bucket, keys) == Combine(Fold(bucket, keys - {w}), ShareOf(bucket[w]));
    if w != x {
      FoldRemove(bucket, keys - {w}, x);
      FoldRemove(bucket, keys - {x}, w);
      assert keys - {w} - {x} == keys - {x} - {w};
      CombineSwaps(Fold(bucket, keys - {w} - {x}), ShareOf(bucket[x]), ShareOf(bucket[w]));
    }
  }

  lemma {:induction false} FoldSame(a: map<nat, Partial>, b: map<nat, Partial>, keys: set<nat>)
    requires keys <= a.Keys && keys <= b.Keys && forall w :: w in keys ==> a[w] == b[w]
    ensures Fold(a, keys) == Fold(b, keys)
    decreases keys
  {
    if keys != {} {
      var w :| w in keys;
      FoldRemove(a, keys, w);
      FoldRemove(b, keys, w);
      FoldSame(a, b, keys - {w});
    }
  }

  lemma FoldInsert(bucket: map<nat, Partial>, w: nat, p: Partial)
    requires w !in bucket
    ensures Fold(bucket[w := p], bucket[w := p].Keys) == Combine(Fold(bucket, bucket.Keys), ShareOf(p))
  {
    var b := bucket[w := p];
    FoldRemove(b, b.Keys, w);
    assert b.Keys - {w} == bucket.Keys;
    FoldSame(b, bucket, bucket.Keys);
  }

  /** One partial fewer to do is one more in the sum. */
  lemma FoldTakes(bucket: map<nat, Partial>, todo: set<nat>, w: nat)
    requires w in todo && todo <= bucket.Keys
    ensures Fold(bucket, bucket.Keys - (todo - {w})) == Combine(Fold(bucket, bucket.Keys - todo), ShareOf(bucket[w]))
  {
    FoldRemove(bucket, bucket.Keys - (todo - {w}), w);
    assert bucket.Keys - (todo - {w}) - {w} == bucket.Keys - todo;
  }

  // ---- one message ----

  /** The percentiles the coordinator sends along are read off the merged histogram of the tick, so
      the histogram stands for them here. */
  datatype AggTick = AggTick(
    elapsedS: nat, achievedRps: nat,
    completedTotal: nat, passTotal: nat, failStatusTotal: nat,
    thisTick: Tally, rpsLo: nat,
    onset: Option<real>, corrected: Option<Counts>, uncorrected: Option<Counts>)

  /** The tick emitted for a full bucket, given the cumulative counts before it. */
  function Emit(tick: nat, s: Share, before: Tally): AggTick {
    AggTick(tick, s.rps,
            before.completed + s.counts.completed, before.pass + s.counts.pass,
            before.failStatus + s.counts.failStatus, s.counts,
            s.rps / 10 * 10, s.onset, s.corrected, s.uncorrected)
  }

  datatype State = State(
    parked: map<nat, map<nat, Partial>>,
    cumCompleted: nat, cumPass: nat, cumFailStatus: nat,
    emitted: seq<AggTick>)

  const FRESH := State(map[], 0, 0, 0, [])

  function Entry(s: State, tick: nat): map<nat, Partial> {
    if tick in s.parked then s.parked[tick] else map[]
  }

  /** The running totals, as counts. */
  function SoFar(s: State): Tally {
    ZERO.(completed := s.cumCompleted, pass := s.cumPass, failStatus := s.cumFailStatus)
  }

  function EmitInto(s: State, tick: nat, share: Share): State {
    s.(cumCompleted := s.cumCompleted + share.counts.completed,
       cumPass := s.cumPass + share.counts.pass,
       cumFailStatus := s.cumFailStatus + share.counts.failStatus,
       emitted := s.emitted + [Emit(tick, share, SoFar(s))])
  }

  ghost function Deliver(n: nat, s: State, w: nat, p: Partial): State {
    if p.final then s
    else
      var entry := Entry(s, p.tick)[w := p];
      if |entry| == n
      then EmitInto(s.(parked := s.parked - {p.tick}), p.tick, Fold(entry, entry.Keys))
      else s.(parked := s.parked[p.tick := entry])
  }

  ghost function DeliverAll(n: nat, s: State, msgs: seq<(nat, Partial)>): State {
    if msgs == [] then s
    else
      var k := |msgs| - 1;
      Deliver(n, DeliverAll(n, s, msgs[..k]), msgs[k].0, msgs[k].1)
  }

  /** The aggregator's mutable state; `emitted` is what has gone into the tick channel. */
  class Aggregator {
    const numWorkers: nat
    var perTick: map<nat, map<nat, Partial>>
    var cumCompleted: nat
    var cumPass: nat
    var cumFailStatus: nat
    var emitted: seq<AggTick>

    function Model(): State
      reads this
    {
      State(perTick, cumCompleted, cumPass, cumFailStatus, emitted)
    }

    constructor (numWorkers: nat)
      ensures Model() == FRESH && this.numWorkers == numWorkers
    {
      this.numWorkers := numWorkers;
      perTick, cumCompleted, cumPass, cumFailStatus, emitted := map[], 0, 0, 0, [];
    }

    method ShareOfOne(p: Partial) returns (share: Share)
      ensures share == ShareOf(p)
    {
      var counts := AddUp(p.buckets);
      share := Share(counts, p.rps, p.onset, p.corrected, p.uncorrected);
    }

    /** Sums a bucket's partials in whatever order they come. */
    method SumBucket(bucket: map<nat, Partial>) returns (share: Share)
      ensures share == Fold(bucket, bucket.Keys)
    {
      share := NOTHING;
      var todo := bucket.Keys;
      while todo != {}
        invariant todo <= bucket.Keys && share == Fold(bucket, bucket.Keys - todo)
        decreases todo
      {
        var w :| w in todo;
        FoldTakes(bucket, todo, w);
        var one := ShareOfOne(bucket[w]);
        share := Combine(share, one);
        todo := todo - {w};
      }
      assert bucket.Keys - {} == bucket.Keys;
    }

    /** Adds a full bucket's share to the running totals and emits its tick. */
    method EmitTick(tick: nat, share: Share)
      modifies this`cumCompleted, this`cumPass, this`cumFailStatus, this`emitted
      ensures Model() == EmitInto(old(Model()), tick, share)
    {
      var before := SoFar(Model());
      cumCompleted := cumCompleted + share.counts.completed;
      cumPass := cumPass + share.counts.pass;
      cumFailStatus := cumFailStatus + share.counts.failStatus;
      emitted := emitted + [Emit(tick, share, before)];
    }

    method Receive(w: nat, p: Partial)
      modifies this
      ensures Model() == Deliver(numWorkers, old(Model()), w, p)
    {
      if p.final {
        return;
      }
      var entry := Entry(Model(), p.tick)[w := p];
      if |entry| == numWorkers {
        var share := SumBucket(entry);
        perTick := perTick - {p.tick};
        EmitTick(p.tick, share);
      } else {
        perTick := perTick[p.tick := entry];
      }
    }

    /** Takes messages until the channel closes or the run is cancelled. */
    method Loop(msgs: seq<(nat, Partial)>, cancelledAfter: nat)
      modifies this
      ensures Model() == DeliverAll(numWorkers, old(Model()), msgs[..Min(cancelledAfter, |msgs|)])
    {
      ghost var first := Model();
      var i := 0;
      while i < |msgs| && i < cancelledAfter
        invariant 0 <= i <= Min(cancelledAfter, |msgs|)
        invariant Model() == DeliverAll(numWorkers, first, msgs[..i])
      {
        assert msgs[..i + 1][..i] == msgs[..i];
        Receive(msgs[i].0, msgs[i].1);
        i := i + 1;
      }
    }
  }
}
