/** The once-a-second tick of a worker, and the stream of numbered partials made of its ticks. */
module TickEmitter {
  import opened Verdicts
  import opened Histogram

  /** One reading of the live counters, the onset, and the shared histograms with their percentiles. */
  datatype Snapshot = Snapshot(
    counts: Tally, onset: Option<real>, p50: nat, p99: nat, corrected: Counts, uncorrected: Counts)

  datatype Tick = Tick(
    elapsedS: nat, achievedRps: nat,
    completedTotal: nat, passTotal: nat, failStatusTotal: nat, rateLimitedTotal: nat,
    thisTick: Tally, onset: Option<real>, p50: nat, p99: nat,
    corrected: Counts, uncorrected: Counts)

  function MakeTick(elapsedS: nat, s: Snapshot, thisTick: Tally): Tick {
    Tick(elapsedS, thisTick.completed, s.counts.completed, s.counts.pass, s.counts.failStatus, s.counts.rateLimited,
         thisTick, s.onset, s.p50, s.p99, s.corrected, s.uncorrected)
  }

  function CountsOf(snaps: seq<Snapshot>): seq<Tally> {
    seq(|snaps|, i requires 0 <= i < |snaps| => snaps[i].counts)
  }

  function ThisTicks(ticks: seq<Tick>): seq<Tally> {
    seq(|ticks|, i requires 0 <= i < |ticks| => ticks[i].thisTick)
  }

  ghost predicate MonotoneAt(snaps: seq<Snapshot>, k: nat)
    requires k < |snaps|
  {
    Previous(CountsOf(snaps), k).AtMost(snaps[k].counts)
  }

  /** Counters never go back from one snapshot to the next, as every interleaving guarantees. */
  ghost predicate Monotone(snaps: seq<Snapshot>) { forall k :: 0 <= k < |snaps| ==> MonotoneAt(snaps, k) }

  function TickAt(snaps: seq<Snapshot>, k: nat): Tick
    requires k < |snaps|
  {
    MakeTick(k + 1, snaps[k], snaps[k].counts.Minus(Previous(CountsOf(snaps), k)))
  }

  ghost predicate EmittedFrom(snaps: seq<Snapshot>, ticks: seq<Tick>) {
    |ticks| == |snaps| && forall k :: 0 <= k < |snaps| ==> ticks[k] == TickAt(snaps, k)
  }

  /** The emitter's loop: remembers the previous counters and publishes the differences; whatever else
      a tick shows is as the snapshot has it. */
  method EmitTicks(snaps: seq<Snapshot>) returns (ticks: seq<Tick>)
    ensures EmittedFrom(snaps, ticks)
    ensures forall k :: 0 <= k < |ticks| ==>
              && ticks[k].completedTotal == snaps[k].counts.completed && ticks[k].passTotal == snaps[k].counts.pass
              && ticks[k].failStatusTotal == snaps[k].counts.failStatus
              && ticks[k].rateLimitedTotal == snaps[k].counts.rateLimited
              && ticks[k].p50 == snaps[k].p50 && ticks[k].p99 == snaps[k].p99
  {
    ticks := [];
    var prev := ZERO;
    for k := 0 to |snaps|
      invariant |ticks| == k && prev == Previous(CountsOf(snaps), k)
      invariant forall j :: 0 <= j < k ==> ticks[j] == TickAt(snaps, j)
    {
      var thisTick := snaps[k].counts.Minus(prev);
      prev := snaps[k].counts;
      ticks := ticks + [MakeTick(k + 1, snaps[k], thisTick)];
    }
  }

  /** The per-tick differences up to any tick add up to that tick's cumulative counters. */
  lemma ThisTicksTelescope(snaps: seq<Snapshot>, ticks: seq<Tick>, k: nat)
    requires EmittedFrom(snaps, ticks) && Monotone(snaps) && k < |ticks|
    ensures SumTallies(ThisTicks(ticks)[..k + 1]) == snaps[k].counts
  {
    var totals, deltas := CountsOf(snaps), ThisTicks(ticks);
    forall j | 0 <= j < |totals|
      ensures DifferenceAt(totals, deltas, j)
    {
      assert ticks[j] == TickAt(snaps, j) && MonotoneAt(snaps, j);
    }
    DifferencesTelescope(totals, deltas, k + 1);
  }

  // ---- the worker node's stream ----

  datatype Partial = Partial(
    tick: nat, final: bool, corrected: Option<Counts>, uncorrected: Option<Counts>,
    rps: nat, onset: Option<real>, buckets: seq<Tally>)

  function PartialFromTick(tickN: nat, t: Tick): Partial {
    Partial(tickN, false, Some(t.corrected), Some(t.uncorrected), t.achievedRps, t.onset, [t.thisTick])
  }

  function EmptyFinal(tickN: nat): Partial { Partial(tickN, true, None, None, 0, None, []) }

  /** Numbered 1, 2, ... in order; a final partial is empty and comes last. */
  ghost predicate Numbered(st: seq<Partial>) {
    forall k :: 0 <= k < |st| ==>
      && st[k].tick == k + 1
      && (st[k].final ==> k == |st| - 1 && st[k].buckets == [])
  }

  /** What `run_slice` yields: one partial a tick, then the final one. */
  method RunSlice(ticks: seq<Tick>) returns (st: seq<Partial>)
    ensures |st| == |ticks| + 1 && Numbered(st) && st[|ticks|] == EmptyFinal(|ticks| + 1)
    ensures forall k :: 0 <= k < |ticks| ==> st[k] == PartialFromTick(k + 1, ticks[k])
  {
    st := [];
    var tickN := 0;
    while tickN < |ticks|
      invariant 0 <= tickN <= |ticks| && |st| == tickN
      invariant forall k :: 0 <= k < tickN ==> st[k] == PartialFromTick(k + 1, ticks[k])
    {
      tickN := tickN + 1;
      st := st + [PartialFromTick(tickN, ticks[tickN - 1])];
    }
    st := st + [EmptyFinal(tickN + 1)];
  }
}
