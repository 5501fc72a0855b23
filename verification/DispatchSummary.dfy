/** The final report of a dispatched run against its live ticks, and the live ticks against the
    workers' own counters. */
module DispatchSummary {
  import opened Verdicts
  import opened TickEmitter
  import opened Aggregation
  import opened FleetStreams
  import opened FleetTotals

  function BucketSums(st: seq<Partial>): seq<Tally> {
    seq(|st|, i requires 0 <= i < |st| => SumTallies(st[i].buckets))
  }

  /** Counts carried by the first k messages of a stream. */
  function StreamTotal(st: seq<Partial>, k: nat): Tally
    requires k <= |st|
  {
    SumTallies(BucketSums(st)[..k])
  }

  lemma StreamTotalStep(st: seq<Partial>, k: nat)
    requires k < |st|
    ensures StreamTotal(st, k + 1) == StreamTotal(st, k).Plus(SumTallies(st[k].buckets))
  {
    assert BucketSums(st)[..k + 1][..k] == BucketSums(st)[..k];
  }

  lemma StreamTotalGets(st: seq<Partial>, k: nat, f: Field)
    requires k < |st|
    ensures StreamTotal(st, k + 1).Get(f) == StreamTotal(st, k).Get(f) + SumTallies(st[k].buckets).Get(f)
  {
    StreamTotalStep(st, k);
    PlusGets(StreamTotal(st, k), SumTallies(st[k].buckets), f);
  }

  // ---- the totals of one worker and of the run ----

  datatype WorkerSummary = WorkerSummary(finished: bool, counts: Tally, onset: Option<real>)

  function StreamOnsets(st: seq<Partial>): seq<Option<real>> {
    seq(|st|, i requires 0 <= i < |st| => st[i].onset)
  }

  /** Accumulates everything a worker streams, final partial included. */
  method RunOneWorker(events: seq<Partial>) returns (s: WorkerSummary)
    ensures s.counts == StreamTotal(events, |events|)
    ensures s.finished <==> exists j :: 0 <= j < |events| && events[j].final
    ensures IsLeastOnset(StreamOnsets(events), s.onset)
  {
    s := WorkerSummary(false, ZERO, None);
    for k := 0 to |events|
      invariant s.counts == StreamTotal(events, k)
      invariant s.finished <==> exists j :: 0 <= j < k && events[j].final
      invariant IsLeastOnset(StreamOnsets(events)[..k], s.onset)
    {
      var p := events[k];
      var counts := AddUp(p.buckets);
      StreamTotalStep(events, k);
      LeastOnsetMore(StreamOnsets(events)[..k], s.onset, p.onset);
      assert StreamOnsets(events)[..k + 1] == StreamOnsets(events)[..k] + [p.onset];
      s := WorkerSummary(s.finished || p.final, s.counts.Plus(counts), EarlierOnset(s.onset, p.onset));
    }
    assert StreamOnsets(events)[..|events|] == StreamOnsets(events);
  }

  function CountsOfSummaries(ws: seq<WorkerSummary>): seq<Tally> {
    seq(|ws|, i requires 0 <= i < |ws| => ws[i].counts)
  }

  function OnsetsOfSummaries(ws: seq<WorkerSummary>): seq<Option<real>> {
    seq(|ws|, i requires 0 <= i < |ws| => ws[i].onset)
  }

  datatype Report = Report(dispatched: nat, finished: nat, lost: nat, counts: Tally, onset: Option<real>)

  function FinishedAmong(ws: seq<WorkerSummary>, k: nat): set<nat>
    requires k <= |ws|
  {
    set i: nat | i < k && ws[i].finished
  }

  lemma FinishedMore(ws: seq<WorkerSummary>, k: nat)
    requires k < |ws|
    ensures |FinishedAmong(ws, k + 1)| == |FinishedAmong(ws, k)| + if ws[k].finished then 1 else 0
  {
    var was, now := FinishedAmong(ws, k), FinishedAmong(ws, k + 1);
    if ws[k].finished {
      assert now == was + {k};
    } else {
      assert now == was;
    }
  }

  lemma FinishedWithin(ws: seq<WorkerSummary>, k: nat)
    requires k <= |ws|
    ensures |FinishedAmong(ws, k)| <= k
  {
    if k > 0 {
      FinishedWithin(ws, k - 1);
      FinishedMore(ws, k - 1);
    }
  }

  /** One more worker in the totals. */
  lemma TotalsMore(ws: seq<WorkerSummary>, k: nat, onset: Option<real>)
    requires k < |ws| && IsLeastOnset(OnsetsOfSummaries(ws)[..k], onset)
    ensures IsLeastOnset(OnsetsOfSummaries(ws)[..k + 1], EarlierOnset(onset, ws[k].onset))
    ensures SumTallies(CountsOfSummaries(ws)[..k + 1]) == SumTallies(CountsOfSummaries(ws)[..k]).Plus(ws[k].counts)
  {
    LeastOnsetMore(OnsetsOfSummaries(ws)[..k], onset, ws[k].onset);
    assert OnsetsOfSummaries(ws)[..k + 1] == OnsetsOfSummaries(ws)[..k] + [ws[k].onset];
    assert CountsOfSummaries(ws)[..k + 1][..k] == CountsOfSummaries(ws)[..k];
  }

  /** The run's totals: each worker's own counts, and the workers that never finished unless the
      run was aborted. */
  method Summarize(ws: seq<WorkerSummary>, aborted: bool) returns (r: Report)
    ensures r.counts == SumTallies(CountsOfSummaries(ws)) && r.dispatched == |ws|
    ensures IsLeastOnset(OnsetsOfSummaries(ws), r.onset)
    ensures r.finished == |FinishedAmong(ws, |ws|)| <= |ws|
    ensures r.lost == if aborted then 0 else |ws| - r.finished
  {
    var finished, counts, onset := 0, ZERO, None;
    for k := 0 to |ws|
      invariant counts == SumTallies(CountsOfSummaries(ws)[..k])
      invariant IsLeastOnset(OnsetsOfSummaries(ws)[..k], onset)
      invariant finished == |FinishedAmong(ws, k)|
    {
      FinishedMore(ws, k);
      TotalsMore(ws, k, onset);
      if ws[k].finished {
        finished := finished + 1;
      }
      counts := counts.Plus(ws[k].counts);
      onset := EarlierOnset(onset, ws[k].onset);
    }
    FinishedWithin(ws, |ws|);
    assert CountsOfSummaries(ws)[..|ws|] == CountsOfSummaries(ws);
    assert OnsetsOfSummaries(ws)[..|ws|] == OnsetsOfSummaries(ws);
    r := Report(|ws|, finished, if aborted then 0 else |ws| - finished, counts, onset);
  }

  // ---- the report against the aggregator ----

  /** No worker has delivered more than its stream holds. */
  predicate WithinStreams(streams: seq<seq<Partial>>, taken: seq<nat>) {
    |streams| == |taken| && forall w :: 0 <= w < |streams| ==> taken[w] <= |streams[w]|
  }

  /** Counts delivered by each worker when worker w has delivered taken[w] messages. */
  function Delivered(streams: seq<seq<Partial>>, taken: seq<nat>): seq<Tally>
    requires WithinStreams(streams, taken)
  {
    seq(|streams|, w requires 0 <= w < |streams| => StreamTotal(streams[w], taken[w]))
  }

  function TakenBy(streams: seq<seq<Partial>>, order: seq<nat>): seq<nat> {
    seq(|streams|, w requires 0 <= w < |streams| => Taken(order, w))
  }

  lemma DeliveredStep(streams: seq<seq<Partial>>, taken: seq<nat>, w: nat, f: Field)
    requires WithinStreams(streams, taken) && w < |streams| && taken[w] < |streams[w]|
    ensures WithinStreams(streams, taken[w := taken[w] + 1])
    ensures Sum(Delivered(streams, taken[w := taken[w] + 1]), f) ==
            Sum(Delivered(streams, taken), f) + SumTallies(streams[w][taken[w]].buckets).Get(f)
  {
    var was, next := Delivered(streams, taken), Delivered(streams, taken[w := taken[w] + 1]);
    assert next == was[w := next[w]];
    SumUpdate(was, w, next[w], f);
    StreamTotalGets(streams[w], taken[w], f);
  }

  lemma {:induction false} TakenWithin(streams: seq<seq<Partial>>, order: seq<nat>)
    requires Interleaves(streams, order)
    ensures forall w :: 0 <= w < |streams| ==> Taken(order, w) <= |streams[w]|
  {
    if order != [] {
      var k := |order| - 1;
      InterleavesPrefix(streams, order, k);
      TakenWithin(streams, order[..k]);
    }
  }

  lemma ReceivedGets(streams: seq<seq<Partial>>, order: seq<nat>, f: Field)
    requires Interleaves(streams, order) && order != []
    ensures var k := |order| - 1;
            Interleaves(streams, order[..k])
            && Received(streams, order).Get(f) ==
                 Received(streams, order[..k]).Get(f)
                 + SumTallies(streams[order[k]][Taken(order[..k], order[k])].buckets).Get(f)
  {
    var k := |order| - 1;
    InterleavesPrefix(streams, order, k);
    PlusGets(Received(streams, order[..k]), SumTallies(streams[order[k]][Taken(order[..k], order[k])].buckets), f);
  }

  lemma NothingDelivered(streams: seq<seq<Partial>>, taken: seq<nat>, f: Field)
    requires |streams| == |taken| && forall w :: 0 <= w < |taken| ==> taken[w] == 0
    ensures WithinStreams(streams, taken)
    ensures Sum(Delivered(streams, taken), f) == 0
  {
    var d := Delivered(streams, taken);
    ZeroGets(f);
    assert forall w :: 0 <= w < |streams| ==> d[w] == ZERO;
    SumOfZeros(d, f);
  }

  lemma TakenByMore(streams: seq<seq<Partial>>, order: seq<nat>)
    requires order != [] && order[|order| - 1] < |streams|
    ensures var before, w := TakenBy(streams, order[..|order| - 1]), order[|order| - 1];
            TakenBy(streams, order) == before[w := before[w] + 1]
  {
  }

  lemma ReceivedMore(streams: seq<seq<Partial>>, order: seq<nat>, f: Field)
    requires Interleaves(streams, order) && order != [] && Interleaves(streams, order[..|order| - 1])
    requires WithinStreams(streams, TakenBy(streams, order))
    requires WithinStreams(streams, TakenBy(streams, order[..|order| - 1]))
    requires Received(streams, order[..|order| - 1]).Get(f) ==
             Sum(Delivered(streams, TakenBy(streams, order[..|order| - 1])), f)
    ensures Received(streams, order).Get(f) == Sum(Delivered(streams, TakenBy(streams, order)), f)
  {
    var init, w := order[..|order| - 1], order[|order| - 1];
    var taken := TakenBy(streams, init);
    assert taken[w] == Taken(init, w);
    var more := SumTallies(streams[w][taken[w]].buckets).Get(f);
    assert Received(streams, order).Get(f) == Received(streams, init).Get(f) + more by {
      ReceivedGets(streams, order, f);
    }
    assert Sum(Delivered(streams, TakenBy(streams, order)), f) == Sum(Delivered(streams, taken), f) + more by {
      TakenByMore(streams, order);
      DeliveredStep(streams, taken, w, f);
    }
  }

  /** What the aggregator has received is what the workers have delivered. */
  lemma {:induction false} ReceivedIsDelivered(streams: seq<seq<Partial>>, order: seq<nat>, f: Field)
    requires Interleaves(streams, order)
    ensures WithinStreams(streams, TakenBy(streams, order))
    ensures Received(streams, order).Get(f) == Sum(Delivered(streams, TakenBy(streams, order)), f)
  {
    TakenWithin(streams, order);
    if order == [] {
      ZeroGets(f);
      NothingDelivered(streams, TakenBy(streams, []), f);
    } else {
      InterleavesPrefix(streams, order, |order| - 1);
      ReceivedIsDelivered(streams, order[..|order| - 1], f);
      ReceivedMore(streams, order, f);
    }
  }

  lemma {:induction false} StreamTotalMono(st: seq<Partial>, j: nat, k: nat, f: Field)
    requires j <= k <= |st|
    ensures StreamTotal(st, j).Get(f) <= StreamTotal(st, k).Get(f)
  {
    if j < k {
      StreamTotalMono(st, j, k - 1, f);
      StreamTotalGets(st, k - 1, f);
    }
  }

  ghost predicate SummariesOf(streams: seq<seq<Partial>>, ws: seq<WorkerSummary>) {
    |ws| == |streams| && forall w :: 0 <= w < |ws| ==> ws[w].counts == StreamTotal(streams[w], |streams[w]|)
  }

  lemma DeliveredAtMostSummary(streams: seq<seq<Partial>>, taken: seq<nat>, ws: seq<WorkerSummary>, f: Field)
    requires WithinStreams(streams, taken) && SummariesOf(streams, ws)
    ensures Sum(Delivered(streams, taken), f) <= Sum(CountsOfSummaries(ws), f)
    ensures (forall w :: 0 <= w < |streams| ==> taken[w] == |streams[w]|) ==>
              Sum(Delivered(streams, taken), f) == Sum(CountsOfSummaries(ws), f)
  {
    var now, all := Delivered(streams, taken), CountsOfSummaries(ws);
    forall w | 0 <= w < |streams|
      ensures now[w].Get(f) <= all[w].Get(f)
    {
      StreamTotalMono(streams[w], taken[w], |streams[w]|, f);
    }
    SumMono(now, all, f);
    if forall w :: 0 <= w < |streams| ==> taken[w] == |streams[w]| {
      assert now == all;
    }
  }

  lemma HeldGets(s: State, f: Field)
    ensures Held(s).Get(f) == EmittedCounts(s.emitted).Get(f) + ParkedSum(s.parked, s.parked.Keys).Get(f)
  {
    PlusGets(EmittedCounts(s.emitted), ParkedSum(s.parked, s.parked.Keys), f);
  }

  lemma DeliveredAtMostTotal(streams: seq<seq<Partial>>, order: seq<nat>, ws: seq<WorkerSummary>, f: Field)
    requires Interleaves(streams, order) && SummariesOf(streams, ws)
    ensures Received(streams, order).Get(f) <= SumTallies(CountsOfSummaries(ws)).Get(f)
    ensures Complete(streams, order) ==> Received(streams, order).Get(f) == SumTallies(CountsOfSummaries(ws)).Get(f)
  {
    ReceivedIsDelivered(streams, order, f);
    DeliveredAtMostSummary(streams, TakenBy(streams, order), ws, f);
    SumIsFieldwise(CountsOfSummaries(ws), f);
  }

  /** If the aggregator heard every worker out, the report's totals are the emitted ticks' plus
      whatever stayed parked; if an abort stopped it earlier, they are at least the emitted totals.
      The running totals, and the last emitted tick, carry exactly the emitted share. */
  lemma ReportAccountsForTicks(streams: seq<seq<Partial>>, order: seq<nat>, ws: seq<WorkerSummary>, f: Field)
    requires Fleet(streams) && Interleaves(streams, order) && SummariesOf(streams, ws)
    ensures Totalled(After(streams, order))
    ensures EmittedCounts(After(streams, order).emitted).Get(f) <= SumTallies(CountsOfSummaries(ws)).Get(f)
    ensures Complete(streams, order) ==>
              var s := After(streams, order);
              SumTallies(CountsOfSummaries(ws)).Get(f) ==
                EmittedCounts(s.emitted).Get(f) + ParkedSum(s.parked, s.parked.Keys).Get(f)
  {
    AggregationConserves(streams, order);
    HeldGets(After(streams, order), f);
    DeliveredAtMostTotal(streams, order, ws, f);
  }

  // ---- from the workers' counters to the fleet's ticks ----

  /** A stream made of a worker's ticks; it may break off early. */
  ghost predicate StreamOf(snaps: seq<Snapshot>, st: seq<Partial>) {
    && |st| <= |snaps| + 1
    && (forall k :: 0 <= k < |st| && k < |snaps| ==> st[k] == PartialFromTick(k + 1, TickAt(snaps, k)))
    && (|st| == |snaps| + 1 ==> st[|snaps|] == EmptyFinal(|snaps| + 1))
  }

  lemma StreamIsNumbered(snaps: seq<Snapshot>, st: seq<Partial>)
    requires StreamOf(snaps, st)
    ensures Numbered(st) && Regular(st) <= |snaps|
  {
  }

  lemma OneBucket(t: Tally)
    ensures SumTallies([t]) == t
  {
    assert [t][..0] == [];
  }

  lemma StreamedDifference(snaps: seq<Snapshot>, st: seq<Partial>, k: nat)
    requires StreamOf(snaps, st) && k < |st| && k < |snaps|
    ensures SumTallies(st[k].buckets) == snaps[k].counts.Minus(Previous(CountsOf(snaps), k))
  {
    assert st[k].buckets == [TickAt(snaps, k).thisTick];
    OneBucket(TickAt(snaps, k).thisTick);
  }

  lemma StreamedDifferences(snaps: seq<Snapshot>, st: seq<Partial>, k: nat, totals: seq<Tally>, deltas: seq<Tally>)
    requires StreamOf(snaps, st) && Monotone(snaps) && k <= |st| && k <= |snaps|
    requires totals == CountsOf(snaps)[..k] && deltas == BucketSums(st)[..k]
    ensures Differences(totals, deltas)
  {
    forall j | 0 <= j < k
      ensures DifferenceAt(totals, deltas, j)
    {
      assert Previous(totals, j) == Previous(CountsOf(snaps), j);
      assert MonotoneAt(snaps, j);
      StreamedDifference(snaps, st, j);
    }
  }

  /** The counts a worker has streamed are its counters at the last snapshot streamed. */
  lemma StreamTotalIsSnapshot(snaps: seq<Snapshot>, st: seq<Partial>, k: nat)
    requires StreamOf(snaps, st) && Monotone(snaps) && k <= |st| && k <= |snaps|
    ensures StreamTotal(st, k) == Previous(CountsOf(snaps), k)
  {
    var totals, deltas := CountsOf(snaps)[..k], BucketSums(st)[..k];
    StreamedDifferences(snaps, st, k, totals, deltas);
    DifferencesTelescope(totals, deltas, k);
    assert deltas[..k] == deltas;
  }

  /** Each worker's counters as of its m-th snapshot. */
  function CountersAt(snaps: seq<seq<Snapshot>>, m: nat): seq<Tally>
    requires forall w :: 0 <= w < |snaps| ==> m <= |snaps[w]|
  {
    seq(|snaps|, w requires 0 <= w < |snaps| => Previous(CountsOf(snaps[w]), m))
  }

  function All(n: nat, m: nat): seq<nat> { seq(n, i => m) }

  lemma OneMoreTick(streams: seq<seq<Partial>>, m: nat, f: Field)
    requires m > 0 && AllHave(streams, m)
    ensures Sum(Delivered(streams, All(|streams|, m)), f) ==
            Sum(Delivered(streams, All(|streams|, m - 1)), f) + Sum(TickCounts(streams, m), f)
  {
    var next, was := Delivered(streams, All(|streams|, m)), Delivered(streams, All(|streams|, m - 1));
    var now := TickCounts(streams, m);
    forall w | 0 <= w < |streams|
      ensures next[w].Get(f) == was[w].Get(f) + now[w].Get(f)
    {
      StreamTotalGets(streams[w], m - 1, f);
    }
    SumPairs(was, now, next, f);
  }

  lemma CumulativeGets(streams: seq<seq<Partial>>, m: nat, f: Field)
    requires m > 0 && AllHave(streams, m)
    ensures Cumulative(streams, m).Get(f) == Cumulative(streams, m - 1).Get(f) + Sum(TickCounts(streams, m), f)
  {
    TickShareByWorker(streams, m);
    PlusGets(Cumulative(streams, m - 1), TickShare(streams, m).counts, f);
    SumIsFieldwise(TickCounts(streams, m), f);
  }

  lemma {:induction false} CumulativeByWorker(streams: seq<seq<Partial>>, m: nat, f: Field)
    requires AllHave(streams, m)
    ensures Cumulative(streams, m).Get(f) == Sum(Delivered(streams, All(|streams|, m)), f)
  {
    if m == 0 {
      ZeroGets(f);
      NothingDelivered(streams, All(|streams|, 0), f);
    } else {
      CumulativeByWorker(streams, m - 1, f);
      CumulativeGets(streams, m, f);
      OneMoreTick(streams, m, f);
    }
  }

  ghost predicate WorkersStream(snaps: seq<seq<Snapshot>>, streams: seq<seq<Partial>>) {
    && |snaps| == |streams| > 0
    && forall w :: 0 <= w < |streams| ==> StreamOf(snaps[w], streams[w]) && Monotone(snaps[w])
  }

  /** Every worker has m ticks. */
  ghost predicate AllTick(streams: seq<seq<Partial>>, m: nat) {
    forall w :: 0 <= w < |streams| ==> m <= Regular(streams[w])
  }

  lemma TicksAreThere(snaps: seq<seq<Snapshot>>, streams: seq<seq<Partial>>, m: nat)
    requires WorkersStream(snaps, streams) && AllTick(streams, m)
    ensures AllHave(streams, m) && forall w :: 0 <= w < |snaps| ==> m <= |snaps[w]|
  {
    forall w | 0 <= w < |snaps|
      ensures m <= |snaps[w]|
    {
      StreamIsNumbered(snaps[w], streams[w]);
    }
  }

  lemma TotalsAreCounters(snaps: seq<seq<Snapshot>>, streams: seq<seq<Partial>>, m: nat)
    requires WorkersStream(snaps, streams) && AllTick(streams, m)
    ensures AllHave(streams, m) && forall w :: 0 <= w < |snaps| ==> m <= |snaps[w]|
    ensures Delivered(streams, All(|streams|, m)) == CountersAt(snaps, m)
  {
    TicksAreThere(snaps, streams, m);
    forall w | 0 <= w < |streams|
      ensures Delivered(streams, All(|streams|, m))[w] == CountersAt(snaps, m)[w]
    {
      StreamTotalIsSnapshot(snaps[w], streams[w], m);
    }
  }

  lemma StreamsAreFleet(snaps: seq<seq<Snapshot>>, streams: seq<seq<Partial>>)
    requires WorkersStream(snaps, streams)
    ensures Fleet(streams)
  {
    forall w | 0 <= w < |streams|
      ensures Numbered(streams[w])
    {
      StreamIsNumbered(snaps[w], streams[w]);
    }
  }

  lemma ShortestIsCommon(streams: seq<seq<Partial>>)
    requires Fleet(streams)
    ensures AllTick(streams, Shortest(streams))
  {
    var regular := seq(|streams|, w requires 0 <= w < |streams| => Regular(streams[w]));
    LeastIsLeast(regular);
    forall w | 0 <= w < |streams|
      ensures Shortest(streams) <= Regular(streams[w])
    {
      assert regular[w] == Regular(streams[w]);
    }
  }

  ghost predicate Shows(tick: AggTick, live: seq<Tally>) {
    && tick.completedTotal == Sum(live, Completed)
    && tick.passTotal == Sum(live, Of(Pass))
    && tick.failStatusTotal == Sum(live, Of(FailStatus))
  }

  lemma TickTotals(streams: seq<seq<Partial>>, m: nat, share: Share)
    requires AllHave(streams, m + 1) && share == TickShare(streams, m + 1)
    ensures var tick, c := Emit(m + 1, share, Visible(Cumulative(streams, m))), Cumulative(streams, m + 1);
            && tick.completedTotal == c.Get(Completed)
            && tick.passTotal == c.Get(Of(Pass))
            && tick.failStatusTotal == c.Get(Of(FailStatus))
  {
  }

  /** End to end: whatever the interleaving, the totals in the fleet's i-th tick are the sums over
      the workers of their live counters at their own i-th snapshots. */
  lemma FleetTicksShowCounters(snaps: seq<seq<Snapshot>>, streams: seq<seq<Partial>>, order: seq<nat>, i: nat)
    requires WorkersStream(snaps, streams) && Interleaves(streams, order) && Complete(streams, order)
    requires i < Shortest(streams)
    ensures forall w :: 0 <= w < |snaps| ==> i < |snaps[w]|
    ensures i < |After(streams, order).emitted|
    ensures Shows(After(streams, order).emitted[i], CountersAt(snaps, i + 1))
  {
    StreamsAreFleet(snaps, streams);
    EmitsEveryCommonTick(streams, order);
    ShortestIsCommon(streams);
    FleetTicksShape(streams, Shortest(streams));
    TotalsAreCounters(snaps, streams, i + 1);
    TickTotals(streams, i, TickShare(streams, i + 1));
    CumulativeByWorker(streams, i + 1, Completed);
    CumulativeByWorker(streams, i + 1, Of(Pass));
    CumulativeByWorker(streams, i + 1, Of(FailStatus));
  }
}
