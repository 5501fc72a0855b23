/** What each tick of a fleet carries, field by field, in terms of what its workers sent and of what
    they had counted and recorded. */
module TickContents {
  import opened Sequences
  import opened Verdicts
  import opened Histogram
  import opened TickEmitter
  import opened Aggregation
  import opened FleetStreams
  import opened DispatchSummary

  // ---- a tick's share, worker by worker ----

  function Added(xs: seq<nat>): nat { if xs == [] then 0 else Added(xs[..|xs| - 1]) + xs[|xs| - 1] }

  /** The samples of the workers that sent any, one worker after the other. */
  function Sent(parts: seq<Option<seq<nat>>>): seq<nat> {
    if parts == [] then []
    else Sent(parts[..|parts| - 1]) + if parts[|parts| - 1].Some? then parts[|parts| - 1].value else []
  }

  /** A histogram of exactly these workers' samples; none if no worker sent one. */
  ghost predicate Pools(l: Layout, parts: seq<Option<seq<nat>>>, h: Option<Counts>) {
    match h
    case None => forall w :: 0 <= w < |parts| ==> parts[w].None?
    case Some(counts) =>
      && (exists w :: 0 <= w < |parts| && parts[w].Some?)
      && forall pooled: seq<nat> :: multiset(pooled) == multiset(Sent(parts)) ==> counts == HistOf(l, pooled)
  }

  ghost predicate Holds(l: Layout, part: Option<seq<nat>>, h: Option<Counts>) {
    match part
    case None => h.None?
    case Some(samples) => h == Some(HistOf(l, samples))
  }

  function Rates(ps: seq<Partial>): seq<nat> { seq(|ps|, w requires 0 <= w < |ps| => ps[w].rps) }

  function Onsets(ps: seq<Partial>): seq<Option<real>> { seq(|ps|, w requires 0 <= w < |ps| => ps[w].onset) }

  /** What a share is of: the partials that worker after worker sent for the tick. */
  ghost predicate Combines(
    l: Layout, ps: seq<Partial>, cs: seq<Option<seq<nat>>>, us: seq<Option<seq<nat>>>, s: Share)
  {
    && s.rps == Added(Rates(ps)) && IsLeastOnset(Onsets(ps), s.onset)
    && Pools(l, cs, s.corrected) && Pools(l, us, s.uncorrected)
  }

  /** The partial's histograms are of these samples, where it ships any. */
  ghost predicate Ships(l: Layout, p: Partial, c: Option<seq<nat>>, u: Option<seq<nat>>) {
    Holds(l, c, p.corrected) && Holds(l, u, p.uncorrected)
  }

  lemma SentMore(parts: seq<Option<seq<nat>>>, part: Option<seq<nat>>)
    ensures Sent(parts + [part]) == Sent(parts) + if part.Some? then part.value else []
  {
    Grown(parts, part);
  }

  ghost predicate Nobody(parts: seq<Option<seq<nat>>>) { forall w :: 0 <= w < |parts| ==> parts[w].None? }

  ghost predicate Merged(l: Layout, parts: seq<Option<seq<nat>>>, h: Option<Counts>) {
    if Nobody(parts) then h.None? && Sent(parts) == [] else h == Some(HistOf(l, Sent(parts)))
  }

  lemma NobodyMore(parts: seq<Option<seq<nat>>>, part: Option<seq<nat>>)
    ensures Nobody(parts + [part]) <==> Nobody(parts) && part.None?
  {
    var all := parts + [part];
    assert all[|parts|] == part && forall w :: 0 <= w < |parts| ==> all[w] == parts[w];
  }

  lemma MergedMore(
    l: Layout, parts: seq<Option<seq<nat>>>, h: Option<Counts>, part: Option<seq<nat>>, next: Option<Counts>)
    requires Merged(l, parts, h) && Holds(l, part, next)
    ensures Merged(l, parts + [part], MergeSome(h, next))
  {
    NobodyMore(parts, part);
    SentMore(parts, part);
    if part.Some? {
      NothingMore(part.value);
      PooledTwo(l, Sent(parts), part.value);
    } else {
      NothingMore(Sent(parts));
    }
  }

  lemma MergedPools(l: Layout, parts: seq<Option<seq<nat>>>, h: Option<Counts>)
    requires Merged(l, parts, h)
    ensures Pools(l, parts, h)
  {
    forall pooled: seq<nat> | multiset(pooled) == multiset(Sent(parts))
      ensures HistOf(l, pooled) == HistOf(l, Sent(parts))
    {
      OrderIrrelevant(l, pooled, Sent(parts));
    }
  }

  /** The same for the first k workers, as their partials are folded in. */
  ghost predicate Combined(
    l: Layout, ps: seq<Partial>, cs: seq<Option<seq<nat>>>, us: seq<Option<seq<nat>>>, s: Share, k: nat)
    requires k <= |ps| == |cs| == |us|
  {
    && s.rps == Added(Rates(ps)[..k]) && IsLeastOnset(Onsets(ps)[..k], s.onset)
    && Merged(l, cs[..k], s.corrected) && Merged(l, us[..k], s.uncorrected)
  }

  lemma CombinedMore(
    l: Layout, ps: seq<Partial>, cs: seq<Option<seq<nat>>>, us: seq<Option<seq<nat>>>, s: Share, k: nat)
    requires k < |ps| == |cs| == |us| && Combined(l, ps, cs, us, s, k) && Ships(l, ps[k], cs[k], us[k])
    ensures Combined(l, ps, cs, us, Combine(s, ShareOf(ps[k])), k + 1)
  {
    PrefixMore(Rates(ps), k);
    PrefixMore(Onsets(ps), k);
    PrefixMore(cs, k);
    PrefixMore(us, k);
    LeastOnsetMore(Onsets(ps)[..k], s.onset, ps[k].onset);
    MergedMore(l, cs[..k], s.corrected, cs[k], ps[k].corrected);
    MergedMore(l, us[..k], s.uncorrected, us[k], ps[k].uncorrected);
  }

  lemma {:induction false} FoldCombines(
    l: Layout, full: map<nat, Partial>, ps: seq<Partial>, cs: seq<Option<seq<nat>>>, us: seq<Option<seq<nat>>>,
    k: nat)
    requires k <= |ps| == |cs| == |us| && Firsts(k) <= full.Keys
    requires forall w: nat :: w < k ==> full[w] == ps[w] && Ships(l, ps[w], cs[w], us[w])
    ensures Combined(l, ps, cs, us, Fold(full, Firsts(k)), k)
  {
    if k == 0 {
      assert Firsts(0) == {};
    } else {
      FoldCombines(l, full, ps, cs, us, k - 1);
      FoldNext(full, k - 1);
      CombinedMore(l, ps, cs, us, Fold(full, Firsts(k - 1)), k - 1);
    }
  }

  /** What the workers sent for tick t. */
  function SentFor(streams: seq<seq<Partial>>, t: nat): seq<Partial>
    requires t > 0 && AllHave(streams, t)
  {
    seq(|streams|, w requires 0 <= w < |streams| => streams[w][t - 1])
  }

  /** Every worker has sent its partial for tick t, with histograms of these samples if any. */
  ghost predicate AllShip(
    l: Layout, streams: seq<seq<Partial>>, t: nat, cs: seq<Option<seq<nat>>>, us: seq<Option<seq<nat>>>)
  {
    && t > 0 && AllHave(streams, t) && |streams| == |cs| == |us|
    && forall w :: 0 <= w < |streams| ==> Ships(l, streams[w][t - 1], cs[w], us[w])
  }

  lemma CombinedWhole(l: Layout, ps: seq<Partial>, cs: seq<Option<seq<nat>>>, us: seq<Option<seq<nat>>>, s: Share)
    requires |ps| == |cs| == |us| && Combined(l, ps, cs, us, s, |ps|)
    ensures Combines(l, ps, cs, us, s)
  {
    WholePrefix(Rates(ps));
    WholePrefix(Onsets(ps));
    WholePrefix(cs);
    WholePrefix(us);
    MergedPools(l, cs, s.corrected);
    MergedPools(l, us, s.uncorrected);
  }

  lemma TickShareCombines(
    l: Layout, streams: seq<seq<Partial>>, t: nat, cs: seq<Option<seq<nat>>>, us: seq<Option<seq<nat>>>)
    requires AllShip(l, streams, t, cs, us)
    ensures Combines(l, SentFor(streams, t), cs, us, TickShare(streams, t))
  {
    var full := map w: nat | w < |streams| :: streams[w][t - 1];
    var ps := SentFor(streams, t);
    assert full.Keys == Firsts(|streams|);
    FoldCombines(l, full, ps, cs, us, |ps|);
    CombinedWhole(l, ps, cs, us, TickShare(streams, t));
  }

  // ---- the emitted tick ----

  /** A tick whose rate is the sum of the workers', on an axis of steps of ten; whose onset is the
      least of theirs; and whose two histograms are of their samples, each of its own kind. */
  ghost predicate Carries(
    l: Layout, ps: seq<Partial>, cs: seq<Option<seq<nat>>>, us: seq<Option<seq<nat>>>, tick: AggTick)
  {
    && tick.achievedRps == Added(Rates(ps))
    && tick.rpsLo % 10 == 0 && tick.rpsLo <= tick.achievedRps < tick.rpsLo + 10
    && IsLeastOnset(Onsets(ps), tick.onset)
    && Pools(l, cs, tick.corrected) && Pools(l, us, tick.uncorrected)
  }

  lemma EmitCarries(
    l: Layout, ps: seq<Partial>, cs: seq<Option<seq<nat>>>, us: seq<Option<seq<nat>>>,
    t: nat, share: Share, before: Tally)
    requires Combines(l, ps, cs, us, share)
    ensures Carries(l, ps, cs, us, Emit(t, share, before))
  {
  }

  lemma EmittedIs(streams: seq<seq<Partial>>, order: seq<nat>, i: nat)
    requires Fleet(streams) && Interleaves(streams, order) && i < |After(streams, order).emitted|
    ensures AllHave(streams, i + 1)
    ensures After(streams, order).emitted[i] ==
            Emit(i + 1, TickShare(streams, i + 1), Visible(Cumulative(streams, i)))
    ensures forall w :: 0 <= w < |streams| ==> i < Regular(streams[w])
  {
    StateIsDetermined(streams, order);
    var got := Got(streams, order);
    LeastIsLeast(got);
    FleetTicksShape(streams, FleetStreams.Least(got));
    forall w | 0 <= w < |streams|
      ensures i < Regular(streams[w])
    {
      assert FleetStreams.Least(got) <= got[w];
    }
  }

  /** In every interleaving, complete or not, the i-th tick emitted carries what the workers'
      partials of that tick carry together. */
  lemma EmittedTickCarries(
    l: Layout, streams: seq<seq<Partial>>, order: seq<nat>, i: nat,
    cs: seq<Option<seq<nat>>>, us: seq<Option<seq<nat>>>)
    requires Fleet(streams) && Interleaves(streams, order) && i < |After(streams, order).emitted|
    requires AllShip(l, streams, i + 1, cs, us)
    ensures Carries(l, SentFor(streams, i + 1), cs, us, After(streams, order).emitted[i])
  {
    EmittedIs(streams, order, i);
    TickShareCombines(l, streams, i + 1, cs, us);
    EmitCarries(l, SentFor(streams, i + 1), cs, us, i + 1, TickShare(streams, i + 1),
                Visible(Cumulative(streams, i)));
  }

  // ---- from the workers' snapshots to the emitted tick ----

  /** Every worker's i-th snapshot is of these samples. */
  ghost predicate Recorded(
    l: Layout, snaps: seq<seq<Snapshot>>, i: nat, cs: seq<seq<nat>>, us: seq<seq<nat>>)
  {
    && |cs| == |us| == |snaps|
    && forall w :: 0 <= w < |snaps| ==>
         i < |snaps[w]| && snaps[w][i].corrected == HistOf(l, cs[w]) && snaps[w][i].uncorrected == HistOf(l, us[w])
  }

  function Somes(parts: seq<seq<nat>>): seq<Option<seq<nat>>> {
    seq(|parts|, w requires 0 <= w < |parts| => Some(parts[w]))
  }

  lemma {:induction false} SomesSent(parts: seq<seq<nat>>)
    ensures Sent(Somes(parts)) == Concat(parts)
  {
    if parts != [] {
      var k := |parts| - 1;
      SomesSent(parts[..k]);
      assert Somes(parts)[..k] == Somes(parts[..k]);
    }
  }

  lemma {:induction false} AddedIsSum(xs: seq<nat>, ts: seq<Tally>, f: Field)
    requires |xs| == |ts| && forall w :: 0 <= w < |xs| ==> xs[w] == ts[w].Get(f)
    ensures Added(xs) == Sum(ts, f)
  {
    if xs != [] {
      AddedIsSum(xs[..|xs| - 1], ts[..|xs| - 1], f);
    }
  }

  function OnsetsAt(snaps: seq<seq<Snapshot>>, i: nat): seq<Option<real>>
    requires forall w :: 0 <= w < |snaps| ==> i < |snaps[w]|
  {
    seq(|snaps|, w requires 0 <= w < |snaps| => snaps[w][i].onset)
  }

  lemma StreamsShip(
    l: Layout, snaps: seq<seq<Snapshot>>, streams: seq<seq<Partial>>, i: nat, cs: seq<seq<nat>>, us: seq<seq<nat>>)
    requires WorkersStream(snaps, streams) && AllHave(streams, i + 1) && Recorded(l, snaps, i, cs, us)
    ensures AllShip(l, streams, i + 1, Somes(cs), Somes(us))
    ensures Onsets(SentFor(streams, i + 1)) == OnsetsAt(snaps, i)
    ensures forall w :: 0 <= w < |streams| ==>
              streams[w][i].rps == SumTallies(streams[w][i].buckets).Get(Completed)
  {
    forall w | 0 <= w < |streams|
      ensures streams[w][i] == PartialFromTick(i + 1, TickAt(snaps[w], i))
      ensures streams[w][i].rps == SumTallies(streams[w][i].buckets).Get(Completed)
    {
      StreamedDifference(snaps[w], streams[w], i);
    }
  }

  /** The i-th tick against the snapshots it was made of. */
  ghost predicate ShowsSnapshots(
    l: Layout, snaps: seq<seq<Snapshot>>, i: nat, cs: seq<seq<nat>>, us: seq<seq<nat>>, tick: AggTick)
    requires Recorded(l, snaps, i, cs, us)
  {
    && tick.elapsedS == i + 1 && tick.achievedRps == tick.thisTick.completed
    && IsLeastOnset(OnsetsAt(snaps, i), tick.onset)
    && (forall pooled: seq<nat> :: multiset(pooled) == multiset(Concat(cs)) ==>
          tick.corrected == Some(HistOf(l, pooled)))
    && (forall pooled: seq<nat> :: multiset(pooled) == multiset(Concat(us)) ==>
          tick.uncorrected == Some(HistOf(l, pooled)))
    && (forall f: Field ::
          Sum(CountersAt(snaps, i), f) + tick.thisTick.Get(f) == Sum(CountersAt(snaps, i + 1), f))
  }

  lemma TickCountsDiffer(snaps: seq<seq<Snapshot>>, streams: seq<seq<Partial>>, i: nat, f: Field)
    requires WorkersStream(snaps, streams) && AllTick(streams, i + 1)
    ensures AllHave(streams, i + 1) && forall w :: 0 <= w < |snaps| ==> i < |snaps[w]|
    ensures Sum(CountersAt(snaps, i), f) + TickShare(streams, i + 1).counts.Get(f) ==
            Sum(CountersAt(snaps, i + 1), f)
  {
    TotalsAreCounters(snaps, streams, i);
    TotalsAreCounters(snaps, streams, i + 1);
    CumulativeByWorker(streams, i, f);
    CumulativeByWorker(streams, i + 1, f);
    CumulativeGets(streams, i + 1, f);
    TickShareByWorker(streams, i + 1);
    SumIsFieldwise(TickCounts(streams, i + 1), f);
  }

  lemma RateIsCompleted(streams: seq<seq<Partial>>, t: nat)
    requires t > 0 && AllHave(streams, t)
    requires forall w :: 0 <= w < |streams| ==>
               streams[w][t - 1].rps == SumTallies(streams[w][t - 1].buckets).Get(Completed)
    ensures Added(Rates(SentFor(streams, t))) == TickShare(streams, t).counts.completed
  {
    TickShareByWorker(streams, t);
    SumIsFieldwise(TickCounts(streams, t), Completed);
    AddedIsSum(Rates(SentFor(streams, t)), TickCounts(streams, t), Completed);
  }

  lemma PoolsConcat(l: Layout, parts: seq<seq<nat>>, h: Option<Counts>, pooled: seq<nat>)
    requires parts != [] && Pools(l, Somes(parts), h) && multiset(pooled) == multiset(Concat(parts))
    ensures h == Some(HistOf(l, pooled))
  {
    SomesSent(parts);
    assert Somes(parts)[0].Some?;
  }

  lemma CarriedShows(
    l: Layout, snaps: seq<seq<Snapshot>>, i: nat, cs: seq<seq<nat>>, us: seq<seq<nat>>,
    ps: seq<Partial>, tick: AggTick)
    requires snaps != [] && Recorded(l, snaps, i, cs, us) && Carries(l, ps, Somes(cs), Somes(us), tick)
    requires tick.elapsedS == i + 1 && Added(Rates(ps)) == tick.thisTick.completed
    requires Onsets(ps) == OnsetsAt(snaps, i)
    requires forall f: Field ::
               Sum(CountersAt(snaps, i), f) + tick.thisTick.Get(f) == Sum(CountersAt(snaps, i + 1), f)
    ensures ShowsSnapshots(l, snaps, i, cs, us, tick)
  {
    forall pooled: seq<nat> | multiset(pooled) == multiset(Concat(cs))
      ensures tick.corrected == Some(HistOf(l, pooled))
    {
      PoolsConcat(l, cs, tick.corrected, pooled);
    }
    forall pooled: seq<nat> | multiset(pooled) == multiset(Concat(us))
      ensures tick.uncorrected == Some(HistOf(l, pooled))
    {
      PoolsConcat(l, us, tick.uncorrected, pooled);
    }
  }

  /** Half and half is the whole, end to end: the i-th tick of a fleet carries the two histograms of
      all workers' samples pooled in any order, the least of their onsets, and of every counter
      what it has gained over all workers since their snapshots before. */
  lemma FleetTickIsWhole(
    l: Layout, snaps: seq<seq<Snapshot>>, streams: seq<seq<Partial>>, order: seq<nat>, i: nat,
    cs: seq<seq<nat>>, us: seq<seq<nat>>)
    requires WorkersStream(snaps, streams) && Interleaves(streams, order)
    requires i < |After(streams, order).emitted| && Recorded(l, snaps, i, cs, us)
    ensures ShowsSnapshots(l, snaps, i, cs, us, After(streams, order).emitted[i])
  {
    StreamsAreFleet(snaps, streams);
    EmittedIs(streams, order, i);
    StreamsShip(l, snaps, streams, i, cs, us);
    EmittedTickCarries(l, streams, order, i, Somes(cs), Somes(us));
    RateIsCompleted(streams, i + 1);
    forall f: Field
      ensures Sum(CountersAt(snaps, i), f) + TickShare(streams, i + 1).counts.Get(f) ==
              Sum(CountersAt(snaps, i + 1), f)
    {
      TickCountsDiffer(snaps, streams, i, f);
    }
    CarriedShows(l, snaps, i, cs, us, SentFor(streams, i + 1), After(streams, order).emitted[i]);
  }

  /** A worker's stream, from its snapshots on. */
  method StreamSnapshots(snaps: seq<Snapshot>) returns (st: seq<Partial>)
    ensures StreamOf(snaps, st) && |st| == |snaps| + 1
  {
    var ticks := EmitTicks(snaps);
    st := RunSlice(ticks);
  }

  // ---- how many ticks a fleet emits ----

  /** The ticks in a stream. */
  ghost function TicksIn(st: seq<Partial>): set<nat> { set k: nat | k < |st| && !st[k].final }

  lemma {:induction false} FirstsCount(k: nat)
    ensures |Firsts(k)| == k
  {
    if k > 0 {
      FirstsCount(k - 1);
    }
  }

  lemma RegularCounts(st: seq<Partial>)
    requires Numbered(st)
    ensures |TicksIn(st)| == Regular(st)
  {
    assert TicksIn(st) == Firsts(Regular(st));
    FirstsCount(Regular(st));
  }

  /** A fleet heard out emits as many ticks as the worker with the fewest sent. */
  lemma FleetTicksAreCommon(streams: seq<seq<Partial>>, order: seq<nat>)
    requires Fleet(streams) && Interleaves(streams, order) && Complete(streams, order)
    ensures var n := |After(streams, order).emitted|;
            && (forall w :: 0 <= w < |streams| ==> n <= |TicksIn(streams[w])|)
            && (exists w :: 0 <= w < |streams| && n == |TicksIn(streams[w])|)
  {
    EmitsEveryCommonTick(streams, order);
    var regular := seq(|streams|, w requires 0 <= w < |streams| => Regular(streams[w]));
    LeastIsLeast(regular);
    forall w | 0 <= w < |streams|
      ensures |TicksIn(streams[w])| == regular[w]
    {
      RegularCounts(streams[w]);
    }
  }
}
