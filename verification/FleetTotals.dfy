/** Nothing is lost between the workers' counters and the coordinator's totals. */
module FleetTotals {
  import opened Verdicts
  import opened TickEmitter
  import opened Aggregation
  import opened FleetStreams

  // ---- conservation at every message ----

  /** The counts of one bucket's partials. */
  ghost function BucketCounts(bucket: map<nat, Partial>): Tally { Fold(bucket, bucket.Keys).counts }

  ghost function ParkedSum(parked: map<nat, map<nat, Partial>>, ticks: set<nat>): Tally
    requires ticks <= parked.Keys
  {
    if ticks == {} then ZERO
    else
      var t :| t in ticks;
      ParkedSum(parked, ticks - {t}).Plus(BucketCounts(parked[t]))
  }

  lemma {:induction false} ParkedSumRemove(parked: map<nat, map<nat, Partial>>, ticks: set<nat>, x: nat)
    requires ticks <= parked.Keys && x in ticks
    ensures ParkedSum(parked, ticks) == ParkedSum(parked, ticks - {x}).Plus(BucketCounts(parked[x]))
    decreases ticks
  {
    var t :| t in ticks
             && ParkedSum(parked, ticks) == ParkedSum(parked, ticks - {t}).Plus(BucketCounts(parked[t]));
    if t != x {
      ParkedSumRemove(parked, ticks - {t}, x);
      ParkedSumRemove(parked, ticks - {x}, t);
      assert ticks - {t} - {x} == ticks - {x} - {t};
      PlusSwaps(ParkedSum(parked, ticks - {t} - {x}), BucketCounts(parked[x]), BucketCounts(parked[t]));
    }
  }

  lemma {:induction false} ParkedSumSame(
    a: map<nat, map<nat, Partial>>, b: map<nat, map<nat, Partial>>, ticks: set<nat>)
    requires ticks <= a.Keys && ticks <= b.Keys && forall t :: t in ticks ==> a[t] == b[t]
    ensures ParkedSum(a, ticks) == ParkedSum(b, ticks)
    decreases ticks
  {
    if ticks != {} {
      var t :| t in ticks;
      ParkedSumRemove(a, ticks, t);
      ParkedSumRemove(b, ticks, t);
      ParkedSumSame(a, b, ticks - {t});
    }
  }

  lemma NothingParked(s: State, t: nat)
    requires t !in s.parked
    ensures s.parked - {t} == s.parked && Fold(Entry(s, t), Entry(s, t).Keys) == NOTHING
  {
    assert Entry(s, t).Keys == {};
  }

  /** All parked counts, tick t set apart. */
  lemma ParkedSplit(s: State, t: nat)
    ensures ParkedSum(s.parked, s.parked.Keys) ==
            ParkedSum(s.parked - {t}, (s.parked - {t}).Keys).Plus(BucketCounts(Entry(s, t)))
  {
    var rest := s.parked - {t};
    if t in s.parked {
      assert rest.Keys == s.parked.Keys - {t};
      ParkedSumSame(s.parked, rest, rest.Keys);
      ParkedSumRemove(s.parked, s.parked.Keys, t);
    } else {
      NothingParked(s, t);
      PlusZero(ParkedSum(s.parked, s.parked.Keys));
    }
  }

  lemma ParkedAfterParking(parked: map<nat, map<nat, Partial>>, t: nat, entry: map<nat, Partial>)
    ensures ParkedSum(parked[t := entry], parked[t := entry].Keys) ==
            ParkedSum(parked - {t}, (parked - {t}).Keys).Plus(BucketCounts(entry))
  {
    var next, rest := parked[t := entry], parked - {t};
    ParkedSumRemove(next, next.Keys, t);
    assert next.Keys - {t} == rest.Keys;
    ParkedSumSame(next, rest, rest.Keys);
  }

  function EmittedCounts(ticks: seq<AggTick>): Tally {
    if ticks == [] then ZERO else EmittedCounts(ticks[..|ticks| - 1]).Plus(ticks[|ticks| - 1].thisTick)
  }

  lemma EmittedGrows(ticks: seq<AggTick>, t: AggTick)
    ensures EmittedCounts(ticks + [t]) == EmittedCounts(ticks).Plus(t.thisTick)
  {
    assert (ticks + [t])[..|ticks|] == ticks;
  }

  /** Everything the aggregator holds: counts in emitted ticks plus counts parked per tick. */
  ghost function Held(s: State): Tally {
    EmittedCounts(s.emitted).Plus(ParkedSum(s.parked, s.parked.Keys))
  }

  /** The running totals are those of the emitted ticks, and the last one carries them. */
  ghost predicate Totalled(s: State) {
    var e := EmittedCounts(s.emitted);
    && s.cumCompleted == e.completed && s.cumPass == e.pass && s.cumFailStatus == e.failStatus
    && (s.emitted != [] ==>
          var last := s.emitted[|s.emitted| - 1];
          last.completedTotal == e.completed && last.passTotal == e.pass && last.failStatusTotal == e.failStatus)
  }

  lemma EmitKeepsTotals(s: State, t: nat, share: Share)
    requires Totalled(s)
    ensures Totalled(EmitInto(s, t, share))
  {
    EmittedGrows(s.emitted, Emit(t, share, SoFar(s)));
  }

  lemma PlusOneMore(e: Tally, rest: Tally, entry: Tally, p: Tally)
    ensures e.Plus(entry.Plus(p)).Plus(rest) == e.Plus(rest.Plus(entry)).Plus(p)
    ensures e.Plus(rest.Plus(entry.Plus(p))) == e.Plus(rest.Plus(entry)).Plus(p)
  {
  }

  /** A message whose worker is not yet parked for its tick adds exactly its own counts. */
  lemma DeliveryConserves(n: nat, s: State, w: nat, p: Partial)
    requires Totalled(s) && !p.final && w !in Entry(s, p.tick)
    ensures Held(Deliver(n, s, w, p)) == Held(s).Plus(SumTallies(p.buckets))
    ensures Totalled(Deliver(n, s, w, p))
  {
    var before, t := Entry(s, p.tick), p.tick;
    var entry := before[w := p];
    var rest := ParkedSum(s.parked - {t}, (s.parked - {t}).Keys);
    ParkedSplit(s, t);
    FoldInsert(before, w, p);
    PlusOneMore(EmittedCounts(s.emitted), rest, BucketCounts(before), SumTallies(p.buckets));
    if |entry| == n {
      EmitKeepsTotals(s.(parked := s.parked - {t}), t, Fold(entry, entry.Keys));
      EmittedGrows(s.emitted, Emit(t, Fold(entry, entry.Keys), SoFar(s)));
    } else {
      ParkedAfterParking(s.parked, t, entry);
    }
  }

  /** Counts in the messages an interleaving has delivered. */
  ghost function Received(streams: seq<seq<Partial>>, order: seq<nat>): Tally
    requires Interleaves(streams, order)
  {
    if order == [] then ZERO
    else
      var k := |order| - 1;
      InterleavesPrefix(streams, order, k);
      Received(streams, order[..k]).Plus(SumTallies(streams[order[k]][Taken(order[..k], order[k])].buckets))
  }

  /** The next tick of a worker is not yet parked for it, so its counts are simply added. */
  lemma NextTickConserves(streams: seq<seq<Partial>>, got: seq<nat>, s: State, w: nat)
    requires CanDeliver(streams, got, w) && Determined(streams, got, s) && Totalled(s)
    ensures var d := Deliver(|streams|, s, w, streams[w][got[w]]);
            Held(d) == Held(s).Plus(SumTallies(streams[w][got[w]].buckets)) && Totalled(d)
  {
    NextEntry(streams, got, s, w);
    DeliveryReaches(streams, got, w);
    DeliveryConserves(|streams|, s, w, streams[w][got[w]]);
  }

  lemma ReceivedStep(streams: seq<seq<Partial>>, order: seq<nat>)
    requires Fleet(streams) && Interleaves(streams, order) && order != []
    ensures var k := |order| - 1;
            Interleaves(streams, order[..k]) &&
            var p := streams[order[k]][Taken(order[..k], order[k])];
            Received(streams, order) ==
              if p.final then Received(streams, order[..k])
              else Received(streams, order[..k]).Plus(SumTallies(p.buckets))
  {
    var k := |order| - 1;
    InterleavesPrefix(streams, order, k);
    PlusZero(Received(streams, order[..k]));
  }

  ghost predicate Conserves(s: State, received: Tally) { Held(s) == received && Totalled(s) }

  lemma NothingHeld(s: State)
    requires s.parked == map[]
    ensures Held(s) == EmittedCounts(s.emitted)
  {
    assert s.parked.Keys == {};
    PlusZero(EmittedCounts(s.emitted));
  }

  lemma FreshConserves()
    ensures Conserves(FRESH, ZERO)
  {
    NothingHeld(FRESH);
    assert EmittedCounts([]) == ZERO;
  }

  lemma MessageConserves(streams: seq<seq<Partial>>, got: seq<nat>, s: State, w: nat, p: Partial, received: Tally)
    requires Reached(streams, got) && Determined(streams, got, s) && Conserves(s, received)
    requires p.final || (CanDeliver(streams, got, w) && p == streams[w][got[w]])
    ensures Conserves(Deliver(|streams|, s, w, p), if p.final then received else received.Plus(SumTallies(p.buckets)))
  {
    if !p.final {
      NextTickConserves(streams, got, s, w);
    }
  }

  lemma {:induction false} InterleavingConserves(streams: seq<seq<Partial>>, order: seq<nat>)
    requires Fleet(streams) && Interleaves(streams, order)
    ensures Conserves(After(streams, order), Received(streams, order))
  {
    if order == [] {
      FreshConserves();
    } else {
      var k := |order| - 1;
      AfterStep(streams, order);
      TakenAfter(streams, order);
      ReceivedStep(streams, order);
      StateIsDetermined(streams, order[..k]);
      InterleavingConserves(streams, order[..k]);
      var w := order[k];
      MessageConserves(streams, Got(streams, order[..k]), After(streams, order[..k]), w,
                       streams[w][Taken(order[..k], w)], Received(streams, order[..k]));
    }
  }

  /** At every point of every interleaving, emitted plus parked counts equal the received counts,
      and the running totals are the sums of the emitted ticks. */
  lemma AggregationConserves(streams: seq<seq<Partial>>, order: seq<nat>)
    requires Fleet(streams) && Interleaves(streams, order)
    ensures Held(After(streams, order)) == Received(streams, order)
    ensures Totalled(After(streams, order))
  {
    InterleavingConserves(streams, order);
  }
}
