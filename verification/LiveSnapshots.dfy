/** The tick emitter's snapshots as the interleaved connection tasks let it take them. */
module LiveSnapshots {
  import opened TickEmitter
  import LiveCounters

  lemma SnapshotIsTick(n: nat, s: LiveCounters.State, snaps: seq<Snapshot>, k: nat)
    requires LiveCounters.EmitterInv(n, s) && CountsOf(snaps) == LiveCounters.Totals(s.em.ticks) && k < |snaps|
    ensures k < |s.em.ticks| && MonotoneAt(snaps, k) && TickAt(snaps, k).thisTick == s.em.ticks[k].delta
  {
    var counts, ticks := CountsOf(snaps), s.em.ticks;
    assert |counts| == |snaps| && counts[k] == snaps[k].counts == ticks[k].totals;
    assert LiveCounters.TickOk(n, ticks, k);
    assert k > 0 ==> counts[k - 1] == ticks[k - 1].totals;
  }

  /** In any interleaving the counters never go back from one snapshot to the next, and the
      differences published are those of the ticks made from the snapshots. */
  lemma LiveSnapshotsAreMonotone(
    cfg: LiveCounters.Config, n: nat, steps: seq<LiveCounters.Step>, snaps: seq<Snapshot>)
    requires CountsOf(snaps) == LiveCounters.Totals(LiveCounters.Exec(cfg, n, steps).em.ticks)
    ensures Monotone(snaps)
    ensures forall k :: 0 <= k < |snaps| ==>
              TickAt(snaps, k).thisTick == LiveCounters.Exec(cfg, n, steps).em.ticks[k].delta
  {
    var s := LiveCounters.Exec(cfg, n, steps);
    LiveCounters.EmitterInvariant(cfg, n, steps);
    forall k | 0 <= k < |snaps|
      ensures MonotoneAt(snaps, k) && TickAt(snaps, k).thisTick == s.em.ticks[k].delta
    {
      SnapshotIsTick(n, s, snaps, k);
    }
  }
}
