/** Falling behind: how catch-up requests are paced, and how soon the schedule is recovered. */
module CatchUp {
  import opened Arithmetic
  import opened Scheduler
  import opened ConnectionLoop

  /** The longest gap between two catch-up slots, ceil(1 / (2*rate)). */
  function CatchUpGap(r: Rate): nat { CeilDiv(r.den, 2 * r.num) }

  lemma CatchUpSlotStep(r: Rate, k: nat)
    ensures CatchUpSlot(r, k + 1) <= CatchUpSlot(r, k) + CatchUpGap(r)
  {
    assert (k + 1) * r.den == k * r.den + r.den;
    DivStep(k * r.den, r.den, 2 * r.num);
  }

  // ---- pacing over whole runs ----

  /** A request sent while behind keeps to its slot in the window and waits at most one gap. */
  ghost predicate Paced(e: Sent) {
    e.sched.Valid() && e.sched.Behind() ==>
      && e.sched.anchor + CatchUpSlot(e.sched.schedule.rate, e.sched.Since()) <= e.at
      && e.wait <= CatchUpGap(e.sched.schedule.rate)
  }

  /** Inside a window the clock has passed the previous request's catch-up slot. */
  ghost predicate WindowInv(c: Conn) {
    && c.sched.Valid()
    && (!c.done && c.sched.Behind() ==>
          && c.sched.Since() >= 1
          && c.sched.anchor + CatchUpSlot(c.sched.schedule.rate, c.sched.Since() - 1) <= c.clock)
    && (forall i :: 0 <= i < |c.log| ==> Paced(c.log[i]))
  }

  lemma PaceInWindow(s: State, now: nat)
    requires s.Valid()
    requires s.Behind() ==> s.Since() >= 1 && s.anchor + CatchUpSlot(s.schedule.rate, s.Since() - 1) <= now
    ensures var (p, wait) := Pace(s, now);
            p.Valid() && (p.Behind() ==>
              && p.anchor + CatchUpSlot(p.schedule.rate, p.Since()) <= now + wait
              && wait <= CatchUpGap(p.schedule.rate))
  {
    if s.Behind() {
      CatchUpSlotStep(s.schedule.rate, s.Since() - 1);
    } else if s.schedule.Constant? {
      assert CatchUpSlot(s.schedule.rate, 0) == 0;
    }
  }

  lemma StepKeepsWindow(cfg: Config, c: Conn, t: Turn)
    requires WindowInv(c)
    ensures WindowInv(Step(cfg, c, t))
  {
    if !c.done {
      var now := c.clock + t.idle;
      if c.sched.Behind() {
        assert c.sched.anchor + CatchUpSlot(c.sched.schedule.rate, c.sched.Since() - 1) <= now;
      }
      PaceInWindow(c.sched, now);
    }
  }

  /** In every run: within a catch-up window the k-th request after the anchor never leaves before
      anchor + floor(k / (2*rate)), and no wait while behind exceeds ceil(1 / (2*rate)). */
  lemma {:induction false} CatchUpIsPaced(cfg: Config, offset: nat, schedule: Schedule, ts: seq<Turn>)
    ensures WindowInv(Run(cfg, Start(offset, schedule), ts))
    ensures forall i :: 0 <= i < |LogOf(cfg, offset, schedule, ts)| ==> Paced(LogOf(cfg, offset, schedule, ts)[i])
  {
    if ts != [] {
      var k := |ts| - 1;
      CatchUpIsPaced(cfg, offset, schedule, ts[..k]);
      StepKeepsWindow(cfg, Run(cfg, Start(offset, schedule), ts[..k]), ts[k]);
    }
  }

  // ---- bounded recovery ----

  /** Requests after which a lag of `lag` microseconds is certainly made up. */
  function RecoveryBound(r: Rate, lag: nat): nat { 2 * r.num * (lag + 1) / r.den + 1 }

  /** By then the timetable has gained more than the lag on the catch-up slots. */
  lemma TimetableOvertakes(r: Rate, n: nat, k: nat, lag: nat)
    requires k >= RecoveryBound(r, lag)
    ensures Slot(Constant(r), n + k) > Slot(Constant(r), n) + lag + CatchUpSlot(r, k)
  {
    var x, m := k * r.den, 2 * r.num;
    var y := CatchUpSlot(r, k);
    assert y >= lag + 1 by {
      DivRange(2 * r.num * (lag + 1), r.den);
      MulMono(RecoveryBound(r, lag), k, r.den);
      DivGalois(x, m, lag + 1);
      assert (lag + 1) * m == 2 * r.num * (lag + 1);
    }
    assert Slot(Constant(r), k) >= 2 * y by {
      DivRange(x, m);
      assert y * m == (2 * y) * r.num;
      DivGalois(x, r.num, 2 * y);
    }
    assert (n + k) * r.den == n * r.den + x;
    DivSuperadditive(n * r.den, x, r.num);
  }

  /** A request sent promptly: no pause, and its clock reading is not past its catch-up slot. */
  ghost predicate Prompt(e: Sent) {
    && e.outcome.Got? && e.outcome.pause == 0
    && (e.sched.Valid() && e.sched.Behind() ==>
          e.now <= e.sched.anchor + CatchUpSlot(e.sched.schedule.rate, e.sched.Since()))
  }

  /** While every request since j is behind, the window anchored at j is still the current one. */
  lemma {:induction false} WindowPersists(cfg: Config, offset: nat, r: Rate, c: Conn, j: nat, k: nat)
    requires Inv(cfg, offset, Constant(r), c) && j + k < |c.log|
    requires c.log[j].sched.Behind() && c.log[j].sched.Since() == 0
    requires forall i :: j <= i <= j + k ==> c.log[i].sched.Behind() && Prompt(c.log[i])
    ensures var a, b := c.log[j].sched, c.log[j + k].sched;
            && b.start == a.start && b.complete == a.complete + k
            && b.anchor == a.anchor && b.anchorComplete == a.anchorComplete
  {
    assert EntryOk(cfg, offset, Constant(r), j, c.log[j]);
    if k > 0 {
      WindowPersists(cfg, offset, r, c, j, k - 1);
      assert Follows(c.log, j + k - 1);
      assert Prompt(c.log[j + k - 1]);
      assert c.log[j + k - 1].sched.Behind() && c.log[j + k].sched.Behind();
    }
  }

  /** A window is anchored at the clock reading of its first request. */
  lemma AnchoredAt(cfg: Config, offset: nat, r: Rate, c: Conn, j: nat)
    requires Inv(cfg, offset, Constant(r), c) && j < |c.log|
    requires c.log[j].sched.Behind() && c.log[j].sched.Since() == 0
    ensures c.log[j].sched.anchor == c.log[j].now
  {
    if j > 0 {
      assert Follows(c.log, j - 1);
    }
  }

  /** A connection that falls `lag` behind at request j, and whose responses then return before
      the next catch-up slot, is back on pace within RecoveryBound requests. */
  lemma RecoversInBoundedRequests(cfg: Config, offset: nat, r: Rate, ts: seq<Turn>, j: nat, lag: nat)
    requires var log := LogOf(cfg, offset, Constant(r), ts);
             && j + RecoveryBound(r, lag) < |log|
             && log[j].sched.Valid() && log[j].sched.Behind() && log[j].sched.Since() == 0
             && log[j].now == log[j].sched.Intended() + lag
             && forall i :: j <= i <= j + RecoveryBound(r, lag) ==> Prompt(log[i])
    ensures var log := LogOf(cfg, offset, Constant(r), ts);
            exists i :: j < i <= j + RecoveryBound(r, lag)
                        && log[i].sched.caughtUp && log[i].sched.Intended() > log[i].now
  {
    var c := Run(cfg, Start(offset, Constant(r)), ts);
    var log := c.log;
    RunKeepsInv(cfg, offset, Constant(r), ts);
    var n := RecoveryBound(r, lag);
    forall i | 0 <= i < |log|
      ensures EntryOk(cfg, offset, Constant(r), i, log[i])
    {
    }
    if forall i :: j <= i <= j + n ==> log[i].sched.Behind() {
      WindowPersists(cfg, offset, r, c, j, n);
      var a, b := log[j], log[j + n];
      assert EntryOk(cfg, offset, Constant(r), j, a);
      assert EntryOk(cfg, offset, Constant(r), j + n, b);
      assert Prompt(b);
      TimetableOvertakes(r, j, n, lag);
      AnchoredAt(cfg, offset, r, c, j);
      assert false;
    }
  }
}
