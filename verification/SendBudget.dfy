/** How many requests a connection, a fleet, and a priced run can send at most. */
module SendBudget {
  import opened Arithmetic
  import opened Verdicts
  import opened Scheduler
  import opened RampSchedule
  import opened ConnectionLoop

  /** Slots of a schedule that fall before the deadline. */
  function Budget(schedule: Schedule, deadlineUs: nat): nat {
    match schedule
    case Constant(r) => CeilDiv(deadlineUs * r.num, r.den)
    case Ramp(d, r) => if d == 0 || deadlineUs == 0 then 0 else SlotsBy(d, r, deadlineUs - 1)
  }

  /** The budget counts slots: n is below it exactly when the n-th slot is before the deadline. */
  lemma BudgetCountsSlots(schedule: Schedule, deadlineUs: nat, n: nat)
    requires schedule.Ramp? ==> schedule.durationUs > 0
    ensures n < Budget(schedule, deadlineUs) <==> Slot(schedule, n) < deadlineUs
  {
    match schedule
    case Constant(r) =>
      CeilGalois(deadlineUs * r.num, r.den, n);
      ConstantSlotBefore(r, n, deadlineUs);
    case Ramp(d, r) =>
      if deadlineUs > 0 {
        SlotsByCounts(d, r, n, deadlineUs - 1);
      }
  }

  /** Whatever the delays, catch-up windows and back-offs, a connection sends at most its budget. */
  lemma SendsWithinBudget(cfg: Config, offset: nat, schedule: Schedule, ts: seq<Turn>)
    requires schedule.Ramp? ==> schedule.durationUs > 0
    ensures |LogOf(cfg, offset, schedule, ts)| <= Budget(schedule, cfg.deadlineUs)
  {
    var log := LogOf(cfg, offset, schedule, ts);
    if log != [] {
      var i := |log| - 1;
      RunKeepsInv(cfg, offset, schedule, ts);
      assert EntryOk(cfg, offset, schedule, i, log[i]);
      BudgetCountsSlots(schedule, cfg.deadlineUs, i);
    }
  }

  lemma DividedBy(n: nat, x: nat, m: nat, d: pos)
    requires d * x <= n * (d * m) < d * x + d * m
    ensures x <= n * m < x + m
  {
    assert n * (d * m) == (n * m) * d;
    assert (x + m) * d == d * x + d * m;
    MulStrict(n * m, x, d);
    MulStrict(n * m, x + m, d);
  }

  /** On a ramp over its whole duration the budget is half the peak rate times the duration,
      rounded up. */
  lemma RampBudgetIsHalf(d: pos, r: Rate)
    ensures var n := Budget(Ramp(d, r), d);
            d * r.num <= n * (2 * r.den) < d * r.num + 2 * r.den
  {
    var n, x, m := Budget(Ramp(d, r), d), d * r.num, 2 * r.den;
    CeilGalois(d * d * r.num, 2 * d * r.den, n);
    CeilBelowNext(d * d * r.num, 2 * d * r.den);
    DividedBy(n, x, m, d);
  }

  // ---- the budget is reached ----

  /** An immediate answer to an immediate send. */
  function Instant(resp: Response): Turn { Turn(false, 0, 0, 0, Answered(0, resp), 0, false, 0) }

  /** With instant turns the clock is at most the next slot, and any catch-up window started on a slot. */
  ghost predicate Ideal(cfg: Config, schedule: Schedule, c: Conn) {
    && c.sched.Valid() && c.sched.schedule == schedule && c.sched.start == 0
    && !c.done && !c.aborted && c.sched.complete == |c.log|
    && c.clock <= Slot(schedule, c.sched.complete)
    && (c.sched.Behind() ==> c.sched.anchor == Slot(schedule, c.sched.anchorComplete))
  }

  lemma CatchUpBeforeSlot(r: Rate, n: nat, k: nat)
    ensures Slot(Constant(r), n) + CatchUpSlot(r, k) <= Slot(Constant(r), n + k)
  {
    var x := k * r.den;
    assert x / (2 * r.num) <= x / r.num by {
      DivRange(x, 2 * r.num);
      var y := x / (2 * r.num);
      assert y * (2 * r.num) == (2 * y) * r.num;
      MulMono(y, 2 * y, r.num);
      DivGalois(x, r.num, y);
    }
    assert (n + k) * r.den == n * r.den + x;
    DivSuperadditive(n * r.den, x, r.num);
  }

  /** At the clock reading `now` of an ideal connection the wait ends exactly on the slot. */
  lemma IdealPace(s: State, now: nat)
    requires s.Valid() && s.start == 0 && now <= s.Intended()
    requires s.Behind() ==> s.anchor == Slot(s.schedule, s.anchorComplete)
    ensures var (p, wait) := Pace(s, now);
            && p.Valid() && now + wait == s.Intended()
            && (p.Behind() ==> p.anchor == Slot(p.schedule, p.anchorComplete))
  {
    if s.Behind() {
      CatchUpBeforeSlot(s.schedule.rate, s.anchorComplete, s.Since());
    } else if s.schedule.Constant? {
      assert CatchUpSlot(s.schedule.rate, 0) == 0;
    }
  }

  lemma IdealStep(cfg: Config, schedule: Schedule, c: Conn, resp: Response)
    requires Ideal(cfg, schedule, c) && resp.status != 429
    requires Slot(schedule, |c.log|) < cfg.deadlineUs
    ensures var d := Step(cfg, c, Instant(resp));
            Ideal(cfg, schedule, d) && |d.log| == |c.log| + 1
  {
    IdealPace(c.sched, c.clock);
    PaceKeepsSlot(c.sched, c.clock);
    SlotMono(schedule, |c.log|, |c.log| + 1);
  }

  /** A target that answers at once, on a connection with no stagger, draws the whole budget. */
  lemma {:induction false} BudgetIsReached(cfg: Config, schedule: Schedule, resp: Response, n: nat)
    requires schedule.Ramp? ==> schedule.durationUs > 0
    requires resp.status != 429 && n <= Budget(schedule, cfg.deadlineUs)
    ensures |LogOf(cfg, 0, schedule, seq(n, i => Instant(resp)))| == n
    ensures Ideal(cfg, schedule, Run(cfg, Start(0, schedule), seq(n, i => Instant(resp))))
  {
    if n > 0 {
      var ts := seq(n, i => Instant(resp));
      assert ts[..n - 1] == seq(n - 1, i => Instant(resp));
      BudgetIsReached(cfg, schedule, resp, n - 1);
      BudgetCountsSlots(schedule, cfg.deadlineUs, n - 1);
      IdealStep(cfg, schedule, Run(cfg, Start(0, schedule), ts[..n - 1]), resp);
    }
  }

  // ---- the fleet ----

  /** A run as the coordinator dispatches it: target num/den requests per second, split evenly over
      the workers and then over each worker's connections. */
  datatype Fleet = Fleet(targetNum: pos, targetDen: pos, durationS: nat, workers: pos, connections: pos)
  {
    function Connections(): pos { workers * connections }

    /** Requests per microsecond of one connection. */
    function PerConnection(): Rate { Rate(targetNum, targetDen * Connections() * 1_000_000) }

    function DeadlineUs(): nat { durationS * 1_000_000 }
  }

  /** What one connection lives through, and how many requests it sends. */
  datatype Life = Life(cfg: Config, offset: nat, turns: seq<Turn>, sends: nat)

  ghost predicate Lived(f: Fleet, x: Life) {
    && x.cfg.deadlineUs == f.DeadlineUs()
    && x.sends == |LogOf(x.cfg, x.offset, Constant(f.PerConnection()), x.turns)|
  }

  function Sends(lives: seq<Life>): nat {
    if lives == [] then 0 else Sends(lives[..|lives| - 1]) + lives[|lives| - 1].sends
  }

  lemma ShareArithmetic(n: nat, t: nat, s: nat, m: nat)
    requires n * (m * 1_000_000) < s * 1_000_000 * t + m * 1_000_000
    ensures n * m < t * s + m
  {
    assert n * (m * 1_000_000) == (n * m) * 1_000_000;
    assert s * 1_000_000 * t == (t * s) * 1_000_000;
  }

  lemma ConnectionShare(f: Fleet, x: Life)
    requires Lived(f, x)
    ensures x.sends * (f.targetDen * f.Connections()) < f.targetNum * f.durationS + f.targetDen * f.Connections()
  {
    var r := f.PerConnection();
    SendsWithinBudget(x.cfg, x.offset, Constant(r), x.turns);
    CeilBelowNext(f.DeadlineUs() * r.num, r.den);
    MulMono(x.sends, Budget(Constant(r), f.DeadlineUs()), r.den);
    ShareArithmetic(x.sends, f.targetNum, f.durationS, f.targetDen * f.Connections());
  }

  lemma AddShare(a: nat, b: nat, m: nat, k: nat, share: nat)
    requires a * m <= k * share && b * m < share
    ensures (a + b) * m < (k + 1) * share
  {
    assert (a + b) * m == a * m + b * m;
    assert (k + 1) * share == k * share + share;
  }

  lemma {:induction false} SharesAdd(lives: seq<Life>, m: nat, share: nat)
    requires forall x :: x in lives ==> x.sends * m < share
    ensures Sends(lives) * m <= |lives| * share
    ensures lives == [] || Sends(lives) * m < |lives| * share
  {
    if lives != [] {
      var k := |lives| - 1;
      SharesAdd(lives[..k], m, share);
      AddShare(Sends(lives[..k]), lives[k].sends, m, k, share);
    }
  }

  lemma CancelConnections(n: nat, d: nat, c: pos, t: nat)
    requires n * (d * c) < c * (t + d * c)
    ensures n * d < t + c * d
  {
    assert n * (d * c) == (n * d) * c;
    assert c * (t + d * c) == (t + d * c) * c;
    MulStrict(n * d, t + d * c, c);
  }

  /** The fleet sends fewer than target_rps * duration_s + workers * connections requests. */
  lemma FleetWithinBudget(f: Fleet, lives: seq<Life>)
    requires |lives| == f.Connections()
    requires forall x :: x in lives ==> Lived(f, x)
    ensures Sends(lives) * f.targetDen < f.targetNum * f.durationS + f.Connections() * f.targetDen
  {
    var c, d, t := f.Connections(), f.targetDen, f.targetNum * f.durationS;
    forall x | x in lives
      ensures x.sends * (d * c) < t + d * c
    {
      ConnectionShare(f, x);
    }
    SharesAdd(lives, d * c, t + d * c);
    CancelConnections(Sends(lives), d, c, t);
  }

  /** A connection without stagger whose target answers every request at once. */
  ghost predicate Unhindered(f: Fleet, x: Life, resp: Response) {
    && Lived(f, x) && x.offset == 0
    && x.turns == seq(Budget(Constant(f.PerConnection()), f.DeadlineUs()), i => Instant(resp))
  }

  lemma FullShareArithmetic(n: nat, t: nat, s: nat, m: nat)
    requires s * 1_000_000 * t <= n * (m * 1_000_000)
    ensures t * s <= n * m
  {
    assert n * (m * 1_000_000) == (n * m) * 1_000_000;
    assert s * 1_000_000 * t == (t * s) * 1_000_000;
  }

  lemma UnhinderedShare(f: Fleet, x: Life, resp: Response)
    requires Unhindered(f, x, resp) && resp.status != 429
    ensures f.targetNum * f.durationS <= x.sends * (f.targetDen * f.Connections())
  {
    var r := f.PerConnection();
    var n := Budget(Constant(r), f.DeadlineUs());
    BudgetIsReached(x.cfg, Constant(r), resp, n);
    CeilGalois(f.DeadlineUs() * r.num, r.den, n);
    FullShareArithmetic(x.sends, f.targetNum, f.durationS, f.targetDen * f.Connections());
  }

  lemma AddFullShare(a: nat, b: nat, m: nat, k: nat, share: nat)
    requires k * share <= a * m && share <= b * m
    ensures (k + 1) * share <= (a + b) * m
  {
    assert (a + b) * m == a * m + b * m;
    assert (k + 1) * share == k * share + share;
  }

  lemma {:induction false} FullSharesAdd(lives: seq<Life>, m: nat, share: nat)
    requires forall x :: x in lives ==> share <= x.sends * m
    ensures |lives| * share <= Sends(lives) * m
  {
    if lives != [] {
      var k := |lives| - 1;
      FullSharesAdd(lives[..k], m, share);
      AddFullShare(Sends(lives[..k]), lives[k].sends, m, k, share);
    }
  }

  lemma CancelFullShare(n: nat, d: nat, c: pos, t: nat)
    requires c * t <= n * (d * c)
    ensures t <= n * d
  {
    assert n * (d * c) == (n * d) * c;
    assert c * t == t * c;
    MulStrict(n * d, t, c);
  }

  /** Nothing is held back: against a target that answers at once the fleet sends all of
      target_rps * duration_s. */
  lemma FleetReachesTarget(f: Fleet, lives: seq<Life>, resp: Response)
    requires |lives| == f.Connections() && resp.status != 429
    requires forall x :: x in lives ==> Unhindered(f, x, resp)
    ensures f.targetNum * f.durationS <= Sends(lives) * f.targetDen
  {
    var c, d, t := f.Connections(), f.targetDen, f.targetNum * f.durationS;
    forall x | x in lives
      ensures t <= x.sends * (d * c)
    {
      UnhinderedShare(f, x, resp);
    }
    FullSharesAdd(lives, d * c, t);
    CancelFullShare(Sends(lives), d, c, t);
  }

  // ---- cost ----

  /** The pricing fields of a run request, in exact dollars. */
  datatype Pricing = Pricing(costPerRequest: Option<real>, estimatedCost: Option<real>)

  datatype CostError = NegativeCost | EstimateMissing | OverCeiling

  function TargetRps(f: Fleet): real { f.targetNum as real / f.targetDen as real }

  /** Projected spend of a run at its full target. */
  function Projected(f: Fleet, c: real): real { TargetRps(f) * f.durationS as real * c }

  function ValidateCostCeiling(f: Fleet, p: Pricing): Option<CostError> {
    if p.costPerRequest.None? then None
    else if p.costPerRequest.value < 0.0 then Some(NegativeCost)
    else if p.estimatedCost.None? then Some(EstimateMissing)
    else if Projected(f, p.costPerRequest.value) > p.estimatedCost.value * 1.1 then Some(OverCeiling)
    else None
  }

  lemma RealMulStrict(a: real, b: real, d: real)
    requires a > b && d > 0.0
    ensures a * d > b * d
  {
    assert (a - b) * d > 0.0;
  }

  lemma ProjectedCleared(f: Fleet, c: real, ceiling: real)
    ensures Projected(f, c) <= ceiling <==>
            f.targetNum as real * f.durationS as real * c <= ceiling * f.targetDen as real
  {
    var d, t, s := f.targetDen as real, f.targetNum as real, f.durationS as real;
    assert TargetRps(f) * d == t;
    assert Projected(f, c) * d == (TargetRps(f) * d) * s * c;
    if Projected(f, c) > ceiling {
      RealMulStrict(Projected(f, c), ceiling, d);
    } else if Projected(f, c) < ceiling {
      RealMulStrict(ceiling, Projected(f, c), d);
    }
  }

  /** Which priced requests are accepted, and why others are not, cleared of division: a price that is
      not negative, an estimate, and a projected cost of at most a tenth more. */
  lemma CeilingMeans(f: Fleet, p: Pricing)
    ensures match ValidateCostCeiling(f, p)
            case None =>
              p.costPerRequest.Some? ==>
                && p.costPerRequest.value >= 0.0 && p.estimatedCost.Some?
                && f.targetNum as real * f.durationS as real * p.costPerRequest.value
                   <= p.estimatedCost.value * 1.1 * f.targetDen as real
            case Some(NegativeCost) => p.costPerRequest.Some? && p.costPerRequest.value < 0.0
            case Some(EstimateMissing) =>
              p.costPerRequest.Some? && p.costPerRequest.value >= 0.0 && p.estimatedCost.None?
            case Some(OverCeiling) =>
              && p.costPerRequest.Some? && p.costPerRequest.value >= 0.0 && p.estimatedCost.Some?
              && f.targetNum as real * f.durationS as real * p.costPerRequest.value
                 > p.estimatedCost.value * 1.1 * f.targetDen as real
  {
    if p.costPerRequest.Some? && p.estimatedCost.Some? {
      ProjectedCleared(f, p.costPerRequest.value, p.estimatedCost.value * 1.1);
    }
  }

  lemma SendsBelowTarget(f: Fleet, n: nat, k: nat)
    requires n * f.targetDen < f.targetNum * f.durationS + k * f.targetDen
    ensures n as real <= TargetRps(f) * f.durationS as real + k as real
  {
    var d, t, s, c := f.targetDen as real, f.targetNum as real, f.durationS as real, k as real;
    var bound := TargetRps(f) * s + c;
    assert TargetRps(f) * d == t;
    assert bound * d == (TargetRps(f) * d) * s + c * d;
    if n as real > bound {
      RealMulStrict(n as real, bound, d);
      assert false;
    }
  }

  lemma PriceOf(n: real, m: real, k: real, c: real, ceiling: real)
    requires n <= m + k && c >= 0.0 && m * c <= ceiling
    ensures n * c <= ceiling + k * c
  {
    assert (m + k - n) * c >= 0.0;
    assert (m + k - n) * c == m * c + k * c - n * c;
  }

  lemma SpendWithinProjection(f: Fleet, n: nat, k: nat, c: real, ceiling: real)
    requires n * f.targetDen < f.targetNum * f.durationS + k * f.targetDen
    requires c >= 0.0 && Projected(f, c) <= ceiling
    ensures n as real * c <= ceiling + k as real * c
  {
    SendsBelowTarget(f, n, k);
    PriceOf(n as real, TargetRps(f) * f.durationS as real, k as real, c, ceiling);
  }

  lemma AcceptedProjection(f: Fleet, p: Pricing)
    requires p.costPerRequest.Some? && ValidateCostCeiling(f, p).None?
    ensures p.costPerRequest.value >= 0.0 && p.estimatedCost.Some?
    ensures Projected(f, p.costPerRequest.value) <= p.estimatedCost.value * 1.1
  {
  }

  lemma SpendOfRun(f: Fleet, lives: seq<Life>, c: real, ceiling: real)
    requires |lives| == f.Connections()
    requires forall x :: x in lives ==> Lived(f, x)
    requires c >= 0.0 && Projected(f, c) <= ceiling
    ensures Sends(lives) as real * c <= ceiling + f.Connections() as real * c
  {
    FleetWithinBudget(f, lives);
    SpendWithinProjection(f, Sends(lives), f.Connections(), c, ceiling);
  }

  /** An accepted priced run costs at most its ceiling plus one request per connection. */
  lemma AcceptedRunCost(f: Fleet, p: Pricing, lives: seq<Life>)
    requires p.costPerRequest.Some? && ValidateCostCeiling(f, p).None?
    requires |lives| == f.Connections()
    requires forall x :: x in lives ==> Lived(f, x)
    ensures Sends(lives) as real * p.costPerRequest.value
            <= p.estimatedCost.value * 1.1 + f.Connections() as real * p.costPerRequest.value
  {
    AcceptedProjection(f, p);
    SpendOfRun(f, lives, p.costPerRequest.value, p.estimatedCost.value * 1.1);
  }
}
