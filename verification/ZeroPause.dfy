/** Exactly when a back-off is a pure translation: the pause is positive, or the request it follows
    was not catching up on a constant timetable. */
module ZeroPause {
  import opened Arithmetic
  import opened Sequences
  import opened Verdicts
  import opened Scheduler
  import opened ConnectionLoop
  import opened BackoffTranslation

  // ---- the waits a schedule returns from here on ----

  /** The waits of the next requests, paced at these clock readings. */
  function Waits(s: State, nows: seq<nat>): seq<nat>
    requires s.Valid()
    decreases nows
  {
    if nows == [] then []
    else
      var (p, wait) := Pace(s, nows[0]);
      [wait] + Waits(Advance(p), nows[1..])
  }

  ghost predicate WaitedOut(waits: seq<nat>, nows: seq<nat>, i: nat) {
    i < |waits| && i + 1 < |nows| && nows[i] + waits[i] <= nows[i + 1]
  }

  /** Each reading comes no earlier than the end of the wait before it. */
  ghost predicate Feasible(s: State, nows: seq<nat>)
    requires s.Valid()
  {
    forall i :: 0 <= i < |nows| - 1 ==> WaitedOut(Waits(s, nows), nows, i)
  }

  function Later(nows: seq<nat>, gap: nat): seq<nat> {
    seq(|nows|, i requires 0 <= i < |nows| => nows[i] + gap)
  }

  lemma {:induction false} DisplacedWaits(s: State, s': State, gap: nat, nows: seq<nat>)
    requires Displaced(s, s', gap)
    ensures Waits(s', Later(nows, gap)) == Waits(s, nows)
    decreases nows
  {
    if nows != [] {
      var later := Later(nows, gap);
      assert later[0] == nows[0] + gap && later[1..] == Later(nows[1..], gap);
      PaceIsDisplaced(s, s', gap, nows[0], later[0]);
      DisplacedWaits(Advance(Pace(s, nows[0]).0), Advance(Pace(s', later[0]).0), gap, nows[1..]);
    }
  }

  /** The schedules left by a shorter and a longer pause after the same request return the same
      waits at readings that are as far apart as the pauses. */
  ghost predicate SameWaits(s: State, shorter: nat, longer: nat, nows: seq<nat>)
    requires s.Valid() && shorter <= longer
  {
    Waits(Follow(s, longer), Later(nows, longer - shorter)) == Waits(Follow(s, shorter), nows)
  }

  lemma TranslationWhenOnPace(s: State, shorter: nat, longer: nat, nows: seq<nat>)
    requires s.Valid() && shorter < longer && (shorter > 0 || !s.Behind())
    ensures SameWaits(s, shorter, longer, nows)
  {
    assert Displaced(s, s, 0);
    FollowIsDisplaced(s, s, 0, shorter, longer);
    DisplacedWaits(Follow(s, shorter), Follow(s, longer), longer - shorter, nows);
  }

  // ---- the window that a zero pause leaves open ----

  /** m readings of a clock that stands still. */
  function Still(now: nat, m: nat): seq<nat> { seq(m, _ => now) }

  /** A schedule in a catch-up window, all of whose next m slots are past at `now`. */
  ghost predicate Late(s: State, now: nat, m: nat) {
    s.Valid() && s.Behind() && s.start + Slot(s.schedule, s.complete + m) <= now
  }

  lemma LatePace(s: State, now: nat, m: nat)
    requires Late(s, now, m)
    ensures Pace(s, now) == (s, Sub(s.anchor + CatchUpSlot(s.schedule.rate, s.Since()), now))
    ensures m > 0 ==> Late(Advance(s), now, m - 1)
  {
    SlotMono(s.schedule, s.complete, s.complete + m);
  }

  /** In a window the wait of request j is what its catch-up slot leaves of it. */
  lemma {:induction false} LateWaits(s: State, now: nat, m: nat, j: nat)
    requires Late(s, now, m) && j < m
    ensures |Waits(s, Still(now, m))| == m
    ensures Waits(s, Still(now, m))[j] == Sub(s.anchor + CatchUpSlot(s.schedule.rate, s.Since() + j), now)
    decreases m
  {
    LatePace(s, now, m);
    assert Still(now, m)[1..] == Still(now, m - 1);
    if m > 1 {
      LateWaits(Advance(s), now, m - 1, if j > 0 then j - 1 else 0);
    }
  }

  /** The window that opens at `now` when a request finds itself late. */
  function Opened(s: State, now: nat): State {
    s.(caughtUp := false, anchor := now, anchorComplete := s.complete)
  }

  lemma FreshWindowWaits(s: State, now: nat, m: nat, j: nat)
    requires s.Valid() && s.caughtUp && s.schedule.Constant?
    requires s.start + Slot(s.schedule, s.complete + m) <= now && j < m
    ensures |Waits(s, Still(now, m))| == m
    ensures Waits(s, Still(now, m))[j] == CatchUpSlot(s.schedule.rate, j)
  {
    var window := Opened(s, now);
    SlotMono(s.schedule, s.complete, s.complete + m);
    assert Pace(s, now) == Pace(window, now);
    assert Still(now, m)[0] == now;
    assert Waits(s, Still(now, m)) == Waits(window, Still(now, m));
    LateWaits(window, now, m, j);
  }

  /** The first request of a catch-up window whose slot is not the anchor itself. */
  function FirstWait(r: Rate): pos {
    CeilGalois(2 * r.num, r.den, 0);
    CeilDiv(2 * r.num, r.den)
  }

  lemma FirstWaitIsFirst(r: Rate, j: nat)
    ensures CatchUpSlot(r, j) > 0 <==> j >= FirstWait(r)
  {
    CeilGalois(2 * r.num, r.den, j);
    DivGalois(j * r.den, 2 * r.num, 1);
  }

  /** Not before `clock`, and so late that every slot up to the m-th is past on both timetables. */
  function LateEnough(s: State, clock: nat, m: nat): nat
    requires s.Valid() && s.Behind()
  {
    Max(clock, Max(s.start + Slot(s.schedule, s.complete + 1 + m),
                   s.anchor + CatchUpSlot(s.schedule.rate, s.Since() + 1 + m)))
  }

  lemma CatchUpMono(r: Rate, j: nat, k: nat)
    requires j <= k
    ensures CatchUpSlot(r, j) <= CatchUpSlot(r, k)
  {
    SlotMono(Constant(CatchUpRate(r)), j, k);
  }

  /** With no pause the old window lets all of these requests go at once. */
  lemma ZeroPauseWaits(s: State, clock: nat, m: nat, j: nat)
    requires s.Valid() && s.Behind() && j < m
    ensures |Waits(Follow(s, 0), Still(LateEnough(s, clock, m), m))| == m
    ensures Waits(Follow(s, 0), Still(LateEnough(s, clock, m), m))[j] == 0
  {
    var next := Follow(s, 0);
    CatchUpMono(s.schedule.rate, next.Since() + j, s.Since() + 1 + m);
    LateWaits(next, LateEnough(s, clock, m), m, j);
  }

  /** With a pause they are spread over a window of their own. */
  lemma PositivePauseWaits(s: State, clock: nat, pause: pos, m: nat, j: nat)
    requires s.Valid() && s.Behind() && j < m
    ensures |Waits(Follow(s, pause), Later(Still(LateEnough(s, clock, m), m), pause))| == m
    ensures Waits(Follow(s, pause), Later(Still(LateEnough(s, clock, m), m), pause))[j] ==
            CatchUpSlot(s.schedule.rate, j)
  {
    assert Later(Still(LateEnough(s, clock, m), m), pause) == Still(LateEnough(s, clock, m) + pause, m);
    FreshWindowWaits(Follow(s, pause), LateEnough(s, clock, m) + pause, m, j);
  }

  /** Readings from `clock` on that both schedules allow, and at which their waits differ. */
  ghost predicate Distinguishes(s: State, clock: nat, pause: nat, nows: seq<nat>)
    requires s.Valid()
  {
    && nows != [] && clock <= nows[0]
    && Feasible(Follow(s, 0), nows) && Feasible(Follow(s, pause), Later(nows, pause))
    && !SameWaits(s, 0, pause, nows)
  }

  ghost predicate AllZero(waits: seq<nat>, k: nat) {
    k <= |waits| && forall j :: 0 <= j < k ==> waits[j] == 0
  }

  function Chosen(s: State, clock: nat): seq<nat>
    requires s.Valid() && s.Behind()
  {
    var k := FirstWait(s.schedule.rate);
    Still(LateEnough(s, clock, k + 1), k + 1)
  }

  lemma ChosenWithoutPause(s: State, clock: nat, waits: seq<nat>)
    requires s.Valid() && s.Behind() && waits == Waits(Follow(s, 0), Chosen(s, clock))
    ensures |waits| == FirstWait(s.schedule.rate) + 1 && AllZero(waits, |waits|)
  {
    var m := FirstWait(s.schedule.rate) + 1;
    forall j | 0 <= j < m
      ensures |waits| == m && waits[j] == 0
    {
      ZeroPauseWaits(s, clock, m, j);
    }
    assert |waits| == m by {
      ZeroPauseWaits(s, clock, m, 0);
    }
  }

  /** With the pause only the last of the chosen requests has to wait. */
  lemma ChosenWithPause(s: State, clock: nat, pause: pos, waits: seq<nat>)
    requires s.Valid() && s.Behind() && waits == Waits(Follow(s, pause), Later(Chosen(s, clock), pause))
    ensures var k := FirstWait(s.schedule.rate);
            |waits| == k + 1 && AllZero(waits, k) && waits[k] == CatchUpSlot(s.schedule.rate, k) > 0
  {
    var k := FirstWait(s.schedule.rate);
    assert |waits| == k + 1 && waits[k] == CatchUpSlot(s.schedule.rate, k) > 0 by {
      PositivePauseWaits(s, clock, pause, k + 1, k);
      FirstWaitIsFirst(s.schedule.rate, k);
    }
    forall j | 0 <= j < k
      ensures waits[j] == 0
    {
      PositivePauseWaits(s, clock, pause, k + 1, j);
      FirstWaitIsFirst(s.schedule.rate, j);
    }
  }

  lemma ZeroWaitsAreFeasible(waits: seq<nat>, nows: seq<nat>, now: nat, k: nat)
    requires |waits| == k + 1 && AllZero(waits, k) && nows == Still(now, k + 1)
    ensures forall i :: 0 <= i < k ==> WaitedOut(waits, nows, i)
  {
  }

  lemma BehindDistinguishes(s: State, clock: nat, pause: pos)
    requires s.Valid() && s.Behind()
    ensures Distinguishes(s, clock, pause, Chosen(s, clock))
  {
    var k, nows := FirstWait(s.schedule.rate), Chosen(s, clock);
    var now := LateEnough(s, clock, k + 1);
    var zero, positive := Waits(Follow(s, 0), nows), Waits(Follow(s, pause), Later(nows, pause));
    ChosenWithoutPause(s, clock, zero);
    ChosenWithPause(s, clock, pause, positive);
    assert Later(nows, pause) == Still(now + pause, k + 1);
    ZeroWaitsAreFeasible(zero, nows, now, k);
    ZeroWaitsAreFeasible(positive, Later(nows, pause), now + pause, k);
    assert zero[k] != positive[k];
  }

  /** Pauses of different lengths are told apart by what follows if and only if the shorter one is
      zero and the request before them was catching up: then readings that a run can have tell
      them apart, from any time on, and otherwise no readings whatever do. */
  lemma TranslationCondition(s: State, clock: nat, shorter: nat, longer: nat)
    requires s.Valid() && shorter < longer
    ensures (forall nows: seq<nat> :: SameWaits(s, shorter, longer, nows)) <==> shorter > 0 || !s.Behind()
    ensures shorter == 0 && s.Behind() ==> exists nows: seq<nat> :: Distinguishes(s, clock, longer, nows)
  {
    if shorter > 0 || !s.Behind() {
      forall nows: seq<nat>
        ensures SameWaits(s, shorter, longer, nows)
      {
        TranslationWhenOnPace(s, shorter, longer, nows);
      }
    } else {
      BehindDistinguishes(s, clock, longer);
      assert !SameWaits(s, shorter, longer, Chosen(s, clock));
    }
  }

  // ---- the same in whole runs ----

  const FINE := Response(200, 0, None, None)

  /** A turn that is answered at once. */
  function Moment(idle: nat): Turn { Turn(false, idle, 0, 0, Answered(0, FINE), 0, false, 0) }

  /** m requests paced at one clock reading, `idle` from now. */
  function Moments(idle: nat, m: nat): seq<Turn> {
    if m == 0 then [] else [Moment(idle)] + Moments(0, m - 1)
  }

  lemma {:induction false} RunAppend(cfg: Config, c: Conn, a: seq<Turn>, b: seq<Turn>)
    requires c.sched.Valid()
    ensures Run(cfg, c, a + b) == Run(cfg, Run(cfg, c, a), b)
  {
    if b == [] {
      NothingMore(a);
    } else {
      var init, t := b[..|b| - 1], b[|b| - 1];
      LastApart(a, b);
      RunAppend(cfg, c, a, init);
      RunExtends(cfg, c, a + init, t);
      RunExtends(cfg, Run(cfg, c, a), init, t);
    }
  }

  lemma RunNothing(cfg: Config, c: Conn)
    requires c.sched.Valid()
    ensures Run(cfg, c, []) == c
  {
  }

  lemma RunFirst(cfg: Config, c: Conn, t: Turn, ts: seq<Turn>)
    requires c.sched.Valid()
    ensures Step(cfg, c, t).sched.Valid() && Run(cfg, c, [t] + ts) == Run(cfg, Step(cfg, c, t), ts)
  {
    NothingMore([t]);
    RunNothing(cfg, c);
    RunExtends(cfg, c, [], t);
    RunAppend(cfg, c, [t], ts);
  }

  ghost predicate Live(c: Conn) { c.sched.Valid() && !c.done && !c.aborted }

  /** The log has grown by requests with these waits. */
  ghost predicate Grew(before: seq<Sent>, after: seq<Sent>, waits: seq<nat>) {
    && |after| == |before| + |waits| && after[..|before|] == before
    && forall j :: 0 <= j < |waits| ==> after[|before| + j].wait == waits[j]
  }

  lemma MomentStep(cfg: Config, c: Conn, idle: nat)
    requires Live(c) && c.clock + idle + Pace(c.sched, c.clock + idle).1 < cfg.deadlineUs
    ensures var d, (p, wait) := Step(cfg, c, Moment(idle)), Pace(c.sched, c.clock + idle);
            && Live(d) && d.sched == Advance(p) && d.clock == c.clock + idle + wait
            && Grew(c.log, d.log, [wait])
  {
  }

  /** Waits that end before the deadline, none but the last of which takes any time. */
  ghost predicate Quick(waits: seq<nat>, now: nat, deadlineUs: nat) {
    waits != [] ==> AllZero(waits, |waits| - 1) && now + waits[|waits| - 1] < deadlineUs
  }

  lemma StillWaits(s: State, now: nat, m: pos)
    requires s.Valid()
    ensures Waits(s, Still(now, m)) == [Pace(s, now).1] + Waits(Advance(Pace(s, now).0), Still(now, m - 1))
  {
    assert Still(now, m)[0] == now && Still(now, m)[1..] == Still(now, m - 1);
  }

  lemma QuickTail(wait: nat, later: seq<nat>, now: nat, deadlineUs: nat)
    requires Quick([wait] + later, now, deadlineUs)
    ensures now + wait < deadlineUs && Quick(later, now, deadlineUs) && (later != [] ==> wait == 0)
  {
    var waits := [wait] + later;
    assert waits[0] == wait;
    assert forall j :: 0 <= j < |later| ==> later[j] == waits[j + 1];
  }

  lemma GrewTwice(a: seq<Sent>, b: seq<Sent>, c: seq<Sent>, waits: seq<nat>)
    requires waits != [] && Grew(a, b, [waits[0]]) && Grew(b, c, waits[1..])
    ensures Grew(a, c, waits)
  {
    assert c[..|a|] == c[..|b|][..|a|];
    assert c[|a|] == c[..|b|][|a|];
    forall j | 0 <= j < |waits|
      ensures c[|a| + j].wait == waits[j]
    {
      if j > 0 {
        assert c[|b| + (j - 1)].wait == waits[1..][j - 1];
      } else {
        assert b[|a| + 0].wait == [waits[0]][0];
      }
    }
  }

  /** The waits that remain once the first request of m at one reading is on its way. */
  lemma WaitsRemain(s: State, now: nat, m: pos, waits: seq<nat>, deadlineUs: nat)
    requires s.Valid() && waits == Waits(s, Still(now, m)) && Quick(waits, now, deadlineUs)
    ensures |waits| > 0 && waits[0] == Pace(s, now).1 && now + waits[0] < deadlineUs
    ensures waits[1..] == Waits(Advance(Pace(s, now).0), Still(now, m - 1)) && Quick(waits[1..], now, deadlineUs)
    ensures m > 1 ==> waits[0] == 0
  {
    StillWaits(s, now, m);
    assert waits == [waits[0]] + waits[1..];
    QuickTail(waits[0], waits[1..], now, deadlineUs);
    if m > 1 {
      StillWaits(Advance(Pace(s, now).0), now, m - 1);
    }
  }

  /** A connection whose next m requests, paced in `idle` microseconds, have these waits. */
  ghost predicate WillWait(cfg: Config, c: Conn, idle: nat, m: nat, waits: seq<nat>) {
    && Live(c) && |waits| == m && waits == Waits(c.sched, Still(c.clock + idle, m))
    && Quick(waits, c.clock + idle, cfg.deadlineUs)
  }

  lemma MomentLeaves(cfg: Config, c: Conn, idle: nat, m: pos, waits: seq<nat>, d: Conn)
    requires WillWait(cfg, c, idle, m, waits) && Live(d)
    requires var (p, wait) := Pace(c.sched, c.clock + idle);
             d.sched == Advance(p) && d.clock == c.clock + idle + wait
    ensures WillWait(cfg, d, 0, m - 1, waits[1..])
  {
    var now := c.clock + idle;
    WaitsRemain(c.sched, now, m, waits, cfg.deadlineUs);
    if m == 1 {
      assert Still(d.clock, 0) == Still(now, 0);
    }
  }

  lemma MomentsFirst(idle: nat, m: pos)
    ensures Moments(idle, m) == [Moment(idle)] + Moments(0, m - 1)
  {
  }

  /** The first of these requests, and the connection it leaves to the others. */
  lemma FirstMoment(cfg: Config, c: Conn, idle: nat, m: pos, waits: seq<nat>)
    returns (d: Conn)
    requires WillWait(cfg, c, idle, m, waits)
    ensures WillWait(cfg, d, 0, m - 1, waits[1..]) && Grew(c.log, d.log, [waits[0]])
    ensures Run(cfg, c, Moments(idle, m)) == Run(cfg, d, Moments(0, m - 1))
  {
    d := Step(cfg, c, Moment(idle));
    WaitsRemain(c.sched, c.clock + idle, m, waits, cfg.deadlineUs);
    MomentStep(cfg, c, idle);
    MomentLeaves(cfg, c, idle, m, waits, d);
    MomentsFirst(idle, m);
    RunFirst(cfg, c, Moment(idle), Moments(0, m - 1));
  }

  /** Waiting as these waits say, the run from c on logs them. */
  ghost predicate LogsWaits(cfg: Config, c: Conn, idle: nat, m: nat, waits: seq<nat>) {
    WillWait(cfg, c, idle, m, waits) && Grew(c.log, Run(cfg, c, Moments(idle, m)).log, waits)
  }

  lemma NoMoments(cfg: Config, c: Conn, idle: nat, waits: seq<nat>)
    requires WillWait(cfg, c, idle, 0, waits)
    ensures LogsWaits(cfg, c, idle, 0, waits)
  {
  }

  lemma FirstAndRest(cfg: Config, c: Conn, idle: nat, m: pos, waits: seq<nat>, d: Conn)
    requires WillWait(cfg, c, idle, m, waits) && Grew(c.log, d.log, [waits[0]])
    requires LogsWaits(cfg, d, 0, m - 1, waits[1..])
    requires Run(cfg, c, Moments(idle, m)) == Run(cfg, d, Moments(0, m - 1))
    ensures LogsWaits(cfg, c, idle, m, waits)
  {
    GrewTwice(c.log, d.log, Run(cfg, c, Moments(idle, m)).log, waits);
  }

  /** Pacing m requests at one reading logs the waits of the schedule. */
  lemma {:induction false} MomentsLogWaits(cfg: Config, c: Conn, idle: nat, m: nat, waits: seq<nat>)
    requires WillWait(cfg, c, idle, m, waits)
    ensures LogsWaits(cfg, c, idle, m, waits)
    decreases m
  {
    if m == 0 {
      NoMoments(cfg, c, idle, waits);
    } else {
      var d := FirstMoment(cfg, c, idle, m, waits);
      MomentsLogWaits(cfg, d, 0, m - 1, waits[1..]);
      FirstAndRest(cfg, c, idle, m, waits, d);
    }
  }

  /** The same turn with a zero and with a positive pause, in a run that goes on after it. */
  ghost predicate PausesApart(cfg: Config, c: Conn, t: Turn, t': Turn)
    requires c.sched.Valid()
  {
    && SameButPause(cfg, cfg, t, t') && PauseOf(cfg, t) == 0 < PauseOf(cfg, t')
    && Attempt(cfg, c, t).Some? && !t.abortInPause && t.reply.resp.status == 429
    && Step(cfg, c, t).clock < cfg.deadlineUs
  }

  lemma AfterPausesApart(cfg: Config, c: Conn, t: Turn, t': Turn)
    requires c.sched.Valid() && PausesApart(cfg, c, t, t')
    ensures var s, d, d' := Attempt(cfg, c, t).value.sched, Step(cfg, c, t), Step(cfg, c, t');
            && s.Valid() && Live(d) && Live(d') && |d.log| == |d'.log|
            && d.sched == Follow(s, 0) && d'.sched == Follow(s, PauseOf(cfg, t'))
            && d'.clock == d.clock + PauseOf(cfg, t')
  {
  }

  lemma WaitTellsApart(cfg: Config, r: Conn, r': Conn, i: nat)
    requires |r.log| == |r'.log| && i < |r.log| && r.log[i].wait != r'.log[i].wait
    ensures !ReportAlike(cfg, cfg, r, r')
  {
    assert !SameRequest(r.log[i], r'.log[i]);
  }

  /** The latest time at which the chosen requests are sent. */
  function LastChosen(s: State, clock: nat, pause: nat): nat
    requires s.Valid() && s.Behind()
  {
    var k := FirstWait(s.schedule.rate);
    LateEnough(s, clock, k + 1) + pause + CatchUpSlot(s.schedule.rate, k)
  }

  lemma GrownApart(cfg: Config, d: Conn, d': Conn, r: Conn, r': Conn, waits: seq<nat>, waits': seq<nat>)
    requires Grew(d.log, r.log, waits) && Grew(d'.log, r'.log, waits')
    requires |d.log| == |d'.log| && |waits| == |waits'| > 0 && waits[|waits| - 1] != waits'[|waits| - 1]
    ensures !ReportAlike(cfg, cfg, r, r')
  {
    WaitTellsApart(cfg, r, r', |d.log| + (|waits| - 1));
  }

  /** The schedule's waits at the chosen readings, as a run comes by them. */
  lemma ChosenAreQuick(s: State, clock: nat, pause: nat, waits: seq<nat>, deadlineUs: nat)
    requires s.Valid() && s.Behind() && LastChosen(s, clock, pause) < deadlineUs
    requires waits == Waits(Follow(s, pause), Later(Chosen(s, clock), pause))
    ensures var k := FirstWait(s.schedule.rate);
            && |waits| == k + 1 && Quick(waits, LateEnough(s, clock, k + 1) + pause, deadlineUs)
            && waits[k] == (if pause == 0 then 0 else CatchUpSlot(s.schedule.rate, k))
            && CatchUpSlot(s.schedule.rate, k) > 0
  {
    FirstWaitIsFirst(s.schedule.rate, FirstWait(s.schedule.rate));
    if pause == 0 {
      assert Later(Chosen(s, clock), 0) == Chosen(s, clock);
      ChosenWithoutPause(s, clock, waits);
    } else {
      ChosenWithPause(s, clock, pause, waits);
    }
  }

  /** Two runs with different last waits, continued alike. */
  lemma MomentsTellApart(cfg: Config, d: Conn, d': Conn, idle: nat, m: pos, waits: seq<nat>, waits': seq<nat>)
    requires WillWait(cfg, d, idle, m, waits) && WillWait(cfg, d', idle, m, waits')
    requires |d.log| == |d'.log| && waits[m - 1] != waits'[m - 1]
    ensures !ReportAlike(cfg, cfg, Run(cfg, d, Moments(idle, m)), Run(cfg, d', Moments(idle, m)))
  {
    var r, r' := Run(cfg, d, Moments(idle, m)), Run(cfg, d', Moments(idle, m));
    MomentsLogWaits(cfg, d, idle, m, waits);
    MomentsLogWaits(cfg, d', idle, m, waits');
    GrownApart(cfg, d, d', r, r', waits, waits');
  }

  /** Continued alike, the two runs log different waits for the same request. */
  lemma ContinuationsDiffer(cfg: Config, d: Conn, d': Conn, s: State, pause: pos)
    requires s.Valid() && s.Behind() && Live(d) && Live(d') && |d.log| == |d'.log|
    requires d.sched == Follow(s, 0) && d'.sched == Follow(s, pause) && d'.clock == d.clock + pause
    requires LastChosen(s, d.clock, pause) < cfg.deadlineUs
    ensures exists more :: !ReportAlike(cfg, cfg, Run(cfg, d, more), Run(cfg, d', more))
  {
    var m := FirstWait(s.schedule.rate) + 1;
    var now, nows := LateEnough(s, d.clock, m), Chosen(s, d.clock);
    var zero, positive := Waits(d.sched, nows), Waits(d'.sched, Later(nows, pause));
    assert Later(nows, pause) == Still(now + pause, m) && Later(nows, 0) == nows == Still(now, m);
    ChosenAreQuick(s, d.clock, 0, zero, cfg.deadlineUs);
    ChosenAreQuick(s, d.clock, pause, positive, cfg.deadlineUs);
    MomentsTellApart(cfg, d, d', now - d.clock, m, zero, positive);
  }

  /** In every run, after every request that was paced while behind on a constant timetable, it
      matters whether a 429 asks for no pause or for some: if the deadline leaves the time, the
      run can go on so that the two report differently although all later turns are the same. */
  lemma ZeroPauseMatters(cfg: Config, offset: nat, schedule: Schedule, ts: seq<Turn>, t: Turn, t': Turn)
    requires var c := Run(cfg, Start(offset, schedule), ts);
             && PausesApart(cfg, c, t, t') && PacedBehind(cfg, c, t)
             && LastChosen(Attempt(cfg, c, t).value.sched, Step(cfg, c, t).clock, PauseOf(cfg, t')) < cfg.deadlineUs
    ensures exists more ::
              !ReportAlike(cfg, cfg, Run(cfg, Start(offset, schedule), ts + [t] + more),
                           Run(cfg, Start(offset, schedule), ts + [t'] + more))
  {
    var start := Start(offset, schedule);
    var c := Run(cfg, start, ts);
    var d, d' := Step(cfg, c, t), Step(cfg, c, t');
    AfterPausesApart(cfg, c, t, t');
    ContinuationsDiffer(cfg, d, d', Attempt(cfg, c, t).value.sched, PauseOf(cfg, t'));
    var more :| !ReportAlike(cfg, cfg, Run(cfg, d, more), Run(cfg, d', more));
    RunExtends(cfg, start, ts, t);
    RunExtends(cfg, start, ts, t');
    RunAppend(cfg, start, ts + [t], more);
    RunAppend(cfg, start, ts + [t'], more);
  }

  // ---- an example ----

  function Limited(retryAfterMs: nat): Turn {
    Turn(false, 0, 0, 0, Answered(5000, Response(429, 0, None, Some(retryAfterMs))), 0, false, 0)
  }

  const EXAMPLE := Constant(Rate(1, 1000))

  lemma ExampleLog(cfg: Config, t: Turn, now: nat, wait: nat, d: Conn, r: Conn)
    requires d == Step(cfg, Start(0, EXAMPLE), t) && r == Run(cfg, d, Moments(0, 2))
    requires Live(d) && |d.log| == 1 && d.clock == now && now + wait < cfg.deadlineUs
    requires Waits(d.sched, Still(now, 2)) == [0, wait]
    ensures |r.log| == 3 && r.log[2].wait == wait
  {
    MomentsLogWaits(cfg, d, 0, 2, [0, wait]);
    assert r.log[1 + 1].wait == [0, wait][1];
  }

  lemma LimitedStep(cfg: Config, c: Conn, retryAfterMs: nat, p: State)
    requires Live(c) && Pace(c.sched, c.clock) == (p, 0) && c.clock + 5000 < cfg.deadlineUs
    requires cfg.action == Backoff && retryAfterMs <= cfg.maxBackoffMs
    ensures var d := Step(cfg, c, Limited(retryAfterMs));
            && Live(d) && d.sched == Follow(p, retryAfterMs * 1000)
            && d.clock == c.clock + 5000 + retryAfterMs * 1000 && |d.log| == |c.log| + 1
  {
  }

  /** The first request of the example, and what its answer leaves behind. */
  lemma ExampleStep(cfg: Config, retryAfterMs: nat)
    requires cfg.deadlineUs == 1_000_000 && cfg.action == Backoff && retryAfterMs <= cfg.maxBackoffMs
    ensures var d := Step(cfg, Start(0, EXAMPLE), Limited(retryAfterMs));
            && Live(d) && d.clock == 5000 + retryAfterMs * 1000 && |d.log| == 1
            && d.sched == Follow(State(0, 0, EXAMPLE, false, 0, 0), retryAfterMs * 1000)
  {
    assert Slot(EXAMPLE, 0) == 0 && CatchUpSlot(EXAMPLE.rate, 0) == 0;
    LimitedStep(cfg, Start(0, EXAMPLE), retryAfterMs, State(0, 0, EXAMPLE, false, 0, 0));
  }

  lemma ExampleWaits(s: State, s': State)
    requires s == State(0, 1, EXAMPLE, false, 0, 0)
    requires s'.Valid() && s'.start == 1000 && s'.complete == 1 && s'.schedule == EXAMPLE && s'.caughtUp
    ensures Waits(s, Still(5000, 2)) == [0, 0] && Waits(s', Still(6000, 2)) == [0, 500]
  {
    var r := EXAMPLE.rate;
    assert Slot(EXAMPLE, 1) == 1000 && Slot(EXAMPLE, 2) == 2000;
    assert CatchUpSlot(r, 0) == 0 && CatchUpSlot(r, 1) == 500 && CatchUpSlot(r, 2) == 1000;
    StillWaits(s, 5000, 2);
    StillWaits(Advance(s), 5000, 1);
    assert Pace(s', 6000).0 == State(1000, 1, EXAMPLE, false, 6000, 1);
    StillWaits(s', 6000, 2);
    StillWaits(State(1000, 2, EXAMPLE, false, 6000, 1), 6000, 1);
    assert Still(5000, 0) == [] && Still(6000, 0) == [];
  }

  /** One request a millisecond; the first is answered after 5 ms by a 429 that asks for 0 or 1 ms,
      and the next two at once. The third request waits 0 in one run and 500 us in the other. */
  lemma ZeroPauseExample(rules: Rules)
    ensures var cfg := Config(1_000_000, rules, Backoff, 1000);
            var log := LogOf(cfg, 0, EXAMPLE, [Limited(0)] + Moments(0, 2));
            var log' := LogOf(cfg, 0, EXAMPLE, [Limited(1)] + Moments(0, 2));
            && SameButPause(cfg, cfg, Limited(0), Limited(1))
            && |log| == |log'| == 3 && log[2].wait == 0 && log'[2].wait == 500
  {
    var cfg := Config(1_000_000, rules, Backoff, 1000);
    ExampleStep(cfg, 0);
    ExampleStep(cfg, 1);
    ExampleWaits(Step(cfg, Start(0, EXAMPLE), Limited(0)).sched, Step(cfg, Start(0, EXAMPLE), Limited(1)).sched);
    var d, d' := Step(cfg, Start(0, EXAMPLE), Limited(0)), Step(cfg, Start(0, EXAMPLE), Limited(1));
    ExampleLog(cfg, Limited(0), 5000, 0, d, Run(cfg, d, Moments(0, 2)));
    ExampleLog(cfg, Limited(1), 6000, 500, d', Run(cfg, d', Moments(0, 2)));
    RunFirst(cfg, Start(0, EXAMPLE), Limited(0), Moments(0, 2));
    RunFirst(cfg, Start(0, EXAMPLE), Limited(1), Moments(0, 2));
  }
}
