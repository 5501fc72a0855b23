/** When each request of a connection leaves and what becomes of it, told from the turns alone:
    neither the state of the schedule nor that of the loop takes part. */
module Timeline {
  import opened Arithmetic
  import opened Sequences
  import opened Verdicts
  import opened Scheduler
  import opened ConnectionLoop

  // ---- the time a request is due ----

  function PauseOf(e: Sent): nat { if e.outcome.Got? then e.outcome.pause else 0 }

  /** The pauses honoured before request k. */
  function Paused(log: seq<Sent>, k: nat): nat
    requires k <= |log|
  {
    if k == 0 then 0 else Paused(log, k - 1) + PauseOf(log[k - 1])
  }

  /** The slot of request k: its place on the timetable, moved by the pauses so far. */
  function SlotAt(r: ConnRun, log: seq<Sent>, k: nat): nat
    requires k <= |log|
  {
    r.offset + Paused(log, k) + Slot(r.schedule, k)
  }

  /** The first of the requests up to k since the connection was last on pace or paused. */
  function WindowStart(r: ConnRun, log: seq<Sent>, k: nat): (j: nat)
    requires k <= |log|
    ensures j <= k
  {
    if k == 0 || SlotAt(r, log, k - 1) > log[k - 1].now || PauseOf(log[k - 1]) > 0 then k
    else WindowStart(r, log, k - 1)
  }

  /** The k-th slot at twice the rate. */
  function Hastened(rate: Rate, k: nat): nat {
    DivRange(k * rate.den, 2 * rate.num);
    k * rate.den / (2 * rate.num)
  }

  /** When request k is due if the clock reads `now`: at its slot if that is still ahead; at once on
      a ramp, or when it opens a window; otherwise on the window's slot at twice the rate. */
  function Due(r: ConnRun, log: seq<Sent>, k: nat, now: nat): nat
    requires k <= |log|
  {
    var j := WindowStart(r, log, k);
    if SlotAt(r, log, k) > now then SlotAt(r, log, k)
    else match r.schedule
      case Ramp(_, _) => now
      case Constant(rate) => if j == k then now else Max(now, log[j].now + Hastened(rate, k - j))
  }

  /** The schedule that request k is paced from. */
  ghost predicate PacedFrom(r: ConnRun, log: seq<Sent>, k: nat, s: State)
    requires k <= |log|
  {
    && s.Valid()
    && (k == 0 ==> s == Fresh(r.offset, r.schedule))
    && (k > 0 ==> log[k - 1].outcome.Got? && s == Follow(log[k - 1].sched, log[k - 1].outcome.pause))
  }

  /** The window it is in, if any. */
  ghost predicate InWindow(r: ConnRun, log: seq<Sent>, k: nat, s: State)
    requires k <= |log|
  {
    var j := WindowStart(r, log, k);
    && (s.caughtUp <==> j == k)
    && (!s.caughtUp && s.schedule.Constant? ==> j < k && s.anchorComplete == j && s.anchor == log[j].now)
  }

  ghost predicate StateAt(r: ConnRun, log: seq<Sent>, k: nat, s: State)
    requires k <= |log|
  {
    && s.Valid() && s.start == r.offset + Paused(log, k) && s.complete == k && s.schedule == r.schedule
    && InWindow(r, log, k, s)
  }

  lemma NextState(r: ConnRun, log: seq<Sent>, k: nat, s: State, d: State)
    requires k < |log| && StateAt(r, log, k, s) && log[k].outcome.Got?
    requires log[k].sched == Pace(s, log[k].now).0 && d == Follow(log[k].sched, log[k].outcome.pause)
    ensures StateAt(r, log, k + 1, d)
  {
    assert s.Intended() == SlotAt(r, log, k);
  }

  lemma {:induction false} StateIs(r: ConnRun, log: seq<Sent>, k: nat, s: State)
    requires k <= |log| && LogOk(r.cfg, r.offset, r.schedule, log) && PacedFrom(r, log, k, s)
    ensures StateAt(r, log, k, s)
  {
    if k > 0 {
      var from := Fresh(r.offset, r.schedule);
      if k > 1 {
        assert Follows(log, k - 2);
        from := Follow(log[k - 2].sched, log[k - 2].outcome.pause);
      }
      StateIs(r, log, k - 1, from);
      NextState(r, log, k - 1, from, s);
    }
  }

  lemma CatchUpIsHastened(rate: Rate, k: nat)
    ensures CatchUpSlot(rate, k) == Hastened(rate, k)
  {
  }

  lemma IntendedIsSlot(r: ConnRun, log: seq<Sent>, k: nat, s: State)
    requires k <= |log| && StateAt(r, log, k, s)
    ensures s.Intended() == SlotAt(r, log, k)
  {
  }

  lemma PacedBehind(s: State, now: nat)
    requires s.Valid() && s.schedule.Constant? && s.Intended() <= now
    ensures now + Pace(s, now).1 ==
            if s.caughtUp then now else Max(now, s.anchor + Hastened(s.schedule.rate, s.Since()))
  {
    CatchUpIsHastened(s.schedule.rate, if s.caughtUp then 0 else s.Since());
  }

  lemma PacedWhenDue(r: ConnRun, log: seq<Sent>, k: nat, s: State, now: nat)
    requires k <= |log| && StateAt(r, log, k, s)
    ensures now + Pace(s, now).1 == Due(r, log, k, now)
  {
    IntendedIsSlot(r, log, k, s);
    if s.schedule.Constant? && s.Intended() <= now {
      PacedBehind(s, now);
    }
  }

  // ---- every request, from its turn ----

  /** The run ended with request k: a 429 under the abort policy, or an abort before the pause. */
  ghost predicate CutShort(r: ConnRun, log: seq<Sent>, k: nat)
    requires k < |log| && k < |r.turns|
  {
    && r.turns[k].reply.Answered?
    && ((r.turns[k].reply.resp.status == 429 && r.cfg.action == Abort)
        || (PauseOf(log[k]) > 0 && r.turns[k].abortInPause))
  }

  /** When the loop turns to request k: after the response before it, and the pause that asked for. */
  function ReadyAt(r: ConnRun, log: seq<Sent>, k: nat): nat
    requires k <= |log| && k <= |r.turns|
  {
    if k == 0 || log[k - 1].outcome.Lost? then 0
    else
      var t, e := r.turns[k - 1], log[k - 1];
      var settled := e.outcome.recv + t.settle;
      if PauseOf(e) > 0 && !t.abortInPause && settled < r.cfg.deadlineUs
      then settled + PauseOf(e) + t.overpause else settled
  }

  /** Request k is written: nothing has ended the run, and its wait ends before the deadline. */
  ghost predicate Goes(r: ConnRun, log: seq<Sent>, k: nat)
    requires k <= |log| && k < |r.turns|
  {
    var now := ReadyAt(r, log, k) + r.turns[k].idle;
    && (k > 0 ==> log[k - 1].outcome.Got? && !CutShort(r, log, k - 1))
    && !r.turns[k].abortSeen && now < r.cfg.deadlineUs
    && Due(r, log, k, now) + r.turns[k].oversleep < r.cfg.deadlineUs
  }

  /** The pause a response earns: what a 429 asks for, up to the cap, and only to back off. */
  ghost predicate Earns(cfg: Config, resp: Response, pause: nat) {
    if resp.status == 429 && cfg.action == Backoff && resp.retryAfterMs != None then
      && pause <= 1000 * resp.retryAfterMs.value && pause <= 1000 * cfg.maxBackoffMs
      && (pause == 1000 * resp.retryAfterMs.value || pause == 1000 * cfg.maxBackoffMs)
    else pause == 0
  }

  /** A latency in whole microseconds, and at least one. */
  ghost predicate Elapsed(latency: nat, from: nat, to: nat) {
    from <= to && if to - from > 1 then latency == to - from else latency == 1
  }

  /** Request k is what its turn makes of it. */
  ghost predicate Matches(r: ConnRun, log: seq<Sent>, k: nat)
    requires k < |log| && k < |r.turns|
  {
    var t, e := r.turns[k], log[k];
    && e.now == ReadyAt(r, log, k) + t.idle
    && e.now + e.wait == Due(r, log, k, e.now)
    && e.wake == e.now + e.wait + t.oversleep && e.at == e.wake + t.toWrite
    && match t.reply
       case TimedOut => e.outcome == Lost(true)
       case Broken => e.outcome == Lost(false)
       case Answered(afterUs, resp) =>
         && e.outcome.Got? && e.outcome.recv == e.at + afterUs
         && Elapsed(e.outcome.corrected, SlotAt(r, log, k), e.outcome.recv)
         && Elapsed(e.outcome.uncorrected, e.at, e.outcome.recv)
         && Meets(r.cfg.rules, resp, e.outcome.corrected, e.outcome.verdict)
         && Earns(r.cfg, resp, e.outcome.pause)
  }

  /** The loop as turn n finds it, seen from the log of the whole run. */
  ghost predicate Reached(r: ConnRun, log: seq<Sent>, n: nat, c: Conn)
    requires n <= |r.turns|
  {
    && |c.log| <= n && |c.log| <= |log| && c.log == log[..|c.log|]
    && (c.done && |c.log| == n ==> n > 0 && log[n - 1].outcome.Lost?)
    && (!c.done ==>
          && |c.log| == n && PacedFrom(r, log, n, c.sched) && c.clock == ReadyAt(r, log, n)
          && (c.aborted <==> n > 0 && CutShort(r, log, n - 1)))
  }

  function After(r: ConnRun, n: nat): Conn
    requires n <= |r.turns|
  {
    Run(r.cfg, Start(r.offset, r.schedule), r.turns[..n])
  }

  ghost predicate Succeeds(r: ConnRun, n: nat, c: Conn, d: Conn)
    requires n < |r.turns|
  {
    c.sched.Valid() && d == Step(r.cfg, c, r.turns[n])
  }

  lemma AfterNext(r: ConnRun, n: nat)
    requires n < |r.turns|
    ensures Succeeds(r, n, After(r, n), After(r, n + 1))
  {
    PrefixMore(r.turns, n);
  }

  lemma StepOnlyAppends(cfg: Config, c: Conn, t: Turn)
    requires c.sched.Valid()
    ensures c.log <= Step(cfg, c, t).log
  {
  }

  ghost predicate Grows(r: ConnRun, n: nat)
    requires n <= |r.turns|
  {
    After(r, n).log <= r.Log()
  }

  lemma GrewBefore(r: ConnRun, n: nat)
    requires n < |r.turns| && Grows(r, n + 1)
    ensures Grows(r, n)
  {
    AfterNext(r, n);
    StepOnlyAppends(r.cfg, After(r, n), r.turns[n]);
  }

  lemma {:induction false} LogsGrow(r: ConnRun, n: nat)
    requires n <= |r.turns|
    ensures Grows(r, n)
    decreases |r.turns| - n
  {
    if n < |r.turns| {
      LogsGrow(r, n + 1);
      GrewBefore(r, n);
    } else {
      WholePrefix(r.turns);
    }
  }

  lemma JudgedAsEarned(r: ConnRun, log: seq<Sent>, k: nat, s: State, at: nat, recv: nat, resp: Response)
    requires k <= |log| && s.Intended() == SlotAt(r, log, k) && s.Intended() <= at <= recv
    ensures var o := Judge(r.cfg, s, at, recv, resp);
            && o.recv == recv
            && Elapsed(o.corrected, SlotAt(r, log, k), recv) && Elapsed(o.uncorrected, at, recv)
            && Meets(r.cfg.rules, resp, o.corrected, o.verdict) && Earns(r.cfg, resp, o.pause)
  {
    VerdictsMean(r.cfg.rules, resp, Judge(r.cfg, s, at, recv, resp).corrected,
                 Judge(r.cfg, s, at, recv, resp).verdict);
  }

  lemma FiredMatches(r: ConnRun, log: seq<Sent>, n: nat, s: State, now: nat, wait: nat)
    requires n < |r.turns| && n < |log| && Fire(r.cfg, s, now, wait, r.turns[n]) == Some(log[n])
    requires now == ReadyAt(r, log, n) + r.turns[n].idle && now + wait == Due(r, log, n, now)
    requires s.Intended() == SlotAt(r, log, n) <= now + wait
    ensures Matches(r, log, n)
  {
    var t := r.turns[n];
    if t.reply.Answered? {
      var at := now + wait + t.oversleep + t.toWrite;
      JudgedAsEarned(r, log, n, s, at, at + t.reply.afterUs, t.reply.resp);
    }
  }

  lemma PacingKeepsSlot(r: ConnRun, log: seq<Sent>, k: nat, s: State, now: nat)
    requires k <= |log| && StateAt(r, log, k, s)
    ensures Pace(s, now).0.Intended() == SlotAt(r, log, k) <= now + Pace(s, now).1
  {
    IntendedIsSlot(r, log, k, s);
    PaceKeepsSlot(s, now);
  }

  /** An attempt at turn n writes a request exactly when one goes, and the one that matches. */
  lemma AttemptFollowsTurn(r: ConnRun, log: seq<Sent>, n: nat, c: Conn)
    requires n < |r.turns| && Reached(r, log, n, c) && !c.done && StateAt(r, log, n, c.sched)
    ensures Attempt(r.cfg, c, r.turns[n]).Some? <==> Goes(r, log, n)
    ensures n < |log| && Attempt(r.cfg, c, r.turns[n]) == Some(log[n]) ==> Matches(r, log, n)
  {
    var t := r.turns[n];
    var now := c.clock + t.idle;
    PacedWhenDue(r, log, n, c.sched, now);
    PacingKeepsSlot(r, log, n, c.sched, now);
    if n < |log| && Attempt(r.cfg, c, t) == Some(log[n]) {
      var (s, wait) := Pace(c.sched, now);
      FiredMatches(r, log, n, s, now, wait);
    }
  }

  /** A response leaves the loop ready for the turn after it. */
  lemma ReachedByResponse(r: ConnRun, log: seq<Sent>, n: nat, c: Conn, e: Sent, at: nat)
    requires n < |r.turns| && n < |log| && log[n] == e && c.log == log[..n] && r.turns[n].reply.Answered?
    requires e.outcome == Judge(r.cfg, e.sched, at, at + r.turns[n].reply.afterUs, r.turns[n].reply.resp)
    requires e.sched.Valid()
    ensures Reached(r, log, n + 1, Absorb(r.cfg, c, r.turns[n], e))
  {
    var t := r.turns[n];
    AbsorbedResponse(r.cfg, c, t, e, at, at + t.reply.afterUs, t.reply.resp);
    PrefixMore(log, n);
  }

  lemma ReachedByLoss(r: ConnRun, log: seq<Sent>, n: nat, c: Conn, e: Sent)
    requires n < |r.turns| && n < |log| && log[n] == e && c.log == log[..n] && e.outcome.Lost?
    ensures Reached(r, log, n + 1, Absorb(r.cfg, c, r.turns[n], e))
  {
    PrefixMore(log, n);
  }

  lemma ReachesNext(r: ConnRun, log: seq<Sent>, n: nat, c: Conn, d: Conn)
    requires n < |r.turns| && Reached(r, log, n, c) && Succeeds(r, n, c, d) && d.log <= log
    ensures Reached(r, log, n + 1, d)
  {
    var t := r.turns[n];
    var sent := Attempt(r.cfg, c, t);
    if sent.Some? {
      var e := sent.value;
      assert log[n] == (c.log + [e])[n] == e;
      if t.reply.Answered? {
        ReachedByResponse(r, log, n, c, e, e.at);
      } else {
        ReachedByLoss(r, log, n, c, e);
      }
    }
  }

  ghost predicate ReachedIn(r: ConnRun, n: nat)
    requires n <= |r.turns|
  {
    Reached(r, r.Log(), n, After(r, n))
  }

  lemma ReachesFirst(r: ConnRun)
    ensures ReachedIn(r, 0)
  {
  }

  lemma ReachesMore(r: ConnRun, n: nat)
    requires n < |r.turns| && ReachedIn(r, n)
    ensures ReachedIn(r, n + 1)
  {
    AfterNext(r, n);
    LogsGrow(r, n + 1);
    ReachesNext(r, r.Log(), n, After(r, n), After(r, n + 1));
  }

  lemma {:induction false} Reaches(r: ConnRun, n: nat)
    requires n <= |r.turns|
    ensures ReachedIn(r, n)
  {
    if n == 0 {
      ReachesFirst(r);
    } else {
      Reaches(r, n - 1);
      ReachesMore(r, n - 1);
    }
  }

  lemma EndedEarly(r: ConnRun, n: nat)
    requires n <= |r.turns| && After(r, n).done
    ensures r.Log() == After(r, n).log
  {
    DoneStays(r.cfg, Start(r.offset, r.schedule), r.turns, n);
  }

  /** What the loop does at turn n, seen from the log of the whole run. */
  ghost predicate Taken(r: ConnRun, log: seq<Sent>, n: nat, c: Conn)
    requires n < |r.turns| && c.sched.Valid()
  {
    match Attempt(r.cfg, c, r.turns[n])
    case None => log == c.log
    case Some(e) => c.log + [e] <= log
  }

  /** Whether request n is written and all there is to know of it follow from the requests before
      it and turn n. */
  ghost predicate Decided(r: ConnRun, log: seq<Sent>, n: nat)
    requires n <= |log| && n < |r.turns|
  {
    (n < |log| <==> Goes(r, log, n)) && (n < |log| ==> Matches(r, log, n))
  }

  lemma TakenDecides(r: ConnRun, log: seq<Sent>, n: nat, c: Conn)
    requires n < |r.turns| && n <= |log| && LogOk(r.cfg, r.offset, r.schedule, log)
    requires c.sched.Valid() && Reached(r, log, n, c) && !c.done && Taken(r, log, n, c)
    ensures Decided(r, log, n)
  {
    StateIs(r, log, n, c.sched);
    AttemptFollowsTurn(r, log, n, c);
    if Attempt(r.cfg, c, r.turns[n]).Some? {
      assert log[n] == (c.log + [Attempt(r.cfg, c, r.turns[n]).value])[n];
    }
  }

  lemma StepTakes(r: ConnRun, log: seq<Sent>, n: nat, c: Conn)
    requires n < |r.turns| && c.sched.Valid() && !c.done
    requires var d := Step(r.cfg, c, r.turns[n]);
             d.log <= log && (d.done ==> log == d.log)
    ensures Taken(r, log, n, c)
  {
  }

  lemma TurnIsTaken(r: ConnRun, n: nat)
    requires n < |r.turns| && !After(r, n).done
    ensures After(r, n).sched.Valid() && Taken(r, r.Log(), n, After(r, n))
  {
    AfterNext(r, n);
    LogsGrow(r, n + 1);
    if After(r, n + 1).done {
      EndedEarly(r, n + 1);
    }
    StepTakes(r, r.Log(), n, After(r, n));
  }

  lemma DoneDecides(r: ConnRun, log: seq<Sent>, n: nat, c: Conn)
    requires n < |r.turns| && n <= |log| && Reached(r, log, n, c) && c.done && log == c.log
    ensures Decided(r, log, n)
  {
  }

  lemma TurnDecides(r: ConnRun, n: nat)
    requires n < |r.turns| && n <= |r.Log()|
    ensures Decided(r, r.Log(), n)
  {
    Reaches(r, n);
    if After(r, n).done {
      EndedEarly(r, n);
      DoneDecides(r, r.Log(), n, After(r, n));
    } else {
      RunKeepsInv(r.cfg, r.offset, r.schedule, r.turns);
      TurnIsTaken(r, n);
      TakenDecides(r, r.Log(), n, After(r, n));
    }
  }

  lemma NoMoreThanTurns(r: ConnRun)
    ensures |r.Log()| <= |r.turns|
  {
    Reaches(r, |r.turns|);
    WholePrefix(r.turns);
  }

  /** The log goes on for exactly as long as a request goes, and each is what its turn makes of it. */
  ghost predicate FollowsTurns(r: ConnRun, log: seq<Sent>) {
    |log| <= |r.turns| && forall k :: 0 <= k < |r.turns| && k <= |log| ==> Decided(r, log, k)
  }

  /** In every run, request by request: each leaves when it is due, its latencies run from its slot
      and from its write, and its verdict is the one its response meets. */
  lemma LogFollowsTurns(r: ConnRun)
    ensures FollowsTurns(r, r.Log())
  {
    NoMoreThanTurns(r);
    forall k | 0 <= k < |r.turns| && k <= |r.Log()|
      ensures Decided(r, r.Log(), k)
    {
      TurnDecides(r, k);
    }
  }

  /** The wait of request k: on a ramp for nothing but its slot; on a constant timetable, if it is
      behind, for its window's slot at twice the rate. */
  ghost predicate Leaves(r: ConnRun, log: seq<Sent>, k: nat)
    requires k < |log|
  {
    var e, slot, j := log[k], SlotAt(r, log, k), WindowStart(r, log, k);
    && (slot > e.now || r.schedule.Ramp? ==> e.now + e.wait == Max(e.now, slot))
    && (slot <= e.now && r.schedule.Constant? ==>
          e.now + e.wait == Max(e.now, log[j].now + Hastened(r.schedule.rate, k - j)))
  }

  lemma MatchLeaves(r: ConnRun, log: seq<Sent>, k: nat)
    requires k < |log| && k < |r.turns| && Decided(r, log, k)
    ensures Leaves(r, log, k)
  {
    if r.schedule.Constant? {
      CatchUpIsHastened(r.schedule.rate, 0);
    }
  }

  lemma WhenRequestsLeave(r: ConnRun, k: nat)
    requires k < |r.Log()|
    ensures Leaves(r, r.Log(), k)
  {
    NoMoreThanTurns(r);
    TurnDecides(r, k);
    MatchLeaves(r, r.Log(), k);
  }

  // ---- the counters and the samples ----

  /** The requests that were answered, those of one verdict, and those lost in one way. */
  ghost function Answers(log: seq<Sent>): set<nat> {
    set k: nat | k < |log| && log[k].outcome.Got?
  }

  ghost function Judgements(log: seq<Sent>, v: Verdict): set<nat> {
    set k: nat | k < |log| && log[k].outcome.Got? && log[k].outcome.verdict == v
  }

  ghost function Losses(log: seq<Sent>, timeout: bool): set<nat> {
    set k: nat | k < |log| && log[k].outcome == Lost(timeout)
  }

  /** Each counter of a result is the number of requests it is named after. */
  ghost predicate Counted(log: seq<Sent>, r: ConnResult) {
    && r.tally.completed == |Answers(log)| && r.timeouts == |Losses(log, true)|
    && r.connErrors == |Losses(log, false)| && r.backoffUs == Paused(log, |log|)
  }

  lemma TalliedGets(r: ConnResult, o: Outcome)
    ensures Tallied(r, o).tally.completed == r.tally.completed + (if o.Got? then 1 else 0)
    ensures Tallied(r, o).timeouts == r.timeouts + (if o == Lost(true) then 1 else 0)
    ensures Tallied(r, o).connErrors == r.connErrors + (if o == Lost(false) then 1 else 0)
    ensures Tallied(r, o).backoffUs == r.backoffUs + (if o.Got? then o.pause else 0)
    ensures forall v ::
              Tallied(r, o).tally.Get(Of(v)) == r.tally.Get(Of(v)) + (if o.Got? && o.verdict == v then 1 else 0)
  {
  }

  lemma {:induction false} PausedStays(log: seq<Sent>, e: Sent, k: nat)
    requires k <= |log|
    ensures Paused(log + [e], k) == Paused(log, k)
  {
    if k > 0 {
      PausedStays(log, e, k - 1);
    }
  }

  lemma AnswersMore(log: seq<Sent>, e: Sent)
    ensures |Answers(log + [e])| == |Answers(log)| + if e.outcome.Got? then 1 else 0
  {
    assert Answers(log + [e]) == Answers(log) + if e.outcome.Got? then {|log|} else {};
  }

  lemma LossesMore(log: seq<Sent>, e: Sent, timeout: bool)
    ensures |Losses(log + [e], timeout)| == |Losses(log, timeout)| + if e.outcome == Lost(timeout) then 1 else 0
  {
    assert Losses(log + [e], timeout) == Losses(log, timeout) + if e.outcome == Lost(timeout) then {|log|} else {};
  }

  lemma CountsMore(log: seq<Sent>, e: Sent, r: ConnResult)
    requires Counted(log, r)
    ensures Counted(log + [e], Tallied(r, e.outcome))
  {
    TalliedGets(r, e.outcome);
    PausedStays(log, e, |log|);
    AnswersMore(log, e);
    LossesMore(log, e, true);
    LossesMore(log, e, false);
  }

  lemma JudgedMore(log: seq<Sent>, e: Sent, v: Verdict)
    ensures |Judgements(log + [e], v)| ==
            |Judgements(log, v)| + if e.outcome.Got? && e.outcome.verdict == v then 1 else 0
  {
    var o := e.outcome;
    assert Judgements(log + [e], v) ==
           Judgements(log, v) + if o.Got? && o.verdict == v then {|log|} else {};
  }

  lemma {:induction false} ResultCounts(log: seq<Sent>)
    ensures Counted(log, ResultOf(log))
  {
    if log != [] {
      var k := |log| - 1;
      ResultCounts(log[..k]);
      CountsMore(log[..k], log[k], ResultOf(log[..k]));
      assert log == log[..k] + [log[k]];
    }
  }

  lemma NothingJudged(v: Verdict)
    ensures ResultOf([]).tally.Get(Of(v)) == 0
  {
    ZeroGets(Of(v));
  }

  lemma {:induction false} ResultJudges(log: seq<Sent>, v: Verdict)
    ensures ResultOf(log).tally.Get(Of(v)) == |Judgements(log, v)|
  {
    if log == [] {
      NothingJudged(v);
    } else {
      var k := |log| - 1;
      ResultJudges(log[..k], v);
      TalliedGets(ResultOf(log[..k]), log[k].outcome);
      JudgedMore(log[..k], log[k], v);
      assert log == log[..k] + [log[k]];
    }
  }

  ghost predicate Judges(log: seq<Sent>, t: Tally) {
    && t.pass == |Judgements(log, Pass)| && t.failStatus == |Judgements(log, FailStatus)|
    && t.failLatency == |Judgements(log, FailLatency)| && t.failSize == |Judgements(log, FailSize)|
    && t.failContentType == |Judgements(log, FailContentType)| && t.rateLimited == |Judgements(log, RateLimited)|
  }

  lemma FieldsJudge(log: seq<Sent>, t: Tally)
    requires t == ResultOf(log).tally
    ensures Judges(log, t)
  {
    ResultJudges(log, Pass);
    ResultJudges(log, FailStatus);
    ResultJudges(log, FailLatency);
    ResultJudges(log, FailSize);
    ResultJudges(log, FailContentType);
    ResultJudges(log, RateLimited);
  }

  /** Every counter of the task's result is the number of requests it is named after. */
  lemma CountersCount(log: seq<Sent>)
    ensures var r := ResultOf(log);
            && r.tally.completed == |Answers(log)| && Judges(log, r.tally)
            && r.timeouts == |Losses(log, true)| && r.connErrors == |Losses(log, false)|
            && r.backoffUs == Paused(log, |log|)
  {
    ResultCounts(log);
    FieldsJudge(log, ResultOf(log).tally);
  }

  /** The first k requests were answered with these latencies. */
  ghost predicate LatenciesOf(log: seq<Sent>, c: seq<nat>, u: seq<nat>, k: nat)
    requires k <= |log|
  {
    && |c| == |u| == k
    && forall i :: 0 <= i < k ==>
         log[i].outcome.Got? && c[i] == log[i].outcome.corrected && u[i] == log[i].outcome.uncorrected
  }

  lemma LatenciesMore(log: seq<Sent>, c: seq<nat>, u: seq<nat>, k: nat)
    requires k < |log| && LatenciesOf(log, c, u, k) && log[k].outcome.Got?
    ensures LatenciesOf(log, c + [log[k].outcome.corrected], u + [log[k].outcome.uncorrected], k + 1)
  {
  }

  lemma {:induction false} SamplesOfAnswered(log: seq<Sent>, k: nat)
    requires k <= |log| && forall i :: 0 <= i < k ==> log[i].outcome.Got?
    ensures LatenciesOf(log, Corrected(log[..k]), Uncorrected(log[..k]), k)
  {
    if k > 0 {
      SamplesOfAnswered(log, k - 1);
      LatenciesMore(log, Corrected(log[..k - 1]), Uncorrected(log[..k - 1]), k - 1);
      PrefixMore(log, k - 1);
      LogGrows(log[..k - 1], log[k - 1]);
    }
  }

  /** Samples that are the latencies of the requests in order; only the last can lack one. */
  ghost predicate SamplesOf(log: seq<Sent>, c: seq<nat>, u: seq<nat>) {
    LatenciesOf(log, c, u, if log != [] && log[|log| - 1].outcome.Lost? then |log| - 1 else |log|)
  }

  lemma SamplesOfLog(r: ConnRun, log: seq<Sent>)
    requires LogOk(r.cfg, r.offset, r.schedule, log)
    ensures SamplesOf(log, Corrected(log), Uncorrected(log))
  {
    forall i | 0 <= i < |log| - 1
      ensures log[i].outcome.Got?
    {
      assert Follows(log, i);
    }
    WholePrefix(log);
    if log != [] && log[|log| - 1].outcome.Lost? {
      SamplesOfAnswered(log, |log| - 1);
      LastApart([], log);
      LogGrows(log[..|log| - 1], log[|log| - 1]);
    } else {
      SamplesOfAnswered(log, |log|);
    }
  }

  lemma SamplesAreLatencies(r: ConnRun)
    ensures SamplesOf(r.Log(), Corrected(r.Log()), Uncorrected(r.Log()))
  {
    RunKeepsInv(r.cfg, r.offset, r.schedule, r.turns);
    SamplesOfLog(r, r.Log());
  }
}
