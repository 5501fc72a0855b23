/** Honouring a 429 is a pure pause: a longer or shorter back-off moves the rest of the run in
    time and changes nothing that is measured. */
module BackoffTranslation {
  import opened Verdicts
  import opened Scheduler
  import opened ConnectionLoop

  /** Two schedules that differ only by a displacement of `delta` microseconds. A catch-up window
      that is not open, or that a ramp would never use, does not count. */
  ghost predicate Displaced(s: State, s': State, delta: int) {
    && s.Valid() && s'.Valid()
    && s'.start == s.start + delta && s'.complete == s.complete && s'.schedule == s.schedule
    && (s'.Behind() <==> s.Behind())
    && (s.Behind() ==> s'.anchor == s.anchor + delta && s'.anchorComplete == s.anchorComplete)
  }

  lemma PaceIsDisplaced(s: State, s': State, delta: int, now: nat, now': nat)
    requires Displaced(s, s', delta) && now' == now + delta
    ensures Pace(s', now').1 == Pace(s, now).1
    ensures Displaced(Pace(s, now).0, Pace(s', now').0, delta)
  {
  }

  /** What a run reports of one request; no clock reading in it. */
  datatype Observation =
    | Measured(index: nat, wait: nat, corrected: nat, uncorrected: nat, verdict: Verdict)
    | Missing(index: nat, wait: nat, timeout: bool)

  function Observe(e: Sent): Observation {
    match e.outcome
    case Got(_, c, u, v, _) => Measured(e.sched.complete, e.wait, c, u, v)
    case Lost(timeout) => Missing(e.sched.complete, e.wait, timeout)
  }

  function Observed(log: seq<Sent>): seq<Observation> {
    if log == [] then [] else Observed(log[..|log| - 1]) + [Observe(log[|log| - 1])]
  }

  lemma ObservedGrows(log: seq<Sent>, e: Sent)
    ensures Observed(log + [e]) == Observed(log) + [Observe(e)]
  {
    assert (log + [e])[..|log|] == log;
  }

  /** The pause that a turn's response asks for. */
  function PauseOf(cfg: Config, t: Turn): nat {
    if t.reply.Answered? then PauseUs(cfg, t.reply.resp) else 0
  }

  /** How late a turn's pause ends, if there is one. */
  function LateOf(cfg: Config, t: Turn): nat { if PauseOf(cfg, t) > 0 then t.overpause else 0 }

  /** The same turn but for the length of a back-off, which ends as late as the other one. */
  ghost predicate SameButPause(cfg: Config, cfg': Config, t: Turn, t': Turn) {
    && t' == t.(reply := t'.reply, overpause := t'.overpause)
    && LateOf(cfg, t) == LateOf(cfg', t')
    && (if t.reply.Answered? && t'.reply.Answered?
        then
          && t.reply.afterUs == t'.reply.afterUs
          && t.reply.resp.(retryAfterMs := None) == t'.reply.resp.(retryAfterMs := None)
        else t.reply == t'.reply)
  }

  predicate PacedBehind(cfg: Config, c: Conn, t: Turn)
    requires c.sched.Valid()
  {
    Attempt(cfg, c, t).Some? && Attempt(cfg, c, t).value.sched.Behind()
  }

  /** Either both pauses are positive or neither is, or the request they follow was not catching up. */
  ghost predicate Harmless(cfg: Config, cfg': Config, c: Conn, t: Turn, t': Turn)
    requires c.sched.Valid()
  {
    (PauseOf(cfg, t) > 0 <==> PauseOf(cfg', t') > 0) || !PacedBehind(cfg, c, t)
  }

  ghost predicate TurnCorresponds(cfg: Config, cfg': Config, c: Conn, t: Turn, t': Turn)
    requires c.sched.Valid()
  {
    SameButPause(cfg, cfg', t, t') && Harmless(cfg, cfg', c, t, t')
  }

  ghost predicate SameButCap(cfg: Config, cfg': Config) { cfg' == cfg.(maxBackoffMs := cfg'.maxBackoffMs) }

  /** Both loops are running, `delta` apart, and have reported the same. */
  ghost predicate Linked(c: Conn, c': Conn, delta: int) {
    && !c.done && !c'.done && c.aborted == c'.aborted
    && Displaced(c.sched, c'.sched, delta) && c'.clock == c.clock + delta
    && Observed(c'.log) == Observed(c.log)
  }

  /** The loop will send nothing more. */
  ghost predicate Stopped(cfg: Config, c: Conn) { c.done || c.aborted || c.clock >= cfg.deadlineUs }

  /** One of the two runs has been cut off, and the other has reported at least as much. */
  ghost predicate Cut(cfg: Config, c: Conn, c': Conn) {
    || (Stopped(cfg, c) && Observed(c.log) <= Observed(c'.log))
    || (Stopped(cfg, c') && Observed(c'.log) <= Observed(c.log))
  }

  /** The runs are linked, at the distance of their schedule origins, or one of them is cut off. */
  ghost predicate Together(cfg: Config, c: Conn, c': Conn) {
    Cut(cfg, c, c') || Linked(c, c', c'.sched.start - c.sched.start)
  }

  lemma StoppedStays(cfg: Config, c: Conn, t: Turn)
    requires c.sched.Valid() && Stopped(cfg, c)
    ensures Stopped(cfg, Step(cfg, c, t)) && Step(cfg, c, t).log == c.log
  {
  }

  lemma StepExtends(cfg: Config, c: Conn, t: Turn)
    requires c.sched.Valid()
    ensures Observed(c.log) <= Observed(Step(cfg, c, t).log)
  {
    if Attempt(cfg, c, t).Some? {
      ObservedGrows(c.log, Attempt(cfg, c, t).value);
    }
  }

  ghost predicate Corresponding(e: Sent, e': Sent, delta: int) {
    && Observe(e) == Observe(e') && Displaced(e.sched, e'.sched, delta)
    && (e.outcome.Got? <==> e'.outcome.Got?)
    && (e.outcome.Got? ==> e'.outcome.recv == e.outcome.recv + delta)
  }

  lemma FiringCorresponds(
    cfg: Config, cfg': Config, s: State, s': State, delta: int, now: nat, now': nat, wait: nat, t: Turn, t': Turn)
    requires SameButCap(cfg, cfg') && SameButPause(cfg, cfg', t, t')
    requires Displaced(s, s', delta) && now' == now + delta
    requires Fire(cfg, s, now, wait, t).Some? && Fire(cfg', s', now', wait, t').Some?
    ensures Corresponding(Fire(cfg, s, now, wait, t).value, Fire(cfg', s', now', wait, t').value, delta)
  {
  }

  /** Two linked runs attempt corresponding requests, or one of them is cut off by the deadline. */
  lemma AttemptsCorrespond(cfg: Config, cfg': Config, c: Conn, c': Conn, delta: int, t: Turn, t': Turn)
    requires SameButCap(cfg, cfg') && Linked(c, c', delta) && SameButPause(cfg, cfg', t, t')
    requires Attempt(cfg, c, t).Some? && Attempt(cfg', c', t').Some?
    ensures Corresponding(Attempt(cfg, c, t).value, Attempt(cfg', c', t').value, delta)
  {
    var now, now' := c.clock + t.idle, c'.clock + t'.idle;
    var p, p' := Pace(c.sched, now), Pace(c'.sched, now');
    assert p.1 == p'.1 && Displaced(p.0, p'.0, delta) by { PaceIsDisplaced(c.sched, c'.sched, delta, now, now'); }
    assert Attempt(cfg, c, t) == Fire(cfg, p.0, now, p.1, t);
    assert Attempt(cfg', c', t') == Fire(cfg', p'.0, now', p'.1, t');
    FiringCorresponds(cfg, cfg', p.0, p'.0, delta, now, now', p.1, t, t');
  }

  lemma FollowIsDisplaced(s: State, s': State, delta: int, pause: nat, pause': nat)
    requires Displaced(s, s', delta) && ((pause > 0 <==> pause' > 0) || !s.Behind())
    ensures Displaced(Follow(s, pause), Follow(s', pause'), delta + pause' - pause)
  {
  }

  /** The clocks after two pauses that end equally late, unless one run is at its end. */
  lemma ClocksAfterPauses(cfg: Config, cfg': Config, t: Turn, t': Turn, settled: nat, settled': nat, delta: int)
    requires SameButCap(cfg, cfg') && SameButPause(cfg, cfg', t, t') && settled' == settled + delta
    ensures var pause, pause' := PauseOf(cfg, t), PauseOf(cfg', t');
            || settled >= cfg.deadlineUs || settled' >= cfg.deadlineUs
            || ((pause > 0 || pause' > 0) && t.abortInPause)
            || AfterPause(cfg', settled', pause', t') == AfterPause(cfg, settled, pause, t) + delta + pause' - pause
  {
  }

  /** The loop state that a response and its pause leave behind. */
  ghost predicate Absorbed(cfg: Config, c: Conn, t: Turn, e: Sent, d: Conn) {
    && e.outcome.Got? && !d.done && d.log == c.log + [e]
    && d.sched == Follow(e.sched, e.outcome.pause)
    && d.clock == AfterPause(cfg, e.outcome.recv + t.settle, e.outcome.pause, t)
    && (d.aborted <==>
          (e.outcome.verdict.RateLimited? && cfg.action.Abort?) || (e.outcome.pause > 0 && t.abortInPause))
  }

  lemma StepAbsorbs(cfg: Config, c: Conn, t: Turn)
    requires c.sched.Valid() && Attempt(cfg, c, t).Some? && Attempt(cfg, c, t).value.outcome.Got?
    ensures Absorbed(cfg, c, t, Attempt(cfg, c, t).value, Step(cfg, c, t))
    ensures Attempt(cfg, c, t).value.outcome.pause == PauseOf(cfg, t)
  {
  }

  /** Both loops go on, reporting the same so far, or one of them is at its end. */
  lemma LinkedOrCut(cfg: Config, d: Conn, d': Conn, delta: int)
    requires !d.done && !d'.done && Displaced(d.sched, d'.sched, delta) && Observed(d.log) == Observed(d'.log)
    requires || Stopped(cfg, d) || Stopped(cfg, d')
             || (d.aborted == d'.aborted && d'.clock == d.clock + delta)
    ensures Together(cfg, d, d')
  {
  }

  lemma SameReports(c: Conn, c': Conn, e: Sent, e': Sent)
    requires Observed(c.log) == Observed(c'.log) && Observe(e) == Observe(e')
    ensures Observed(c.log + [e]) == Observed(c'.log + [e'])
  {
    ObservedGrows(c.log, e);
    ObservedGrows(c'.log, e');
  }

  /** After corresponding requests the runs are linked again, further apart by the difference of
      their pauses, unless one of them has passed its deadline. */
  lemma AbsorbLinks(
    cfg: Config, cfg': Config, c: Conn, c': Conn, delta: int, t: Turn, t': Turn, e: Sent, e': Sent, d: Conn, d': Conn)
    requires SameButCap(cfg, cfg') && Observed(c.log) == Observed(c'.log) && SameButPause(cfg, cfg', t, t')
    requires Corresponding(e, e', delta) && Absorbed(cfg, c, t, e, d) && Absorbed(cfg', c', t', e', d')
    requires e.outcome.pause == PauseOf(cfg, t) && e'.outcome.pause == PauseOf(cfg', t')
    requires (e.outcome.pause > 0 <==> e'.outcome.pause > 0) || !e.sched.Behind()
    ensures Together(cfg, d, d')
  {
    SameReports(c, c', e, e');
    FollowIsDisplaced(e.sched, e'.sched, delta, e.outcome.pause, e'.outcome.pause);
    ClocksAfterPauses(cfg, cfg', t, t', e.outcome.recv + t.settle, e'.outcome.recv + t'.settle, delta);
    LinkedOrCut(cfg, d, d', delta + e'.outcome.pause - e.outcome.pause);
  }

  /** A loop whose request was lost is over. */
  lemma StepLoses(cfg: Config, c: Conn, t: Turn)
    requires c.sched.Valid() && Attempt(cfg, c, t).Some? && Attempt(cfg, c, t).value.outcome.Lost?
    ensures Step(cfg, c, t).done && Step(cfg, c, t).log == c.log + [Attempt(cfg, c, t).value]
  {
  }

  lemma NoAttemptStops(cfg: Config, c: Conn, t: Turn)
    requires c.sched.Valid() && Attempt(cfg, c, t).None?
    ensures Step(cfg, c, t).done && Step(cfg, c, t).log == c.log
  {
  }

  /** A loop that is over, and has reported no more than the other, is cut off. */
  lemma OverIsCut(cfg: Config, d: Conn, d': Conn)
    requires || (d.done && Observed(d.log) <= Observed(d'.log))
             || (d'.done && Observed(d'.log) <= Observed(d.log))
    ensures Together(cfg, d, d')
  {
  }

  lemma OneStopCuts(cfg: Config, cfg': Config, c: Conn, c': Conn, t: Turn, t': Turn, d: Conn, d': Conn)
    requires c.sched.Valid() && c'.sched.Valid() && Observed(c.log) == Observed(c'.log)
    requires d == Step(cfg, c, t) && d' == Step(cfg', c', t')
    requires Attempt(cfg, c, t).None? || Attempt(cfg', c', t').None?
    ensures Together(cfg, d, d')
  {
    StepExtends(cfg, c, t);
    StepExtends(cfg', c', t');
    if Attempt(cfg, c, t).None? {
      NoAttemptStops(cfg, c, t);
    } else {
      NoAttemptStops(cfg', c', t');
    }
    OverIsCut(cfg, d, d');
  }

  lemma LossCutsBoth(cfg: Config, cfg': Config, c: Conn, c': Conn, t: Turn, t': Turn, d: Conn, d': Conn)
    requires c.sched.Valid() && c'.sched.Valid() && Observed(c.log) == Observed(c'.log)
    requires d == Step(cfg, c, t) && d' == Step(cfg', c', t')
    requires Attempt(cfg, c, t).Some? && Attempt(cfg', c', t').Some?
    requires Attempt(cfg, c, t).value.outcome.Lost? && Attempt(cfg', c', t').value.outcome.Lost?
    requires Observe(Attempt(cfg, c, t).value) == Observe(Attempt(cfg', c', t').value)
    ensures Together(cfg, d, d')
  {
    StepLoses(cfg, c, t);
    StepLoses(cfg', c', t');
    SameReports(c, c', Attempt(cfg, c, t).value, Attempt(cfg', c', t').value);
    OverIsCut(cfg, d, d');
  }

  lemma GotLinks(
    cfg: Config, cfg': Config, c: Conn, c': Conn, delta: int, t: Turn, t': Turn, d: Conn, d': Conn)
    requires SameButCap(cfg, cfg') && Linked(c, c', delta) && TurnCorresponds(cfg, cfg', c, t, t')
    requires d == Step(cfg, c, t) && d' == Step(cfg', c', t')
    requires Attempt(cfg, c, t).Some? && Attempt(cfg', c', t').Some?
    requires Attempt(cfg, c, t).value.outcome.Got? && Attempt(cfg', c', t').value.outcome.Got?
    requires Corresponding(Attempt(cfg, c, t).value, Attempt(cfg', c', t').value, delta)
    ensures Together(cfg, d, d')
  {
    StepAbsorbs(cfg, c, t);
    StepAbsorbs(cfg', c', t');
    AbsorbLinks(cfg, cfg', c, c', delta, t, t', Attempt(cfg, c, t).value, Attempt(cfg', c', t').value, d, d');
  }

  lemma StepLinks(cfg: Config, cfg': Config, c: Conn, c': Conn, delta: int, t: Turn, t': Turn)
    requires SameButCap(cfg, cfg') && Linked(c, c', delta) && TurnCorresponds(cfg, cfg', c, t, t')
    ensures Together(cfg, Step(cfg, c, t), Step(cfg', c', t'))
  {
    var d, d' := Step(cfg, c, t), Step(cfg', c', t');
    if Attempt(cfg, c, t).None? || Attempt(cfg', c', t').None? {
      OneStopCuts(cfg, cfg', c, c', t, t', d, d');
    } else {
      AttemptsCorrespond(cfg, cfg', c, c', delta, t, t');
      if Attempt(cfg, c, t).value.outcome.Got? {
        GotLinks(cfg, cfg', c, c', delta, t, t', d, d');
      } else {
        LossCutsBoth(cfg, cfg', c, c', t, t', d, d');
      }
    }
  }

  lemma CutStays(cfg: Config, cfg': Config, c: Conn, c': Conn, t: Turn, t': Turn)
    requires SameButCap(cfg, cfg') && c.sched.Valid() && c'.sched.Valid() && Cut(cfg, c, c')
    ensures Cut(cfg, Step(cfg, c, t), Step(cfg', c', t'))
  {
    StepExtends(cfg, c, t);
    StepExtends(cfg', c', t');
    if Stopped(cfg, c) && Observed(c.log) <= Observed(c'.log) {
      StoppedStays(cfg, c, t);
    } else {
      StoppedStays(cfg', c', t');
    }
  }

  /** The schedule origin has moved by exactly the paused time the connection reports. */
  ghost predicate OriginIsPaused(offset: nat, c: Conn) { c.sched.start == offset + ResultOf(c.log).backoffUs }

  lemma AttemptKeepsStart(cfg: Config, c: Conn, t: Turn)
    requires c.sched.Valid() && Attempt(cfg, c, t).Some?
    ensures Attempt(cfg, c, t).value.sched.start == c.sched.start
  {
    PaceKeepsSlot(c.sched, c.clock + t.idle);
  }

  lemma StopKeepsStart(cfg: Config, c: Conn, t: Turn)
    requires c.sched.Valid() && Attempt(cfg, c, t).None?
    ensures Step(cfg, c, t).sched.start == c.sched.start && Step(cfg, c, t).log == c.log
  {
    PaceKeepsSlot(c.sched, c.clock + t.idle);
  }

  lemma AbsorbMovesOrigin(offset: nat, c: Conn, e: Sent, d: Conn)
    requires OriginIsPaused(offset, c) && e.sched.start == c.sched.start && d.log == c.log + [e]
    requires d.sched.start == e.sched.start + if e.outcome.Got? then e.outcome.pause else 0
    ensures OriginIsPaused(offset, d)
  {
    LogGrows(c.log, e);
  }

  lemma AbsorbedStart(cfg: Config, c: Conn, t: Turn)
    requires c.sched.Valid() && Attempt(cfg, c, t).Some?
    ensures var e, d := Attempt(cfg, c, t).value, Step(cfg, c, t);
            && d.log == c.log + [e]
            && d.sched.start == e.sched.start + if e.outcome.Got? then e.outcome.pause else 0
  {
  }

  lemma StepMovesOrigin(cfg: Config, offset: nat, c: Conn, t: Turn)
    requires c.sched.Valid() && OriginIsPaused(offset, c)
    ensures OriginIsPaused(offset, Step(cfg, c, t))
  {
    if Attempt(cfg, c, t).Some? {
      AttemptKeepsStart(cfg, c, t);
      AbsorbedStart(cfg, c, t);
      AbsorbMovesOrigin(offset, c, Attempt(cfg, c, t).value, Step(cfg, c, t));
    } else {
      StopKeepsStart(cfg, c, t);
    }
  }

  lemma {:induction false} RunMovesOrigin(cfg: Config, offset: nat, c: Conn, ts: seq<Turn>)
    requires c.sched.Valid() && OriginIsPaused(offset, c)
    ensures OriginIsPaused(offset, Run(cfg, c, ts))
  {
    if ts != [] {
      var k := |ts| - 1;
      RunMovesOrigin(cfg, offset, c, ts[..k]);
      StepMovesOrigin(cfg, offset, Run(cfg, c, ts[..k]), ts[k]);
    }
  }

  /** The two runs' turns differ in nothing but their pauses, and harmlessly. */
  ghost predicate TurnsCorrespond(cfg: Config, cfg': Config, c: Conn, ts: seq<Turn>, ts': seq<Turn>)
    requires c.sched.Valid()
  {
    |ts| == |ts'| && forall i :: 0 <= i < |ts| ==> TurnCorresponds(cfg, cfg', Run(cfg, c, ts[..i]), ts[i], ts'[i])
  }

  lemma FewerTurnsCorrespond(cfg: Config, cfg': Config, c: Conn, ts: seq<Turn>, ts': seq<Turn>)
    requires c.sched.Valid() && TurnsCorrespond(cfg, cfg', c, ts, ts') && ts != []
    ensures var k := |ts| - 1;
            && TurnsCorrespond(cfg, cfg', c, ts[..k], ts'[..k])
            && TurnCorresponds(cfg, cfg', Run(cfg, c, ts[..k]), ts[k], ts'[k])
  {
    var k := |ts| - 1;
    forall i | 0 <= i < k
      ensures TurnCorresponds(cfg, cfg', Run(cfg, c, ts[..k][..i]), ts[i], ts'[i])
    {
      assert ts[..k][..i] == ts[..i];
    }
  }

  lemma {:induction false} RunsStayTogether(
    cfg: Config, cfg': Config, c: Conn, c': Conn, ts: seq<Turn>, ts': seq<Turn>)
    requires SameButCap(cfg, cfg') && c.sched.Valid() && c'.sched.Valid() && Together(cfg, c, c')
    requires TurnsCorrespond(cfg, cfg', c, ts, ts')
    ensures Together(cfg, Run(cfg, c, ts), Run(cfg', c', ts'))
  {
    if ts != [] {
      var k := |ts| - 1;
      FewerTurnsCorrespond(cfg, cfg', c, ts, ts');
      RunsStayTogether(cfg, cfg', c, c', ts[..k], ts'[..k]);
      var d, d' := Run(cfg, c, ts[..k]), Run(cfg', c', ts'[..k]);
      if Cut(cfg, d, d') {
        CutStays(cfg, cfg', d, d', ts[k], ts'[k]);
      } else {
        StepLinks(cfg, cfg', d, d', d'.sched.start - d.sched.start, ts[k], ts'[k]);
      }
    }
  }

  /** The same wait, and the same latencies and verdict or the same loss. */
  ghost predicate SameRequest(e: Sent, e': Sent) {
    && e'.wait == e.wait
    && match (e.outcome, e'.outcome)
       case (Got(_, c, u, v, _), Got(_, c', u', v', _)) => c' == c && u' == u && v' == v
       case (Lost(timeout), Lost(timeout')) => timeout' == timeout
       case _ => false
  }

  /** As far as both logs go they agree; while neither run is cut off they are equally long, and the
      clocks are apart by exactly the difference of the paused times. */
  ghost predicate ReportAlike(cfg: Config, cfg': Config, c: Conn, c': Conn) {
    && (forall i :: 0 <= i < |c.log| && i < |c'.log| ==> SameRequest(c.log[i], c'.log[i]))
    && (!Stopped(cfg, c) && !Stopped(cfg', c') ==>
          && |c'.log| == |c.log|
          && c'.clock - c.clock == ResultOf(c'.log).backoffUs - ResultOf(c.log).backoffUs)
  }

  lemma SameObservation(e: Sent, e': Sent)
    requires Observe(e) == Observe(e')
    ensures SameRequest(e, e')
  {
  }

  lemma {:induction false} ObservedAt(log: seq<Sent>, i: nat)
    requires i < |log|
    ensures |Observed(log)| == |log| && Observed(log)[i] == Observe(log[i])
  {
    if i < |log| - 1 {
      ObservedAt(log[..|log| - 1], i);
    } else if i > 0 {
      ObservedAt(log[..|log| - 1], 0);
    }
  }

  lemma {:induction false} ObservedAll(log: seq<Sent>)
    ensures |Observed(log)| == |log|
  {
    if log != [] {
      ObservedAt(log, 0);
    }
  }

  lemma ObservedAlike(log: seq<Sent>, log': seq<Sent>)
    requires Observed(log) <= Observed(log') || Observed(log') <= Observed(log)
    ensures forall i :: 0 <= i < |log| && i < |log'| ==> SameRequest(log[i], log'[i])
  {
    forall i | 0 <= i < |log| && i < |log'|
      ensures SameRequest(log[i], log'[i])
    {
      ObservedAt(log, i);
      ObservedAt(log', i);
      SameObservation(log[i], log'[i]);
    }
  }

  lemma TogetherReportAlike(cfg: Config, cfg': Config, offset: nat, c: Conn, c': Conn)
    requires SameButCap(cfg, cfg') && Together(cfg, c, c')
    requires OriginIsPaused(offset, c) && OriginIsPaused(offset, c')
    ensures ReportAlike(cfg, cfg', c, c')
  {
    ObservedAlike(c.log, c'.log);
    ObservedAll(c.log);
    ObservedAll(c'.log);
  }

  /** Two runs that differ only in the lengths of their back-offs report the same waits, latencies
      and verdicts, request by request, up to the point where one meets the deadline. A zero pause
      may stand against a positive one wherever the request before it was not catching up. */
  lemma BackoffIsTranslation(
    cfg: Config, cfg': Config, offset: nat, schedule: Schedule, ts: seq<Turn>, ts': seq<Turn>)
    requires SameButCap(cfg, cfg') && TurnsCorrespond(cfg, cfg', Start(offset, schedule), ts, ts')
    ensures ReportAlike(cfg, cfg', Run(cfg, Start(offset, schedule), ts), Run(cfg', Start(offset, schedule), ts'))
  {
    var c := Start(offset, schedule);
    RunsStayTogether(cfg, cfg', c, c, ts, ts');
    RunMovesOrigin(cfg, offset, c, ts);
    RunMovesOrigin(cfg', offset, c, ts');
    TogetherReportAlike(cfg, cfg', offset, Run(cfg, c, ts), Run(cfg', c, ts'));
  }
}
