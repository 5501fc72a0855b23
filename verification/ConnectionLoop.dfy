/** One connection's send/receive loop. The environment is a sequence of turns made of delays, so
    every sequence of turns is a possible run: clock readings never decrease, a wait is never cut
    short, and the shared abort flag is never cleared once it has been seen set. */
module ConnectionLoop {
  import opened Arithmetic
  import opened Sequences
  import opened Verdicts
  import opened Scheduler
  import opened Histogram

  datatype Action = Continue | Backoff | Abort

  datatype Config = Config(deadlineUs: nat, rules: Rules, action: Action, maxBackoffMs: nat)

  datatype Reply = Answered(afterUs: nat, resp: Response) | TimedOut | Broken

  /** What the environment does during one iteration; all times in whole microseconds. */
  datatype Turn = Turn(
    abortSeen: bool,     // the abort flag as read at the top of the loop
    idle: nat,           // from the end of the previous iteration to reading the clock
    oversleep: nat,      // how late the sleep-then-spin wakes
    toWrite: nat,        // from waking to reading the send time
    reply: Reply,
    settle: nat,         // from the receive time to the back-off decision
    abortInPause: bool,  // the abort flag as read before a back-off sleep
    overpause: nat)      // how late a back-off sleep wakes

  datatype Outcome =
    | Got(recv: nat, corrected: nat, uncorrected: nat, verdict: Verdict, pause: nat)
    | Lost(timeout: bool)

  /** One request: the schedule just after pacing it, the clock readings around it, its outcome. */
  datatype Sent = Sent(sched: State, now: nat, wait: nat, wake: nat, at: nat, outcome: Outcome)

  datatype Conn = Conn(sched: State, clock: nat, aborted: bool, done: bool, log: seq<Sent>)

  function Start(offsetUs: nat, schedule: Schedule): Conn {
    Conn(Fresh(offsetUs, schedule), 0, false, false, [])
  }

  /** The `Retry-After` pause honoured after a response, in microseconds. */
  function PauseUs(cfg: Config, resp: Response): nat {
    if resp.status == 429 && cfg.action.Backoff? && resp.retryAfterMs.Some?
    then Min(resp.retryAfterMs.value, cfg.maxBackoffMs) * 1000
    else 0
  }

  function Judge(cfg: Config, s: State, at: nat, recv: nat, resp: Response): Outcome {
    var corrected := Max(Sub(recv, s.Intended()), 1);
    var uncorrected := Max(Sub(recv, at), 1);
    Got(recv, corrected, uncorrected, Classify(cfg.rules, resp, corrected), PauseUs(cfg, resp))
  }

  /** The schedule after a response: the origin moves by the pause, then the index advances. */
  function Follow(s: State, pause: nat): State {
    Advance(if pause > 0 then Defer(s, pause) else s)
  }

  /** The request written after waiting, unless the wait ends past the deadline. */
  function Fire(cfg: Config, s: State, now: nat, wait: nat, t: Turn): Option<Sent> {
    var wake := now + wait + t.oversleep;
    if wake >= cfg.deadlineUs then None
    else
      var at := wake + t.toWrite;
      Some(Sent(s, now, wait, wake, at,
                match t.reply
                case TimedOut => Lost(true)
                case Broken => Lost(false)
                case Answered(afterUs, resp) => Judge(cfg, s, at, at + afterUs, resp)))
  }

  /** The request of one iteration, if it gets as far as being written. */
  function Attempt(cfg: Config, c: Conn, t: Turn): Option<Sent>
    requires c.sched.Valid()
  {
    var now := c.clock + t.idle;
    if c.done || c.aborted || t.abortSeen || now >= cfg.deadlineUs then None
    else
      var (s, wait) := Pace(c.sched, now);
      Fire(cfg, s, now, wait, t)
  }

  /** The clock after the back-off decision: asleep for the pause unless aborted or past the end. */
  function AfterPause(cfg: Config, settled: nat, pause: nat, t: Turn): nat {
    if pause > 0 && !t.abortInPause && settled < cfg.deadlineUs then settled + pause + t.overpause else settled
  }

  /** The loop state after a request: over if it was lost, otherwise ready for the next one. */
  function Absorb(cfg: Config, c: Conn, t: Turn, e: Sent): Conn {
    match e.outcome
    case Lost(_) => c.(sched := e.sched, done := true, log := c.log + [e])
    case Got(recv, _, _, verdict, pause) =>
      Conn(Follow(e.sched, pause),
           AfterPause(cfg, recv + t.settle, pause, t),
           (verdict.RateLimited? && cfg.action.Abort?) || (pause > 0 && t.abortInPause),
           false,
           c.log + [e])
  }

  /** The loop state when an iteration ends the loop without writing a request. */
  function Stop(cfg: Config, c: Conn, t: Turn): Conn
    requires c.sched.Valid()
  {
    var now := c.clock + t.idle;
    if c.done || c.aborted || t.abortSeen || now >= cfg.deadlineUs then c.(done := true)
    else c.(done := true, sched := Pace(c.sched, now).0)
  }

  function Step(cfg: Config, c: Conn, t: Turn): Conn
    requires c.sched.Valid()
  {
    match Attempt(cfg, c, t)
    case None => Stop(cfg, c, t)
    case Some(e) => Absorb(cfg, c, t, e)
  }

  lemma PaceKeepsSlot(s: State, now: nat)
    requires s.Valid()
    ensures var (p, wait) := Pace(s, now);
            p.Valid() && p.start == s.start && p.complete == s.complete && p.schedule == s.schedule
            && p.Intended() <= now + wait
  {
  }

  function Run(cfg: Config, c: Conn, ts: seq<Turn>): (r: Conn)
    requires c.sched.Valid()
    ensures r.sched.Valid()
  {
    if ts == [] then c else Step(cfg, Run(cfg, c, ts[..|ts| - 1]), ts[|ts| - 1])
  }

  // ---- what the log of every run satisfies ----

  ghost predicate EntryOk(cfg: Config, offset: nat, schedule: Schedule, i: nat, e: Sent) {
    && e.sched.Valid() && e.sched.complete == i && e.sched.schedule == schedule && offset <= e.sched.start
    && e.sched.Intended() <= e.now + e.wait <= e.wake < cfg.deadlineUs
    && e.wake <= e.at
    && (e.sched.caughtUp <==> e.sched.Intended() > e.now)
    && (e.outcome.Got? ==>
          && e.at <= e.outcome.recv
          && e.outcome.corrected == Max(Sub(e.outcome.recv, e.sched.Intended()), 1)
          && e.outcome.uncorrected == Max(Sub(e.outcome.recv, e.at), 1))
  }

  /** Request i + 1 was paced from the schedule that request i left behind. */
  ghost predicate Follows(log: seq<Sent>, i: nat)
    requires i + 1 < |log|
  {
    var d := log[i];
    && d.outcome.Got? && d.sched.Valid()
    && (log[i + 1].sched, log[i + 1].wait) == Pace(Follow(d.sched, d.outcome.pause), log[i + 1].now)
  }

  ghost predicate LogOk(cfg: Config, offset: nat, schedule: Schedule, log: seq<Sent>) {
    && (forall i :: 0 <= i < |log| ==> EntryOk(cfg, offset, schedule, i, log[i]))
    && (forall i :: 0 <= i < |log| - 1 ==> Follows(log, i))
    && (log != [] ==> (log[0].sched, log[0].wait) == Pace(Fresh(offset, schedule), log[0].now))
  }

  /** A running loop's schedule is the one its last request left behind. */
  ghost predicate Continues(offset: nat, schedule: Schedule, c: Conn) {
    && c.sched.complete == |c.log|
    && (c.log == [] ==> c.sched == Fresh(offset, schedule))
    && (c.log != [] ==>
          var e := c.log[|c.log| - 1];
          e.outcome.Got? && c.sched == Follow(e.sched, e.outcome.pause))
  }

  ghost predicate Inv(cfg: Config, offset: nat, schedule: Schedule, c: Conn) {
    && c.sched.Valid() && c.sched.schedule == schedule && offset <= c.sched.start
    && LogOk(cfg, offset, schedule, c.log)
    && (!c.done ==> Continues(offset, schedule, c))
  }

  lemma AttemptIsOk(cfg: Config, offset: nat, schedule: Schedule, c: Conn, t: Turn)
    requires Inv(cfg, offset, schedule, c) && Attempt(cfg, c, t).Some?
    ensures var e := Attempt(cfg, c, t).value;
            EntryOk(cfg, offset, schedule, |c.log|, e) && (e.sched, e.wait) == Pace(c.sched, e.now)
  {
    PaceKeepsSlot(c.sched, c.clock + t.idle);
  }

  lemma LogExtends(cfg: Config, offset: nat, schedule: Schedule, c: Conn, e: Sent)
    requires Inv(cfg, offset, schedule, c) && !c.done
    requires EntryOk(cfg, offset, schedule, |c.log|, e) && (e.sched, e.wait) == Pace(c.sched, e.now)
    ensures LogOk(cfg, offset, schedule, c.log + [e])
  {
    var n, log := |c.log|, c.log + [e];
    assert forall i :: 0 <= i < n ==> log[i] == c.log[i];
    forall i | 0 <= i < n
      ensures Follows(log, i)
    {
      if i < n - 1 {
        assert Follows(c.log, i);
      }
    }
  }

  lemma StepKeepsInv(cfg: Config, offset: nat, schedule: Schedule, c: Conn, t: Turn)
    requires Inv(cfg, offset, schedule, c)
    ensures Inv(cfg, offset, schedule, Step(cfg, c, t))
  {
    if Attempt(cfg, c, t).Some? {
      AttemptIsOk(cfg, offset, schedule, c, t);
      LogExtends(cfg, offset, schedule, c, Attempt(cfg, c, t).value);
    }
  }

  lemma {:induction false} RunKeepsInv(cfg: Config, offset: nat, schedule: Schedule, ts: seq<Turn>)
    ensures Inv(cfg, offset, schedule, Run(cfg, Start(offset, schedule), ts))
  {
    if ts != [] {
      var k := |ts| - 1;
      RunKeepsInv(cfg, offset, schedule, ts[..k]);
      StepKeepsInv(cfg, offset, schedule, Run(cfg, Start(offset, schedule), ts[..k]), ts[k]);
    }
  }

  function LogOf(cfg: Config, offset: nat, schedule: Schedule, ts: seq<Turn>): seq<Sent> {
    Run(cfg, Start(offset, schedule), ts).log
  }

  // ---- latency never under-reported ----

  function Corrected(log: seq<Sent>): seq<nat> {
    if log == [] then []
    else
      var e := log[|log| - 1];
      Corrected(log[..|log| - 1]) + if e.outcome.Got? then [e.outcome.corrected] else []
  }

  function Uncorrected(log: seq<Sent>): seq<nat> {
    if log == [] then []
    else
      var e := log[|log| - 1];
      Uncorrected(log[..|log| - 1]) + if e.outcome.Got? then [e.outcome.uncorrected] else []
  }

  /** In every run no request leaves before its intended slot, so its corrected latency is at
      least the uncorrected one. */
  lemma NeverEarly(cfg: Config, offset: nat, schedule: Schedule, ts: seq<Turn>, i: nat)
    requires i < |LogOf(cfg, offset, schedule, ts)|
    ensures var e := LogOf(cfg, offset, schedule, ts)[i];
            && e.sched.complete == i
            && offset + Slot(schedule, i) <= e.sched.Intended() <= e.at
            && (e.outcome.Got? ==> e.outcome.corrected >= e.outcome.uncorrected)
  {
    RunKeepsInv(cfg, offset, schedule, ts);
    assert EntryOk(cfg, offset, schedule, i, LogOf(cfg, offset, schedule, ts)[i]);
  }

  lemma {:induction false} SamplesDominate(log: seq<Sent>)
    requires forall i :: 0 <= i < |log| && log[i].outcome.Got? ==>
               log[i].outcome.corrected >= log[i].outcome.uncorrected
    ensures |Corrected(log)| == |Uncorrected(log)|
    ensures forall i :: 0 <= i < |Corrected(log)| ==> Corrected(log)[i] >= Uncorrected(log)[i]
  {
    if log != [] {
      SamplesDominate(log[..|log| - 1]);
    }
  }

  /** One connection of a worker, and everything that happens to it. */
  datatype ConnRun = ConnRun(cfg: Config, offset: nat, schedule: Schedule, turns: seq<Turn>)
  {
    function Log(): seq<Sent> { LogOf(cfg, offset, schedule, turns) }
  }

  /** The samples of all connections, one connection after the other. */
  function PooledCorrected(runs: seq<ConnRun>): seq<nat> {
    if runs == [] then [] else PooledCorrected(runs[..|runs| - 1]) + Corrected(runs[|runs| - 1].Log())
  }

  function PooledUncorrected(runs: seq<ConnRun>): seq<nat> {
    if runs == [] then [] else PooledUncorrected(runs[..|runs| - 1]) + Uncorrected(runs[|runs| - 1].Log())
  }

  ghost predicate Dominates(c: seq<nat>, u: seq<nat>) {
    |c| == |u| && forall i :: 0 <= i < |c| ==> c[i] >= u[i]
  }

  lemma LogDominates(r: ConnRun)
    ensures Dominates(Corrected(r.Log()), Uncorrected(r.Log()))
  {
    var log := r.Log();
    forall i | 0 <= i < |log| && log[i].outcome.Got?
      ensures log[i].outcome.corrected >= log[i].outcome.uncorrected
    {
      NeverEarly(r.cfg, r.offset, r.schedule, r.turns, i);
    }
    SamplesDominate(log);
  }

  lemma DominatesAppend(c: seq<nat>, u: seq<nat>, d: seq<nat>, v: seq<nat>)
    requires Dominates(c, u) && Dominates(d, v)
    ensures Dominates(c + d, u + v)
  {
  }

  lemma {:induction false} PoolDominates(runs: seq<ConnRun>)
    ensures Dominates(PooledCorrected(runs), PooledUncorrected(runs))
  {
    if runs != [] {
      var k := |runs| - 1;
      PoolDominates(runs[..k]);
      LogDominates(runs[k]);
      DominatesAppend(PooledCorrected(runs[..k]), PooledUncorrected(runs[..k]),
                      Corrected(runs[k].Log()), Uncorrected(runs[k].Log()));
    }
  }

  /** The worker's shared histograms: whatever its connections live through, and in whatever order
      their samples were recorded, at every quantile the corrected one reads at least the other. */
  lemma CorrectedQuantilesDominate(runs: seq<ConnRun>, c: seq<nat>, u: seq<nat>, l: Layout, q: Quantile)
    requires IsQuantile(q)
    requires multiset(c) == multiset(PooledCorrected(runs)) && multiset(u) == multiset(PooledUncorrected(runs))
    ensures ValueAt(l, HistOf(l, c), q) >= ValueAt(l, HistOf(l, u), q)
  {
    PoolDominates(runs);
    OrderIrrelevant(l, c, PooledCorrected(runs));
    OrderIrrelevant(l, u, PooledUncorrected(runs));
    QuantilesDominate(l, PooledCorrected(runs), PooledUncorrected(runs), q);
  }

  lemma SameSize(a: seq<nat>, b: seq<nat>)
    requires multiset(a) == multiset(b)
    ensures |a| == |b|
  {
    assert |a| == |multiset(a)| && |b| == |multiset(b)|;
  }

  lemma SummaryAtLeast(l: Layout, c: Counts, u: Counts)
    requires Total(c) == Total(u) && forall q: Quantile :: IsQuantile(q) ==> ValueAt(l, c, q) >= ValueAt(l, u, q)
    ensures AtLeast(Summarize(l, c), Summarize(l, u))
  {
    assert IsQuantile(Q(50, 100)) && IsQuantile(Q(95, 100)) && IsQuantile(Q(99, 100));
    assert IsQuantile(Q(999, 1000)) && IsQuantile(Q(1, 1));
  }

  /** So does every figure of the printed summaries, and both count the same responses. */
  lemma SummariesDominate(runs: seq<ConnRun>, c: seq<nat>, u: seq<nat>, l: Layout)
    requires multiset(c) == multiset(PooledCorrected(runs)) && multiset(u) == multiset(PooledUncorrected(runs))
    ensures AtLeast(Summarize(l, HistOf(l, c)), Summarize(l, HistOf(l, u)))
  {
    var hc, hu := HistOf(l, c), HistOf(l, u);
    forall q: Quantile | IsQuantile(q)
      ensures ValueAt(l, hc, q) >= ValueAt(l, hu, q)
    {
      CorrectedQuantilesDominate(runs, c, u, l, q);
    }
    PoolDominates(runs);
    SameSize(c, PooledCorrected(runs));
    SameSize(u, PooledUncorrected(runs));
    TotalIsLength(l, c);
    TotalIsLength(l, u);
    SummaryAtLeast(l, hc, hu);
  }

  // ---- the task itself ----

  datatype ConnResult = ConnResult(tally: Tally, backoffUs: nat, connErrors: nat, timeouts: nat)

  function Tallied(r: ConnResult, o: Outcome): ConnResult {
    match o
    case Got(_, _, _, v, pause) =>
      r.(tally := r.tally.Bump(Completed).Bump(Of(v)), backoffUs := r.backoffUs + pause)
    case Lost(timeout) =>
      if timeout then r.(timeouts := r.timeouts + 1) else r.(connErrors := r.connErrors + 1)
  }

  function ResultOf(log: seq<Sent>): ConnResult {
    if log == [] then ConnResult(ZERO, 0, 0, 0)
    else Tallied(ResultOf(log[..|log| - 1]), log[|log| - 1].outcome)
  }

  lemma LogGrows(log: seq<Sent>, e: Sent)
    ensures Corrected(log + [e]) ==
            if e.outcome.Got? then Corrected(log) + [e.outcome.corrected] else Corrected(log)
    ensures Uncorrected(log + [e]) ==
            if e.outcome.Got? then Uncorrected(log) + [e.outcome.uncorrected] else Uncorrected(log)
    ensures ResultOf(log + [e]) == Tallied(ResultOf(log), e.outcome)
  {
    assert (log + [e])[..|log|] == log;
  }

  /** The samples recorded before a connection's, and its own, with one more request. */
  lemma SamplesGrow(c: seq<nat>, u: seq<nat>, log: seq<Sent>, e: Sent)
    ensures c + Corrected(log + [e]) ==
            if e.outcome.Got? then c + Corrected(log) + [e.outcome.corrected] else c + Corrected(log)
    ensures u + Uncorrected(log + [e]) ==
            if e.outcome.Got? then u + Uncorrected(log) + [e.outcome.uncorrected] else u + Uncorrected(log)
  {
    LogGrows(log, e);
  }

  /** Once the loop has ended, further turns change nothing. */
  lemma {:induction false} DoneStays(cfg: Config, c: Conn, ts: seq<Turn>, i: nat)
    requires c.sched.Valid() && i <= |ts| && Run(cfg, c, ts[..i]).done
    ensures Run(cfg, c, ts) == Run(cfg, c, ts[..i])
  {
    if i < |ts| {
      var init := ts[..|ts| - 1];
      assert init[..i] == ts[..i];
      DoneStays(cfg, c, init, i);
    } else {
      assert ts[..i] == ts;
    }
  }

  /** The policy arm for a 429: keep firing, stop the run, or pause and shift the schedule origin. */
  method HonourRateLimit(cfg: Config, resp: Response, settled: nat, t: Turn, sched: ConnSched)
    returns (pause: nat, clock: nat, aborted: bool)
    requires resp.status == 429 && sched.Valid()
    modifies sched
    ensures pause == PauseUs(cfg, resp) && clock == AfterPause(cfg, settled, pause, t)
    ensures aborted <==> cfg.action.Abort? || (pause > 0 && t.abortInPause)
    ensures sched.Valid()
    ensures sched.Model() == if pause > 0 then Defer(old(sched.Model()), pause) else old(sched.Model())
  {
    pause, clock, aborted := 0, settled, false;
    match cfg.action {
      case Continue =>
      case Abort => aborted := true;
      case Backoff =>
        if resp.retryAfterMs.Some? {
          pause := Min(resp.retryAfterMs.value, cfg.maxBackoffMs) * 1000;
          if pause > 0 {
            aborted := t.abortInPause;
            if !aborted && clock < cfg.deadlineUs {
              clock := clock + pause + t.overpause;
            }
            sched.DeferOrigin(pause);
          }
        }
    }
  }

  lemma RunExtends(cfg: Config, c: Conn, ts: seq<Turn>, t: Turn)
    requires c.sched.Valid()
    ensures Run(cfg, c, ts + [t]) == Step(cfg, Run(cfg, c, ts), t)
  {
    assert (ts + [t])[..|ts|] == ts;
  }

  /** The loop state after a response, read off the response itself. */
  lemma AbsorbedResponse(cfg: Config, c: Conn, t: Turn, e: Sent, at: nat, recv: nat, resp: Response)
    requires e.outcome == Judge(cfg, e.sched, at, recv, resp)
    ensures var pause := PauseUs(cfg, resp);
            Absorb(cfg, c, t, e) ==
            Conn(Follow(e.sched, pause), AfterPause(cfg, recv + t.settle, pause, t),
                 (resp.status == 429 && cfg.action.Abort?) || (pause > 0 && t.abortInPause), false, c.log + [e])
  {
  }

  /** The local state of one connection task around its mutable schedule and the shared histograms. */
  class Connection {
    const cfg: Config
    const histos: Histos
    const sched: ConnSched
    ghost const earlier: seq<nat>    // corrected samples recorded before this connection's
    ghost const earlierRaw: seq<nat> // uncorrected ones
    var clock: nat
    var aborted: bool
    var done: bool
    var res: ConnResult
    ghost var log: seq<Sent>

    ghost function Model(): Conn
      reads this, sched
    {
      Conn(sched.Model(), clock, aborted, done, log)
    }

    /** The counters and histograms are those of the requests so far. */
    ghost predicate Recorded()
      reads this`res, this`log, histos
    {
      res == ResultOf(log) && histos.Holds(earlier + Corrected(log), earlierRaw + Uncorrected(log))
    }

    ghost predicate Accounted()
      reads this, sched, histos
    {
      sched.Valid() && Recorded()
    }

    constructor (cfg: Config, sched: ConnSched, histos: Histos, ghost c: seq<nat>, ghost u: seq<nat>)
      requires sched.Valid() && histos.Holds(c, u)
      ensures Accounted() && this.cfg == cfg && this.sched == sched && this.histos == histos
      ensures earlier == c && earlierRaw == u
      ensures Model() == Conn(sched.Model(), 0, false, false, [])
    {
      this.cfg, this.sched, this.histos, earlier, earlierRaw := cfg, sched, histos, c, u;
      assert c + [] == c && u + [] == u;
      clock, aborted, done, res, log := 0, false, false, ConnResult(ZERO, 0, 0, 0), [];
    }

    /** Waits for the next slot and writes the request, unless the loop is over first. */
    method Write(t: Turn) returns (sent: bool, at: nat)
      requires Accounted() && !done
      modifies this`done, sched
      ensures Accounted() && sent == Attempt(cfg, old(Model()), t).Some?
      ensures !sent ==> Model() == Stop(cfg, old(Model()), t)
      ensures sent ==> Model() == old(Model()).(sched := Attempt(cfg, old(Model()), t).value.sched)
                       && at == Attempt(cfg, old(Model()), t).value.at
    {
      sent, at := false, 0;
      var now := clock + t.idle;
      if aborted || t.abortSeen || now >= cfg.deadlineUs {
        done := true;
        return;
      }
      var wait := sched.UsecToNextSend(now);
      var wake := now + wait + t.oversleep;
      if wake >= cfg.deadlineUs {
        done := true;
        return;
      }
      sent, at := true, wake + t.toWrite;
    }

    /** Tallies what became of a request. */
    method Count(outcome: Outcome, ghost e: Sent)
      requires res == ResultOf(log) && e.outcome == outcome
      modifies this`res, this`log
      ensures res == ResultOf(log) && log == old(log) + [e]
    {
      res := Tallied(res, outcome);
      LogGrows(log, e);
      log := log + [e];
    }

    /** Records both latencies and tallies the verdict. */
    method Account(got: Outcome, ghost e: Sent)
      requires Accounted() && got.Got? && e.outcome == got
      modifies this`res, this`log, histos
      ensures Accounted() && log == old(log) + [e]
    {
      histos.RecordPair(got.corrected, got.uncorrected, earlier + Corrected(log), earlierRaw + Uncorrected(log));
      assert histos.Holds(earlier + Corrected(log + [e]), earlierRaw + Uncorrected(log + [e])) by {
        SamplesGrow(earlier, earlierRaw, log, e);
      }
      Count(got, e);
    }

    /** Honours a 429 and moves on to the next slot. */
    method MoveOn(settled: nat, resp: Response, t: Turn)
      requires sched.Valid()
      modifies this`clock, this`aborted, sched
      ensures sched.Valid() && sched.Model() == Follow(old(sched.Model()), PauseUs(cfg, resp))
      ensures clock == AfterPause(cfg, settled, PauseUs(cfg, resp), t)
      ensures aborted <==> (resp.status == 429 && cfg.action.Abort?) || (PauseUs(cfg, resp) > 0 && t.abortInPause)
    {
      clock, aborted := settled, false;
      if resp.status == 429 {
        var pause;
        pause, clock, aborted := HonourRateLimit(cfg, resp, settled, t, sched);
      }
      sched.AdvanceOne();
    }

    /** Takes a response in and gets ready for the next request. */
    method Receive(at: nat, afterUs: nat, resp: Response, t: Turn, ghost e: Sent)
      requires Accounted() && !done && sched.Model() == e.sched
      requires e.outcome == Judge(cfg, e.sched, at, at + afterUs, resp)
      modifies this`clock, this`aborted, this`res, this`log, sched, histos
      ensures Accounted() && Model() == Absorb(cfg, old(Model()), t, e)
    {
      AbsorbedResponse(cfg, Model(), t, e, at, at + afterUs, resp);
      var got := Judge(cfg, sched.Model(), at, at + afterUs, resp);
      Account(got, e);
      MoveOn(at + afterUs + t.settle, resp, t);
    }

    /** A request whose response never came ends the loop. */
    method Lose(timeout: bool, t: Turn, ghost e: Sent)
      requires Accounted() && sched.Model() == e.sched && e.outcome == Lost(timeout)
      modifies this`done, this`res, this`log
      ensures Accounted() && Model() == Absorb(cfg, old(Model()), t, e)
    {
      SamplesGrow(earlier, earlierRaw, log, e);
      Count(Lost(timeout), e);
      done := true;
    }

    /** One iteration of the loop. */
    method Iterate(t: Turn)
      requires Accounted() && !done
      modifies this, sched, histos
      ensures Accounted() && Model() == Step(cfg, old(Model()), t)
    {
      ghost var c := Model();
      var sent, at := Write(t);
      if sent {
        ghost var e := Attempt(cfg, c, t).value;
        match t.reply {
          case TimedOut => Lose(true, t, e);
          case Broken => Lose(false, t, e);
          case Answered(afterUs, resp) => Receive(at, afterUs, resp, t, e);
        }
      }
    }

    method RunAll(ts: seq<Turn>)
      requires Accounted() && !done
      modifies this, sched, histos
      ensures Accounted() && log == Run(cfg, old(Model()), ts).log
    {
      ghost var first := Model();
      var i := 0;
      while i < |ts| && !done
        invariant 0 <= i <= |ts| && Accounted() && Model() == Run(cfg, first, ts[..i])
      {
        PrefixMore(ts, i);
        RunExtends(cfg, first, ts[..i], ts[i]);
        Iterate(ts[i]);
        i := i + 1;
      }
      if done {
        DoneStays(cfg, first, ts, i);
      } else {
        WholePrefix(ts);
      }
    }
  }

  /** The whole task: a fresh schedule driven through the given turns; its samples join those that
      the shared histograms already hold. */
  method ConnectionTask(r: ConnRun, histos: Histos, ghost c: seq<nat>, ghost u: seq<nat>)
    returns (res: ConnResult)
    requires histos.Holds(c, u)
    modifies histos
    ensures res == ResultOf(r.Log())
    ensures histos.Holds(c + Corrected(r.Log()), u + Uncorrected(r.Log()))
  {
    var sched: ConnSched;
    if r.schedule.Constant? {
      sched := new ConnSched.New(r.offset, r.schedule.rate);
    } else {
      sched := new ConnSched.NewRamp(r.offset, r.schedule.durationUs, r.schedule.peak);
    }
    var conn := new Connection(r.cfg, sched, histos, c, u);
    conn.RunAll(r.turns);
    res := conn.res;
  }

  ghost predicate ResultsOf(runs: seq<ConnRun>, results: seq<ConnResult>) {
    |results| == |runs| && forall i :: 0 <= i < |runs| ==> results[i] == ResultOf(runs[i].Log())
  }

  lemma ResultsMore(runs: seq<ConnRun>, i: nat, results: seq<ConnResult>, res: ConnResult)
    requires i < |runs| && ResultsOf(runs[..i], results) && res == ResultOf(runs[i].Log())
    ensures ResultsOf(runs[..i + 1], results + [res])
  {
  }

  lemma PoolMore(runs: seq<ConnRun>, i: nat)
    requires i < |runs|
    ensures PooledCorrected(runs[..i + 1]) == PooledCorrected(runs[..i]) + Corrected(runs[i].Log())
    ensures PooledUncorrected(runs[..i + 1]) == PooledUncorrected(runs[..i]) + Uncorrected(runs[i].Log())
  {
    PrefixMore(runs, i);
  }

  /** A worker's connections, one after the other: their counters, and the shared histograms of all
      their samples. Interleaved connections record the same samples in another order. */
  method RunConnections(runs: seq<ConnRun>, histos: Histos) returns (results: seq<ConnResult>)
    requires histos.Holds([], [])
    modifies histos
    ensures ResultsOf(runs, results)
    ensures histos.Holds(PooledCorrected(runs), PooledUncorrected(runs))
  {
    results := [];
    for i := 0 to |runs|
      invariant ResultsOf(runs[..i], results)
      invariant histos.Holds(PooledCorrected(runs[..i]), PooledUncorrected(runs[..i]))
    {
      var res := ConnectionTask(runs[i], histos, PooledCorrected(runs[..i]), PooledUncorrected(runs[..i]));
      ResultsMore(runs, i, results, res);
      PoolMore(runs, i);
      results := results + [res];
    }
    WholePrefix(runs);
  }
}
