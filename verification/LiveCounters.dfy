/** The counters shared by a worker's connection tasks, under every interleaving of the tasks'
    atomic steps with the reads of the tick emitter. */
module LiveCounters {
  import opened Verdicts

  datatype Config = Config(rules: Rules, recordOnset: bool, targetRps: real, ramp: bool, durationS: nat)

  /** The rate the schedule aims for at a point of the run. */
  function OfferedRpsAt(cfg: Config, elapsedUs: nat): real {
    if cfg.ramp && cfg.durationS > 0 then
      var frac := elapsedUs as real / (cfg.durationS as real * 1_000_000.0);
      cfg.targetRps * (if frac > 1.0 then 1.0 else frac)
    else cfg.targetRps
  }

  /** Where a task stands in accounting for a response due at `slot`. */
  datatype Task =
    | Idle
    | Recorded(v: Verdict, slot: nat)        // latency in the shared histogram
    | CountedLocally(v: Verdict, slot: nat)  // own completed counter bumped
    | Counted(v: Verdict, slot: nat)         // shared completed counter bumped
    | JudgedLocally(v: Verdict, slot: nat)   // own verdict counter bumped
    | AtGuard(slot: nat)                     // a 429, about to try the first-seen guard
    | Won(slot: nat)                         // took the guard, about to store the onset
    | Finished

  /** The emitter reads the counters one by one, in this order, then publishes. */
  const FIELDS: seq<Field> :=
    [Completed, Of(Pass), Of(FailStatus), Of(FailLatency), Of(FailSize), Of(FailContentType), Of(RateLimited)]

  datatype Published = Published(totals: Tally, delta: Tally)

  datatype Emitter = Emitter(next: nat, snap: Tally, prev: Tally, ticks: seq<Published>)

  /** `limited`, `winner` and `stores` are history: the slots of the 429s so far, the slot of the
      request that took the guard, and how often an onset was stored. */
  datatype State = State(
    recorded: nat, shared: Tally, seen: bool, onset: Option<real>,
    tasks: seq<Task>, locals: seq<Tally>, em: Emitter,
    limited: seq<nat>, winner: Option<nat>, stores: nat)

  datatype Step =
    | Respond(i: nat, resp: Response, correctedUs: nat, slot: nat)
    | Go(i: nat)      // the task's next own step
    | Quit(i: nat)    // the task leaves its loop
    | Read
    | Publish

  function Init(n: nat): State {
    State(0, ZERO, false, None, seq(n, i => Idle), seq(n, i => ZERO), Emitter(0, ZERO, ZERO, []), [], None, 0)
  }

  function Move(s: State, i: nat, t: Task): State
    requires i < |s.tasks|
  {
    s.(tasks := s.tasks[i := t])
  }

  function BumpLocal(s: State, i: nat, f: Field): State
    requires i < |s.locals|
  {
    s.(locals := s.locals[i := s.locals[i].Bump(f)])
  }

  /** The effect of task i's next step. */
  function Advance(cfg: Config, s: State, i: nat): State
    requires i < |s.tasks| == |s.locals|
  {
    match s.tasks[i]
    case Idle => s
    case Finished => s
    case Recorded(v, slot) => BumpLocal(Move(s, i, CountedLocally(v, slot)), i, Completed)
    case CountedLocally(v, slot) => Move(s, i, Counted(v, slot)).(shared := s.shared.Bump(Completed))
    case Counted(v, slot) => BumpLocal(Move(s, i, JudgedLocally(v, slot)), i, Of(v))
    case JudgedLocally(v, slot) =>
      var d := s.(shared := s.shared.Bump(Of(v)));
      if v.RateLimited? then
        Move(d, i, if cfg.recordOnset then AtGuard(slot) else Idle).(limited := s.limited + [slot])
      else Move(d, i, Idle)
    case AtGuard(slot) =>
      if s.seen then Move(s, i, Idle) else Move(s, i, Won(slot)).(seen := true, winner := Some(slot))
    case Won(slot) =>
      Move(s, i, Idle).(onset := Some(OfferedRpsAt(cfg, slot)), stores := s.stores + 1)
  }

  /** One step of the system; a step that is not enabled changes nothing. */
  function Apply(cfg: Config, s: State, step: Step): State
    requires |s.tasks| == |s.locals|
  {
    match step
    case Respond(i, resp, correctedUs, slot) =>
      if i < |s.tasks| && s.tasks[i].Idle?
      then Move(s, i, Recorded(Classify(cfg.rules, resp, correctedUs), slot)).(recorded := s.recorded + 1)
      else s
    case Go(i) => if i < |s.tasks| then Advance(cfg, s, i) else s
    case Quit(i) => if i < |s.tasks| && s.tasks[i].Idle? then Move(s, i, Finished) else s
    case Read =>
      if s.em.next < |FIELDS|
      then s.(em := s.em.(next := s.em.next + 1,
                          snap := s.em.snap.Set(FIELDS[s.em.next], s.shared.Get(FIELDS[s.em.next]))))
      else s
    case Publish =>
      if s.em.next == |FIELDS|
      then s.(em := Emitter(0, s.em.snap, s.em.snap,
                            s.em.ticks + [Published(s.em.snap, s.em.snap.Minus(s.em.prev))]))
      else s
  }

  function Exec(cfg: Config, n: nat, steps: seq<Step>): (s: State)
    ensures |s.tasks| == |s.locals| == n
  {
    if steps == [] then Init(n) else Apply(cfg, Exec(cfg, n, steps[..|steps| - 1]), steps[|steps| - 1])
  }

  // ---- counting tasks and adding local tallies ----

  datatype Stage = InHistogram | LocallyAhead | Between | Ahead(v: Verdict) | Pending(v: Verdict) | Guarding | Storing

  /** A task whose response is not yet in every counter. */
  predicate Accounting(t: Task) { t.Recorded? || t.CountedLocally? || t.Counted? || t.JudgedLocally? }

  predicate At(t: Task, g: Stage) {
    match g
    case InHistogram => t.Recorded?
    case LocallyAhead => t.CountedLocally?
    case Between => t.Counted? || t.JudgedLocally?
    case Ahead(v) => t.JudgedLocally? && t.v == v
    case Pending(v) => Accounting(t) && t.v == v
    case Guarding => t.AtGuard?
    case Storing => t.Won?
  }

  function Tasks(ts: seq<Task>, g: Stage): nat {
    if ts == [] then 0 else Tasks(ts[..|ts| - 1], g) + if At(ts[|ts| - 1], g) then 1 else 0
  }

  lemma {:induction false} TasksUpdate(ts: seq<Task>, i: nat, t: Task, g: Stage)
    requires i < |ts|
    ensures Tasks(ts[i := t], g) + (if At(ts[i], g) then 1 else 0) == Tasks(ts, g) + (if At(t, g) then 1 else 0)
  {
    var k := |ts| - 1;
    if i < k {
      assert ts[i := t][..k] == ts[..k][i := t];
      TasksUpdate(ts[..k], i, t, g);
    } else {
      assert ts[i := t][..k] == ts[..k];
    }
  }

  lemma {:induction false} TasksAtMost(ts: seq<Task>, g: Stage)
    ensures Tasks(ts, g) <= |ts|
  {
    if ts != [] {
      TasksAtMost(ts[..|ts| - 1], g);
    }
  }

  lemma {:induction false} NoTasks(ts: seq<Task>, g: Stage)
    requires forall i :: 0 <= i < |ts| ==> !At(ts[i], g)
    ensures Tasks(ts, g) == 0
  {
    if ts != [] {
      NoTasks(ts[..|ts| - 1], g);
    }
  }

  lemma {:induction false} ZeroLocals(n: nat, f: Field)
    ensures Sum(seq(n, i => ZERO), f) == 0
  {
    if n > 0 {
      assert seq(n, i => ZERO)[..n - 1] == seq(n - 1, i => ZERO);
      ZeroLocals(n - 1, f);
    }
  }

  // ---- conservation ----

  /** The tasks whose own tally is ahead of a field's shared counter. */
  function LagStage(f: Field): Stage {
    match f
    case Completed => LocallyAhead
    case Of(v) => Ahead(v)
  }

  /** A field's shared counter trails the tasks' own tallies by the tasks between the two. */
  ghost predicate FieldConserved(s: State, f: Field) {
    Sum(s.locals, f) == s.shared.Get(f) + Tasks(s.tasks, LagStage(f))
  }

  ghost predicate FieldsConserved(s: State) { forall f: Field :: FieldConserved(s, f) }

  ghost predicate Conserved(s: State) {
    && |s.tasks| == |s.locals|
    && s.recorded == Sum(s.locals, Completed) + Tasks(s.tasks, InHistogram)
    && FieldsConserved(s)
    && s.shared.completed == s.shared.Judged() + Tasks(s.tasks, Between)
  }

  /** At most task i has taken a step. */
  ghost predicate Moved(s: State, d: State, i: nat) {
    i < |s.tasks| == |d.tasks| && d.tasks == s.tasks[i := d.tasks[i]]
  }

  function One(b: bool): nat { if b then 1 else 0 }

  /** A task's step keeps a field conserved if tally, counter and the task's standing agree on it. */
  lemma FieldMoves(s: State, d: State, i: nat, f: Field)
    requires Moved(s, d, i) && FieldConserved(s, f)
    requires Sum(d.locals, f) + s.shared.Get(f) + One(At(s.tasks[i], LagStage(f))) ==
             Sum(s.locals, f) + d.shared.Get(f) + One(At(d.tasks[i], LagStage(f)))
    ensures FieldConserved(d, f)
  {
    TasksUpdate(s.tasks, i, d.tasks[i], LagStage(f));
  }

  lemma BumpGets(t: Tally, b: Field, f: Field)
    ensures t.Bump(b).Get(f) == t.Get(f) + One(f == b)
  {
  }

  lemma BumpSum(ls: seq<Tally>, i: nat, b: Field, f: Field)
    requires i < |ls|
    ensures Sum(ls[i := ls[i].Bump(b)], f) == Sum(ls, f) + One(f == b)
  {
    SumUpdate(ls, i, ls[i].Bump(b), f);
    BumpGets(ls[i], b, f);
  }

  lemma JudgedGrows(t: Tally, v: Verdict)
    ensures t.Bump(Of(v)).Judged() == t.Judged() + 1 && t.Bump(Of(v)).completed == t.completed
    ensures t.Bump(Completed).Judged() == t.Judged() && t.Bump(Completed).completed == t.completed + 1
  {
  }

  /** Where a task stands does not matter to the other two equations beyond these stages. */
  lemma StagesMove(s: State, d: State, i: nat)
    requires Moved(s, d, i)
    ensures forall g :: g == InHistogram || g == Between ==>
              Tasks(d.tasks, g) + One(At(s.tasks[i], g)) == Tasks(s.tasks, g) + One(At(d.tasks[i], g))
  {
    TasksUpdate(s.tasks, i, d.tasks[i], InHistogram);
    TasksUpdate(s.tasks, i, d.tasks[i], Between);
  }

  /** Own completed counter. */
  lemma CountingLocallyConserves(s: State, d: State, i: nat, v: Verdict, slot: nat)
    requires Conserved(s) && i < |s.tasks| && s.tasks[i] == Recorded(v, slot)
    requires d == BumpLocal(Move(s, i, CountedLocally(v, slot)), i, Completed)
    ensures Conserved(d)
  {
    StagesMove(s, d, i);
    BumpSum(s.locals, i, Completed, Completed);
    forall f: Field
      ensures FieldConserved(d, f)
    {
      assert FieldConserved(s, f);
      BumpSum(s.locals, i, Completed, f);
      FieldMoves(s, d, i, f);
    }
  }

  /** Shared completed counter. */
  lemma CountingConserves(s: State, d: State, i: nat, v: Verdict, slot: nat)
    requires Conserved(s) && i < |s.tasks| && s.tasks[i] == CountedLocally(v, slot)
    requires d == Move(s, i, Counted(v, slot)).(shared := s.shared.Bump(Completed))
    ensures Conserved(d)
  {
    StagesMove(s, d, i);
    JudgedGrows(s.shared, v);
    forall f: Field
      ensures FieldConserved(d, f)
    {
      assert FieldConserved(s, f);
      BumpGets(s.shared, Completed, f);
      FieldMoves(s, d, i, f);
    }
  }

  /** Own verdict counter. */
  lemma JudgingLocallyConserves(s: State, d: State, i: nat, v: Verdict, slot: nat)
    requires Conserved(s) && i < |s.tasks| && s.tasks[i] == Counted(v, slot)
    requires d == BumpLocal(Move(s, i, JudgedLocally(v, slot)), i, Of(v))
    ensures Conserved(d)
  {
    StagesMove(s, d, i);
    BumpSum(s.locals, i, Of(v), Completed);
    forall f: Field
      ensures FieldConserved(d, f)
    {
      assert FieldConserved(s, f);
      BumpSum(s.locals, i, Of(v), f);
      FieldMoves(s, d, i, f);
    }
  }

  /** Shared verdict counter. */
  lemma JudgingConserves(s: State, d: State, i: nat, v: Verdict, slot: nat)
    requires Conserved(s) && i < |s.tasks| && s.tasks[i] == JudgedLocally(v, slot)
    requires Moved(s, d, i) && (d.tasks[i].Idle? || d.tasks[i].AtGuard?)
    requires d.shared == s.shared.Bump(Of(v)) && d.locals == s.locals && d.recorded == s.recorded
    ensures Conserved(d)
  {
    StagesMove(s, d, i);
    JudgedGrows(s.shared, v);
    forall f: Field
      ensures FieldConserved(d, f)
    {
      assert FieldConserved(s, f);
      BumpGets(s.shared, Of(v), f);
      FieldMoves(s, d, i, f);
    }
  }

  /** A task that stands between no two counters. */
  predicate Elsewhere(t: Task) { t.Idle? || t.AtGuard? || t.Won? || t.Finished? }

  /** The steps around the onset, and quitting, touch no counter. */
  lemma ElsewhereConserves(s: State, d: State, i: nat)
    requires Conserved(s) && Moved(s, d, i)
    requires Elsewhere(s.tasks[i]) && Elsewhere(d.tasks[i])
    requires d.shared == s.shared && d.locals == s.locals && d.recorded == s.recorded
    ensures Conserved(d)
  {
    StagesMove(s, d, i);
    forall f: Field
      ensures FieldConserved(d, f)
    {
      assert FieldConserved(s, f);
      FieldMoves(s, d, i, f);
    }
  }

  lemma RespondingConserves(s: State, d: State, i: nat, v: Verdict, slot: nat)
    requires Conserved(s) && i < |s.tasks| && s.tasks[i].Idle?
    requires d == Move(s, i, Recorded(v, slot)).(recorded := s.recorded + 1)
    ensures Conserved(d)
  {
    StagesMove(s, d, i);
    forall f: Field
      ensures FieldConserved(d, f)
    {
      assert FieldConserved(s, f);
      FieldMoves(s, d, i, f);
    }
  }

  lemma GoConserves(cfg: Config, s: State, i: nat)
    requires Conserved(s) && i < |s.tasks|
    ensures Conserved(Advance(cfg, s, i))
  {
    var d := Advance(cfg, s, i);
    match s.tasks[i]
    case Recorded(v, slot) => CountingLocallyConserves(s, d, i, v, slot);
    case CountedLocally(v, slot) => CountingConserves(s, d, i, v, slot);
    case Counted(v, slot) => JudgingLocallyConserves(s, d, i, v, slot);
    case JudgedLocally(v, slot) => JudgingConserves(s, d, i, v, slot);
    case _ => ElsewhereConserves(s, d, i);
  }

  lemma EmitterConserves(s: State, d: State)
    requires Conserved(s) && d == s.(em := d.em)
    ensures Conserved(d)
  {
    forall f: Field
      ensures FieldConserved(d, f)
    {
      assert FieldConserved(s, f);
    }
  }

  lemma StepConserves(cfg: Config, s: State, step: Step)
    requires Conserved(s)
    ensures Conserved(Apply(cfg, s, step))
  {
    var d := Apply(cfg, s, step);
    match step
    case Respond(i, resp, correctedUs, slot) =>
      if i < |s.tasks| && s.tasks[i].Idle? {
        RespondingConserves(s, d, i, Classify(cfg.rules, resp, correctedUs), slot);
      }
    case Go(i) =>
      if i < |s.tasks| {
        GoConserves(cfg, s, i);
      }
    case Quit(i) =>
      if i < |s.tasks| && s.tasks[i].Idle? {
        ElsewhereConserves(s, d, i);
      }
    case Read => EmitterConserves(s, d);
    case Publish => EmitterConserves(s, d);
  }

  lemma InitConserves(n: nat)
    ensures Conserved(Init(n))
  {
    var s := Init(n);
    NoTasks(s.tasks, InHistogram);
    NoTasks(s.tasks, Between);
    ZeroLocals(n, Completed);
    forall f: Field
      ensures FieldConserved(s, f)
    {
      NoTasks(s.tasks, LagStage(f));
      ZeroLocals(n, f);
      ZeroGets(f);
    }
  }

  lemma {:induction false} ExecConserves(cfg: Config, n: nat, steps: seq<Step>)
    ensures Conserved(Exec(cfg, n, steps))
  {
    if steps == [] {
      InitConserves(n);
    } else {
      var k := |steps| - 1;
      ExecConserves(cfg, n, steps[..k]);
      StepConserves(cfg, Exec(cfg, n, steps[..k]), steps[k]);
    }
  }

  /** In every interleaving the shared completed count exceeds the sum of the six verdict counters
      by exactly the tasks that stand between their two increments. */
  lemma CountersConserved(cfg: Config, n: nat, steps: seq<Step>)
    ensures Conserved(Exec(cfg, n, steps))
    ensures var s := Exec(cfg, n, steps);
            s.shared.completed - s.shared.Judged() == Tasks(s.tasks, Between) <= n
  {
    ExecConserves(cfg, n, steps);
    TasksAtMost(Exec(cfg, n, steps).tasks, Between);
  }

  ghost predicate Joined(s: State) { forall i :: 0 <= i < |s.tasks| ==> s.tasks[i].Finished? }

  /** The totals of the final report: the tasks' own tallies added up as they are joined. */
  method JoinSums(results: seq<Tally>) returns (total: Tally)
    ensures forall f: Field :: total.Get(f) == Sum(results, f)
  {
    total := ZERO;
    for i := 0 to |results|
      invariant forall f: Field :: total.Get(f) == Sum(results[..i], f)
    {
      assert results[..i + 1][..i] == results[..i];
      total := total.Plus(results[i]);
    }
    assert results[..|results|] == results;
  }

  lemma JoinedAgrees(s: State)
    requires Joined(s) && Conserved(s)
    ensures forall f: Field :: Sum(s.locals, f) == s.shared.Get(f)
    ensures s.shared.completed == s.shared.Judged() && s.recorded == s.shared.completed
  {
    forall f: Field
      ensures Sum(s.locals, f) == s.shared.Get(f)
    {
      assert FieldConserved(s, f);
      NoTasks(s.tasks, LagStage(f));
    }
    assert s.shared.Get(Completed) == Sum(s.locals, Completed);
    NoTasks(s.tasks, InHistogram);
    NoTasks(s.tasks, Between);
  }

  /** Once every task has finished, the joined tallies equal the live counters field by field, the
      six verdicts partition completed, and each completed response is in the histogram once. */
  lemma TalliesAgreeAtJoin(cfg: Config, n: nat, steps: seq<Step>)
    requires Joined(Exec(cfg, n, steps))
    ensures var s := Exec(cfg, n, steps);
            && (forall f: Field :: Sum(s.locals, f) == s.shared.Get(f))
            && s.shared.completed == s.shared.Judged()
            && s.recorded == s.shared.completed
  {
    ExecConserves(cfg, n, steps);
    JoinedAgrees(Exec(cfg, n, steps));
  }

  // ---- the rate-limit onset ----

  ghost predicate OnsetInv(cfg: Config, s: State) {
    && |s.tasks| == |s.locals|
    && |s.limited| == s.shared.rateLimited
    && (forall i :: 0 <= i < |s.tasks| ==>
          && (s.tasks[i].AtGuard? ==> cfg.recordOnset && s.tasks[i].slot in s.limited)
          && (s.tasks[i].Won? ==> s.winner == Some(s.tasks[i].slot)))
    && (cfg.recordOnset && s.limited != [] ==> s.seen || Tasks(s.tasks, Guarding) > 0)
    && (s.seen ==> s.winner.Some? && s.winner.value in s.limited)
    && Tasks(s.tasks, Storing) + s.stores == (if s.seen then 1 else 0)
    && s.onset == (if s.stores == 0 || s.winner.None? then None else Some(OfferedRpsAt(cfg, s.winner.value)))
  }

  lemma {:induction false} SomeTask(ts: seq<Task>, i: nat, g: Stage)
    requires i < |ts| && At(ts[i], g)
    ensures Tasks(ts, g) > 0
  {
    var k := |ts| - 1;
    if i < k {
      SomeTask(ts[..k], i, g);
    }
  }

  /** A step of a task that is not at the onset before or after it, and that leaves the onset alone. */
  lemma ElsewhereKeepsOnset(cfg: Config, s: State, d: State, i: nat)
    requires OnsetInv(cfg, s) && Moved(s, d, i) && |d.locals| == |s.locals|
    requires !s.tasks[i].AtGuard? && !s.tasks[i].Won? && !d.tasks[i].AtGuard? && !d.tasks[i].Won?
    requires d.limited == s.limited && d.shared.rateLimited == s.shared.rateLimited && d.seen == s.seen
    requires d.winner == s.winner && d.stores == s.stores && d.onset == s.onset
    ensures OnsetInv(cfg, d)
  {
    TasksUpdate(s.tasks, i, d.tasks[i], Guarding);
    TasksUpdate(s.tasks, i, d.tasks[i], Storing);
  }

  /** A 429 is counted, and its task goes on to the guard if onsets are recorded. */
  lemma LimitingKeepsOnset(cfg: Config, s: State, d: State, i: nat, slot: nat)
    requires OnsetInv(cfg, s) && i < |s.tasks| && s.tasks[i] == JudgedLocally(RateLimited, slot)
    requires d == Move(s, i, if cfg.recordOnset then AtGuard(slot) else Idle)
                  .(limited := s.limited + [slot], shared := s.shared.Bump(Of(RateLimited)))
    ensures OnsetInv(cfg, d)
  {
    TasksUpdate(s.tasks, i, d.tasks[i], Guarding);
    TasksUpdate(s.tasks, i, d.tasks[i], Storing);
    assert slot in d.limited && forall x :: x in s.limited ==> x in d.limited;
    if cfg.recordOnset {
      SomeTask(d.tasks, i, Guarding);
    }
  }

  lemma GuardingKeepsOnset(cfg: Config, s: State, d: State, i: nat, slot: nat)
    requires OnsetInv(cfg, s) && i < |s.tasks| && s.tasks[i] == AtGuard(slot)
    requires d == if s.seen then Move(s, i, Idle) else Move(s, i, Won(slot)).(seen := true, winner := Some(slot))
    ensures OnsetInv(cfg, d)
  {
    TasksUpdate(s.tasks, i, d.tasks[i], Guarding);
    TasksUpdate(s.tasks, i, d.tasks[i], Storing);
    if !s.seen {
      forall j | 0 <= j < |s.tasks|
        ensures !s.tasks[j].Won?
      {
        if s.tasks[j].Won? {
          SomeTask(s.tasks, j, Storing);
        }
      }
    }
  }

  lemma StoringKeepsOnset(cfg: Config, s: State, d: State, i: nat, slot: nat)
    requires OnsetInv(cfg, s) && i < |s.tasks| && s.tasks[i] == Won(slot)
    requires d == Move(s, i, Idle).(onset := Some(OfferedRpsAt(cfg, slot)), stores := s.stores + 1)
    ensures OnsetInv(cfg, d)
  {
    TasksUpdate(s.tasks, i, d.tasks[i], Guarding);
    TasksUpdate(s.tasks, i, d.tasks[i], Storing);
    SomeTask(s.tasks, i, Storing);
  }

  lemma JudgingKeepsOnset(cfg: Config, s: State, d: State, i: nat, v: Verdict, slot: nat)
    requires OnsetInv(cfg, s) && i < |s.tasks| && s.tasks[i] == JudgedLocally(v, slot) && d == Advance(cfg, s, i)
    ensures OnsetInv(cfg, d)
  {
    if v.RateLimited? {
      LimitingKeepsOnset(cfg, s, d, i, slot);
    } else {
      ElsewhereKeepsOnset(cfg, s, d, i);
    }
  }

  lemma CountingKeepsOnset(cfg: Config, s: State, d: State, i: nat)
    requires OnsetInv(cfg, s) && i < |s.tasks| && d == Advance(cfg, s, i)
    requires !s.tasks[i].JudgedLocally? && !s.tasks[i].AtGuard? && !s.tasks[i].Won?
    ensures OnsetInv(cfg, d)
  {
    ElsewhereKeepsOnset(cfg, s, d, i);
  }

  lemma GoKeepsOnset(cfg: Config, s: State, i: nat)
    requires OnsetInv(cfg, s) && i < |s.tasks|
    ensures OnsetInv(cfg, Advance(cfg, s, i))
  {
    var d := Advance(cfg, s, i);
    match s.tasks[i]
    case JudgedLocally(v, slot) => JudgingKeepsOnset(cfg, s, d, i, v, slot);
    case AtGuard(slot) => GuardingKeepsOnset(cfg, s, d, i, slot);
    case Won(slot) => StoringKeepsOnset(cfg, s, d, i, slot);
    case _ => CountingKeepsOnset(cfg, s, d, i);
  }

  lemma StepKeepsOnset(cfg: Config, s: State, step: Step)
    requires OnsetInv(cfg, s)
    ensures OnsetInv(cfg, Apply(cfg, s, step))
  {
    match step
    case Respond(i, _, _, _) =>
      if i < |s.tasks| && s.tasks[i].Idle? {
        ElsewhereKeepsOnset(cfg, s, Apply(cfg, s, step), i);
      }
    case Go(i) =>
      if i < |s.tasks| {
        GoKeepsOnset(cfg, s, i);
      }
    case Quit(i) =>
      if i < |s.tasks| && s.tasks[i].Idle? {
        ElsewhereKeepsOnset(cfg, s, Apply(cfg, s, step), i);
      }
    case Read =>
    case Publish =>
  }

  lemma {:induction false} OnsetInvariant(cfg: Config, n: nat, steps: seq<Step>)
    ensures OnsetInv(cfg, Exec(cfg, n, steps))
  {
    if steps == [] {
      NoTasks(Init(n).tasks, Guarding);
      NoTasks(Init(n).tasks, Storing);
    } else {
      var k := |steps| - 1;
      OnsetInvariant(cfg, n, steps[..k]);
      StepKeepsOnset(cfg, Exec(cfg, n, steps[..k]), steps[k]);
    }
  }

  /** In every interleaving at most one onset is stored, and a stored onset is the offered rate at
      the intended slot of a rate-limited request: the one that took the guard. */
  lemma OnsetStoredOnce(cfg: Config, n: nat, steps: seq<Step>)
    ensures var s := Exec(cfg, n, steps);
            && s.stores <= 1 && (s.onset.Some? <==> s.stores == 1)
            && (s.onset.Some? ==> s.winner.Some? && s.winner.value in s.limited
                                  && s.onset.value == OfferedRpsAt(cfg, s.winner.value))
  {
    OnsetInvariant(cfg, n, steps);
  }

  /** With onset recording on, after all tasks join an onset is present exactly when some response
      was rate limited. */
  lemma OnsetIffLimited(cfg: Config, n: nat, steps: seq<Step>)
    requires cfg.recordOnset && Joined(Exec(cfg, n, steps))
    ensures var s := Exec(cfg, n, steps);
            s.onset.Some? <==> s.shared.rateLimited > 0
  {
    OnsetInvariant(cfg, n, steps);
    NoTasks(Exec(cfg, n, steps).tasks, Guarding);
    NoTasks(Exec(cfg, n, steps).tasks, Storing);
  }

  // ---- torn snapshots ----

  /** What the snapshot will hold if the remaining counters do not move: read fields from the
      snapshot, unread ones from the live counters. */
  function Mixed(s: State): Tally {
    var k := s.em.next;
    var a, b := s.em.snap, s.shared;
    Tally(if k > 0 then a.completed else b.completed,
          if k > 1 then a.pass else b.pass,
          if k > 2 then a.failStatus else b.failStatus,
          if k > 3 then a.failLatency else b.failLatency,
          if k > 4 then a.failSize else b.failSize,
          if k > 5 then a.failContentType else b.failContentType,
          if k > 6 then a.rateLimited else b.rateLimited)
  }

  /** At most n responses are counted but not yet judged. */
  ghost predicate NearlyJudged(t: Tally, n: nat) { t.completed <= t.Judged() + n }

  /** A published tick continues from the one before it. */
  ghost predicate TickOk(n: nat, ticks: seq<Published>, i: nat)
    requires i < |ticks|
  {
    var before := if i == 0 then ZERO else ticks[i - 1].totals;
    && NearlyJudged(ticks[i].totals, n)
    && before.AtMost(ticks[i].totals) && ticks[i].delta == ticks[i].totals.Minus(before)
  }

  ghost predicate EmitterInv(n: nat, s: State) {
    && |s.tasks| == |s.locals| == n
    && s.em.next <= |FIELDS|
    && s.em.prev.AtMost(Mixed(s)) && Mixed(s).AtMost(s.shared)
    && NearlyJudged(Mixed(s), n)
    && s.em.prev == (if s.em.ticks == [] then ZERO else s.em.ticks[|s.em.ticks| - 1].totals)
    && (forall i :: 0 <= i < |s.em.ticks| ==> TickOk(n, s.em.ticks, i))
  }

  lemma BumpGrows(t: Tally, f: Field)
    ensures t.AtMost(t.Bump(f))
  {
  }

  lemma GoOnlyGrows(cfg: Config, s: State, i: nat)
    requires i < |s.tasks| == |s.locals|
    ensures s.shared.AtMost(Advance(cfg, s, i).shared)
  {
    if s.tasks[i].CountedLocally? {
      BumpGrows(s.shared, Completed);
    } else if s.tasks[i].JudgedLocally? {
      BumpGrows(s.shared, Of(s.tasks[i].v));
    } else {
      assert Advance(cfg, s, i).shared == s.shared;
    }
  }

  lemma SharedOnlyGrows(cfg: Config, s: State, step: Step)
    requires |s.tasks| == |s.locals|
    ensures s.shared.AtMost(Apply(cfg, s, step).shared)
  {
    if step.Go? && step.i < |s.tasks| {
      GoOnlyGrows(cfg, s, step.i);
    } else {
      assert Apply(cfg, s, step).shared == s.shared;
    }
  }

  lemma ReadKeepsEmitter(cfg: Config, n: nat, s: State)
    requires EmitterInv(n, s) && s.em.next < |FIELDS|
    ensures EmitterInv(n, Apply(cfg, s, Read))
  {
    assert Mixed(Apply(cfg, s, Read)) == Mixed(s);
  }

  lemma PublishKeepsEmitter(cfg: Config, n: nat, s: State)
    requires EmitterInv(n, s) && Conserved(s) && s.em.next == |FIELDS|
    ensures EmitterInv(n, Apply(cfg, s, Publish))
  {
    var d := Apply(cfg, s, Publish);
    TasksAtMost(s.tasks, Between);
    assert Mixed(s) == s.em.snap;
    assert Mixed(d) == s.shared;
    forall i | 0 <= i < |d.em.ticks|
      ensures TickOk(n, d.em.ticks, i)
    {
      assert i < |s.em.ticks| ==> TickOk(n, s.em.ticks, i);
    }
  }

  lemma MixedFollowsShared(n: nat, s: State, d: State)
    requires d.em == s.em && s.shared.AtMost(d.shared) && s.em.next <= |FIELDS|
    requires NearlyJudged(Mixed(s), n) && NearlyJudged(d.shared, n) && Mixed(s).AtMost(s.shared)
    ensures Mixed(s).AtMost(Mixed(d)) && Mixed(d).AtMost(d.shared) && NearlyJudged(Mixed(d), n)
  {
  }

  lemma AtMostTrans(a: Tally, b: Tally, c: Tally)
    requires a.AtMost(b) && b.AtMost(c)
    ensures a.AtMost(c)
  {
  }

  lemma TaskStepsKeepEmitter(n: nat, s: State, d: State)
    requires EmitterInv(n, s) && Conserved(d) && |d.tasks| == n && d.em == s.em && s.shared.AtMost(d.shared)
    ensures EmitterInv(n, d)
  {
    TasksAtMost(d.tasks, Between);
    MixedFollowsShared(n, s, d);
    AtMostTrans(s.em.prev, Mixed(s), Mixed(d));
  }

  lemma TaskStepsLeaveEmitter(cfg: Config, s: State, step: Step)
    requires |s.tasks| == |s.locals|
    requires step.Read? ==> s.em.next >= |FIELDS|
    requires step.Publish? ==> s.em.next != |FIELDS|
    ensures Apply(cfg, s, step).em == s.em && |Apply(cfg, s, step).tasks| == |s.tasks|
  {
  }

  lemma StepKeepsEmitter(cfg: Config, n: nat, s: State, step: Step)
    requires EmitterInv(n, s) && Conserved(s)
    ensures EmitterInv(n, Apply(cfg, s, step))
  {
    if step.Read? && s.em.next < |FIELDS| {
      ReadKeepsEmitter(cfg, n, s);
    } else if step.Publish? && s.em.next == |FIELDS| {
      PublishKeepsEmitter(cfg, n, s);
    } else {
      StepConserves(cfg, s, step);
      SharedOnlyGrows(cfg, s, step);
      TaskStepsLeaveEmitter(cfg, s, step);
      TaskStepsKeepEmitter(n, s, Apply(cfg, s, step));
    }
  }

  lemma {:induction false} EmitterInvariant(cfg: Config, n: nat, steps: seq<Step>)
    ensures EmitterInv(n, Exec(cfg, n, steps))
  {
    if steps != [] {
      var k := |steps| - 1;
      EmitterInvariant(cfg, n, steps[..k]);
      CountersConserved(cfg, n, steps[..k]);
      StepKeepsEmitter(cfg, n, Exec(cfg, n, steps[..k]), steps[k]);
    }
  }

  function Deltas(ticks: seq<Published>): seq<Tally> {
    seq(|ticks|, i requires 0 <= i < |ticks| => ticks[i].delta)
  }

  function Totals(ticks: seq<Published>): seq<Tally> {
    seq(|ticks|, i requires 0 <= i < |ticks| => ticks[i].totals)
  }

  lemma TicksAreDifferences(n: nat, s: State)
    requires EmitterInv(n, s)
    ensures Differences(Totals(s.em.ticks), Deltas(s.em.ticks))
  {
    forall k | 0 <= k < |s.em.ticks|
      ensures DifferenceAt(Totals(s.em.ticks), Deltas(s.em.ticks), k)
    {
      assert TickOk(n, s.em.ticks, k);
    }
  }

  ghost predicate SoundTick(n: nat, s: State, k: nat)
    requires k < |s.em.ticks|
  {
    && s.em.ticks[k].totals.Judged() + n >= s.em.ticks[k].totals.completed
    && (k > 0 ==> s.em.ticks[k - 1].totals.AtMost(s.em.ticks[k].totals))
    && s.em.ticks[k].totals.AtMost(s.shared)
    && SumTallies(Deltas(s.em.ticks)[..k + 1]) == s.em.ticks[k].totals
  }

  lemma {:induction false} TicksBelowLive(n: nat, s: State, k: nat)
    requires EmitterInv(n, s) && k < |s.em.ticks|
    ensures s.em.ticks[k].totals.AtMost(s.shared)
    decreases |s.em.ticks| - k
  {
    if k + 1 < |s.em.ticks| {
      TicksBelowLive(n, s, k + 1);
      assert TickOk(n, s.em.ticks, k + 1);
      AtMostTrans(s.em.ticks[k].totals, s.em.ticks[k + 1].totals, s.shared);
    } else {
      AtMostTrans(s.em.prev, Mixed(s), s.shared);
    }
  }

  lemma TickIsSound(n: nat, s: State, k: nat)
    requires EmitterInv(n, s) && k < |s.em.ticks|
    requires SumTallies(Deltas(s.em.ticks)[..k + 1]) == s.em.ticks[k].totals
    requires s.em.ticks[k].totals.AtMost(s.shared)
    ensures SoundTick(n, s, k)
  {
    assert TickOk(n, s.em.ticks, k);
  }

  lemma TicksAreSound(n: nat, s: State)
    requires EmitterInv(n, s)
    ensures forall k :: 0 <= k < |s.em.ticks| ==> SoundTick(n, s, k)
  {
    TicksAreDifferences(n, s);
    forall k | 0 <= k < |s.em.ticks|
      ensures SoundTick(n, s, k)
    {
      TicksBelowLive(n, s, k);
      DifferencesTelescope(Totals(s.em.ticks), Deltas(s.em.ticks), k + 1);
      TickIsSound(n, s, k);
    }
  }

  /** In every interleaving, every published snapshot has counted at most n responses that its
      verdict counters do not show, snapshots never go back nor ahead of the live counters, and the
      published differences up to a tick add up to that tick's snapshot. */
  lemma SnapshotsAreSound(cfg: Config, n: nat, steps: seq<Step>)
    ensures var s := Exec(cfg, n, steps);
            forall k :: 0 <= k < |s.em.ticks| ==> SoundTick(n, s, k)
  {
    EmitterInvariant(cfg, n, steps);
    TicksAreSound(n, Exec(cfg, n, steps));
  }
}
