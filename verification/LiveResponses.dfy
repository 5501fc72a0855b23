/** The live counters and the rate-limit onset in terms of the responses that arrived, under every
    interleaving of the tasks' steps. */
module LiveResponses {
  import opened Sequences
  import opened Counting
  import opened Verdicts
  import opened LiveCounters

  function Upto(cfg: Config, n: nat, steps: seq<Step>, m: nat): (s: State)
    requires m <= |steps|
    ensures |s.tasks| == |s.locals| == n
  {
    Exec(cfg, n, steps[..m])
  }

  /** Step k is the arrival of a response at a task that was waiting for one. */
  ghost predicate Arrives(cfg: Config, n: nat, steps: seq<Step>, k: nat) {
    && k < |steps| && steps[k].Respond? && steps[k].i < n
    && Upto(cfg, n, steps, k).tasks[steps[k].i].Idle?
  }

  /** It does, and what arrives earns verdict v. */
  ghost predicate Earns(cfg: Config, n: nat, steps: seq<Step>, k: nat, v: Verdict) {
    Arrives(cfg, n, steps, k) && Meets(cfg.rules, steps[k].resp, steps[k].correctedUs, v)
  }

  ghost function Arriving(cfg: Config, n: nat, steps: seq<Step>): nat -> bool {
    (k: nat) => Arrives(cfg, n, steps, k)
  }

  ghost function Earning(cfg: Config, n: nat, steps: seq<Step>, v: Verdict): nat -> bool {
    (k: nat) => Earns(cfg, n, steps, k, v)
  }

  // ---- one step ----

  ghost predicate Responds(s: State, step: Step) {
    step.Respond? && step.i < |s.tasks| && s.tasks[step.i].Idle?
  }

  /** The responses of one verdict that are counted or about to be. */
  function Seen(s: State, v: Verdict): nat { s.shared.Get(Of(v)) + Tasks(s.tasks, Pending(v)) }

  lemma TaskSees(s: State, d: State, i: nat, v: Verdict)
    requires Moved(s, d, i)
    ensures Seen(d, v) + s.shared.Get(Of(v)) + One(At(s.tasks[i], Pending(v))) ==
            Seen(s, v) + d.shared.Get(Of(v)) + One(At(d.tasks[i], Pending(v)))
  {
    TasksUpdate(s.tasks, i, d.tasks[i], Pending(v));
  }

  lemma GoSees(cfg: Config, s: State, i: nat, v: Verdict)
    requires i < |s.tasks| == |s.locals|
    ensures Seen(Advance(cfg, s, i), v) == Seen(s, v)
  {
    var d := Advance(cfg, s, i);
    assert Moved(s, d, i);
    TaskSees(s, d, i, v);
    match s.tasks[i]
    case CountedLocally(_, _) => BumpGets(s.shared, Completed, Of(v));
    case JudgedLocally(w, _) => BumpGets(s.shared, Of(w), Of(v));
    case _ =>
  }

  lemma StepSees(cfg: Config, s: State, step: Step, v: Verdict)
    requires |s.tasks| == |s.locals|
    ensures Seen(Apply(cfg, s, step), v) ==
            Seen(s, v) + One(Responds(s, step) && Meets(cfg.rules, step.resp, step.correctedUs, v))
  {
    var d := Apply(cfg, s, step);
    match step
    case Respond(i, resp, correctedUs, _) =>
      VerdictsMean(cfg.rules, resp, correctedUs, v);
      if Responds(s, step) {
        TaskSees(s, d, i, v);
      }
    case Go(i) =>
      if i < |s.tasks| {
        GoSees(cfg, s, i, v);
      }
    case Quit(i) =>
      if i < |s.tasks| && s.tasks[i].Idle? {
        TaskSees(s, d, i, v);
      }
    case Read =>
    case Publish =>
  }

  // ---- every interleaving ----

  lemma UptoNext(cfg: Config, n: nat, steps: seq<Step>, m: nat)
    requires m < |steps|
    ensures Upto(cfg, n, steps, m + 1) == Apply(cfg, Upto(cfg, n, steps, m), steps[m])
  {
    PrefixMore(steps, m);
  }

  lemma RespondsIffArrives(cfg: Config, n: nat, steps: seq<Step>, m: nat)
    requires m < |steps|
    ensures Responds(Upto(cfg, n, steps, m), steps[m]) <==> Arrives(cfg, n, steps, m)
  {
  }

  lemma NoneSeen(n: nat, v: Verdict)
    ensures Seen(Init(n), v) == 0
  {
    NoTasks(Init(n).tasks, Pending(v));
    ZeroGets(Of(v));
  }

  /** After m steps the responses seen with verdict v are those that earned it. */
  ghost predicate SeesEarners(cfg: Config, n: nat, steps: seq<Step>, m: nat, v: Verdict)
    requires m <= |steps|
  {
    Seen(Upto(cfg, n, steps, m), v) == HowMany(m, Earning(cfg, n, steps, v))
  }

  lemma NoneSeenYet(cfg: Config, n: nat, steps: seq<Step>, v: Verdict)
    ensures SeesEarners(cfg, n, steps, 0, v)
  {
    NoneSeen(n, v);
    NoneOfNone(Earning(cfg, n, steps, v));
  }

  lemma SeenNext(cfg: Config, n: nat, steps: seq<Step>, m: nat, v: Verdict)
    requires m < |steps| && SeesEarners(cfg, n, steps, m, v)
    ensures SeesEarners(cfg, n, steps, m + 1, v)
  {
    UptoNext(cfg, n, steps, m);
    StepSees(cfg, Upto(cfg, n, steps, m), steps[m], v);
    RespondsIffArrives(cfg, n, steps, m);
    OneMore(m, Earning(cfg, n, steps, v));
  }

  lemma {:induction false} SeenAreEarners(cfg: Config, n: nat, steps: seq<Step>, m: nat, v: Verdict)
    requires m <= |steps|
    ensures SeesEarners(cfg, n, steps, m, v)
  {
    if m == 0 {
      NoneSeenYet(cfg, n, steps, v);
    } else {
      SeenAreEarners(cfg, n, steps, m - 1, v);
      SeenNext(cfg, n, steps, m - 1, v);
    }
  }

  lemma StepRecords(cfg: Config, s: State, step: Step)
    requires |s.tasks| == |s.locals|
    ensures Apply(cfg, s, step).recorded == s.recorded + One(Responds(s, step))
  {
  }

  lemma {:induction false} RecordedAreArrivals(cfg: Config, n: nat, steps: seq<Step>, m: nat)
    requires m <= |steps|
    ensures Upto(cfg, n, steps, m).recorded == HowMany(m, Arriving(cfg, n, steps))
  {
    if m == 0 {
      NoneOfNone(Arriving(cfg, n, steps));
    } else {
      RecordedAreArrivals(cfg, n, steps, m - 1);
      UptoNext(cfg, n, steps, m - 1);
      StepRecords(cfg, Upto(cfg, n, steps, m - 1), steps[m - 1]);
      RespondsIffArrives(cfg, n, steps, m - 1);
      OneMore(m - 1, Arriving(cfg, n, steps));
    }
  }

  lemma JoinedHasSeen(cfg: Config, n: nat, steps: seq<Step>, v: Verdict)
    requires Joined(Exec(cfg, n, steps))
    ensures Exec(cfg, n, steps).shared.Get(Of(v)) == HowMany(|steps|, Earning(cfg, n, steps, v))
  {
    WholePrefix(steps);
    SeenAreEarners(cfg, n, steps, |steps|, v);
    NoTasks(Exec(cfg, n, steps).tasks, Pending(v));
  }

  /** Counters that show this many responses in all, and of each verdict. */
  ghost predicate Shows(t: Tally, all: nat, of: Verdict -> nat) {
    && t.completed == all
    && t.pass == of(Pass) && t.failStatus == of(FailStatus) && t.failLatency == of(FailLatency)
    && t.failSize == of(FailSize) && t.failContentType == of(FailContentType) && t.rateLimited == of(RateLimited)
  }

  lemma FieldsShow(t: Tally, all: nat, of: Verdict -> nat)
    requires t.completed == all && forall v :: t.Get(Of(v)) == of(v)
    ensures Shows(t, all, of)
  {
    assert t.Get(Of(Pass)) == of(Pass) && t.Get(Of(FailStatus)) == of(FailStatus);
    assert t.Get(Of(FailLatency)) == of(FailLatency) && t.Get(Of(FailSize)) == of(FailSize);
    assert t.Get(Of(FailContentType)) == of(FailContentType) && t.Get(Of(RateLimited)) == of(RateLimited);
  }

  ghost function Earners(cfg: Config, n: nat, steps: seq<Step>): Verdict -> nat {
    v => HowMany(|steps|, Earning(cfg, n, steps, v))
  }

  lemma JoinedHasRecorded(cfg: Config, n: nat, steps: seq<Step>)
    requires Joined(Exec(cfg, n, steps))
    ensures Exec(cfg, n, steps).shared.completed == HowMany(|steps|, Arriving(cfg, n, steps))
  {
    WholePrefix(steps);
    RecordedAreArrivals(cfg, n, steps, |steps|);
    TalliesAgreeAtJoin(cfg, n, steps);
  }

  /** Once every task has finished, each live counter is the number of responses that arrived and
      earned what it counts. */
  lemma CountersAreResponses(cfg: Config, n: nat, steps: seq<Step>)
    requires Joined(Exec(cfg, n, steps))
    ensures Shows(Exec(cfg, n, steps).shared, HowMany(|steps|, Arriving(cfg, n, steps)), Earners(cfg, n, steps))
  {
    var s := Exec(cfg, n, steps);
    JoinedHasRecorded(cfg, n, steps);
    forall v
      ensures s.shared.Get(Of(v)) == Earners(cfg, n, steps)(v)
    {
      JoinedHasSeen(cfg, n, steps, v);
    }
    FieldsShow(s.shared, HowMany(|steps|, Arriving(cfg, n, steps)), Earners(cfg, n, steps));
  }

  // ---- the onset ----

  /** Step k is the arrival of a 429. */
  ghost predicate Limits(cfg: Config, n: nat, steps: seq<Step>, k: nat) {
    Arrives(cfg, n, steps, k) && steps[k].resp.status == 429
  }

  /** A number is the slot of one of the first m steps that is the arrival of a 429. */
  ghost predicate LimitedAt(cfg: Config, n: nat, steps: seq<Step>, m: nat, slot: nat) {
    exists k: nat :: k < m && Limits(cfg, n, steps, k) && steps[k].slot == slot
  }

  ghost function LimitedSlots(cfg: Config, n: nat, steps: seq<Step>, m: nat): iset<nat> {
    iset slot: nat | LimitedAt(cfg, n, steps, m, slot)
  }

  /** Only slots of 429s are kept as such, and no guard is taken unless onsets are recorded. */
  ghost predicate Sourced(cfg: Config, s: State, slots: iset<nat>) {
    && (forall i :: 0 <= i < |s.tasks| && At(s.tasks[i], Pending(RateLimited)) ==> s.tasks[i].slot in slots)
    && (forall slot :: slot in s.limited ==> slot in slots)
    && (s.seen ==> cfg.recordOnset)
  }

  lemma GoKeepsSourced(cfg: Config, s: State, i: nat, slots: iset<nat>)
    requires OnsetInv(cfg, s) && i < |s.tasks| && Sourced(cfg, s, slots)
    ensures Sourced(cfg, Advance(cfg, s, i), slots)
  {
    var d := Advance(cfg, s, i);
    assert Moved(s, d, i);
    assert At(s.tasks[i], Pending(RateLimited)) ==> s.tasks[i].slot in slots;
  }

  lemma RespondKeepsSourced(cfg: Config, s: State, step: Step, slots: iset<nat>)
    requires |s.tasks| == |s.locals| && Responds(s, step) && Sourced(cfg, s, slots)
    requires step.resp.status == 429 ==> step.slot in slots
    ensures Sourced(cfg, Apply(cfg, s, step), slots)
  {
    VerdictsMean(cfg.rules, step.resp, step.correctedUs, RateLimited);
  }

  lemma StepKeepsSourced(cfg: Config, s: State, step: Step, slots: iset<nat>)
    requires OnsetInv(cfg, s) && Sourced(cfg, s, slots)
    requires Responds(s, step) && step.resp.status == 429 ==> step.slot in slots
    ensures Sourced(cfg, Apply(cfg, s, step), slots)
  {
    if Responds(s, step) {
      RespondKeepsSourced(cfg, s, step, slots);
    } else if step.Go? && step.i < |s.tasks| {
      GoKeepsSourced(cfg, s, step.i, slots);
    }
  }

  lemma SourcedByMore(cfg: Config, s: State, slots: iset<nat>, more: iset<nat>)
    requires Sourced(cfg, s, slots) && slots <= more
    ensures Sourced(cfg, s, more)
  {
  }

  lemma SlotsGrow(cfg: Config, n: nat, steps: seq<Step>, m: nat)
    ensures LimitedSlots(cfg, n, steps, m) <= LimitedSlots(cfg, n, steps, m + 1)
    ensures Limits(cfg, n, steps, m) ==> steps[m].slot in LimitedSlots(cfg, n, steps, m + 1)
  {
  }

  lemma {:induction false} SlotsAreSourced(cfg: Config, n: nat, steps: seq<Step>, m: nat)
    requires m <= |steps|
    ensures Sourced(cfg, Upto(cfg, n, steps, m), LimitedSlots(cfg, n, steps, m))
  {
    if m > 0 {
      var s := Upto(cfg, n, steps, m - 1);
      SlotsAreSourced(cfg, n, steps, m - 1);
      UptoNext(cfg, n, steps, m - 1);
      SlotsGrow(cfg, n, steps, m - 1);
      SourcedByMore(cfg, s, LimitedSlots(cfg, n, steps, m - 1), LimitedSlots(cfg, n, steps, m));
      RespondsIffArrives(cfg, n, steps, m - 1);
      OnsetInvariant(cfg, n, steps[..m - 1]);
      StepKeepsSourced(cfg, s, steps[m - 1], LimitedSlots(cfg, n, steps, m));
    }
  }

  /** The rate offered at a time, cleared of division: the target, or the share of it that the ramp
      has reached. */
  ghost predicate Offers(cfg: Config, elapsedUs: nat, rps: real) {
    if cfg.ramp && 0 < cfg.durationS && elapsedUs < cfg.durationS * 1_000_000
    then rps * (cfg.durationS * 1_000_000) as real == cfg.targetRps * elapsedUs as real
    else rps == cfg.targetRps
  }

  lemma ShareOf(target: real, part: real, whole: real)
    requires whole > 0.0
    ensures target * (part / whole) * whole == target * part
    ensures part / whole > 1.0 <==> part > whole
  {
    var frac := part / whole;
    assert frac * whole == part;
    assert target * frac * whole == target * (frac * whole);
  }

  lemma OfferedRpsMeans(cfg: Config, elapsedUs: nat)
    ensures Offers(cfg, elapsedUs, OfferedRpsAt(cfg, elapsedUs))
  {
    if cfg.ramp && cfg.durationS > 0 {
      var whole := cfg.durationS as real * 1_000_000.0;
      ShareOf(cfg.targetRps, elapsedUs as real, whole);
      assert whole == (cfg.durationS * 1_000_000) as real;
    }
  }

  /** A stored onset is the rate offered at the intended slot of a response that was a 429. */
  lemma OnsetIsOffered(cfg: Config, n: nat, steps: seq<Step>)
    ensures var onset := Exec(cfg, n, steps).onset;
            onset.Some? ==>
              cfg.recordOnset && exists k: nat :: Limits(cfg, n, steps, k) && Offers(cfg, steps[k].slot, onset.value)
  {
    var s := Exec(cfg, n, steps);
    OnsetStoredOnce(cfg, n, steps);
    if s.onset.Some? {
      OnsetInvariant(cfg, n, steps);
      WholePrefix(steps);
      SlotsAreSourced(cfg, n, steps, |steps|);
      var slot := s.winner.value;
      assert LimitedAt(cfg, n, steps, |steps|, slot);
      var k: nat :| Limits(cfg, n, steps, k) && steps[k].slot == slot;
      OfferedRpsMeans(cfg, slot);
    }
  }

  /** After all tasks have joined there is an onset exactly when onsets are recorded and a 429 has
      arrived. */
  lemma OnsetIffSome429(cfg: Config, n: nat, steps: seq<Step>)
    requires Joined(Exec(cfg, n, steps))
    ensures Exec(cfg, n, steps).onset.Some? <==> cfg.recordOnset && exists k: nat :: Limits(cfg, n, steps, k)
  {
    OnsetIsOffered(cfg, n, steps);
    if cfg.recordOnset && exists k: nat :: Limits(cfg, n, steps, k) {
      var k: nat :| Limits(cfg, n, steps, k);
      SomeCounted(|steps|, Earning(cfg, n, steps, RateLimited), k);
      JoinedHasSeen(cfg, n, steps, RateLimited);
      OnsetIffLimited(cfg, n, steps);
    }
  }

  // ---- a snapshot of counters at rest ----

  function Reads(j: nat): seq<Step> { seq(j, i => Read) }

  /** The first j fields have been copied. */
  ghost predicate Copied(s: State, d: State, j: nat) {
    && d == s.(em := d.em) && d.em.next == j && d.em.ticks == s.em.ticks && d.em.prev == s.em.prev
    && forall i :: 0 <= i < j && i < |FIELDS| ==> d.em.snap.Get(FIELDS[i]) == s.shared.Get(FIELDS[i])
  }

  lemma SetGets(t: Tally, f: Field, x: nat, g: Field)
    ensures t.Set(f, x).Get(g) == if f == g then x else t.Get(g)
  {
  }

  lemma ReadCopies(cfg: Config, s: State, d: State, j: nat)
    requires |s.tasks| == |s.locals| && j < |FIELDS| && Copied(s, d, j)
    ensures Copied(s, Apply(cfg, d, Read), j + 1)
  {
    var f := FIELDS[j];
    forall i | 0 <= i <= j
      ensures d.em.snap.Set(f, s.shared.Get(f)).Get(FIELDS[i]) == s.shared.Get(FIELDS[i])
    {
      SetGets(d.em.snap, f, s.shared.Get(f), FIELDS[i]);
    }
  }

  lemma {:induction false} ReadsCopy(cfg: Config, n: nat, steps: seq<Step>, j: nat)
    requires Exec(cfg, n, steps).em.next == 0 && j <= |FIELDS|
    ensures Copied(Exec(cfg, n, steps), Exec(cfg, n, steps + Reads(j)), j)
  {
    if j == 0 {
      NothingMore(steps);
      assert Reads(0) == [];
    } else {
      ReadsCopy(cfg, n, steps, j - 1);
      assert Reads(j) == Reads(j - 1) + [Read];
      Reassociate(steps, Reads(j - 1), [Read]);
      Grown(steps + Reads(j - 1), Read);
      ReadCopies(cfg, Exec(cfg, n, steps), Exec(cfg, n, steps + Reads(j - 1)), j - 1);
    }
  }

  lemma AllFieldsAgree(a: Tally, b: Tally)
    requires forall i :: 0 <= i < |FIELDS| ==> a.Get(FIELDS[i]) == b.Get(FIELDS[i])
    ensures a == b
  {
    assert a.Get(FIELDS[0]) == b.Get(FIELDS[0]) && a.Get(FIELDS[1]) == b.Get(FIELDS[1]);
    assert a.Get(FIELDS[2]) == b.Get(FIELDS[2]) && a.Get(FIELDS[3]) == b.Get(FIELDS[3]);
    assert a.Get(FIELDS[4]) == b.Get(FIELDS[4]) && a.Get(FIELDS[5]) == b.Get(FIELDS[5]);
    assert a.Get(FIELDS[6]) == b.Get(FIELDS[6]);
  }

  /** Read while no task moves, the counters are published as they stand. */
  lemma QuietSnapshotIsExact(cfg: Config, n: nat, steps: seq<Step>)
    requires Exec(cfg, n, steps).em.next == 0
    ensures var s, d := Exec(cfg, n, steps), Exec(cfg, n, steps + Reads(7) + [Publish]);
            && |d.em.ticks| == |s.em.ticks| + 1 && d.em.ticks[..|s.em.ticks|] == s.em.ticks
            && d.em.ticks[|s.em.ticks|].totals == s.shared == d.shared
  {
    var s, d := Exec(cfg, n, steps), Exec(cfg, n, steps + Reads(7));
    ReadsCopy(cfg, n, steps, 7);
    Grown(steps + Reads(7), Publish);
    AllFieldsAgree(d.em.snap, s.shared);
  }
}
