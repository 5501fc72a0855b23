/** The per-connection schedule: intended slots on an unchanging timetable, catch-up pacing at
    twice the rate when behind, and the origin shift that makes a back-off a pause. */
module Scheduler {
  import opened Arithmetic

  /** Requests per microsecond as an exact fraction. */
  datatype Rate = Rate(num: pos, den: pos)

  datatype Schedule = Constant(rate: Rate) | Ramp(durationUs: nat, peak: Rate)

  function RampArgument(d: nat, r: Rate, n: nat): nat { 2 * d * n * r.den / r.num }

  /** Offset of the n-th slot from the schedule origin: floor(n / rate) when constant, and
      floor(sqrt(2*D*n / R)) on a ramp. */
  function Slot(schedule: Schedule, n: nat): nat {
    match schedule
    case Constant(r) => n * r.den / r.num
    case Ramp(d, r) => ISqrt(RampArgument(d, r, n))
  }

  function CatchUpRate(r: Rate): Rate { Rate(2 * r.num, r.den) }

  /** Offset of the k-th request of a catch-up window from the window's anchor. */
  function CatchUpSlot(r: Rate, k: nat): nat { Slot(Constant(CatchUpRate(r)), k) }

  datatype State = State(
    start: nat, complete: nat, schedule: Schedule,
    caughtUp: bool, anchor: nat, anchorComplete: nat)
  {
    predicate Valid() { anchorComplete <= complete }

    function Intended(): nat { start + Slot(schedule, complete) }

    /** Requests since the current catch-up window was anchored. */
    function Since(): nat
      requires Valid()
    {
      complete - anchorComplete
    }

    predicate Behind() { !caughtUp && schedule.Constant? }
  }

  function Fresh(start: nat, schedule: Schedule): State {
    State(start, 0, schedule, true, 0, 0)
  }

  /** The new state and the wait of one call to `usec_to_next_send`. */
  function Pace(s: State, now: nat): (State, nat)
    requires s.Valid()
  {
    if s.Intended() > now then
      (s.(caughtUp := true), s.Intended() - now)
    else if s.schedule.Ramp? then
      (s.(caughtUp := false), 0)
    else
      var a := if s.caughtUp then s.(caughtUp := false, anchor := now, anchorComplete := s.complete) else s;
      var due := a.anchor + CatchUpSlot(a.schedule.rate, a.Since());
      (a, if due > now then due - now else 0)
  }

  function Advance(s: State): State { s.(complete := s.complete + 1) }

  function Defer(s: State, delta: nat): State { s.(start := s.start + delta, caughtUp := true) }

  // ---- the mutable object ----

  class ConnSched {
    var threadStartUs: nat
    var complete: nat
    var schedule: Schedule
    var caughtUp: bool
    var catchUpStartTime: nat
    var completeAtCatchUpStart: nat

    function Model(): State
      reads this
    {
      State(threadStartUs, complete, schedule, caughtUp, catchUpStartTime, completeAtCatchUpStart)
    }

    predicate Valid()
      reads this
    {
      Model().Valid()
    }

    constructor New(startUs: nat, rate: Rate)
      ensures Valid() && Model() == Fresh(startUs, Constant(rate))
    {
      threadStartUs, complete, schedule := startUs, 0, Constant(rate);
      caughtUp, catchUpStartTime, completeAtCatchUpStart := true, 0, 0;
    }

    constructor NewRamp(startUs: nat, durationUs: nat, peak: Rate)
      ensures Valid() && Model() == Fresh(startUs, Ramp(durationUs, peak))
    {
      threadStartUs, complete, schedule := startUs, 0, Ramp(durationUs, peak);
      caughtUp, catchUpStartTime, completeAtCatchUpStart := true, 0, 0;
    }

    function IntendedSendTime(): nat
      reads this
    {
      match schedule
      case Constant(r) => threadStartUs + complete * r.den / r.num
      case Ramp(d, r) => threadStartUs + ISqrt(2 * d * complete * r.den / r.num)
    }

    /** Waiting the returned time never fires before the intended slot. On pace it fires exactly on
        it; a ramp that is behind fires at once; a constant schedule that is behind fires at once
        and opens a window, or fires on the window's next slot at twice the rate. */
    method UsecToNextSend(now: nat) returns (wait: nat)
      requires Valid()
      modifies this
      ensures Valid() && (Model(), wait) == Pace(old(Model()), now)
      ensures IntendedSendTime() == old(IntendedSendTime()) <= now + wait
      ensures caughtUp <==> IntendedSendTime() > now
      ensures caughtUp ==> now + wait == IntendedSendTime()
      ensures !caughtUp && schedule.Ramp? ==> wait == 0
      ensures !caughtUp && schedule.Constant? && old(caughtUp) ==>
                wait == 0 && catchUpStartTime == now && completeAtCatchUpStart == complete
      ensures !caughtUp && schedule.Constant? && !old(caughtUp) ==>
                && catchUpStartTime == old(catchUpStartTime)
                && completeAtCatchUpStart == old(completeAtCatchUpStart)
                && now + wait == Max(now, catchUpStartTime
                                          + CatchUpSlot(schedule.rate, complete - completeAtCatchUpStart))
    {
      var nextStartOrig := IntendedSendTime();
      if nextStartOrig > now {
        caughtUp := true;
        return nextStartOrig - now;
      }
      if schedule.Ramp? {
        caughtUp := false;
        return 0;
      }
      if caughtUp {
        caughtUp := false;
        catchUpStartTime := now;
        completeAtCatchUpStart := complete;
      }
      var since := complete - completeAtCatchUpStart;
      var catchUpNext := catchUpStartTime + CatchUpSlot(schedule.rate, since);
      wait := if catchUpNext > now then catchUpNext - now else 0;
    }

    method AdvanceOne()
      requires Valid()
      modifies this
      ensures Valid() && Model() == Advance(old(Model()))
    {
      complete := complete + 1;
    }

    method DeferOrigin(deltaUs: nat)
      requires Valid()
      modifies this
      ensures Valid() && Model() == Defer(old(Model()), deltaUs)
      ensures IntendedSendTime() == old(IntendedSendTime()) + deltaUs
    {
      threadStartUs := threadStartUs + deltaUs;
      caughtUp := true;
    }
  }

  // ---- constant timetable ----

  /** A constant slot lies inside the window exactly when the request index is below rate*t. */
  lemma ConstantSlotBefore(r: Rate, n: nat, t: nat)
    ensures Slot(Constant(r), n) < t <==> n * r.den < t * r.num
  {
    DivGalois(n * r.den, r.num, t);
  }

  lemma RampArgumentMono(d: nat, r: Rate, m: nat, n: nat)
    requires m <= n
    ensures RampArgument(d, r, m) <= RampArgument(d, r, n)
  {
    MulMono(m, n, 2 * d);
    MulMono(2 * d * m, 2 * d * n, r.den);
    DivMono(2 * d * m * r.den, 2 * d * n * r.den, r.num);
  }

  lemma SlotMono(schedule: Schedule, m: nat, n: nat)
    requires m <= n
    ensures Slot(schedule, m) <= Slot(schedule, n)
  {
    match schedule
    case Constant(r) =>
      MulMono(m, n, r.den);
      DivMono(m * r.den, n * r.den, r.num);
    case Ramp(d, r) =>
      RampArgumentMono(d, r, m, n);
      ISqrtMono(RampArgument(d, r, m), RampArgument(d, r, n));
  }
}
