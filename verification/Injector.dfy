/** The mock's failure injection and what the engine's inline tiers make of it. */
module Injector {
  import opened Arithmetic
  import opened Counting
  import opened Sequences
  import opened Verdicts
  import opened RpsMeter

  datatype Mode = Healthy | Fast500 | Truncate | WrongValue | SlowOk | Ratelimit

  datatype Params = Params(mode: Mode, cliffRps: real, pct: real, baseLatencyMs: nat)

  datatype Body = HealthyBody | ErrorBody | TruncateBody | WrongValueBody | RatelimitBody

  datatype Decision = Decision(
    aboveCliff: bool, injected: bool, status: nat, body: Body, latencyMs: nat, retryAfterSecs: Option<nat>)

  const SLOW_PENALTY_MS := 500

  /** The percentage clamped to 0..100 and truncated. */
  function Percent(pct: real): (p: nat)
    ensures p <= 100
  {
    if pct <= 0.0 then 0 else if pct >= 100.0 then 100 else pct.Floor
  }

  function Decide(p: Params, rps: real, seqNo: nat): Decision {
    var aboveCliff := rps > p.cliffRps;
    var selected := seqNo % 100 < Percent(p.pct);
    if !(aboveCliff && selected && p.mode != Healthy) then
      Decision(aboveCliff, false, 200, HealthyBody, p.baseLatencyMs, None)
    else
      match p.mode
      case Fast500 => Decision(aboveCliff, true, 500, ErrorBody, p.baseLatencyMs, None)
      case Truncate => Decision(aboveCliff, true, 200, TruncateBody, p.baseLatencyMs, None)
      case WrongValue => Decision(aboveCliff, true, 200, WrongValueBody, p.baseLatencyMs, None)
      case SlowOk => Decision(aboveCliff, true, 200, HealthyBody, p.baseLatencyMs + SLOW_PENALTY_MS, None)
      case _ => Decision(aboveCliff, true, 429, RatelimitBody, p.baseLatencyMs, Some(1))
  }

  /** A request is hit: the load is above the cliff and its number among the first of its hundred, as
      many of them as the percentage reaches in full. */
  ghost predicate Hit(p: Params, rps: real, seqNo: nat) {
    rps > p.cliffRps && (seqNo % 100 + 1) as real <= p.pct
  }

  /** The truncated percentage selects a number exactly when the percentage itself reaches it. */
  lemma PercentReaches(pct: real, r: nat)
    requires r < 100
    ensures r < Percent(pct) <==> (r + 1) as real <= pct
  {
  }

  /** A hit request gets its mode's failure and nothing else; any other gets the healthy response. */
  lemma DecideMeans(p: Params, rps: real, seqNo: nat)
    ensures var d, hit := Decide(p, rps, seqNo), Hit(p, rps, seqNo) && p.mode != Healthy;
            && (d.aboveCliff <==> rps > p.cliffRps) && (d.injected <==> hit)
            && (d.status == 500 <==> hit && p.mode == Fast500)
            && (d.status == 429 <==> hit && p.mode == Ratelimit)
            && (d.status != 500 && d.status != 429 ==> d.status == 200)
            && (d.body == ErrorBody <==> hit && p.mode == Fast500)
            && (d.body == TruncateBody <==> hit && p.mode == Truncate)
            && (d.body == WrongValueBody <==> hit && p.mode == WrongValue)
            && (d.body == RatelimitBody <==> hit && p.mode == Ratelimit)
            && d.latencyMs == p.baseLatencyMs + (if hit && p.mode == SlowOk then 500 else 0)
            && d.retryAfterSecs == (if hit && p.mode == Ratelimit then Some(1) else None)
  {
    PercentReaches(p.pct, seqNo % 100);
  }

  /** The handler's state: each request is recorded, measured and numbered. */
  class App {
    const meter: Meter
    var counter: nat

    constructor ()
      ensures meter.Valid() && meter.Refines([]) && counter == 0
      ensures fresh(meter) && fresh(meter.slot) && fresh(meter.count)
    {
      meter := new Meter();
      counter := 0;
    }

    /** Records the request, reads the meter, and decides; with the requests in order the reading is
        that of the last second, this one included. */
    method Handle(p: Params, now: millis, ghost log: seq<millis>) returns (d: Decision)
      requires meter.Valid() && meter.Refines(log)
      modifies this, meter.slot, meter.count
      ensures meter.Refines(log + [now]) && counter == old(counter) + 1
      ensures d == Decide(p, Reading(log + [now], Oldest(now), SlotOf(now), SLOTS) as real, old(counter))
      ensures Ordered(log) && UpTo(log, now) ==>
                d == Decide(p, Recent(log + [now], now, 901 + now % SLOT_MS) as real, old(counter))
    {
      meter.Record(now, log);
      var rps := meter.CurrentRps(now, log + [now]);
      if Ordered(log) && UpTo(log, now) {
        ReadingBetween(log + [now], now);
      }
      d := Decide(p, rps as real, counter);
      counter := counter + 1;
    }
  }

  // ---- how many are selected ----

  /** Selected numbers among start, start + 1, ..., start + n - 1. */
  function Selected(p: nat, start: nat, n: nat): nat {
    if n == 0 then 0 else Selected(p, start, n - 1) + if (start + n - 1) % 100 < p then 1 else 0
  }

  lemma NextResidue(m: nat)
    ensures if m % 100 == 99 then (m + 1) % 100 == 0 && (m + 1) / 100 == m / 100 + 1
            else (m + 1) % 100 == m % 100 + 1 && (m + 1) / 100 == m / 100
  {
  }

  /** Selected numbers below m: p in every full hundred, and as many as fit in the rest. */
  function SelectedBelow(p: nat, m: nat): nat { m / 100 * p + Min(m % 100, p) }

  lemma OneMoreSelected(p: nat, m: nat)
    requires p <= 100
    ensures SelectedBelow(p, m + 1) == SelectedBelow(p, m) + if m % 100 < p then 1 else 0
  {
    NextResidue(m);
    if m % 100 == 99 {
      assert (m / 100 + 1) * p == m / 100 * p + p;
    }
  }

  ghost predicate InClosedForm(p: nat, start: nat, n: nat) {
    SelectedBelow(p, start) + Selected(p, start, n) == SelectedBelow(p, start + n)
  }

  lemma OneMoreInClosedForm(p: nat, start: nat, n: nat)
    requires p <= 100 && InClosedForm(p, start, n)
    ensures InClosedForm(p, start, n + 1)
  {
    OneMoreSelected(p, start + n);
  }

  lemma {:induction false} SelectedInClosedForm(p: nat, start: nat, n: nat)
    requires p <= 100
    ensures InClosedForm(p, start, n)
  {
    if n > 0 {
      SelectedInClosedForm(p, start, n - 1);
      OneMoreInClosedForm(p, start, n - 1);
    }
  }

  lemma PartialHundred(p: nat, r: nat)
    requires p <= 100 && r < 100
    ensures 0 <= 100 * Min(r, p) - r * p <= p * (100 - p)
  {
    if r <= p {
      MulMono(r, p, 100 - p);
      assert 100 * r - r * p == r * (100 - p);
    } else {
      MulMono(100 - r, 100 - p, p);
      assert 100 * p - r * p == (100 - r) * p;
    }
  }

  lemma WholeAndRest(p: nat, q: nat, r: nat, m: nat, b: nat)
    requires m == 100 * q + r
    ensures 100 * (q * p + b) - m * p == 100 * b - r * p
  {
    assert m * p == 100 * (q * p) + r * p;
  }

  lemma Discrepancy(p: nat, m: nat)
    requires p <= 100
    ensures 0 <= 100 * SelectedBelow(p, m) - m * p <= p * (100 - p)
  {
    PartialHundred(p, m % 100);
    WholeAndRest(p, m / 100, m % 100, m, Min(m % 100, p));
  }

  lemma Between(a: int, b: int, sel: int, ap: int, np: int, bound: int)
    requires 0 <= 100 * a - ap <= bound && 0 <= 100 * b - (ap + np) <= bound && a + sel == b
    ensures -bound <= 100 * sel - np <= bound
  {
  }

  /** Of any n consecutive requests, the number selected is within p(100 - p)/100 of n*p/100. */
  lemma SelectionIsEven(p: nat, start: nat, n: nat)
    requires p <= 100
    ensures -(p * (100 - p)) <= 100 * Selected(p, start, n) - n * p <= p * (100 - p)
  {
    SelectedInClosedForm(p, start, n);
    Discrepancy(p, start);
    Discrepancy(p, start + n);
    assert (start + n) * p == start * p + n * p;
    Between(SelectedBelow(p, start), SelectedBelow(p, start + n), Selected(p, start, n),
            start * p, n * p, p * (100 - p));
  }

  lemma WholeHundreds(p: nat, start: nat, h: nat)
    ensures SelectedBelow(p, start + 100 * h) == SelectedBelow(p, start) + h * p
  {
    assert (start + 100 * h) % 100 == start % 100 && (start + 100 * h) / 100 == start / 100 + h;
    assert (start / 100 + h) * p == start / 100 * p + h * p;
  }

  /** Every whole number of hundreds holds exactly its share, wherever it starts. */
  lemma HundredsAreExact(p: nat, start: nat, h: nat)
    requires p <= 100
    ensures Selected(p, start, 100 * h) == h * p
  {
    SelectedInClosedForm(p, start, 100 * h);
    WholeHundreds(p, start, h);
  }

  // ---- what the engine counts ----

  datatype Answer = Answer(resp: Response, correctedUs: nat)

  function Tallied(rules: Rules, answers: seq<Answer>): Tally {
    if answers == [] then ZERO
    else
      var a := answers[|answers| - 1];
      Tallied(rules, answers[..|answers| - 1]).Bump(Completed).Bump(Of(Classify(rules, a.resp, a.correctedUs)))
  }

  const ONLY_200 := Rules([200], None, None, None, None)

  /** What an injected failure looks like to a worker that checks nothing but the status. */
  function Seen(mode: Mode): Verdict {
    match mode
    case Fast500 => FailStatus
    case Ratelimit => RateLimited
    case _ => Pass
  }

  lemma VerdictOfDecision(p: Params, rps: real, seqNo: nat, a: Answer)
    requires a.resp.status == Decide(p, rps, seqNo).status
    ensures Classify(ONLY_200, a.resp, a.correctedUs) == if Hit(p, rps, seqNo) then Seen(p.mode) else Pass
  {
    DecideMeans(p, rps, seqNo);
    assert 200 in [200] && 500 !in [200];
  }

  /** The answers to consecutive requests under a varying load. */
  ghost predicate Answered(p: Params, start: nat, rps: seq<real>, answers: seq<Answer>) {
    |rps| == |answers|
    && forall i :: 0 <= i < |answers| ==> answers[i].resp.status == Decide(p, rps[i], start + i).status
  }

  ghost predicate HitAt(p: Params, start: nat, rps: seq<real>, i: nat) {
    i < |rps| && Hit(p, rps[i], start + i)
  }

  ghost function Hits(p: Params, start: nat, rps: seq<real>): nat -> bool {
    (i: nat) => HitAt(p, start, rps, i)
  }

  lemma BumpCounts(t: Tally, v: Verdict)
    ensures t.Bump(Completed).Bump(Of(v)).completed == t.completed + 1
    ensures t.Bump(Completed).Bump(Of(v)).pass == t.pass + (if v.Pass? then 1 else 0)
    ensures t.Bump(Completed).Bump(Of(v)).failStatus == t.failStatus + (if v.FailStatus? then 1 else 0)
    ensures t.Bump(Completed).Bump(Of(v)).rateLimited == t.rateLimited + (if v.RateLimited? then 1 else 0)
  {
  }

  /** The tally of n answers, as many of them injected as given. */
  ghost predicate Agrees(mode: Mode, t: Tally, n: nat, injected: nat) {
    && t.completed == n && injected <= n
    && t.failStatus == (if mode == Fast500 then injected else 0)
    && t.rateLimited == (if mode == Ratelimit then injected else 0)
    && t.pass == n - t.failStatus - t.rateLimited
  }

  lemma AgreesMore(mode: Mode, t: Tally, n: nat, injected: nat, hit: bool, v: Verdict)
    requires Agrees(mode, t, n, injected) && v == if hit then Seen(mode) else Pass
    ensures Agrees(mode, t.Bump(Completed).Bump(Of(v)), n + 1, injected + if hit then 1 else 0)
  {
    BumpCounts(t, v);
  }

  lemma NothingTallied(mode: Mode)
    ensures Agrees(mode, ZERO, 0, 0)
  {
  }

  /** The tally of the first k answers agrees with the hits among the requests. */
  ghost predicate AgreesAt(p: Params, start: nat, rps: seq<real>, answers: seq<Answer>, k: nat)
    requires k <= |answers|
  {
    Agrees(p.mode, Tallied(ONLY_200, answers[..k]), k, HowMany(k, Hits(p, start, rps)))
  }

  lemma AgreesAtFirst(p: Params, start: nat, rps: seq<real>, answers: seq<Answer>)
    ensures AgreesAt(p, start, rps, answers, 0)
  {
    NothingTallied(p.mode);
    NoneOfNone(Hits(p, start, rps));
  }

  lemma AgreesAtNext(p: Params, start: nat, rps: seq<real>, answers: seq<Answer>, k: nat)
    requires Answered(p, start, rps, answers) && k < |answers| && AgreesAt(p, start, rps, answers, k)
    ensures AgreesAt(p, start, rps, answers, k + 1)
  {
    var a := answers[k];
    OneMore(k, Hits(p, start, rps));
    VerdictOfDecision(p, rps[k], start + k, a);
    AgreesMore(p.mode, Tallied(ONLY_200, answers[..k]), k, HowMany(k, Hits(p, start, rps)),
               Hit(p, rps[k], start + k), Classify(ONLY_200, a.resp, a.correctedUs));
    PrefixMore(answers, k);
  }

  lemma {:induction false} AgreesUpTo(p: Params, start: nat, rps: seq<real>, answers: seq<Answer>, k: nat)
    requires Answered(p, start, rps, answers) && k <= |answers|
    ensures AgreesAt(p, start, rps, answers, k)
  {
    if k == 0 {
      AgreesAtFirst(p, start, rps, answers);
    } else {
      AgreesUpTo(p, start, rps, answers, k - 1);
      AgreesAtNext(p, start, rps, answers, k - 1);
    }
  }

  /** The engine's tally agrees with the injector, whatever the load: with status 200 expected and no
      other tier, the fast500s among the requests that were hit are exactly its status failures and
      everything else passes; injected 429s are counted apart; the other modes pass unseen. */
  lemma OracleAgrees(p: Params, start: nat, rps: seq<real>, answers: seq<Answer>)
    requires Answered(p, start, rps, answers)
    ensures Agrees(p.mode, Tallied(ONLY_200, answers), |answers|, HowMany(|answers|, Hits(p, start, rps)))
  {
    AgreesUpTo(p, start, rps, answers, |answers|);
    WholePrefix(answers);
  }

  lemma {:induction false} AboveCliffAllSelected(p: Params, start: nat, rps: seq<real>, n: nat)
    requires n <= |rps| && forall i :: 0 <= i < |rps| ==> rps[i] > p.cliffRps
    ensures HowMany(n, Hits(p, start, rps)) == Selected(Percent(p.pct), start, n)
  {
    if n == 0 {
      NoneOfNone(Hits(p, start, rps));
    } else {
      AboveCliffAllSelected(p, start, rps, n - 1);
      OneMore(n - 1, Hits(p, start, rps));
      PercentReaches(p.pct, (start + n - 1) % 100);
    }
  }

  /** So the measured failures of n consecutive requests above the cliff follow the configured
      percentage closely. */
  lemma MeasuredRateIsConfigured(p: Params, start: nat, rps: seq<real>, answers: seq<Answer>)
    requires Answered(p, start, rps, answers) && p.mode == Fast500
    requires forall i :: 0 <= i < |rps| ==> rps[i] > p.cliffRps
    ensures var fails, n, pct := Tallied(ONLY_200, answers).failStatus, |answers|, Percent(p.pct);
            -(pct * (100 - pct)) <= 100 * fails - n * pct <= pct * (100 - pct)
  {
    OracleAgrees(p, start, rps, answers);
    AboveCliffAllSelected(p, start, rps, |answers|);
    SelectionIsEven(Percent(p.pct), start, |answers|);
  }
}
