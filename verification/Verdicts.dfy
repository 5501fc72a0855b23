/** The inline assertion tiers of the worker: what one response is judged to be. */
module Verdicts {
  datatype Option<+T> = None | Some(value: T)

  /** What the connection loop keeps of a parsed response. */
  datatype Response = Response(
    status: nat,
    contentLength: nat,
    contentType: Option<string>,   // lower-cased
    retryAfterMs: Option<nat>)

  datatype Verdict = Pass | FailStatus | FailLatency | FailSize | FailContentType | RateLimited

  datatype Rules = Rules(
    expectedStatus: seq<nat>,
    maxLatencyUs: Option<nat>,
    minBody: Option<nat>,
    maxBody: Option<nat>,
    contentTypePrefix: Option<string>)   // lower-cased

  predicate StatusOk(rules: Rules, status: nat) {
    if rules.expectedStatus == [] then 200 <= status < 300 else status in rules.expectedStatus
  }

  predicate ContentTypeOk(rules: Rules, got: Option<string>) {
    rules.contentTypePrefix.Some? ==> got.Some? && rules.contentTypePrefix.value <= got.value
  }

  function Classify(rules: Rules, resp: Response, correctedUs: nat): Verdict {
    if resp.status == 429 then RateLimited
    else if !StatusOk(rules, resp.status) then FailStatus
    else if rules.maxLatencyUs.Some? && correctedUs > rules.maxLatencyUs.value then FailLatency
    else if rules.minBody.Some? && resp.contentLength < rules.minBody.value then FailSize
    else if rules.maxBody.Some? && resp.contentLength > rules.maxBody.value then FailSize
    else if !ContentTypeOk(rules, resp.contentType) then FailContentType
    else Pass
  }

  /** The four rules as the operator states them: a listed status, or any 2xx when none is listed;
      a latency within its bound; a length within its bounds; a type that starts as asked. */
  ghost predicate Expected(rules: Rules, status: nat) {
    || (exists i :: 0 <= i < |rules.expectedStatus| && rules.expectedStatus[i] == status)
    || (|rules.expectedStatus| == 0 && 200 <= status <= 299)
  }

  ghost predicate InTime(rules: Rules, correctedUs: nat) {
    match rules.maxLatencyUs
    case None => true
    case Some(most) => correctedUs <= most
  }

  ghost predicate Fits(rules: Rules, length: nat) {
    && (forall least :: rules.minBody == Some(least) ==> least <= length)
    && (forall most :: rules.maxBody == Some(most) ==> length <= most)
  }

  ghost predicate Typed(rules: Rules, got: Option<string>) {
    forall p :: rules.contentTypePrefix == Some(p) ==>
      exists t: string :: got == Some(t) && |p| <= |t| && t[..|p|] == p
  }

  /** When a response earns a verdict: a 429 is never held against the target, a pass meets every
      rule, and a failure names the first rule broken. */
  ghost predicate Meets(rules: Rules, resp: Response, correctedUs: nat, v: Verdict) {
    match v
    case RateLimited => resp.status == 429
    case FailStatus => resp.status != 429 && !Expected(rules, resp.status)
    case FailLatency => resp.status != 429 && Expected(rules, resp.status) && !InTime(rules, correctedUs)
    case FailSize =>
      resp.status != 429 && Expected(rules, resp.status) && InTime(rules, correctedUs)
      && !Fits(rules, resp.contentLength)
    case FailContentType =>
      resp.status != 429 && Expected(rules, resp.status) && InTime(rules, correctedUs)
      && Fits(rules, resp.contentLength) && !Typed(rules, resp.contentType)
    case Pass =>
      resp.status != 429 && Expected(rules, resp.status) && InTime(rules, correctedUs)
      && Fits(rules, resp.contentLength) && Typed(rules, resp.contentType)
  }

  lemma RulesMean(rules: Rules, resp: Response)
    ensures StatusOk(rules, resp.status) <==> Expected(rules, resp.status)
    ensures ContentTypeOk(rules, resp.contentType) <==> Typed(rules, resp.contentType)
  {
    if rules.contentTypePrefix.Some? && resp.contentType.Some? {
      var p, t := rules.contentTypePrefix.value, resp.contentType.value;
      assert p <= t <==> |p| <= |t| && t[..|p|] == p;
    }
  }

  /** A response earns exactly one verdict, the one it is given. */
  lemma VerdictsMean(rules: Rules, resp: Response, correctedUs: nat, v: Verdict)
    ensures Meets(rules, resp, correctedUs, v) <==> v == Classify(rules, resp, correctedUs)
  {
    RulesMean(rules, resp);
  }

  /** The field a counter update touches: the total, or one verdict. */
  datatype Field = Completed | Of(v: Verdict)

  function Sub(a: nat, b: nat): nat { if a >= b then a - b else 0 }

  /** One set of counters; `ConnResult`, the live atomics, `ThisTick` and `RpsBucket` all have this shape. */
  datatype Tally = Tally(
    completed: nat, pass: nat, failStatus: nat, failLatency: nat,
    failSize: nat, failContentType: nat, rateLimited: nat)
  {
    function Get(f: Field): nat {
      match f
      case Completed => completed
      case Of(Pass) => pass
      case Of(FailStatus) => failStatus
      case Of(FailLatency) => failLatency
      case Of(FailSize) => failSize
      case Of(FailContentType) => failContentType
      case Of(RateLimited) => rateLimited
    }

    function Set(f: Field, n: nat): Tally {
      match f
      case Completed => this.(completed := n)
      case Of(Pass) => this.(pass := n)
      case Of(FailStatus) => this.(failStatus := n)
      case Of(FailLatency) => this.(failLatency := n)
      case Of(FailSize) => this.(failSize := n)
      case Of(FailContentType) => this.(failContentType := n)
      case Of(RateLimited) => this.(rateLimited := n)
    }

    function Bump(f: Field): Tally { Set(f, Get(f) + 1) }

    /** Sum of the six verdict counters. */
    function Judged(): nat {
      pass + failStatus + failLatency + failSize + failContentType + rateLimited
    }

    function Plus(t: Tally): Tally {
      Tally(completed + t.completed, pass + t.pass, failStatus + t.failStatus, failLatency + t.failLatency,
            failSize + t.failSize, failContentType + t.failContentType, rateLimited + t.rateLimited)
    }

    /** Field-wise saturating subtraction. */
    function Minus(t: Tally): Tally {
      Tally(Sub(completed, t.completed), Sub(pass, t.pass), Sub(failStatus, t.failStatus),
            Sub(failLatency, t.failLatency), Sub(failSize, t.failSize),
            Sub(failContentType, t.failContentType), Sub(rateLimited, t.rateLimited))
    }

    predicate AtMost(t: Tally) {
      completed <= t.completed && pass <= t.pass && failStatus <= t.failStatus && failLatency <= t.failLatency
      && failSize <= t.failSize && failContentType <= t.failContentType && rateLimited <= t.rateLimited
    }
  }

  const ZERO := Tally(0, 0, 0, 0, 0, 0, 0)

  function SumTallies(ts: seq<Tally>): Tally {
    if ts == [] then ZERO else SumTallies(ts[..|ts| - 1]).Plus(ts[|ts| - 1])
  }

  method AddUp(ts: seq<Tally>) returns (total: Tally)
    ensures total == SumTallies(ts)
  {
    total := ZERO;
    for i := 0 to |ts|
      invariant total == SumTallies(ts[..i])
    {
      assert ts[..i + 1][..i] == ts[..i];
      total := total.Plus(ts[i]);
    }
    assert ts[..|ts|] == ts;
  }

  lemma PlusSwaps(a: Tally, b: Tally, c: Tally)
    ensures a.Plus(b).Plus(c) == a.Plus(c).Plus(b)
  {
  }

  lemma PlusZero(a: Tally)
    ensures a.Plus(ZERO) == a
  {
  }

  /** One field added up over many tallies. */
  function Sum(ts: seq<Tally>, f: Field): nat {
    if ts == [] then 0 else Sum(ts[..|ts| - 1], f) + ts[|ts| - 1].Get(f)
  }

  lemma {:induction false} SumUpdate(ts: seq<Tally>, i: nat, t: Tally, f: Field)
    requires i < |ts|
    ensures Sum(ts[i := t], f) + ts[i].Get(f) == Sum(ts, f) + t.Get(f)
  {
    var k := |ts| - 1;
    if i < k {
      assert ts[i := t][..k] == ts[..k][i := t];
      SumUpdate(ts[..k], i, t, f);
    } else {
      assert ts[i := t][..k] == ts[..k];
    }
  }

  lemma {:induction false} SumPairs(a: seq<Tally>, b: seq<Tally>, c: seq<Tally>, f: Field)
    requires |a| == |b| == |c| && forall i :: 0 <= i < |a| ==> c[i].Get(f) == a[i].Get(f) + b[i].Get(f)
    ensures Sum(c, f) == Sum(a, f) + Sum(b, f)
  {
    if a != [] {
      var k := |a| - 1;
      SumPairs(a[..k], b[..k], c[..k], f);
    }
  }

  lemma {:induction false} SumMono(a: seq<Tally>, b: seq<Tally>, f: Field)
    requires |a| == |b| && forall i :: 0 <= i < |a| ==> a[i].Get(f) <= b[i].Get(f)
    ensures Sum(a, f) <= Sum(b, f)
  {
    if a != [] {
      var k := |a| - 1;
      SumMono(a[..k], b[..k], f);
    }
  }

  lemma {:induction false} SumOfZeros(ts: seq<Tally>, f: Field)
    requires forall i :: 0 <= i < |ts| ==> ts[i].Get(f) == 0
    ensures Sum(ts, f) == 0
  {
    if ts != [] {
      SumOfZeros(ts[..|ts| - 1], f);
    }
  }

  lemma PlusGets(a: Tally, b: Tally, f: Field)
    ensures a.Plus(b).Get(f) == a.Get(f) + b.Get(f)
  {
  }

  lemma {:induction false} SumIsFieldwise(ts: seq<Tally>, f: Field)
    ensures SumTallies(ts).Get(f) == Sum(ts, f)
  {
    if ts != [] {
      var k := |ts| - 1;
      SumIsFieldwise(ts[..k], f);
      PlusGets(SumTallies(ts[..k]), ts[k], f);
    }
  }

  lemma ZeroGets(f: Field)
    ensures ZERO.Get(f) == 0
  {
  }

  function Previous(totals: seq<Tally>, k: nat): Tally
    requires k <= |totals|
  {
    if k == 0 then ZERO else totals[k - 1]
  }

  /** The k-th difference is taken from the total before it, and the total does not go back. */
  ghost predicate DifferenceAt(totals: seq<Tally>, deltas: seq<Tally>, k: nat)
    requires k < |totals| == |deltas|
  {
    Previous(totals, k).AtMost(totals[k]) && deltas[k] == totals[k].Minus(Previous(totals, k))
  }

  ghost predicate Differences(totals: seq<Tally>, deltas: seq<Tally>) {
    |deltas| == |totals| && forall k :: 0 <= k < |totals| ==> DifferenceAt(totals, deltas, k)
  }

  lemma MinusPlus(a: Tally, b: Tally)
    requires a.AtMost(b)
    ensures a.Plus(b.Minus(a)) == b
  {
  }

  /** The differences up to any point add up to the total there. */
  lemma {:induction false} DifferencesTelescope(totals: seq<Tally>, deltas: seq<Tally>, k: nat)
    requires Differences(totals, deltas) && k <= |totals|
    ensures SumTallies(deltas[..k]) == Previous(totals, k)
  {
    if k > 0 {
      DifferencesTelescope(totals, deltas, k - 1);
      assert deltas[..k][..k - 1] == deltas[..k - 1];
      assert DifferenceAt(totals, deltas, k - 1);
      MinusPlus(Previous(totals, k - 1), totals[k - 1]);
    }
  }
}
