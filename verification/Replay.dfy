/** Ticks stored row by row as they stream, in whatever order the writes land, and replayed later. */
module Replay {
  import opened Sequences
  import opened Verdicts
  import opened TickEmitter
  import opened Aggregation
  import opened FleetStreams

  const INT32 := 0x8000_0000
  const INT64 := 0x8000_0000_0000_0000
  const UINT64 := 0x1_0000_0000_0000_0000

  /** The tick as it is streamed and as it is replayed. */
  datatype JsonTick = JsonTick(
    elapsedS: nat, achievedRps: real, completedTotal: nat, passTotal: nat, failStatusTotal: nat,
    thisTick: Tally, p50: nat, p99: nat)

  /** A row of `run_ticks`; every column but the key may be null. */
  datatype Row = Row(
    elapsedS: int, achievedRps: Option<real>, p50: Option<int>, p99: Option<int>,
    total: Option<int>, pass: Option<int>, failStatus: Option<int>, failLatency: Option<int>,
    failSize: Option<int>, failContentType: Option<int>, rateLimited: Option<int>)

  /** `int64(x)`: two's complement wrap-around. */
  function ToInt64(x: nat): int { if x % UINT64 < INT64 then x % UINT64 else x % UINT64 - UINT64 }

  /** A null or negative column reads as zero. */
  function U64(p: Option<int>): nat { if p.None? || p.value < 0 then 0 else p.value }

  /** A counter comes back from its column exactly when it is below 2^63. */
  lemma ColumnRoundTrip(x: nat)
    requires x < UINT64
    ensures U64(Some(ToInt64(x))) == (if x < INT64 then x else 0)
    ensures U64(Some(ToInt64(x))) == x <==> x < INT64
  {
  }

  function RowOf(t: JsonTick): Row {
    Row(ToInt64(t.elapsedS), Some(t.achievedRps), Some(ToInt64(t.p50)), Some(ToInt64(t.p99)),
        Some(ToInt64(t.thisTick.completed)), Some(ToInt64(t.thisTick.pass)), Some(ToInt64(t.thisTick.failStatus)),
        Some(ToInt64(t.thisTick.failLatency)), Some(ToInt64(t.thisTick.failSize)),
        Some(ToInt64(t.thisTick.failContentType)), Some(ToInt64(t.thisTick.rateLimited)))
  }

  function ThisTickOf(r: Row): Tally {
    Tally(U64(r.total), U64(r.pass), U64(r.failStatus), U64(r.failLatency),
          U64(r.failSize), U64(r.failContentType), U64(r.rateLimited))
  }

  function Elapsed(r: Row): nat { r.elapsedS % UINT64 }

  /** A row read back as a tick, with the running totals up to it. */
  function ReplayedRow(r: Row, total: nat, pass: nat, failStatus: nat): JsonTick {
    JsonTick(Elapsed(r), if r.achievedRps.Some? then r.achievedRps.value else 0.0, total, pass, failStatus,
             ThisTickOf(r), U64(r.p50), U64(r.p99))
  }

  // ---- the table ----

  ghost predicate Ascending(rows: seq<Row>) {
    forall i, j :: 0 <= i < j < |rows| ==> rows[i].elapsedS <= rows[j].elapsedS
  }

  ghost predicate StrictlyAscending(rows: seq<Row>) {
    forall i, j :: 0 <= i < j < |rows| ==> rows[i].elapsedS < rows[j].elapsedS
  }

  function Place(r: Row, sorted: seq<Row>): seq<Row> {
    if sorted == [] || r.elapsedS <= sorted[0].elapsedS then [r] + sorted else [sorted[0]] + Place(r, sorted[1..])
  }

  /** `ORDER BY elapsed_s ASC`. */
  function OrderBy(rows: seq<Row>): seq<Row> {
    if rows == [] then [] else Place(rows[0], OrderBy(rows[1..]))
  }

  lemma {:induction false} PlaceKeepsAll(r: Row, sorted: seq<Row>)
    ensures multiset(Place(r, sorted)) == multiset{r} + multiset(sorted)
  {
    if sorted != [] && r.elapsedS > sorted[0].elapsedS {
      PlaceKeepsAll(r, sorted[1..]);
      assert sorted == [sorted[0]] + sorted[1..];
    }
  }

  lemma PlacedAreFrom(r: Row, sorted: seq<Row>)
    ensures forall x :: x in Place(r, sorted) ==> x == r || x in sorted
  {
    PlaceKeepsAll(r, sorted);
    forall x | x in Place(r, sorted)
      ensures x == r || x in sorted
    {
      assert x in multiset(Place(r, sorted));
    }
  }

  lemma FirstIsLeast(first: Row, later: seq<Row>)
    requires Ascending(later) && forall x :: x in later ==> first.elapsedS <= x.elapsedS
    ensures Ascending([first] + later)
  {
  }

  lemma {:induction false} PlaceSorts(r: Row, sorted: seq<Row>)
    requires Ascending(sorted)
    ensures Ascending(Place(r, sorted))
  {
    if sorted != [] && r.elapsedS > sorted[0].elapsedS {
      var later := sorted[1..];
      PlaceSorts(r, later);
      PlacedAreFrom(r, later);
      forall x | x in Place(r, later)
        ensures sorted[0].elapsedS <= x.elapsedS
      {
      }
      FirstIsLeast(sorted[0], Place(r, later));
    }
  }

  lemma {:induction false} OrderBySorts(rows: seq<Row>)
    ensures Ascending(OrderBy(rows)) && multiset(OrderBy(rows)) == multiset(rows)
  {
    if rows != [] {
      OrderBySorts(rows[1..]);
      PlaceSorts(rows[0], OrderBy(rows[1..]));
      PlaceKeepsAll(rows[0], OrderBy(rows[1..]));
      assert rows == [rows[0]] + rows[1..];
    }
  }

  lemma RowIsThere(rows: seq<Row>, r: Row)
    requires r in multiset(rows)
    ensures exists i :: 0 <= i < |rows| && rows[i] == r
  {
  }

  /** The first row has the least key. */
  lemma SameFirst(a: seq<Row>, b: seq<Row>)
    requires StrictlyAscending(a) && Ascending(b) && a != [] && b != []
    requires a[0] in multiset(b) && b[0] in multiset(a)
    ensures a[0] == b[0]
  {
    RowIsThere(a, b[0]);
    RowIsThere(b, a[0]);
    var i :| 0 <= i < |a| && a[i] == b[0];
    var j :| 0 <= j < |b| && b[j] == a[0];
    assert j > 0 ==> b[0].elapsedS <= b[j].elapsedS;
    assert i > 0 ==> a[0].elapsedS < a[i].elapsedS;
  }

  lemma SameHeadSameTail(a: seq<Row>, b: seq<Row>)
    requires multiset(a) == multiset(b) && a != [] && b != [] && a[0] == b[0]
    ensures multiset(a[1..]) == multiset(b[1..])
  {
    assert a == [a[0]] + a[1..] && b == [b[0]] + b[1..];
    assert multiset(a[1..]) == multiset(a) - multiset{a[0]};
    assert multiset(b[1..]) == multiset(b) - multiset{b[0]};
  }

  lemma SameLength(a: seq<Row>, b: seq<Row>)
    requires multiset(a) == multiset(b)
    ensures |a| == |b|
    ensures forall i :: 0 <= i < |a| ==> a[i] in multiset(b)
  {
    assert |multiset(a)| == |a| && |multiset(b)| == |b|;
    assert forall i :: 0 <= i < |a| ==> a[i] in multiset(a);
  }

  /** Distinct keys leave only one ascending order. */
  lemma {:induction false} OnlyOneOrder(a: seq<Row>, b: seq<Row>)
    requires StrictlyAscending(a) && Ascending(b) && multiset(a) == multiset(b)
    ensures a == b
  {
    SameLength(a, b);
    SameLength(b, a);
    if a != [] {
      SameFirst(a, b);
      SameHeadSameTail(a, b);
      OnlyOneOrder(a[1..], b[1..]);
    }
  }

  /** A 64-bit running total of one count over the rows. */
  function Running(rows: seq<Row>, f: Field): nat {
    if rows == [] then 0
    else (Running(rows[..|rows| - 1], f) + ThisTickOf(rows[|rows| - 1]).Get(f)) % UINT64
  }

  function Replayed(rows: seq<Row>): seq<JsonTick> {
    if rows == [] then []
    else
      var row := rows[|rows| - 1];
      Replayed(rows[..|rows| - 1]) +
      [ReplayedRow(row, Running(rows, Completed), Running(rows, Of(Pass)), Running(rows, Of(FailStatus)))]
  }

  /** One more row. */
  lemma RunningMore(rows: seq<Row>, row: Row)
    ensures var tt, next := ThisTickOf(row), rows + [row];
            && Running(next, Completed) == (Running(rows, Completed) + tt.completed) % UINT64
            && Running(next, Of(Pass)) == (Running(rows, Of(Pass)) + tt.pass) % UINT64
            && Running(next, Of(FailStatus)) == (Running(rows, Of(FailStatus)) + tt.failStatus) % UINT64
            && Replayed(next) == Replayed(rows) +
                 [ReplayedRow(row, Running(next, Completed), Running(next, Of(Pass)), Running(next, Of(FailStatus)))]
  {
    Grown(rows, row);
  }

  class Table {
    var rows: seq<Row>

    constructor ()
      ensures rows == []
    {
      rows := [];
    }

    /** A key beyond the column's 32 bits is an error and stores nothing. */
    method InsertTick(r: Row) returns (ok: bool)
      modifies this
      ensures ok <==> -INT32 <= r.elapsedS < INT32
      ensures rows == if ok then old(rows) + [r] else old(rows)
    {
      ok := -INT32 <= r.elapsedS < INT32;
      if ok {
        rows := rows + [r];
      }
    }

    /** Best effort: a failed write is dropped. */
    method PersistTick(t: JsonTick)
      modifies this
      ensures rows == if -INT32 <= ToInt64(t.elapsedS) < INT32 then old(rows) + [RowOf(t)] else old(rows)
    {
      var ok := InsertTick(RowOf(t));
    }

    /** Rows in ascending order, each with the running totals up to it. */
    method GetTicks() returns (ticks: seq<JsonTick>)
      ensures ticks == Replayed(OrderBy(rows))
    {
      var ordered := OrderBy(rows);
      ticks := [];
      var cumTotal, cumPass, cumFailStatus := 0, 0, 0;
      for i := 0 to |ordered|
        invariant ticks == Replayed(ordered[..i])
        invariant cumTotal == Running(ordered[..i], Completed)
        invariant cumPass == Running(ordered[..i], Of(Pass))
        invariant cumFailStatus == Running(ordered[..i], Of(FailStatus))
      {
        PrefixMore(ordered, i);
        var row := ordered[i];
        var tt := ThisTickOf(row);
        RunningMore(ordered[..i], row);
        cumTotal := (cumTotal + tt.completed) % UINT64;
        cumPass := (cumPass + tt.pass) % UINT64;
        cumFailStatus := (cumFailStatus + tt.failStatus) % UINT64;
        ticks := ticks + [ReplayedRow(row, cumTotal, cumPass, cumFailStatus)];
      }
      WholePrefix(ordered);
    }
  }

  // ---- replay is the live stream ----

  function Deltas(ticks: seq<JsonTick>): seq<Tally> {
    seq(|ticks|, i requires 0 <= i < |ticks| => ticks[i].thisTick)
  }

  function Rows(ticks: seq<JsonTick>): seq<Row> {
    seq(|ticks|, i requires 0 <= i < |ticks| => RowOf(ticks[i]))
  }

  /** The live totals up to tick k are the sums of the differences so far. */
  ghost predicate TotalsAddUp(ticks: seq<JsonTick>, k: nat)
    requires k < |ticks|
  {
    && ticks[k].completedTotal == Sum(Deltas(ticks)[..k + 1], Completed)
    && ticks[k].passTotal == Sum(Deltas(ticks)[..k + 1], Of(Pass))
    && ticks[k].failStatusTotal == Sum(Deltas(ticks)[..k + 1], Of(FailStatus))
  }

  /** Everything a tick carries is within the range its column can give back. */
  ghost predicate Storable(t: JsonTick) {
    && t.elapsedS < INT32 && t.p50 < INT64 && t.p99 < INT64
    && (forall f: Field :: t.thisTick.Get(f) < INT64)
    && t.completedTotal < UINT64 && t.passTotal < UINT64 && t.failStatusTotal < UINT64
  }

  ghost predicate LiveStream(ticks: seq<JsonTick>) {
    && (forall k :: 0 <= k < |ticks| ==> Storable(ticks[k]) && TotalsAddUp(ticks, k))
    && (forall j, k :: 0 <= j < k < |ticks| ==> ticks[j].elapsedS < ticks[k].elapsedS)
  }

  lemma CellGivesBack(x: nat)
    requires x < INT64
    ensures 0 <= ToInt64(x) == x == U64(Some(ToInt64(x)))
  {
  }

  lemma CountsGiveBack(t: JsonTick, f: Field)
    requires t.thisTick.Get(f) < INT64
    ensures ThisTickOf(RowOf(t)).Get(f) == t.thisTick.Get(f)
  {
    CellGivesBack(t.thisTick.Get(f));
  }

  lemma SameCounts(a: Tally, b: Tally)
    requires forall f: Field :: a.Get(f) == b.Get(f)
    ensures a == b
  {
    assert a.Get(Completed) == b.Get(Completed) && a.Get(Of(Pass)) == b.Get(Of(Pass));
    assert a.Get(Of(FailStatus)) == b.Get(Of(FailStatus)) && a.Get(Of(FailLatency)) == b.Get(Of(FailLatency));
    assert a.Get(Of(FailSize)) == b.Get(Of(FailSize)) && a.Get(Of(FailContentType)) == b.Get(Of(FailContentType));
    assert a.Get(Of(RateLimited)) == b.Get(Of(RateLimited));
  }

  lemma RowGivesBack(t: JsonTick)
    requires Storable(t)
    ensures var r := RowOf(t);
            && r.elapsedS == t.elapsedS == Elapsed(r) && r.achievedRps == Some(t.achievedRps)
            && U64(r.p50) == t.p50 && U64(r.p99) == t.p99 && ThisTickOf(r) == t.thisTick
  {
    CellGivesBack(t.elapsedS);
    CellGivesBack(t.p50);
    CellGivesBack(t.p99);
    forall f: Field
      ensures ThisTickOf(RowOf(t)).Get(f) == t.thisTick.Get(f)
    {
      CountsGiveBack(t, f);
    }
    SameCounts(ThisTickOf(RowOf(t)), t.thisTick);
  }

  lemma SumGrows(ts: seq<Tally>, k: nat, f: Field)
    requires k < |ts|
    ensures Sum(ts[..k + 1], f) == Sum(ts[..k], f) + ts[k].Get(f)
  {
    assert ts[..k + 1][..k] == ts[..k];
  }

  lemma RunningNext(rows: seq<Row>, row: Row, f: Field)
    ensures Running(rows + [row], f) == (Running(rows, f) + ThisTickOf(row).Get(f)) % UINT64
  {
    Grown(rows, row);
  }

  /** Without wrap-around. */
  lemma RunningNextSmall(rows: seq<Row>, row: Row, f: Field)
    requires Running(rows, f) + ThisTickOf(row).Get(f) < UINT64
    ensures Running(rows + [row], f) == Running(rows, f) + ThisTickOf(row).Get(f)
  {
    RunningNext(rows, row, f);
  }

  lemma StoredCount(ticks: seq<JsonTick>, k: nat, f: Field)
    requires k < |ticks| && Storable(ticks[k])
    ensures ThisTickOf(Rows(ticks)[k]).Get(f) == Deltas(ticks)[k].Get(f)
  {
    RowGivesBack(ticks[k]);
  }

  /** Below 2^64 the running total is the plain sum. */
  lemma {:induction false} RunningIsSum(ticks: seq<JsonTick>, k: nat, f: Field)
    requires k <= |ticks| && Sum(Deltas(ticks)[..k], f) < UINT64
    requires forall j :: 0 <= j < k ==> Storable(ticks[j])
    ensures Running(Rows(ticks)[..k], f) == Sum(Deltas(ticks)[..k], f)
  {
    if k > 0 {
      SumGrows(Deltas(ticks), k - 1, f);
      RunningIsSum(ticks, k - 1, f);
      PrefixMore(Rows(ticks), k - 1);
      StoredCount(ticks, k - 1, f);
      RunningNextSmall(Rows(ticks)[..k - 1], Rows(ticks)[k - 1], f);
    }
  }

  lemma TickGivesBack(ticks: seq<JsonTick>, k: nat)
    requires LiveStream(ticks) && k < |ticks|
    ensures Replayed(Rows(ticks)[..k + 1]) == Replayed(Rows(ticks)[..k]) + [ticks[k]]
  {
    assert TotalsAddUp(ticks, k) && Storable(ticks[k]);
    RunningIsSum(ticks, k + 1, Completed);
    RunningIsSum(ticks, k + 1, Of(Pass));
    RunningIsSum(ticks, k + 1, Of(FailStatus));
    RowGivesBack(ticks[k]);
    PrefixMore(Rows(ticks), k);
    RunningMore(Rows(ticks)[..k], Rows(ticks)[k]);
  }

  lemma {:induction false} RowsGiveBack(ticks: seq<JsonTick>, k: nat)
    requires LiveStream(ticks) && k <= |ticks|
    ensures Replayed(Rows(ticks)[..k]) == ticks[..k]
  {
    if k > 0 {
      RowsGiveBack(ticks, k - 1);
      TickGivesBack(ticks, k - 1);
      PrefixMore(ticks, k - 1);
    }
  }

  /** Replaying a stream that was stored in full gives every live tick back, totals included, in
      whatever order the writes landed. */
  lemma ReplayIsLive(ticks: seq<JsonTick>, rows: seq<Row>)
    requires LiveStream(ticks) && multiset(rows) == multiset(Rows(ticks))
    ensures Replayed(OrderBy(rows)) == ticks
  {
    forall i, j | 0 <= i < j < |ticks|
      ensures Rows(ticks)[i].elapsedS < Rows(ticks)[j].elapsedS
    {
      RowGivesBack(ticks[i]);
      RowGivesBack(ticks[j]);
    }
    OrderBySorts(rows);
    OnlyOneOrder(Rows(ticks), OrderBy(rows));
    RowsGiveBack(ticks, |ticks|);
    WholePrefix(Rows(ticks));
    WholePrefix(ticks);
  }

  // ---- the streams that are stored ----

  /** A worker's own ticks, as it posts them. */
  function Posted(t: Tick, rps: real): JsonTick {
    JsonTick(t.elapsedS, rps, t.completedTotal, t.passTotal, t.failStatusTotal, t.thisTick, t.p50, t.p99)
  }

  function PostedAll(ticks: seq<Tick>, rps: seq<real>): seq<JsonTick>
    requires |ticks| == |rps|
  {
    seq(|ticks|, i requires 0 <= i < |ticks| => Posted(ticks[i], rps[i]))
  }

  /** The emitter's ticks form a live stream, so replaying them gives back its cumulative counters. */
  lemma EmittedTicksAreLive(snaps: seq<Snapshot>, ticks: seq<Tick>, rps: seq<real>)
    requires EmittedFrom(snaps, ticks) && Monotone(snaps) && |rps| == |ticks|
    requires forall k :: 0 <= k < |ticks| ==> Storable(PostedAll(ticks, rps)[k])
    ensures LiveStream(PostedAll(ticks, rps))
  {
    var posted := PostedAll(ticks, rps);
    assert Deltas(posted) == ThisTicks(ticks);
    forall k | 0 <= k < |posted|
      ensures TotalsAddUp(posted, k)
    {
      ThisTicksTelescope(snaps, ticks, k);
      SumIsFieldwise(ThisTicks(ticks)[..k + 1], Completed);
      SumIsFieldwise(ThisTicks(ticks)[..k + 1], Of(Pass));
      SumIsFieldwise(ThisTicks(ticks)[..k + 1], Of(FailStatus));
      assert ticks[k] == TickAt(snaps, k);
    }
    forall j, k | 0 <= j < k < |posted|
      ensures posted[j].elapsedS < posted[k].elapsedS
    {
      assert ticks[j] == TickAt(snaps, j) && ticks[k] == TickAt(snaps, k);
    }
  }

  /** A posted tick shows an aggregated one; its percentiles are read off the merged histogram. */
  ghost predicate Relays(posted: JsonTick, t: AggTick) {
    && posted.elapsedS == t.elapsedS && posted.thisTick == t.thisTick
    && posted.completedTotal == t.completedTotal && posted.passTotal == t.passTotal
    && posted.failStatusTotal == t.failStatusTotal
  }

  ghost predicate RelaysAll(posted: seq<JsonTick>, ticks: seq<AggTick>) {
    |posted| == |ticks| && forall i :: 0 <= i < |ticks| ==> Relays(posted[i], ticks[i])
  }

  lemma CumulativeMore(streams: seq<seq<Partial>>, m: nat, f: Field)
    requires AllHave(streams, m + 1)
    ensures Cumulative(streams, m + 1).Get(f) == Cumulative(streams, m).Get(f) + TickShare(streams, m + 1).counts.Get(f)
  {
    PlusGets(Cumulative(streams, m), TickShare(streams, m + 1).counts, f);
  }

  lemma RelayedDelta(streams: seq<seq<Partial>>, m: nat, posted: seq<JsonTick>, k: nat, f: Field)
    requires AllHave(streams, m) && RelaysAll(posted, FleetTicks(streams, m)) && k < m
    ensures |posted| == m && posted[k].thisTick.Get(f) == TickShare(streams, k + 1).counts.Get(f)
  {
    FleetTicksShape(streams, m);
    assert Relays(posted[k], FleetTicks(streams, m)[k]);
  }

  lemma {:induction false} DeltasAddUp(streams: seq<seq<Partial>>, m: nat, posted: seq<JsonTick>, k: nat, f: Field)
    requires AllHave(streams, m) && RelaysAll(posted, FleetTicks(streams, m)) && k <= m == |posted|
    ensures Sum(Deltas(posted)[..k], f) == Cumulative(streams, k).Get(f)
  {
    if k == 0 {
      ZeroGets(f);
    } else {
      DeltasAddUp(streams, m, posted, k - 1, f);
      SumGrows(Deltas(posted), k - 1, f);
      CumulativeMore(streams, k - 1, f);
      RelayedDelta(streams, m, posted, k - 1, f);
    }
  }

  /** The running totals in a tick are those up to and including it. */
  lemma TickCarriesTotals(streams: seq<seq<Partial>>, k: nat, t: AggTick)
    requires AllHave(streams, k + 1)
    requires t == Emit(k + 1, TickShare(streams, k + 1), Visible(Cumulative(streams, k)))
    ensures t.elapsedS == k + 1 && t.completedTotal == Cumulative(streams, k + 1).Get(Completed)
    ensures t.passTotal == Cumulative(streams, k + 1).Get(Of(Pass))
    ensures t.failStatusTotal == Cumulative(streams, k + 1).Get(Of(FailStatus))
  {
    CumulativeMore(streams, k, Completed);
    CumulativeMore(streams, k, Of(Pass));
    CumulativeMore(streams, k, Of(FailStatus));
  }

  lemma RelayedTotals(streams: seq<seq<Partial>>, m: nat, posted: seq<JsonTick>, k: nat)
    requires AllHave(streams, m) && RelaysAll(posted, FleetTicks(streams, m)) && k < m
    ensures |posted| == m && posted[k].elapsedS == k + 1
    ensures posted[k].completedTotal == Cumulative(streams, k + 1).Get(Completed)
    ensures posted[k].passTotal == Cumulative(streams, k + 1).Get(Of(Pass))
    ensures posted[k].failStatusTotal == Cumulative(streams, k + 1).Get(Of(FailStatus))
  {
    FleetTicksShape(streams, m);
    assert Relays(posted[k], FleetTicks(streams, m)[k]);
    TickCarriesTotals(streams, k, FleetTicks(streams, m)[k]);
  }

  lemma TotalsOfTick(streams: seq<seq<Partial>>, m: nat, posted: seq<JsonTick>, k: nat)
    requires AllHave(streams, m) && RelaysAll(posted, FleetTicks(streams, m)) && k < m
    ensures |posted| == m && posted[k].elapsedS == k + 1 && TotalsAddUp(posted, k)
  {
    RelayedTotals(streams, m, posted, k);
    DeltasAddUp(streams, m, posted, k + 1, Completed);
    DeltasAddUp(streams, m, posted, k + 1, Of(Pass));
    DeltasAddUp(streams, m, posted, k + 1, Of(FailStatus));
  }

  /** The coordinator's ticks form a live stream at every point of every interleaving. */
  lemma FleetTicksAreLive(streams: seq<seq<Partial>>, order: seq<nat>, posted: seq<JsonTick>)
    requires Fleet(streams) && Interleaves(streams, order) && RelaysAll(posted, After(streams, order).emitted)
    requires forall k :: 0 <= k < |posted| ==> Storable(posted[k])
    ensures LiveStream(posted)
  {
    StateIsDetermined(streams, order);
    var m := Least(Got(streams, order));
    FleetTicksShape(streams, m);
    forall k | 0 <= k < m
      ensures posted[k].elapsedS == k + 1 && TotalsAddUp(posted, k)
    {
      TotalsOfTick(streams, m, posted, k);
    }
  }
}
