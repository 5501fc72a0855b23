/** Concurrent records into one bucket of the meter: its slot and its count are two atomics, and a
    record is several operations on them. */
module MeterRace {
  import opened Arithmetic
  import opened Sequences
  import opened RpsMeter

  /** Where a record stands; the slot it loaded is kept until the compare-exchange. */
  datatype Phase = Loading | Adding | Claiming(loaded: nat) | Storing | Done

  datatype Bucket = Bucket(slot: nat, count: nat, phases: seq<Phase>)

  function Start(slot: nat, count: nat, n: nat): Bucket { Bucket(slot, count, seq(n, _ => Loading)) }

  /** The next atomic operation of record i, which belongs into slot targets[i]. */
  function Turn(targets: seq<nat>, b: Bucket, i: nat): Bucket {
    if i >= |b.phases| || i >= |targets| then b
    else
      match b.phases[i]
      case Loading => b.(phases := b.phases[i := if b.slot == targets[i] then Adding else Claiming(b.slot)])
      case Adding => b.(count := b.count + 1, phases := b.phases[i := Done])
      case Claiming(loaded) =>
        if b.slot == loaded then b.(slot := targets[i], phases := b.phases[i := Storing])
        else b.(phases := b.phases[i := Loading])
      case Storing => b.(count := 1, phases := b.phases[i := Done])
      case Done => b
  }

  function Turns(targets: seq<nat>, b: Bucket, schedule: seq<nat>): Bucket {
    if schedule == [] then b
    else Turn(targets, Turns(targets, b, schedule[..|schedule| - 1]), schedule[|schedule| - 1])
  }

  ghost predicate Settled(b: Bucket) { forall i :: 0 <= i < |b.phases| ==> b.phases[i] == Done }

  // ---- what happens, turn by turn ----

  datatype Event = Claim | Add | Store | Other

  /** What the next turn of record i does to the bucket. */
  function EventOf(b: Bucket, i: nat): Event {
    if i >= |b.phases| then Other
    else
      match b.phases[i]
      case Adding => Add
      case Claiming(loaded) => if b.slot == loaded then Claim else Other
      case Storing => Store
      case _ => Other
  }

  function Events(targets: seq<nat>, b: Bucket, schedule: seq<nat>): seq<Event> {
    if schedule == [] then []
    else
      var k := |schedule| - 1;
      Events(targets, b, schedule[..k]) + [EventOf(Turns(targets, b, schedule[..k]), schedule[k])]
  }

  lemma {:induction false} EventsOfPrefix(targets: seq<nat>, b: Bucket, schedule: seq<nat>, k: nat)
    requires k <= |schedule|
    ensures |Events(targets, b, schedule)| == |schedule|
    ensures Events(targets, b, schedule)[..k] == Events(targets, b, schedule[..k])
  {
    if k == |schedule| {
      assert schedule[..k] == schedule;
      if k > 0 {
        EventsOfPrefix(targets, b, schedule[..k - 1], 0);
      }
    } else {
      EventsOfPrefix(targets, b, schedule[..|schedule| - 1], k);
      assert schedule[..|schedule| - 1][..k] == schedule[..k];
    }
  }

  /** Additions made after a claim and before any store. */
  function Lost(events: seq<Event>): nat {
    if events == [] then 0
    else
      var before := events[..|events| - 1];
      Lost(before) + if events[|events| - 1] == Add && Claim in before && Store !in before then 1 else 0
  }

  ghost predicate InBetween(events: seq<Event>, a: nat, b: nat, c: nat) {
    a < b < c < |events| && events[a] == Claim && events[b] == Add && events[c] == Store
  }

  /** An addition falls between a claim and a store. */
  ghost predicate AddsInBetween(events: seq<Event>) {
    exists a, b, c :: InBetween(events, a, b, c)
  }

  lemma {:induction false} LostAddition(events: seq<Event>)
    requires Lost(events) > 0
    ensures exists b: nat :: b < |events| && events[b] == Add && Claim in events[..b] && Store !in events[..b]
  {
    var k := |events| - 1;
    if !(events[k] == Add && Claim in events[..k] && Store !in events[..k]) {
      LostAddition(events[..k]);
      var b: nat :| b < k && events[..k][b] == Add && Claim in events[..k][..b] && Store !in events[..k][..b];
      assert events[..k][..b] == events[..b];
    }
  }

  lemma {:induction false} AdditionIsLost(events: seq<Event>, b: nat)
    requires b < |events| && events[b] == Add && Claim in events[..b] && Store !in events[..b]
    ensures Lost(events) > 0
  {
    var k := |events| - 1;
    if b < k {
      assert events[..k][..b] == events[..b];
      AdditionIsLost(events[..k], b);
    }
  }

  lemma NotInPrefix(events: seq<Event>, k: nat, e: Event)
    requires k <= |events|
    ensures e !in events[..k] <==> forall j :: 0 <= j < k ==> events[j] != e
  {
    assert forall j :: 0 <= j < k ==> events[..k][j] == events[j];
  }

  /** If the only store comes at c, additions are lost exactly when one falls between. */
  lemma LostIffInBetween(events: seq<Event>, c: nat)
    requires c < |events| && events[c] == Store && Store !in events[..c]
    requires forall d :: 0 <= d < |events| && events[d] == Store ==> d == c
    ensures Lost(events) > 0 <==> AddsInBetween(events)
  {
    if Lost(events) > 0 {
      LostAddition(events);
      var b: nat :| b < |events| && events[b] == Add && Claim in events[..b] && Store !in events[..b];
      var a :| 0 <= a < b && events[..b][a] == Claim;
      NotInPrefix(events, b, Store);
      assert InBetween(events, a, b, c);
    }
    if AddsInBetween(events) {
      var a: nat, b: nat, d: nat :| InBetween(events, a, b, d);
      assert events[..b][a] == Claim;
      NotInPrefix(events, b, Store);
      AdditionIsLost(events, b);
    }
  }

  // ---- simultaneous records of one new slot ----

  function InPhase(phases: seq<Phase>, p: Phase): nat {
    if phases == [] then 0 else InPhase(phases[..|phases| - 1], p) + if phases[|phases| - 1] == p then 1 else 0
  }

  lemma {:induction false} PhaseUpdate(phases: seq<Phase>, i: nat, to: Phase, p: Phase)
    requires i < |phases|
    ensures InPhase(phases[i := to], p) + (if phases[i] == p then 1 else 0) ==
            InPhase(phases, p) + (if to == p then 1 else 0)
  {
    var k := |phases| - 1;
    if i < k {
      assert phases[i := to][..k] == phases[..k][i := to];
      PhaseUpdate(phases[..k], i, to, p);
    } else {
      assert phases[i := to][..k] == phases[..k];
    }
  }

  lemma {:induction false} NonePhase(phases: seq<Phase>, p: Phase)
    requires forall i :: 0 <= i < |phases| ==> phases[i] != p
    ensures InPhase(phases, p) == 0
  {
    if phases != [] {
      NonePhase(phases[..|phases| - 1], p);
    }
  }

  lemma {:induction false} AllPhase(phases: seq<Phase>, p: Phase)
    requires forall i :: 0 <= i < |phases| ==> phases[i] == p
    ensures InPhase(phases, p) == |phases|
  {
    if phases != [] {
      AllPhase(phases[..|phases| - 1], p);
    }
  }

  lemma {:induction false} SomePhase(phases: seq<Phase>, i: nat)
    requires i < |phases|
    ensures InPhase(phases, phases[i]) > 0
  {
    var k := |phases| - 1;
    if i < k {
      SomePhase(phases[..k], i);
    }
  }

  /** n records of one slot, into a bucket that still belongs to slot `stale`. */
  ghost predicate RaceInv(n: nat, stale: nat, slot: nat, b: Bucket, events: seq<Event>) {
    && |b.phases| == n
    && b.slot == (if Claim in events then slot else stale)
    && (forall i :: 0 <= i < n && b.phases[i].Claiming? ==> b.phases[i].loaded == stale)
    && (Store in events ==> Claim in events)
    && InPhase(b.phases, Storing) == (if Claim in events && Store !in events then 1 else 0)
    && (Claim !in events ==> InPhase(b.phases, Adding) == InPhase(b.phases, Done) == Lost(events) == 0)
    && (Claim in events && Store !in events ==> Lost(events) == InPhase(b.phases, Done))
    && (Store in events ==> b.count + Lost(events) == InPhase(b.phases, Done))
  }

  lemma EventsMore(events: seq<Event>, e: Event)
    ensures Lost(events + [e]) == Lost(events) + if e == Add && Claim in events && Store !in events then 1 else 0
    ensures Claim in events + [e] <==> Claim in events || e == Claim
    ensures Store in events + [e] <==> Store in events || e == Store
  {
    assert (events + [e])[..|events|] == events;
  }

  function Same(n: nat, slot: nat): seq<nat> { seq(n, _ => slot) }

  lemma TurnKeepsInv(n: nat, stale: nat, slot: nat, b: Bucket, events: seq<Event>, i: nat)
    requires stale != slot && RaceInv(n, stale, slot, b, events)
    ensures RaceInv(n, stale, slot, Turn(Same(n, slot), b, i), events + [EventOf(b, i)])
  {
    EventsMore(events, EventOf(b, i));
    if i < n {
      var to := Turn(Same(n, slot), b, i).phases[i];
      SomePhase(b.phases, i);
      PhaseUpdate(b.phases, i, to, Storing);
      PhaseUpdate(b.phases, i, to, Adding);
      PhaseUpdate(b.phases, i, to, Done);
      assert b.phases[i := b.phases[i]] == b.phases;
    }
  }

  lemma {:induction false} RaceInvariant(n: nat, stale: nat, slot: nat, count: nat, schedule: seq<nat>)
    requires stale != slot
    ensures var start := Start(stale, count, n);
            RaceInv(n, stale, slot, Turns(Same(n, slot), start, schedule), Events(Same(n, slot), start, schedule))
  {
    var start := Start(stale, count, n);
    if schedule == [] {
      NonePhase(start.phases, Storing);
      NonePhase(start.phases, Adding);
      NonePhase(start.phases, Done);
    } else {
      var k := |schedule| - 1;
      RaceInvariant(n, stale, slot, count, schedule[..k]);
      TurnKeepsInv(n, stale, slot, Turns(Same(n, slot), start, schedule[..k]),
                   Events(Same(n, slot), start, schedule[..k]), schedule[k]);
    }
  }

  /** A store is the first: until then its record is the one in that phase. */
  lemma StoreIsFirst(n: nat, stale: nat, slot: nat, count: nat, schedule: seq<nat>, c: nat)
    requires stale != slot && c < |schedule|
    requires |Events(Same(n, slot), Start(stale, count, n), schedule)| == |schedule|
    requires Events(Same(n, slot), Start(stale, count, n), schedule)[c] == Store
    ensures Store !in Events(Same(n, slot), Start(stale, count, n), schedule)[..c]
  {
    var targets, start := Same(n, slot), Start(stale, count, n);
    var events, b := Events(targets, start, schedule), Turns(targets, start, schedule[..c]);
    EventsOfPrefix(targets, start, schedule, c);
    EventsOfPrefix(targets, start, schedule, c + 1);
    assert schedule[..c + 1][..c] == schedule[..c];
    assert events[c] == events[..c + 1][c] == EventOf(b, schedule[c]);
    RaceInvariant(n, stale, slot, count, schedule[..c]);
    SomePhase(b.phases, schedule[c]);
  }

  /** When n simultaneous records of a new slot are through, the bucket has counted n of them if and
      only if no addition fell between another record's successful claim and its store. */
  lemma ExactIffNoneInBetween(n: pos, stale: nat, slot: nat, count: nat, schedule: seq<nat>)
    requires stale != slot && Settled(Turns(Same(n, slot), Start(stale, count, n), schedule))
    ensures var b := Turns(Same(n, slot), Start(stale, count, n), schedule);
            var events := Events(Same(n, slot), Start(stale, count, n), schedule);
            && b.slot == slot && b.count + Lost(events) == n
            && (b.count == n <==> !AddsInBetween(events))
  {
    var targets, start := Same(n, slot), Start(stale, count, n);
    var b, events := Turns(targets, start, schedule), Events(targets, start, schedule);
    EventsOfPrefix(targets, start, schedule, 0);
    RaceInvariant(n, stale, slot, count, schedule);
    AllPhase(b.phases, Done);
    NonePhase(b.phases, Storing);
    var c :| 0 <= c < |events| && events[c] == Store;
    StoreIsFirst(n, stale, slot, count, schedule, c);
    forall d | 0 <= d < |events| && events[d] == Store
      ensures d == c
    {
      StoreIsFirst(n, stale, slot, count, schedule, d);
      NotInPrefix(events, c, Store);
      NotInPrefix(events, d, Store);
    }
    LostIffInBetween(events, c);
  }

  // ---- schedules that lose or misplace counts ----

  lemma TurnsMore(targets: seq<nat>, b: Bucket, schedule: seq<nat>, i: nat)
    ensures Turns(targets, b, schedule + [i]) == Turn(targets, Turns(targets, b, schedule), i)
  {
    assert (schedule + [i])[..|schedule|] == schedule;
  }

  lemma {:induction false} TurnsAppend(targets: seq<nat>, b: Bucket, x: seq<nat>, y: seq<nat>)
    ensures Turns(targets, b, x + y) == Turns(targets, Turns(targets, b, x), y)
  {
    if y == [] {
      NothingMore(x);
    } else {
      LastApart(x, y);
      TurnsAppend(targets, b, x, y[..|y| - 1]);
      TurnsMore(targets, b, x + y[..|y| - 1], y[|y| - 1]);
    }
  }

  lemma TwoTurns(targets: seq<nat>, b: Bucket, i: nat, j: nat)
    ensures Turns(targets, b, [i, j]) == Turn(targets, Turn(targets, b, i), j)
  {
    TurnsMore(targets, b, [], i);
    TurnsMore(targets, b, [i], j);
    NothingMore([i]);
    assert [i] + [j] == [i, j];
  }

  lemma ThreeTurns(targets: seq<nat>, b: Bucket, i: nat, j: nat, k: nat)
    ensures Turns(targets, b, [i, j, k]) == Turn(targets, Turn(targets, Turn(targets, b, i), j), k)
  {
    TwoTurns(targets, b, i, j);
    TurnsMore(targets, b, [i, j], k);
    assert [i, j] + [k] == [i, j, k];
  }

  /** Two records of a new slot, the second of which adds before the first stores: one is counted.
      A reading taken after the claim still finds the old slot's count under the new slot. */
  lemma SomeRaceLoses(stale: nat, slot: nat, count: nat)
    requires stale != slot
    ensures var start, targets := Start(stale, count, 2), [slot, slot];
            && Turns(targets, start, [0, 0]) == Bucket(slot, count, [Storing, Loading])
            && Turns(targets, start, [0, 0] + [1, 1, 0]) == Bucket(slot, 1, [Done, Done])
  {
    var start, targets := Start(stale, count, 2), [slot, slot];
    var claimed := Bucket(slot, count, [Storing, Loading]);
    assert start.phases == [Loading, Loading];
    TwoTurns(targets, start, 0, 0);
    assert Turn(targets, Turn(targets, start, 0), 0) == claimed;
    TurnsAppend(targets, start, [0, 0], [1, 1, 0]);
    ThreeTurns(targets, claimed, 1, 1, 0);
    var added := Bucket(slot, count + 1, [Storing, Done]);
    assert Turn(targets, Turn(targets, claimed, 1), 1) == added;
    assert Turn(targets, added, 0) == Bucket(slot, 1, [Done, Done]);
  }

  /** A record whose turns nobody interrupts is the atomic record: it adds to its own slot, or claims
      the bucket for it with a count of one. */
  lemma AloneIsAtomic(targets: seq<nat>, b: Bucket, i: nat)
    requires i < |b.phases| == |targets| && b.phases[i] == Loading
    ensures var done := b.phases[i := Done];
            if b.slot == targets[i] then Turns(targets, b, [i, i]) == Bucket(b.slot, b.count + 1, done)
            else Turns(targets, b, [i, i, i]) == Bucket(targets[i], 1, done)
  {
    TwoTurns(targets, b, i, i);
    ThreeTurns(targets, b, i, i, i);
    assert b.phases[i := Adding][i := Done] == b.phases[i := Done];
    assert b.phases[i := Claiming(b.slot)][i := Storing][i := Done] == b.phases[i := Done];
  }

  /** Two slots that share a bucket. A delayed record of the older one takes the bucket back, even
      with no turn of one record inside the other: the newer slot's record is gone. */
  lemma DelayedRecordMisplaces(older: nat, newer: nat, stale: nat, count: nat)
    requires older < newer && older % SLOTS == newer % SLOTS && stale != newer
    ensures var start, targets := Start(stale, count, 2), [older, newer];
            && Turns(targets, start, [1, 1, 1]) == Bucket(newer, 1, [Loading, Done])
            && Turns(targets, start, [1, 1, 1] + [0, 0, 0]) == Bucket(older, 1, [Done, Done])
  {
    var start, targets := Start(stale, count, 2), [older, newer];
    assert start.phases == [Loading, Loading];
    AloneIsAtomic(targets, start, 1);
    TurnsAppend(targets, start, [1, 1, 1], [0, 0, 0]);
    AloneIsAtomic(targets, Bucket(newer, 1, [Loading, Done]), 0);
  }

  /** A record of the older slot that adds after the newer one has claimed the bucket is counted under
      the newer slot, so a count may also be too large. */
  lemma LateAdditionMisplaces(older: nat, newer: nat, count: nat)
    requires older < newer && older % SLOTS == newer % SLOTS
    ensures var start, targets := Start(older, count, 2), [older, newer];
            Turns(targets, start, [0] + [1, 1, 1] + [0]) == Bucket(newer, 2, [Done, Done])
  {
    var start, targets := Start(older, count, 2), [older, newer];
    var loaded, claimed := Bucket(older, count, [Adding, Loading]), Bucket(newer, 1, [Adding, Done]);
    assert start.phases == [Loading, Loading];
    TurnsMore(targets, start, [], 0);
    NothingMore([0]);
    assert Turns(targets, start, [0]) == loaded;
    TurnsAppend(targets, start, [0], [1, 1, 1]);
    AloneIsAtomic(targets, loaded, 1);
    TurnsMore(targets, start, [0] + [1, 1, 1], 0);
    assert Turn(targets, claimed, 0) == Bucket(newer, 2, [Done, Done]);
  }
}
