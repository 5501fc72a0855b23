/** The workers' numbered streams under every interleaving into the aggregator's channel: what is
    emitted is a function of how far each worker has come, never of the order. */
module FleetStreams {
  import opened Arithmetic
  import opened Sequences
  import opened Verdicts
  import opened TickEmitter
  import opened Aggregation

  /** How many messages of worker w an interleaving has delivered. */
  function Taken(order: seq<nat>, w: nat): nat {
    if order == [] then 0 else Taken(order[..|order| - 1], w) + if order[|order| - 1] == w then 1 else 0
  }

  /** An interleaving names, message by message, the worker whose next message arrives. */
  ghost predicate Interleaves(streams: seq<seq<Partial>>, order: seq<nat>) {
    forall k :: 0 <= k < |order| ==> order[k] < |streams| && Taken(order[..k], order[k]) < |streams[order[k]]|
  }

  lemma InterleavesPrefix(streams: seq<seq<Partial>>, order: seq<nat>, k: nat)
    requires Interleaves(streams, order) && k <= |order|
    ensures Interleaves(streams, order[..k])
  {
    assert forall j :: 0 <= j < k ==> order[..k][..j] == order[..j];
  }

  ghost function Messages(streams: seq<seq<Partial>>, order: seq<nat>): seq<(nat, Partial)>
    requires Interleaves(streams, order)
  {
    if order == [] then []
    else
      var k := |order| - 1;
      InterleavesPrefix(streams, order, k);
      Messages(streams, order[..k]) + [(order[k], streams[order[k]][Taken(order[..k], order[k])])]
  }

  /** The aggregator's state after an interleaving. */
  ghost function After(streams: seq<seq<Partial>>, order: seq<nat>): State
    requires Interleaves(streams, order)
  {
    DeliverAll(|streams|, FRESH, Messages(streams, order))
  }

  lemma AfterStep(streams: seq<seq<Partial>>, order: seq<nat>)
    requires Interleaves(streams, order) && order != []
    ensures var k := |order| - 1;
            && Interleaves(streams, order[..k]) && order[k] < |streams|
            && Taken(order[..k], order[k]) < |streams[order[k]]|
            && After(streams, order) ==
                 Deliver(|streams|, After(streams, order[..k]), order[k],
                         streams[order[k]][Taken(order[..k], order[k])])
  {
    var k := |order| - 1;
    InterleavesPrefix(streams, order, k);
    var ms := Messages(streams, order);
    assert ms[..|ms| - 1] == Messages(streams, order[..k]);
  }

  /** The ticks of a stream, its final partial left out. */
  function Regular(st: seq<Partial>): nat {
    if st != [] && st[|st| - 1].final then |st| - 1 else |st|
  }

  function Got(streams: seq<seq<Partial>>, order: seq<nat>): seq<nat> {
    seq(|streams|, w requires 0 <= w < |streams| => Min(Taken(order, w), Regular(streams[w])))
  }

  function Least(got: seq<nat>): nat
    requires got != []
  {
    if |got| == 1 then got[0] else Min(Least(got[..|got| - 1]), got[|got| - 1])
  }

  lemma {:induction false} LeastIsLeast(got: seq<nat>)
    requires got != []
    ensures forall w :: 0 <= w < |got| ==> Least(got) <= got[w]
    ensures exists w :: 0 <= w < |got| && got[w] == Least(got)
  {
    if |got| == 1 {
      assert got[0] == Least(got);
    } else {
      var init := got[..|got| - 1];
      LeastIsLeast(init);
      var w :| 0 <= w < |init| && init[w] == Least(init);
      assert got[w] == Least(init);
      assert got[|got| - 1] == Least(got) || got[w] == Least(got);
    }
  }

  /** Some but not all workers have come as far as t. */
  ghost predicate Pending(got: seq<nat>, t: nat)
    requires got != []
  {
    Least(got) < t && exists w :: 0 <= w < |got| && t <= got[w]
  }

  function Bumped(got: seq<nat>, w: nat): seq<nat>
    requires w < |got|
  {
    got[w := got[w] + 1]
  }

  /** One worker moving on leaves the least alone, unless it was the only one that far behind. */
  lemma LeastAfter(got: seq<nat>, w: nat)
    requires w < |got|
    ensures var least := Least(Bumped(got, w));
            if least > got[w]
            then
              && Least(got) == got[w] && least == got[w] + 1
              && forall v :: 0 <= v < |got| && v != w ==> got[v] > got[w]
            else least == Least(got) && exists v :: 0 <= v < |got| && v != w && got[v] <= got[w]
  {
    var got' := Bumped(got, w);
    LeastIsLeast(got);
    LeastIsLeast(got');
    assert forall v :: 0 <= v < |got| && v != w ==> got'[v] == got[v];
    assert got'[w] == got[w] + 1;
    var low :| 0 <= low < |got| && got[low] == Least(got);
    var low' :| 0 <= low' < |got'| && got'[low'] == Least(got');
    if Least(got') > got[w] {
      assert got'[w] >= Least(got');
    } else {
      assert low' != w;
      assert got'[low] >= Least(got');
    }
  }

  /** Delivering worker w's next tick makes it pending, or completes it and no other. */
  lemma PendingAfter(got: seq<nat>, w: nat, u: nat)
    requires w < |got|
    ensures var got' := Bumped(got, w);
            Pending(got', u) <==>
              if Least(got') > got[w] then Pending(got, u) && u != got[w] + 1 else Pending(got, u) || u == got[w] + 1
  {
    var got' := Bumped(got, w);
    LeastAfter(got, w);
    LeastIsLeast(got);
    assert forall v :: 0 <= v < |got| && v != w ==> got'[v] == got[v];
    assert got'[w] == got[w] + 1;
    if exists v :: 0 <= v < |got| && u <= got[v] {
      var v :| 0 <= v < |got| && u <= got[v];
      assert u <= got'[v];
    }
    if exists v :: 0 <= v < |got'| && u <= got'[v] {
      var v :| 0 <= v < |got'| && u <= got'[v];
      assert u <= got[v] || u == got[w] + 1;
    }
  }

  /** How far the workers are known to have come: no further than their ticks reach. */
  ghost predicate Reached(streams: seq<seq<Partial>>, got: seq<nat>) {
    && |got| == |streams| > 0
    && forall w :: 0 <= w < |streams| ==> Numbered(streams[w]) && got[w] <= Regular(streams[w])
  }

  /** The partials of tick t from the workers that have delivered it. */
  ghost function Bucket(streams: seq<seq<Partial>>, got: seq<nat>, t: nat): map<nat, Partial>
    requires Reached(streams, got) && t > 0
  {
    map w: nat | w < |streams| && t <= got[w] :: streams[w][t - 1]
  }

  /** Every worker has at least t ticks. */
  predicate AllHave(streams: seq<seq<Partial>>, t: nat) {
    forall w :: 0 <= w < |streams| ==> t <= |streams[w]|
  }

  ghost function TickShare(streams: seq<seq<Partial>>, t: nat): Share
    requires t > 0 && AllHave(streams, t)
  {
    var full := map w: nat | w < |streams| :: streams[w][t - 1];
    Fold(full, full.Keys)
  }

  /** Counts of the first m ticks of every worker. */
  ghost function Cumulative(streams: seq<seq<Partial>>, m: nat): Tally
    requires AllHave(streams, m)
  {
    if m == 0 then ZERO else Cumulative(streams, m - 1).Plus(TickShare(streams, m).counts)
  }

  function Visible(t: Tally): Tally {
    ZERO.(completed := t.completed, pass := t.pass, failStatus := t.failStatus)
  }

  /** Ticks 1..m in ascending order, each with the combined share of all workers. */
  ghost function FleetTicks(streams: seq<seq<Partial>>, m: nat): seq<AggTick>
    requires AllHave(streams, m)
  {
    if m == 0 then []
    else FleetTicks(streams, m - 1) + [Emit(m, TickShare(streams, m), Visible(Cumulative(streams, m - 1)))]
  }

  /** Tick u is parked exactly when it is pending, with the partials delivered so far. */
  ghost predicate ParksAt(streams: seq<seq<Partial>>, got: seq<nat>, parked: map<nat, map<nat, Partial>>, u: nat)
    requires Reached(streams, got)
  {
    && (u in parked <==> Pending(got, u))
    && (u in parked ==> parked[u] == Bucket(streams, got, u))
  }

  ghost predicate Parks(streams: seq<seq<Partial>>, got: seq<nat>, parked: map<nat, map<nat, Partial>>)
    requires Reached(streams, got)
  {
    forall u: nat :: ParksAt(streams, got, parked, u)
  }

  ghost predicate Outputs(streams: seq<seq<Partial>>, m: nat, s: State) {
    && AllHave(streams, m)
    && s.emitted == FleetTicks(streams, m)
    && s.cumCompleted == Cumulative(streams, m).completed
    && s.cumPass == Cumulative(streams, m).pass
    && s.cumFailStatus == Cumulative(streams, m).failStatus
  }

  /** The state is determined by how far each worker has come. */
  ghost predicate Determined(streams: seq<seq<Partial>>, got: seq<nat>, s: State)
    requires Reached(streams, got)
  {
    Parks(streams, got, s.parked) && Outputs(streams, Least(got), s)
  }

  lemma Everyone(n: nat, keys: set<nat>)
    requires forall w :: w in keys ==> w < n
    ensures |keys| == n <==> forall w :: 0 <= w < n ==> w in keys
    ensures |keys| <= n
  {
    if n == 0 {
      assert keys == {};
    } else {
      Everyone(n - 1, keys - {n - 1});
      if n - 1 in keys {
        assert keys == keys - {n - 1} + {n - 1};
      } else {
        assert keys - {n - 1} == keys;
      }
    }
  }

  /** Worker w has another tick to deliver. */
  ghost predicate CanDeliver(streams: seq<seq<Partial>>, got: seq<nat>, w: nat) {
    Reached(streams, got) && w < |streams| && got[w] < Regular(streams[w])
  }

  lemma DeliveryReaches(streams: seq<seq<Partial>>, got: seq<nat>, w: nat)
    requires CanDeliver(streams, got, w)
    ensures Reached(streams, Bumped(got, w))
    ensures streams[w][got[w]].tick == got[w] + 1 && !streams[w][got[w]].final
  {
  }

  /** The bucket of the tick a worker delivers next, with its partial added. */
  lemma NextEntry(streams: seq<seq<Partial>>, got: seq<nat>, s: State, w: nat)
    requires CanDeliver(streams, got, w) && Parks(streams, got, s.parked)
    ensures Reached(streams, Bumped(got, w))
    ensures Entry(s, got[w] + 1)[w := streams[w][got[w]]] == Bucket(streams, Bumped(got, w), got[w] + 1)
    ensures w !in Entry(s, got[w] + 1)
  {
    var t := got[w] + 1;
    DeliveryReaches(streams, got, w);
    LeastIsLeast(got);
    assert ParksAt(streams, got, s.parked, t);
    if !Pending(got, t) {
      assert forall u :: 0 <= u < |got| ==> got[u] < t;
      assert Bucket(streams, got, t) == map[];
    }
    assert Entry(s, t) == Bucket(streams, got, t);
  }

  lemma BucketElsewhere(streams: seq<seq<Partial>>, got: seq<nat>, w: nat, t: nat)
    requires CanDeliver(streams, got, w) && t > 0 && t != got[w] + 1
    ensures Reached(streams, Bumped(got, w))
    ensures Bucket(streams, Bumped(got, w), t) == Bucket(streams, got, t)
  {
  }

  /** A tick that some worker still lacks is parked. */
  lemma ParksTick(streams: seq<seq<Partial>>, got: seq<nat>, parked: map<nat, map<nat, Partial>>, w: nat, u: nat)
    requires CanDeliver(streams, got, w) && ParksAt(streams, got, parked, u)
    requires Least(Bumped(got, w)) <= got[w]
    ensures Reached(streams, Bumped(got, w))
    ensures ParksAt(streams, Bumped(got, w), parked[got[w] + 1 := Bucket(streams, Bumped(got, w), got[w] + 1)], u)
  {
    DeliveryReaches(streams, got, w);
    PendingAfter(got, w, u);
    if Pending(got, u) && u != got[w] + 1 {
      BucketElsewhere(streams, got, w, u);
    }
  }

  /** The tick that every worker has now delivered is taken out. */
  lemma TakesTick(streams: seq<seq<Partial>>, got: seq<nat>, parked: map<nat, map<nat, Partial>>, w: nat, u: nat)
    requires CanDeliver(streams, got, w) && ParksAt(streams, got, parked, u)
    requires Least(Bumped(got, w)) > got[w]
    ensures Reached(streams, Bumped(got, w)) && ParksAt(streams, Bumped(got, w), parked - {got[w] + 1}, u)
  {
    DeliveryReaches(streams, got, w);
    PendingAfter(got, w, u);
    if Pending(got, u) && u != got[w] + 1 {
      BucketElsewhere(streams, got, w, u);
    }
  }

  /** A bucket is full exactly when the least-advanced worker has delivered its tick. */
  lemma FullBucket(streams: seq<seq<Partial>>, got: seq<nat>, t: nat)
    requires Reached(streams, got) && t > 0
    ensures |Bucket(streams, got, t)| == |streams| <==> t <= Least(got)
    ensures t <= Least(got) ==>
              AllHave(streams, t) && Bucket(streams, got, t) == map w: nat | w < |streams| :: streams[w][t - 1]
  {
    var b := Bucket(streams, got, t);
    Everyone(|streams|, b.Keys);
    LeastIsLeast(got);
    assert |b| == |b.Keys|;
    assert forall w :: 0 <= w < |streams| ==> (w in b <==> t <= got[w]);
  }

  lemma OutputsGrow(streams: seq<seq<Partial>>, m: nat, s: State, parked: map<nat, map<nat, Partial>>)
    requires Outputs(streams, m, s) && AllHave(streams, m + 1)
    ensures Outputs(streams, m + 1, EmitInto(s.(parked := parked), m + 1, TickShare(streams, m + 1)))
  {
  }

  /** One more tick of one worker: the state stays the one determined by the workers' progress. */
  lemma DeliveryIsDetermined(streams: seq<seq<Partial>>, got: seq<nat>, s: State, w: nat)
    requires CanDeliver(streams, got, w) && Determined(streams, got, s)
    ensures Reached(streams, Bumped(got, w))
    ensures Determined(streams, Bumped(got, w), Deliver(|streams|, s, w, streams[w][got[w]]))
  {
    var t, got' := got[w] + 1, Bumped(got, w);
    DeliveryReaches(streams, got, w);
    NextEntry(streams, got, s, w);
    LeastAfter(got, w);
    FullBucket(streams, got', t);
    if Least(got') > got[w] {
      forall u: nat
        ensures ParksAt(streams, got', s.parked - {t}, u)
      {
        TakesTick(streams, got, s.parked, w, u);
      }
      OutputsGrow(streams, got[w], s, s.parked - {t});
    } else {
      var parked := s.parked[t := Bucket(streams, got', t)];
      forall u: nat
        ensures ParksAt(streams, got', parked, u)
      {
        ParksTick(streams, got, s.parked, w, u);
      }
    }
  }

  // ---- whole interleavings ----

  ghost predicate Fleet(streams: seq<seq<Partial>>) {
    streams != [] && forall w :: 0 <= w < |streams| ==> Numbered(streams[w])
  }

  lemma GotAfter(streams: seq<seq<Partial>>, order: seq<nat>, w: nat)
    requires order != [] && order[|order| - 1] == w < |streams|
    requires Taken(order[..|order| - 1], w) < |streams[w]|
    ensures var got := Got(streams, order[..|order| - 1]);
            Got(streams, order) == if Taken(order[..|order| - 1], w) < Regular(streams[w]) then Bumped(got, w) else got
  {
    var k := |order| - 1;
    var got, got' := Got(streams, order[..k]), Got(streams, order);
    assert forall v :: 0 <= v < |streams| && v != w ==> got'[v] == got[v];
    if Taken(order[..k], w) < Regular(streams[w]) {
      assert got' == Bumped(got, w);
    } else {
      assert got' == got;
    }
  }

  lemma GotReached(streams: seq<seq<Partial>>, order: seq<nat>)
    requires Fleet(streams)
    ensures Reached(streams, Got(streams, order))
  {
  }

  lemma FinalIsLast(st: seq<Partial>, k: nat)
    requires Numbered(st) && k < |st|
    ensures st[k].final <==> k >= Regular(st)
  {
  }

  lemma TakenAfter(streams: seq<seq<Partial>>, order: seq<nat>)
    requires Fleet(streams) && Interleaves(streams, order) && order != []
    ensures var k := |order| - 1;
            var got, w, p := Got(streams, order[..k]), order[k], streams[order[k]][Taken(order[..k], order[k])];
            && Reached(streams, got)
            && (p.final ==> Got(streams, order) == got)
            && (!p.final ==>
                  CanDeliver(streams, got, w) && p == streams[w][got[w]] && Got(streams, order) == Bumped(got, w))
  {
    var k := |order| - 1;
    GotReached(streams, order[..k]);
    GotAfter(streams, order, order[k]);
    FinalIsLast(streams[order[k]], Taken(order[..k], order[k]));
  }

  lemma {:induction false} StateIsDetermined(streams: seq<seq<Partial>>, order: seq<nat>)
    requires Fleet(streams) && Interleaves(streams, order)
    ensures Reached(streams, Got(streams, order))
    ensures Determined(streams, Got(streams, order), After(streams, order))
  {
    if order == [] {
      LeastIsLeast(Got(streams, order));
      assert forall w :: 0 <= w < |streams| ==> Got(streams, order)[w] == 0;
    } else {
      AfterStep(streams, order);
      TakenAfter(streams, order);
      var k := |order| - 1;
      StateIsDetermined(streams, order[..k]);
      if Got(streams, order) != Got(streams, order[..k]) {
        DeliveryIsDetermined(streams, Got(streams, order[..k]), After(streams, order[..k]), order[k]);
      }
    }
  }

  /** Confluence: any two interleavings that have brought every worker equally far leave the
      aggregator in the same state. */
  lemma InterleavingsConfluent(streams: seq<seq<Partial>>, a: seq<nat>, b: seq<nat>)
    requires Fleet(streams) && Interleaves(streams, a) && Interleaves(streams, b)
    requires Got(streams, a) == Got(streams, b)
    ensures After(streams, a) == After(streams, b)
  {
    StateIsDetermined(streams, a);
    StateIsDetermined(streams, b);
    var s, t := After(streams, a), After(streams, b);
    forall u: nat
      ensures u in s.parked <==> u in t.parked
      ensures u in s.parked ==> s.parked[u] == t.parked[u]
    {
      assert ParksAt(streams, Got(streams, a), s.parked, u) && ParksAt(streams, Got(streams, a), t.parked, u);
    }
    assert s.parked == t.parked;
  }

  lemma {:induction false} FleetTicksShape(streams: seq<seq<Partial>>, m: nat)
    requires AllHave(streams, m)
    ensures |FleetTicks(streams, m)| == m
    ensures forall i: nat :: i < m ==>
              FleetTicks(streams, m)[i] == Emit(i + 1, TickShare(streams, i + 1), Visible(Cumulative(streams, i)))
  {
    if m > 0 {
      FleetTicksShape(streams, m - 1);
    }
  }

  /** Every message of every stream has been delivered. */
  ghost predicate Complete(streams: seq<seq<Partial>>, order: seq<nat>) {
    forall w :: 0 <= w < |streams| ==> Taken(order, w) == |streams[w]|
  }

  /** The smallest number of ticks any worker delivers. */
  function Shortest(streams: seq<seq<Partial>>): nat
    requires streams != []
  {
    Least(seq(|streams|, w requires 0 <= w < |streams| => Regular(streams[w])))
  }

  /** However the streams interleave, exactly the ticks 1..m are emitted, in ascending order and
      once each, where m is the smallest number of ticks any worker delivered; and the i-th one is
      the combination of all workers' i-th partials with the totals up to there. */
  lemma EmitsEveryCommonTick(streams: seq<seq<Partial>>, order: seq<nat>)
    requires Fleet(streams) && Interleaves(streams, order) && Complete(streams, order)
    ensures AllHave(streams, Shortest(streams))
    ensures After(streams, order).emitted == FleetTicks(streams, Shortest(streams))
    ensures |After(streams, order).emitted| == Shortest(streams)
    ensures forall i: nat :: i < Shortest(streams) ==>
              && After(streams, order).emitted[i].elapsedS == i + 1
              && After(streams, order).emitted[i].thisTick == TickShare(streams, i + 1).counts
              && After(streams, order).emitted[i].completedTotal == Cumulative(streams, i + 1).completed
              && After(streams, order).emitted[i].passTotal == Cumulative(streams, i + 1).pass
              && After(streams, order).emitted[i].failStatusTotal == Cumulative(streams, i + 1).failStatus
  {
    StateIsDetermined(streams, order);
    assert Got(streams, order) == seq(|streams|, w requires 0 <= w < |streams| => Regular(streams[w]));
    FleetTicksShape(streams, Shortest(streams));
  }

  lemma DeliveryAppends(n: nat, s: State, w: nat, p: Partial)
    ensures s.emitted <= Deliver(n, s, w, p).emitted
  {
  }

  lemma {:induction false} DeliveriesAppend(n: nat, s: State, msgs: seq<(nat, Partial)>, k: nat)
    requires k <= |msgs|
    ensures DeliverAll(n, s, msgs[..k]).emitted <= DeliverAll(n, s, msgs).emitted
  {
    if k < |msgs| {
      var last := |msgs| - 1;
      DeliveriesAppend(n, s, msgs[..last], k);
      PrefixOfPrefix(msgs, k, last);
      DeliveryAppends(n, DeliverAll(n, s, msgs[..last]), msgs[last].0, msgs[last].1);
    } else {
      WholePrefix(msgs);
    }
  }

  lemma LastMessage(streams: seq<seq<Partial>>, order: seq<nat>) returns (m: (nat, Partial))
    requires Interleaves(streams, order) && order != []
    ensures Interleaves(streams, order[..|order| - 1])
    ensures Messages(streams, order) == Messages(streams, order[..|order| - 1]) + [m]
  {
    var k := |order| - 1;
    InterleavesPrefix(streams, order, k);
    m := (order[k], streams[order[k]][Taken(order[..k], order[k])]);
  }

  lemma {:induction false} MessagesOfPrefix(streams: seq<seq<Partial>>, order: seq<nat>, k: nat)
    requires Interleaves(streams, order) && k <= |order|
    ensures |Messages(streams, order)| == |order|
    ensures Interleaves(streams, order[..k]) && Messages(streams, order[..k]) == Messages(streams, order)[..k]
  {
    if k == |order| {
      WholePrefix(order);
      if k > 0 {
        var m := LastMessage(streams, order);
        MessagesOfPrefix(streams, order[..k - 1], k - 1);
      }
      WholePrefix(Messages(streams, order));
    } else {
      var last := |order| - 1;
      var m := LastMessage(streams, order);
      MessagesOfPrefix(streams, order[..last], k);
      PrefixOfPrefix(order, k, last);
      PrefixStays(Messages(streams, order[..last]), m, k);
    }
  }

  /** What a run has emitted at any point is a prefix of what it emits in the end. */
  lemma EmitsPrefix(streams: seq<seq<Partial>>, order: seq<nat>, k: nat)
    requires Interleaves(streams, order) && k <= |order|
    ensures Interleaves(streams, order[..k]) && After(streams, order[..k]).emitted <= After(streams, order).emitted
  {
    MessagesOfPrefix(streams, order, k);
    DeliveriesAppend(|streams|, FRESH, Messages(streams, order), k);
  }

  // ---- what a tick combines, worker by worker ----

  function Firsts(k: nat): (f: set<nat>)
    ensures forall w: nat :: w in f <==> w < k
  {
    if k == 0 then {} else Firsts(k - 1) + {k - 1}
  }

  lemma FoldNext(bucket: map<nat, Partial>, k: nat)
    requires Firsts(k + 1) <= bucket.Keys
    ensures Fold(bucket, Firsts(k + 1)) == Combine(Fold(bucket, Firsts(k)), ShareOf(bucket[k]))
  {
    FoldRemove(bucket, Firsts(k + 1), k);
    assert Firsts(k + 1) - {k} == Firsts(k);
  }

  lemma FoldNextCounts(bucket: map<nat, Partial>, k: nat)
    requires Firsts(k + 1) <= bucket.Keys
    ensures Fold(bucket, Firsts(k + 1)).counts == Fold(bucket, Firsts(k)).counts.Plus(SumTallies(bucket[k].buckets))
  {
    FoldNext(bucket, k);
  }

  /** The counts that each worker's t-th partial carries. */
  function TickCounts(streams: seq<seq<Partial>>, t: nat): seq<Tally>
    requires t > 0 && AllHave(streams, t)
  {
    seq(|streams|, w requires 0 <= w < |streams| => SumTallies(streams[w][t - 1].buckets))
  }

  ghost predicate CarriesCounts(p: Partial, counts: Tally) { SumTallies(p.buckets) == counts }

  ghost predicate Counted(full: map<nat, Partial>, counts: seq<Tally>, k: nat)
    requires Firsts(k) <= full.Keys && k <= |counts|
  {
    Fold(full, Firsts(k)).counts == SumTallies(counts[..k])
  }

  lemma CountsNext(full: map<nat, Partial>, counts: seq<Tally>, k: nat)
    requires k < |counts| && Firsts(k + 1) <= full.Keys && CarriesCounts(full[k], counts[k])
    requires Firsts(k) <= full.Keys && Counted(full, counts, k)
    ensures Counted(full, counts, k + 1)
  {
    FoldNextCounts(full, k);
    PrefixMore(counts, k);
  }

  lemma NoneCounted(full: map<nat, Partial>, counts: seq<Tally>)
    ensures Firsts(0) <= full.Keys && Counted(full, counts, 0)
  {
    assert Firsts(0) == {};
  }

  lemma {:induction false} FoldCounts(full: map<nat, Partial>, counts: seq<Tally>, k: nat)
    requires k <= |counts| && Firsts(k) <= full.Keys
    requires forall w: nat :: w < k ==> CarriesCounts(full[w], counts[w])
    ensures Counted(full, counts, k)
  {
    if k == 0 {
      NoneCounted(full, counts);
    } else {
      FoldCounts(full, counts, k - 1);
      CountsNext(full, counts, k - 1);
    }
  }

  lemma TickShareByWorker(streams: seq<seq<Partial>>, t: nat)
    requires t > 0 && AllHave(streams, t)
    ensures TickShare(streams, t).counts == SumTallies(TickCounts(streams, t))
  {
    var full := map w: nat | w < |streams| :: streams[w][t - 1];
    var counts := TickCounts(streams, t);
    assert full.Keys == Firsts(|streams|);
    FoldCounts(full, counts, |counts|);
    WholePrefix(counts);
  }
}
