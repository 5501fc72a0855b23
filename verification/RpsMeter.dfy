/** The mock's rolling request meter: a ring of ten buckets, reclaimed lazily, against the plain log
    of the requests recorded. */
module RpsMeter {
  import opened Arithmetic
  import opened Counting
  import opened Sequences
  import opened Verdicts

  const SLOT_MS := 100
  const SLOTS := 10
  const UNSET := 0xFFFF_FFFF_FFFF_FFFF

  type millis = t: nat | t < 0x1_0000_0000_0000_0000

  function SlotOf(t: millis): (s: nat)
    ensures s < UNSET
  {
    t / SLOT_MS
  }

  // ---- the log ----

  /** Records in slots lo..hi whose bucket is at least `from` and below `to`. */
  function InSlots(log: seq<millis>, lo: nat, hi: nat, from: nat, to: nat): nat {
    if log == [] then 0
    else
      var s := SlotOf(log[|log| - 1]);
      InSlots(log[..|log| - 1], lo, hi, from, to) + if lo <= s <= hi && from <= s % SLOTS < to then 1 else 0
  }

  /** The slot of the last record that fell into bucket b. */
  function LastSlot(log: seq<millis>, b: nat): nat {
    if log == [] then UNSET
    else
      var s := SlotOf(log[|log| - 1]);
      if s % SLOTS == b then s else LastSlot(log[..|log| - 1], b)
  }

  /** Records of bucket b since a record of another slot last fell into it. */
  function BucketCount(log: seq<millis>, b: nat): nat {
    if log == [] then 0
    else
      var init, s := log[..|log| - 1], SlotOf(log[|log| - 1]);
      if s % SLOTS != b then BucketCount(init, b)
      else if LastSlot(init, b) == s then BucketCount(init, b) + 1
      else 1
  }

  /** What bucket b contributes to a reading of the slots lo..hi. */
  function Shown(log: seq<millis>, b: nat, lo: nat, hi: nat): nat {
    var s := LastSlot(log, b);
    if s != UNSET && lo <= s <= hi then BucketCount(log, b) else 0
  }

  /** What the first k buckets contribute. */
  function Reading(log: seq<millis>, lo: nat, hi: nat, k: nat): nat {
    if k == 0 then 0 else Reading(log, lo, hi, k - 1) + Shown(log, k - 1, lo, hi)
  }

  lemma OneMoreRecord(log: seq<millis>, t: millis, lo: nat, hi: nat, from: nat, to: nat)
    ensures var s := SlotOf(t);
            InSlots(log + [t], lo, hi, from, to) ==
            InSlots(log, lo, hi, from, to) + if lo <= s <= hi && from <= s % SLOTS < to then 1 else 0
  {
    Grown(log, t);
  }

  lemma BucketAfter(log: seq<millis>, t: millis, b: nat)
    ensures var s := SlotOf(t);
            && LastSlot(log + [t], b) == (if s % SLOTS == b then s else LastSlot(log, b))
            && BucketCount(log + [t], b) ==
                 (if s % SLOTS != b then BucketCount(log, b)
                  else if LastSlot(log, b) == s then BucketCount(log, b) + 1 else 1)
  {
    Grown(log, t);
  }

  lemma {:induction false} LastSlotIsInBucket(log: seq<millis>, b: nat)
    ensures LastSlot(log, b) != UNSET ==> LastSlot(log, b) % SLOTS == b
  {
    if log != [] {
      LastSlotIsInBucket(log[..|log| - 1], b);
    }
  }

  lemma {:induction false} InSlotsSplits(log: seq<millis>, lo: nat, hi: nat, k: nat)
    ensures InSlots(log, lo, hi, 0, k + 1) == InSlots(log, lo, hi, 0, k) + InSlots(log, lo, hi, k, k + 1)
  {
    if log != [] {
      InSlotsSplits(log[..|log| - 1], lo, hi, k);
    }
  }

  lemma {:induction false} NoBuckets(log: seq<millis>, lo: nat, hi: nat)
    ensures InSlots(log, lo, hi, 0, 0) == 0
  {
    if log != [] {
      NoBuckets(log[..|log| - 1], lo, hi);
    }
  }

  lemma SameResidue(m: nat, n: nat, lo: nat)
    requires m % SLOTS == n % SLOTS && lo <= m < lo + SLOTS && lo <= n < lo + SLOTS
    ensures m == n
  {
  }

  // ---- when a reading misses records ----

  /** Record i of the window is followed by record j of another slot of the same bucket. */
  ghost predicate OvertakenBy(log: seq<millis>, lo: nat, hi: nat, i: nat, j: nat) {
    && i < j < |log| && lo <= SlotOf(log[i]) <= hi
    && SlotOf(log[j]) % SLOTS == SlotOf(log[i]) % SLOTS && SlotOf(log[j]) != SlotOf(log[i])
  }

  /** Some record of the window is overtaken. */
  ghost predicate Overtaken(log: seq<millis>, lo: nat, hi: nat) {
    exists i: nat, j: nat :: OvertakenBy(log, lo, hi, i, j)
  }

  /** The same, bucket by bucket and record by record. */
  ghost predicate OvertakenIn(log: seq<millis>, b: nat, lo: nat, hi: nat) {
    if log == [] then false
    else
      var init, s := log[..|log| - 1], SlotOf(log[|log| - 1]);
      OvertakenIn(init, b, lo, hi) || (s % SLOTS == b && !(lo <= s <= hi) && InSlots(init, lo, hi, b, b + 1) > 0)
  }

  lemma OvertakenAfter(log: seq<millis>, t: millis, b: nat, lo: nat, hi: nat)
    ensures var s := SlotOf(t);
            OvertakenIn(log + [t], b, lo, hi) <==>
              OvertakenIn(log, b, lo, hi) || (s % SLOTS == b && !(lo <= s <= hi) && InSlots(log, lo, hi, b, b + 1) > 0)
  {
    Grown(log, t);
  }

  /** A bucket shows no more than its records of the window, and all of them unless one is overtaken. */
  ghost predicate ShownIffNotOvertaken(log: seq<millis>, b: nat, lo: nat, hi: nat) {
    && Shown(log, b, lo, hi) <= InSlots(log, lo, hi, b, b + 1)
    && (Shown(log, b, lo, hi) == InSlots(log, lo, hi, b, b + 1) <==> !OvertakenIn(log, b, lo, hi))
  }

  lemma RecordKeepsShown(log: seq<millis>, t: millis, b: nat, lo: nat, hi: nat)
    requires ShownIffNotOvertaken(log, b, lo, hi) && hi < lo + SLOTS
    ensures ShownIffNotOvertaken(log + [t], b, lo, hi)
  {
    var s, last := SlotOf(t), LastSlot(log, b);
    OneMoreRecord(log, t, lo, hi, b, b + 1);
    BucketAfter(log, t, b);
    OvertakenAfter(log, t, b, lo, hi);
    LastSlotIsInBucket(log, b);
    if s % SLOTS == b && last != UNSET && lo <= s <= hi && lo <= last <= hi {
      SameResidue(s, last, lo);
    }
  }

  lemma {:induction false} BucketShows(log: seq<millis>, b: nat, lo: nat, hi: nat)
    requires hi < lo + SLOTS
    ensures ShownIffNotOvertaken(log, b, lo, hi)
  {
    if log != [] {
      BucketShows(log[..|log| - 1], b, lo, hi);
      LastApart([], log);
      RecordKeepsShown(log[..|log| - 1], log[|log| - 1], b, lo, hi);
    }
  }

  ghost predicate NoneOvertaken(log: seq<millis>, lo: nat, hi: nat, k: nat) {
    forall b: nat :: b < k ==> !OvertakenIn(log, b, lo, hi)
  }

  lemma OneBucketFewer(log: seq<millis>, lo: nat, hi: nat, k: nat)
    ensures NoneOvertaken(log, lo, hi, k + 1) <==> NoneOvertaken(log, lo, hi, k) && !OvertakenIn(log, k, lo, hi)
  {
  }

  lemma {:induction false} BucketsShow(log: seq<millis>, lo: nat, hi: nat, k: nat)
    requires hi < lo + SLOTS
    ensures Reading(log, lo, hi, k) <= InSlots(log, lo, hi, 0, k)
    ensures Reading(log, lo, hi, k) == InSlots(log, lo, hi, 0, k) <==> NoneOvertaken(log, lo, hi, k)
  {
    if k == 0 {
      NoBuckets(log, lo, hi);
    } else {
      BucketsShow(log, lo, hi, k - 1);
      InSlotsSplits(log, lo, hi, k - 1);
      BucketShows(log, k - 1, lo, hi);
      OneBucketFewer(log, lo, hi, k - 1);
    }
  }

  /** There is a record of the window in the bucket exactly when they count to more than none. */
  lemma {:induction false} SomeInSlots(log: seq<millis>, lo: nat, hi: nat, b: nat)
    ensures InSlots(log, lo, hi, b, b + 1) > 0 <==>
            exists i: nat :: i < |log| && lo <= SlotOf(log[i]) <= hi && SlotOf(log[i]) % SLOTS == b
  {
    if log != [] {
      var k := |log| - 1;
      SomeInSlots(log[..k], lo, hi, b);
      if InSlots(log[..k], lo, hi, b, b + 1) > 0 {
        var i: nat :| i < k && lo <= SlotOf(log[..k][i]) <= hi && SlotOf(log[..k][i]) % SLOTS == b;
        assert log[..k][i] == log[i];
      }
      if i: nat :| i < |log| && lo <= SlotOf(log[i]) <= hi && SlotOf(log[i]) % SLOTS == b {
        assert i < k ==> log[..k][i] == log[i];
      }
    }
  }

  ghost predicate OvertakenAt(log: seq<millis>, b: nat, lo: nat, hi: nat, i: nat, j: nat) {
    OvertakenBy(log, lo, hi, i, j) && SlotOf(log[i]) % SLOTS == b
  }

  lemma {:induction false} OvertakenInBucket(log: seq<millis>, b: nat, lo: nat, hi: nat)
    requires hi < lo + SLOTS
    ensures OvertakenIn(log, b, lo, hi) <==> exists i: nat, j: nat :: OvertakenAt(log, b, lo, hi, i, j)
  {
    if log != [] {
      var k := |log| - 1;
      var init := log[..k];
      OvertakenInBucket(init, b, lo, hi);
      SomeInSlots(init, lo, hi, b);
      if OvertakenIn(init, b, lo, hi) {
        var i: nat, j: nat :| OvertakenAt(init, b, lo, hi, i, j);
        assert OvertakenAt(log, b, lo, hi, i, j);
      } else if OvertakenIn(log, b, lo, hi) {
        var i: nat :| i < k && lo <= SlotOf(init[i]) <= hi && SlotOf(init[i]) % SLOTS == b;
        assert OvertakenAt(log, b, lo, hi, i, k);
      }
      if i: nat, j: nat :| OvertakenAt(log, b, lo, hi, i, j) {
        if j < k {
          assert OvertakenAt(init, b, lo, hi, i, j);
        } else {
          assert init[i] == log[i];
          if lo <= SlotOf(log[k]) <= hi {
            SameResidue(SlotOf(log[i]), SlotOf(log[k]), lo);
          }
        }
      }
    }
  }

  /** Atomic records at any times, in any order: a reading never counts more than the records of its
      ten slots, and counts them all if and only if none of them is followed by a record of another
      slot of the same bucket. */
  lemma ReadingIffNotOvertaken(log: seq<millis>, lo: nat, hi: nat)
    requires hi < lo + SLOTS
    ensures Reading(log, lo, hi, SLOTS) <= InSlots(log, lo, hi, 0, SLOTS)
    ensures Reading(log, lo, hi, SLOTS) == InSlots(log, lo, hi, 0, SLOTS) <==> !Overtaken(log, lo, hi)
  {
    BucketsShow(log, lo, hi, SLOTS);
    forall b: nat | b < SLOTS
      ensures OvertakenIn(log, b, lo, hi) <==> exists i: nat, j: nat :: OvertakenAt(log, b, lo, hi, i, j)
    {
      OvertakenInBucket(log, b, lo, hi);
    }
    if i: nat, j: nat :| OvertakenBy(log, lo, hi, i, j) {
      var b := SlotOf(log[i]) % SLOTS;
      assert OvertakenAt(log, b, lo, hi, i, j);
      assert OvertakenIn(log, b, lo, hi);
    }
    if b: nat :| b < SLOTS && OvertakenIn(log, b, lo, hi) {
      var i: nat, j: nat :| OvertakenAt(log, b, lo, hi, i, j);
      assert OvertakenBy(log, lo, hi, i, j);
    }
  }

  /** Times that never go back. */
  ghost predicate Ordered(log: seq<millis>) {
    forall i, j :: 0 <= i <= j < |log| ==> log[i] <= log[j]
  }

  ghost predicate UpTo(log: seq<millis>, now: millis) { forall i :: 0 <= i < |log| ==> log[i] <= now }

  /** The slots a reading covers. */
  function Oldest(now: millis): nat { Sub(SlotOf(now), SLOTS - 1) }

  /** Records in order overtake none that a reading not before them covers. */
  lemma OrderedIsNotOvertaken(log: seq<millis>, now: millis)
    requires Ordered(log) && UpTo(log, now)
    ensures !Overtaken(log, Oldest(now), SlotOf(now))
  {
    forall i: nat, j: nat
      ensures !OvertakenBy(log, Oldest(now), SlotOf(now), i, j)
    {
      if OvertakenBy(log, Oldest(now), SlotOf(now), i, j) {
        DivMono(log[i], log[j], SLOT_MS);
        DivMono(log[j], now, SLOT_MS);
        SameResidue(SlotOf(log[i]), SlotOf(log[j]), Oldest(now));
        assert false;
      }
    }
  }

  // ---- the ring ----

  class Meter {
    const slot: array<nat>
    const count: array<nat>

    ghost predicate Valid() {
      slot.Length == count.Length == SLOTS && slot != count
    }

    /** Each bucket holds its last slot, and how many records it got since it last changed slots. */
    ghost predicate Refines(log: seq<millis>)
      requires Valid()
      reads slot, count
    {
      forall b :: 0 <= b < SLOTS ==> slot[b] == LastSlot(log, b) && count[b] == BucketCount(log, b)
    }

    constructor ()
      ensures Valid() && fresh(slot) && fresh(count) && Refines([])
    {
      slot := new nat[SLOTS](_ => UNSET);
      count := new nat[SLOTS](_ => 0);
    }

    /** One atomic record: with nobody else writing, claiming a stale bucket succeeds at once. */
    method Record(now: millis, ghost log: seq<millis>)
      requires Valid() && Refines(log)
      modifies slot, count
      ensures Refines(log + [now])
    {
      var s := now / SLOT_MS;
      var b := s % SLOTS;
      forall k | 0 <= k < SLOTS
        ensures LastSlot(log + [now], k) == (if s % SLOTS == k then s else LastSlot(log, k))
        ensures BucketCount(log + [now], k) ==
                (if s % SLOTS != k then BucketCount(log, k)
                 else if LastSlot(log, k) == s then BucketCount(log, k) + 1 else 1)
      {
        BucketAfter(log, now, k);
      }
      if slot[b] == s {
        count[b] := count[b] + 1;
      } else {
        slot[b] := s;
        count[b] := 1;
      }
    }

    /** The reading: buckets whose slot lies within the last ten. */
    method CurrentRps(now: millis, ghost log: seq<millis>) returns (sum: nat)
      requires Valid() && Refines(log)
      ensures sum <= InSlots(log, Oldest(now), SlotOf(now), 0, SLOTS)
      ensures sum == InSlots(log, Oldest(now), SlotOf(now), 0, SLOTS) <==> !Overtaken(log, Oldest(now), SlotOf(now))
      ensures sum == Reading(log, Oldest(now), SlotOf(now), SLOTS)
    {
      var s := now / SLOT_MS;
      var oldest := if s < SLOTS - 1 then 0 else s - (SLOTS - 1);
      sum := 0;
      for b := 0 to SLOTS
        invariant sum == Reading(log, oldest, s, b)
      {
        if slot[b] != UNSET && oldest <= slot[b] <= s {
          sum := sum + count[b];
        }
      }
      ReadingIffNotOvertaken(log, oldest, s);
    }
  }

  // ---- what the reading means in milliseconds ----

  /** Records younger than `age`. */
  function Recent(log: seq<millis>, now: millis, age: nat): nat {
    if log == [] then 0 else Recent(log[..|log| - 1], now, age) + if now < log[|log| - 1] + age then 1 else 0
  }

  lemma Ages(t: millis, now: millis)
    requires t <= now
    ensures Oldest(now) <= SlotOf(t) <= SlotOf(now) <==> now < t + 901 + now % SLOT_MS
  {
  }

  lemma {:induction false} SlotsByAge(log: seq<millis>, now: millis)
    requires UpTo(log, now)
    ensures InSlots(log, Oldest(now), SlotOf(now), 0, SLOTS) == Recent(log, now, 901 + now % SLOT_MS)
    ensures Recent(log, now, 901) <= Recent(log, now, 901 + now % SLOT_MS) <= Recent(log, now, 1000)
  {
    if log != [] {
      SlotsByAge(log[..|log| - 1], now);
      Ages(log[|log| - 1], now);
    }
  }

  /** With records in order a reading counts exactly those of the last 900 ms plus the part of the
      current slot that has passed, so it lies between the counts for the last 900 and 1000 ms. */
  lemma ReadingBetween(log: seq<millis>, now: millis)
    requires Ordered(log) && UpTo(log, now)
    ensures var reading := Reading(log, Oldest(now), SlotOf(now), SLOTS);
            && reading == Recent(log, now, 901 + now % SLOT_MS)
            && Recent(log, now, 901) <= reading <= Recent(log, now, 1000)
  {
    OrderedIsNotOvertaken(log, now);
    ReadingIffNotOvertaken(log, Oldest(now), SlotOf(now));
    SlotsByAge(log, now);
  }

  // ---- what is counted, record by record ----

  /** Records at least lo and less than hi + 1 slots of a tenth of a second into the run. */
  ghost function Within(log: seq<millis>, lo: nat, hi: nat): nat -> bool {
    (i: nat) => i < |log| && 100 * lo <= log[i] < 100 * (hi + 1)
  }

  /** Records less than `age` milliseconds before now. */
  ghost function Younger(log: seq<millis>, now: millis, age: nat): nat -> bool {
    (i: nat) => i < |log| && now - log[i] < age
  }

  lemma SlotIsWithin(t: millis, lo: nat, hi: nat)
    ensures lo <= SlotOf(t) <= hi <==> 100 * lo <= t < 100 * (hi + 1)
  {
  }

  lemma {:induction false} InSlotsCounts(log: seq<millis>, lo: nat, hi: nat, k: nat)
    requires k <= |log|
    ensures InSlots(log[..k], lo, hi, 0, SLOTS) == HowMany(k, Within(log, lo, hi))
  {
    if k == 0 {
      NoneOfNone(Within(log, lo, hi));
    } else {
      InSlotsCounts(log, lo, hi, k - 1);
      OneMore(k - 1, Within(log, lo, hi));
      PrefixMore(log, k - 1);
      SlotIsWithin(log[k - 1], lo, hi);
    }
  }

  lemma {:induction false} RecentCounts(log: seq<millis>, now: millis, age: nat, k: nat)
    requires k <= |log|
    ensures Recent(log[..k], now, age) == HowMany(k, Younger(log, now, age))
  {
    if k == 0 {
      NoneOfNone(Younger(log, now, age));
    } else {
      RecentCounts(log, now, age, k - 1);
      OneMore(k - 1, Younger(log, now, age));
      PrefixMore(log, k - 1);
    }
  }

  /** The two counts that readings are compared with, as numbers of records. */
  lemma CountsAreOfRecords(log: seq<millis>, now: millis, lo: nat, hi: nat, age: nat)
    ensures InSlots(log, lo, hi, 0, SLOTS) == HowMany(|log|, Within(log, lo, hi))
    ensures Recent(log, now, age) == HowMany(|log|, Younger(log, now, age))
  {
    WholePrefix(log);
    InSlotsCounts(log, lo, hi, |log|);
    RecentCounts(log, now, age, |log|);
  }
}
