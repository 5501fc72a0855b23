/** The ramp timetable inverts the cumulative count N(t) = R*t^2 / (2*D). */
module RampSchedule {
  import opened Arithmetic
  import opened Scheduler

  /** Slot n is at or before t exactly when 2*D*n < R*(t+1)^2. */
  lemma RampSlotBefore(d: nat, r: Rate, n: nat, t: nat)
    ensures Slot(Ramp(d, r), n) <= t <==> 2 * d * n * r.den < (t + 1) * (t + 1) * r.num
  {
    var x := 2 * d * n * r.den;
    ISqrtGalois(x / r.num, t);
    DivGalois(x, r.num, (t + 1) * (t + 1));
  }

  /** Number of slots at or before t: the least n whose slot lies after t. */
  function SlotsBy(d: pos, r: Rate, t: nat): nat {
    CeilDiv((t + 1) * (t + 1) * r.num, 2 * d * r.den)
  }

  lemma Regroup(n: nat, d: nat, m: nat)
    ensures n * (2 * d * m) == 2 * d * n * m
  {
    assert n * (2 * d * m) == (n * (2 * d)) * m;
    assert n * (2 * d) == 2 * d * n;
  }

  lemma SlotsByCounts(d: pos, r: Rate, n: nat, t: nat)
    ensures Slot(Ramp(d, r), n) <= t <==> n < SlotsBy(d, r, t)
  {
    RampSlotBefore(d, r, n, t);
    CeilGalois((t + 1) * (t + 1) * r.num, 2 * d * r.den, n);
    Regroup(n, d, r.den);
  }

  /** The count of slots by time t brackets the integral: R*t^2 <= 2*D*count and
      2*D*(count - 1) < R*(t+1)^2. */
  lemma SlotsByMatchesIntegral(d: pos, r: Rate, t: nat)
    ensures t * t * r.num <= SlotsBy(d, r, t) * (2 * d * r.den)
    ensures SlotsBy(d, r, t) * (2 * d * r.den) < (t + 1) * (t + 1) * r.num + 2 * d * r.den
  {
    var c := SlotsBy(d, r, t);
    var target := (t + 1) * (t + 1) * r.num;
    CeilBelowNext(target, 2 * d * r.den);
    CeilGalois(target, 2 * d * r.den, c);
    SquareMono(t, t + 1);
    MulMono(t * t, (t + 1) * (t + 1), r.num);
  }

  lemma SquareOfSum(a: int, c: int)
    ensures (a + c) * (a + c) == a * a + 2 * (a * c) + c * c
  {
    assert (a + c) * (a + c) == a * (a + c) + c * (a + c);
  }

  lemma SquareNotNegative(a: int)
    ensures a * a >= 0
  {
  }

  lemma SumOfSquares(a: int, c: int)
    ensures (a + c) * (a + c) <= 2 * (a * a) + 2 * (c * c)
  {
    SquareOfSum(a, c);
    SquareOfSum(a, -c);
    SquareNotNegative(a - c);
    assert a * (-c) == -(a * c) && (-c) * (-c) == c * c;
  }

  /** If a^2 and c^2 average below (b+1)^2 then a + c is below 2*(b+1). */
  lemma MeanOfSquares(a: nat, b: nat, c: nat)
    requires a + c >= 2 * b + 2
    ensures a * a + c * c >= 2 * ((b + 1) * (b + 1))
  {
    var m := b + 1;
    SquareMono(2 * m, a + c);
    SumOfSquares(a, c);
    assert (2 * m) * (2 * m) == 4 * (m * m);
  }

  lemma ScaledSum(p: nat, q: nat, t: nat, m: pos)
    requires 2 * q <= p + t
    ensures 2 * (q * m) <= p * m + t * m
  {
    MulMono(2 * q, p + t, m);
    assert (p + t) * m == p * m + t * m;
    assert (2 * q) * m == 2 * (q * m);
  }

  lemma RootScaled(x: nat, m: pos, y: nat)
    requires y * m <= x < (y + 1) * m
    ensures ISqrt(y) * ISqrt(y) * m <= x < (ISqrt(y) + 1) * (ISqrt(y) + 1) * m
  {
    ISqrtRange(y);
    MulMono(ISqrt(y) * ISqrt(y), y, m);
    MulMono(y + 1, (ISqrt(y) + 1) * (ISqrt(y) + 1), m);
  }

  lemma ConcaveArithmetic(x0: nat, x1: nat, x2: nat, a: nat, b: nat, c: nat, m: pos)
    requires x0 + x2 == 2 * x1
    requires a * a * m <= x0 && c * c * m <= x2 && x1 < (b + 1) * (b + 1) * m
    ensures a + c <= 2 * b + 1
  {
    if a + c >= 2 * b + 2 {
      MeanOfSquares(a, b, c);
      ScaledSum(a * a, (b + 1) * (b + 1), c * c, m);
      assert false;
    }
  }

  /** Square roots of three equally spaced values: the second gap exceeds the first by at most one. */
  lemma RootsAreConcave(x0: nat, x1: nat, x2: nat, m: pos, y0: nat, y1: nat, y2: nat)
    requires x0 + x2 == 2 * x1
    requires y0 * m <= x0 < (y0 + 1) * m && y1 * m <= x1 < (y1 + 1) * m && y2 * m <= x2 < (y2 + 1) * m
    ensures ISqrt(y0) + ISqrt(y2) <= 2 * ISqrt(y1) + 1
  {
    RootScaled(x0, m, y0);
    RootScaled(x1, m, y1);
    RootScaled(x2, m, y2);
    ConcaveArithmetic(x0, x1, x2, ISqrt(y0), ISqrt(y1), ISqrt(y2), m);
  }

  /** The arguments of three successive slots are equally spaced. */
  lemma EquallySpaced(k: nat, n: nat, m: nat)
    ensures k * n * m + k * (n + 2) * m == 2 * (k * (n + 1) * m)
  {
    assert k * n + k * (n + 2) == 2 * (k * (n + 1));
    assert (k * n) * m + (k * (n + 2)) * m == (k * n + k * (n + 2)) * m;
  }

  /** Successive gaps never grow by more than one microsecond. */
  lemma GapsNeverGrow(d: nat, r: Rate, n: nat)
    ensures var s := Ramp(d, r);
            (Slot(s, n + 2) - Slot(s, n + 1)) <= (Slot(s, n + 1) - Slot(s, n)) + 1
  {
    var x0, x1, x2 := 2 * d * n * r.den, 2 * d * (n + 1) * r.den, 2 * d * (n + 2) * r.den;
    EquallySpaced(2 * d, n, r.den);
    DivRange(x0, r.num);
    DivRange(x1, r.num);
    DivRange(x2, r.num);
    RootsAreConcave(x0, x1, x2, r.num, x0 / r.num, x1 / r.num, x2 / r.num);
  }
}
