/** Floor division, its Galois characterisation, and an integer square root: the exact
    counterparts of the `f64 as u64` truncations the engine uses. */
module Arithmetic {
  type pos = x: int | 0 < x witness 1

  function Min(a: nat, b: nat): nat { if a <= b then a else b }

  function Max(a: nat, b: nat): nat { if a >= b then a else b }

  function CeilDiv(a: nat, b: pos): nat { (a + b - 1) / b }

  lemma DivRange(a: nat, b: pos)
    ensures 0 <= a / b
    ensures (a / b) * b <= a < (a / b + 1) * b
  {
    assert a == (a / b) * b + a % b;
  }

  lemma MulMono(a: nat, b: nat, c: nat)
    requires a <= b
    ensures a * c <= b * c
  {
    assert b * c - a * c == (b - a) * c;
  }

  /** `q <= floor(a/b)` exactly when `q*b <= a`. */
  lemma DivGalois(a: nat, b: pos, q: nat)
    ensures q <= a / b <==> q * b <= a
  {
    DivRange(a, b);
    var d := a / b;
    if q <= d {
      MulMono(q, d, b);
    } else {
      MulMono(d + 1, q, b);
    }
  }

  lemma MulStrict(a: nat, b: nat, c: pos)
    ensures a < b <==> a * c < b * c
  {
    if a < b {
      MulMono(a + 1, b, c);
    } else {
      MulMono(b, a, c);
    }
  }

  /** `n < ceil(a/b)` exactly when `n*b < a`. */
  lemma CeilGalois(a: nat, b: pos, n: nat)
    ensures n < CeilDiv(a, b) <==> n * b < a
  {
    DivGalois(a + b - 1, b, n + 1);
    assert (n + 1) * b == n * b + b;
  }

  lemma CeilBelowNext(a: nat, b: pos)
    ensures CeilDiv(a, b) * b < a + b
  {
    DivRange(a + b - 1, b);
  }

  lemma DivMono(a: nat, a': nat, b: pos)
    requires a <= a'
    ensures a / b <= a' / b
  {
    DivRange(a, b);
    DivGalois(a', b, a / b);
  }

  /** Floor division is superadditive. */
  lemma DivSuperadditive(x: nat, y: nat, b: pos)
    ensures x / b + y / b <= (x + y) / b
  {
    DivRange(x, b);
    DivRange(y, b);
    DivGalois(x + y, b, x / b + y / b);
    assert (x / b + y / b) * b == (x / b) * b + (y / b) * b;
  }

  /** Two quotients one step apart differ by at most the rounded-up step. */
  lemma DivStep(x: nat, step: nat, b: pos)
    ensures (x + step) / b <= x / b + CeilDiv(step, b)
  {
    DivRange(x, b);
    DivRange(step + b - 1, b);
    var p, c := x / b, CeilDiv(step, b);
    assert (p + 1) * b == p * b + b;
    assert (c + 1) * b == c * b + b;
    assert (p + c + 1) * b == (p + 1) * b + c * b;
    assert x + step < (p + c + 1) * b;
    DivGalois(x + step, b, p + c + 1);
  }

  /** Largest r with r*r <= x, the value of `sqrt(x) as u64` over exact reals. */
  function ISqrt(x: nat): nat {
    if x == 0 then 0
    else
      var r := ISqrt(x - 1);
      if (r + 1) * (r + 1) <= x then r + 1 else r
  }

  lemma {:induction false} ISqrtRange(x: nat)
    ensures ISqrt(x) * ISqrt(x) <= x < (ISqrt(x) + 1) * (ISqrt(x) + 1)
  {
    if x > 0 {
      var r := ISqrt(x - 1);
      ISqrtRange(x - 1);
      assert (r + 2) * (r + 2) == (r + 1) * (r + 1) + 2 * r + 3;
    }
  }

  lemma SquareMono(a: nat, b: nat)
    requires a <= b
    ensures a * a <= b * b
  {
    MulMono(a, b, a);
    MulMono(a, b, b);
  }

  /** `floor(sqrt(x)) <= t` exactly when `x < (t+1)^2`. */
  lemma ISqrtGalois(x: nat, t: nat)
    ensures ISqrt(x) <= t <==> x < (t + 1) * (t + 1)
  {
    var r := ISqrt(x);
    ISqrtRange(x);
    if r <= t {
      SquareMono(r + 1, t + 1);
    } else {
      SquareMono(t + 1, r);
    }
  }

  lemma ISqrtMono(x: nat, y: nat)
    requires x <= y
    ensures ISqrt(x) <= ISqrt(y)
  {
    ISqrtRange(y);
    ISqrtGalois(x, ISqrt(y));
  }
}
