/** Division with explicit rounding, and the few nonlinear facts the pricing theorems rest on. */
module Arithmetic {

  datatype Rounding = Floor | Ceil

  function Divide(n: int, d: int, rounding: Rounding): (q: int)
    requires d > 0
  {
    match rounding
    case Floor => n / d
    case Ceil => (n + d - 1) / d
  }

  lemma MulMono(a: int, b: int, c: int)
    requires a <= b && 0 <= c
    ensures a * c <= b * c
  {
  }

  lemma Distribute(a: int, b: int, c: int)
    ensures (a + b) * c == a * c + b * c
  {
  }

  lemma MulAssociates(a: int, b: int, c: int)
    ensures a * (b * c) == (a * b) * c == (a * c) * b
  {
  }

  lemma MulCancel(a: int, b: int, c: int)
    requires 0 < c && a * c <= b * c
    ensures a <= b
  {
    if b < a {
      MulMono(b + 1, a, c);
    }
  }

  lemma DivBounds(n: int, d: int)
    requires d > 0
    ensures (n / d) * d <= n < (n / d) * d + d
  {
  }

  /** A floor is at least s exactly when the numerator covers s whole denominators. */
  lemma FloorAtLeast(n: int, d: int, s: int)
    requires d > 0
    ensures Divide(n, d, Floor) >= s <==> n >= s * d
  {
    var q := n / d;
    DivBounds(n, d);
    if q >= s {
      MulMono(s, q, d);
    } else {
      MulMono(q + 1, s, d);
    }
  }

  function Pow(b: int, e: nat): (p: int) {
    if e == 0 then 1 else b * Pow(b, e - 1)
  }

  lemma {:induction false} PowPositive(b: int, e: nat)
    requires b > 0
    ensures Pow(b, e) > 0
  {
    if e > 0 {
      PowPositive(b, e - 1);
      MulMono(1, b, Pow(b, e - 1));
    }
  }

  lemma {:induction false} PowNonNegative(b: int, e: nat)
    requires b >= 0
    ensures Pow(b, e) >= 0
  {
    if e > 0 {
      PowNonNegative(b, e - 1);
      MulMono(0, b, Pow(b, e - 1));
    }
  }

  /** Fractions compare transitively: a/b <= c/d and c/d <= e/f give a/b <= e/f. */
  lemma RatioTransitive(a: int, b: int, c: int, d: int, e: int, f: int)
    requires b > 0 && d > 0 && f > 0
    requires a * d <= c * b && c * f <= e * d
    ensures a * f <= e * b
  {
    MulMono(a * d, c * b, f);
    MulMono(c * f, e * d, b);
    assert (a * f) * d == (a * d) * f;
    assert (c * b) * f == (c * f) * b;
    assert (e * d) * b == (e * b) * d;
    MulCancel(a * f, e * b, d);
  }

  /** A quotient against its exact fraction: from below or above, by less than one denominator. */
  predicate RoundsDown(q: int, n: int, d: int) {
    q * d <= n < q * d + d
  }

  predicate RoundsUp(q: int, n: int, d: int) {
    n <= q * d < n + d
  }

  lemma QuotientRounds(n: int, d: int)
    requires d > 0
    ensures RoundsDown(Divide(n, d, Floor), n, d)
    ensures RoundsUp(Divide(n, d, Ceil), n, d)
  {
    DivBounds(n, d);
    DivBounds(n + d - 1, d);
  }

  lemma MulLess(a: int, b: int, c: int)
    requires 0 < c && a * c < b * c
    ensures a < b
  {
    if b <= a {
      MulMono(b, a, c);
    }
  }

  /** Rounding down one way and up the other way are adjoint: b reaches s exactly when a reaches c. */
  lemma RoundingAdjunction(a: int, s: int, b: int, c: int, n: int, d: int)
    requires n > 0 && d > 0
    requires RoundsDown(b, a * n, d) && RoundsUp(c, s * d, n)
    ensures b >= s <==> a >= c
  {
    if b >= s {
      MulMono(s, b, d);
      assert (c - 1) * n == c * n - n;
      MulLess(c - 1, a, n);
    }
    if a >= c {
      MulMono(c, a, n);
      assert (b + 1) * d == b * d + d;
      MulLess(s, b + 1, d);
    }
  }

  /** What rounds up to burned is positive, and within held when the amount is within held's worth. */
  lemma BurnWithinHeld(assets: int, entitled: int, held: int, burned: int, n: int, d: int)
    requires n > 0 && d > 0 && 0 < assets <= entitled
    requires RoundsDown(entitled, held * d, n) && RoundsUp(burned, assets * n, d)
    ensures 0 < burned <= held
  {
    MulMono(assets, entitled, n);
    MulMono(1, assets, n);
    assert (burned - 1) * d == burned * d - d;
    MulLess(burned - 1, held, d);
    MulLess(0, burned, d);
  }

  /** A quotient rounded up is at most a exactly when a denominators cover the numerator. */
  lemma CeilingReaches(q: int, a: int, n: int, d: int)
    requires d > 0 && RoundsUp(q, n, d)
    ensures q <= a <==> n <= a * d
  {
    if q <= a {
      MulMono(q, a, d);
    } else {
      MulMono(a, q - 1, d);
      Distribute(q, -1, d);
    }
  }

  /** A quotient rounded down is at least a exactly when it covers a denominators. */
  lemma FloorReaches(q: int, a: int, n: int, d: int)
    requires d > 0 && RoundsDown(q, n, d)
    ensures a <= q <==> a * d <= n
  {
    if a <= q {
      MulMono(a, q, d);
    } else {
      MulMono(q + 1, a, d);
      Distribute(q, 1, d);
    }
  }
}
