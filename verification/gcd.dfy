/**
 * The greatest common divisor, as the `gcd` helpers of `p19/src/main.rs`, `p20/src/main.rs`
 * (inside `Slope::new`) and `p24/src/main.rs` compute it with Euclid's loop.
 */
module Divisibility {

  /** `d` divides `n`. */
  ghost predicate Divides(d: int, n: int)
  {
    exists k :: n == d * k
  }

  /** A common divisor of two numbers divides every sum of multiples of them. */
  lemma DividesSum(d: int, x: int, y: int, q: int)
    requires Divides(d, x) && Divides(d, y)
    ensures Divides(d, x + q * y)
  {
    var kx :| x == d * kx;
    var ky :| y == d * ky;
    assert x + q * y == d * (kx + q * ky);
  }

  /** A number divides `n` exactly when it divides `-n`. */
  lemma DividesNegation(d: int, n: int)
    ensures Divides(d, n) <==> Divides(d, -n)
  {
    if Divides(d, n) {
      var k :| n == d * k;
      assert -n == d * -k;
    }
    if Divides(d, -n) {
      var k :| -n == d * k;
      assert n == d * -k;
    }
  }

  /** A positive number times a nonzero one is at least as large in magnitude. */
  lemma MulMagnitude(d: int, c: int)
    requires d > 0
    ensures c == 0 ==> d * c == 0
    ensures c >= 1 ==> d * c >= d
    ensures c <= -1 ==> d * c <= -d
  {
    if c >= 1 {
      assert d * c == d + d * (c - 1);
    } else if c <= -1 {
      assert d * c == -d + d * (c + 1);
    }
  }

  /** The only positive divisor of a unit is 1. */
  lemma UnitDivisor(d: int, c: int)
    requires d > 0 && (d * c == 1 || d * c == -1)
    ensures d == 1
  {
    MulMagnitude(d, c);
  }

  /** Euclid's algorithm: the recursion that the loop of `gcd` unrolls. */
  function GcdOf(a: nat, b: nat): (g: nat)
    ensures g == 0 <==> a == 0 && b == 0
    decreases b
  {
    if b == 0 then a else GcdOf(b, a % b)
  }

  /** `g` divides `a` and `b`, and every common divisor of `a` and `b` divides `g`. */
  ghost predicate IsGcd(g: int, a: int, b: int)
  {
    Divides(g, a) && Divides(g, b) && forall d :: Divides(d, a) && Divides(d, b) ==> Divides(d, g)
  }

  /** What Euclid's algorithm computes is the greatest common divisor. */
  lemma {:induction false} GcdMeaning(a: nat, b: nat)
    ensures IsGcd(GcdOf(a, b), a, b)
    decreases b
  {
    if b == 0 {
      assert a == a * 1 && 0 == a * 0;
    } else {
      var q, r := a / b, a % b;
      GcdMeaning(b, r);
      var g := GcdOf(b, r);
      DivisionIdentity(a, b);
      DividesSum(g, r, b, q);
      forall d | Divides(d, a) && Divides(d, b)
        ensures Divides(d, g)
      {
        DividesSum(d, a, b, -q);
      }
    }
  }

  /** Quotient and remainder put the dividend back together. */
  lemma DivisionIdentity(a: int, b: int)
    requires b > 0
    ensures a == a % b + (a / b) * b && a % b == a + -(a / b) * b
  {
  }

  /** Euclidean division has only one quotient and one remainder. */
  lemma DivModUnique(n: int, m: int, q: int, r: int)
    requires m > 0 && 0 <= r < m && n == q * m + r
    ensures n / m == q && n % m == r
  {
    var q', r' := n / m, n % m;
    assert n == q' * m + r';
    assert (q' - q) * m == r - r';
    MulMagnitude(m, q' - q);
  }

  /** Multiplying both numbers multiplies their greatest common divisor. */
  lemma {:induction false} GcdScale(k: nat, a: nat, b: nat)
    requires k > 0
    ensures GcdOf(k * a, k * b) == k * GcdOf(a, b)
    decreases b
  {
    if b == 0 {
      assert k * b == 0;
    } else {
      assert k * b > 0;
      assert k * a == (a / b) * (k * b) + k * (a % b);
      assert 0 <= k * (a % b) < k * b;
      DivModUnique(k * a, k * b, a / b, k * (a % b));
      GcdScale(k, b, a % b);
    }
  }

  /** `gcd` in `p24/src/main.rs` (and the inner `gcd` of `Slope::new`): Euclid's loop. */
  method Gcd(a0: nat, b0: nat) returns (g: nat)
    ensures g == GcdOf(a0, b0)
    ensures IsGcd(g, a0, b0)
    ensures g == 0 <==> a0 == 0 && b0 == 0
  {
    var a, b := a0, b0;
    while b != 0
      invariant GcdOf(a, b) == GcdOf(a0, b0)
      decreases b
    {
      var t := b;
      b := a % b;
      a := t;
    }
    g := a;
    GcdMeaning(a0, b0);
  }
}
