/** Integer facts the solver does not find by itself: signs of products, divisibility, and
    Rust's truncating division and remainder. */
module Arith {

  function Abs(x: int): nat { if x < 0 then -x else x }

  lemma ProductNonNegative(a: int, b: int)
    requires a >= 0 && b >= 0
    ensures a * b >= 0
  {
  }

  lemma MulAtLeast(x: nat, y: nat)
    requires y >= 1
    ensures x * y >= x
  {
    var z: nat := y - 1;
    assert x * y == x * z + x;
  }

  lemma AbsMul(d: int, t: int)
    ensures Abs(d * t) == Abs(d) * Abs(t)
  {
    if d < 0 && t < 0 {
      assert d * t == (-d) * (-t);
    } else if d < 0 {
      assert d * t == -((-d) * t);
    } else if t < 0 {
      assert d * t == -(d * (-t));
    }
  }

  /** A non-zero multiple is at least as large as its factor. */
  lemma MulAbs(d: int, t: int)
    ensures t != 0 ==> Abs(d * t) >= Abs(d)
  {
    AbsMul(d, t);
    if t != 0 {
      MulAtLeast(Abs(d), Abs(t));
    }
  }

  /** `d` divides `x`; only 0 is a multiple of 0. */
  predicate Divides(d: int, x: int)
  {
    if d == 0 then x == 0 else x % d == 0
  }

  lemma ModOfMultiple(d: int, k: int)
    requires d != 0
    ensures (d * k) % d == 0
  {
    var m := d * k;
    var t := k - m / d;
    assert m % d == d * t;
    MulAbs(d, t);
  }

  /** `d` divides every multiple of itself. */
  lemma DividesMultiple(d: int, k: int)
    ensures Divides(d, d * k)
  {
    if d != 0 {
      ModOfMultiple(d, k);
    }
  }

  /** A multiple of a non-zero `d` is `d` times its quotient. */
  lemma DividesQuotient(d: int, x: int)
    requires d != 0 && Divides(d, x)
    ensures x == d * (x / d)
  {
  }

  /** A common divisor of `b` and `r` divides `b * q + r`. */
  lemma DividesCombination(g: int, b: int, q: int, r: int)
    requires Divides(g, b) && Divides(g, r)
    ensures Divides(g, b * q + r)
  {
    if g != 0 {
      var bb := b / g;
      var rr := r / g;
      DividesQuotient(g, b);
      DividesQuotient(g, r);
      assert b * q + r == g * (bb * q + rr);
      ModOfMultiple(g, bb * q + rr);
    }
  }

  lemma DividesTransitive(a: int, b: int, c: int)
    requires Divides(a, b) && Divides(b, c)
    ensures Divides(a, c)
  {
    if a != 0 && b != 0 {
      DividesQuotient(a, b);
      DividesQuotient(b, c);
      assert c == a * ((b / a) * (c / b));
      ModOfMultiple(a, (b / a) * (c / b));
    }
  }

  /** Rust's `/` on integers: the quotient rounded toward zero. */
  function Quot(a: int, b: int): int
    requires b != 0
  {
    if a >= 0 then a / b else -((-a) / b)
  }

  /** Rust's `%` on integers: the remainder takes the sign of the dividend. */
  function Rem(a: int, b: int): int
    requires b != 0
  {
    if a >= 0 then a % b else -((-a) % b)
  }

  /** The quotient and remainder rebuild the dividend, and the remainder is smaller than the
      divisor. */
  lemma QuotRem(a: int, b: int)
    requires b != 0
    ensures a == b * Quot(a, b) + Rem(a, b)
    ensures Abs(Rem(a, b)) < Abs(b)
    ensures a >= 0 ==> Rem(a, b) >= 0
  {
    if a < 0 {
      assert -a == b * ((-a) / b) + (-a) % b;
    }
  }

  /** A divisor of the dividend leaves no remainder, and then the quotient is exact. */
  lemma QuotExact(a: int, b: int)
    requires b != 0 && Divides(b, a)
    ensures Rem(a, b) == 0 && a == b * Quot(a, b)
  {
    QuotRem(a, b);
    if a < 0 {
      DividesQuotient(b, a);
      assert -a == b * (-(a / b));
      ModOfMultiple(b, -(a / b));
    }
  }

  /** The remainder is determined by any quotient-remainder decomposition. */
  lemma ModUnique(a: int, n: int, q: int, r: int)
    requires n > 0 && a == n * q + r && 0 <= r < n
    ensures a % n == r && a / n == q
  {
    var t := q - a / n;
    assert n * t == a % n - r;
    MulAbs(n, t);
  }

  /** Dividing `a` by a common divisor `g` and multiplying by `b` is `a` times `b / g`. */
  lemma QuotTimes(a: int, b: int, g: int)
    requires g != 0 && Divides(g, a) && Divides(g, b)
    ensures Quot(a, g) * b == a * (b / g)
  {
    QuotExact(a, g);
    DividesQuotient(g, b);
    var q := Quot(a, g);
    var m := b / g;
    assert q * b == q * (g * m);
    assert q * (g * m) == (g * q) * m;
  }

  /** A positive number times a non-positive one is not positive. */
  lemma PositiveCofactor(g: int, q: int)
    requires g > 0
    ensures q <= 0 ==> g * q <= 0
  {
    if q <= 0 {
      ProductNonNegative(g, -q);
      assert g * q == -(g * -q);
    }
  }

  lemma PositiveProduct(a: int, b: int)
    requires a > 0 && b > 0
    ensures a * b > 0
  {
    MulAtLeast(a, b);
  }
}
