/** Floor division by a positive number: the facts the shift-and-add hardware needs. */
module Arith {

  /** Floor division; Dafny's `/` rounds down for a positive divisor. */
  function Floor(a: int, p: int): int
    requires p >= 1
  {
    a / p
  }

  lemma MulUp(p: int, a: int, b: int)
    requires p >= 0 && a <= b
    ensures p * a <= p * b
  {
    assert p * b - p * a == p * (b - a);
  }

  lemma DivUnique(v: int, p: int, q: int, r: int)
    requires v == p * q + r && 0 <= r < p
    ensures v / p == q
  {
    var d := v / p - q;
    assert p * d == p * (v / p) - p * q == r - v % p;
    if d >= 1 {
      MulUp(p, 1, d);
    } else if d <= -1 {
      MulUp(p, d, -1);
    }
  }

  lemma FloorMono(a: int, b: int, p: int)
    requires p >= 1 && a <= b
    ensures Floor(a, p) <= Floor(b, p)
  {
    var d := b / p - a / p;
    assert p * d == p * (b / p) - p * (a / p) == b - b % p - (a - a % p);
    if d <= -1 {
      MulUp(p, d, -1);
    }
  }

  lemma FloorNonNeg(a: int, p: int)
    requires p >= 1 && a >= 0
    ensures 0 <= Floor(a, p) <= a
  {
    DivUnique(0, p, 0, 0);
    FloorMono(0, a, p);
    MulUp(a / p, 1, p);
  }

  lemma FloorNegative(a: int, p: int)
    requires p >= 1 && a < 0
    ensures Floor(a, p) <= -1
  {
    DivUnique(-1, p, -1, p - 1);
    FloorMono(a, -1, p);
  }

  lemma FloorTwice(v: int, p: int)
    requires p >= 1
    ensures 2 * Floor(v, 2 * p) <= Floor(v, p) <= 2 * Floor(v, 2 * p) + 1
  {
    var q, r := v / (2 * p), v % (2 * p);
    assert v == (2 * p) * q + r;
    assert (2 * p) * q == p * (2 * q);
    if r < p {
      DivUnique(v, p, 2 * q, r);
    } else {
      assert p * (2 * q + 1) == p * (2 * q) + p;
      DivUnique(v, p, 2 * q + 1, r - p);
    }
  }

  /** A floor of a negated value is the negated ceiling. */
  lemma FloorNegated(a: int, p: int)
    requires p >= 1
    ensures Floor(a, p) <= -Floor(-a, p) <= Floor(a, p) + 1
  {
    var q := a / p;
    if a % p == 0 {
      assert p * -q == -(p * q);
      DivUnique(-a, p, -q, 0);
    } else {
      assert p * (-q - 1) == -(p * q) - p;
      DivUnique(-a, p, -q - 1, p - a % p);
    }
  }

  /** The remainder of a floor division, as a fraction of the divisor. */
  lemma FloorReal(a: int, p: int)
    requires p >= 1
    ensures 0.0 <= a as real / p as real - Floor(a, p) as real < 1.0
  {
    var q, r := a / p, a % p;
    assert a as real == p as real * q as real + r as real by {
      assert a == p * q + r;
      assert (p * q) as real == p as real * q as real;
    }
    assert a as real / p as real == q as real + r as real / p as real;
  }

  // ---- products of reals ----

  lemma RealMono(a: real, b: real, c: real)
    requires a <= b && c >= 0.0
    ensures a * c <= b * c
  {
    assert (b - a) * c >= 0.0;
  }

  lemma DivStep(n: int, d: int)
    requires d > 1 && n > 0
    ensures (n - 1) % d == d - 1 ==> n % d == 0 && n / d == (n - 1) / d + 1
    ensures (n - 1) % d != d - 1 ==> n % d == (n - 1) % d + 1 && n / d == (n - 1) / d
  {
    var q, r := (n - 1) / d, (n - 1) % d;
    assert n == q * d + r + 1;
    if r == d - 1 {
      assert n == (q + 1) * d by { assert (q + 1) * d == q * d + d; }
      DivUnique(n, d, q + 1, 0);
    } else {
      DivUnique(n, d, q, r + 1);
    }
  }

  /** The signed value of the low bits of x, as many as 2 * half counts. */
  function Wrap(x: int, half: int): (r: int)
    requires half >= 1
    ensures -half <= r < half
    ensures -half <= x < half ==> r == x
  {
    WrapSmall(x, half);
    (x + half) % (2 * half) - half
  }

  lemma WrapSmall(x: int, half: int)
    requires half >= 1
    ensures -half <= x < half ==> (x + half) % (2 * half) == x + half
  {
    if -half <= x < half {
      DivUnique(x + half, 2 * half, 0, x + half);
    }
  }

  lemma WrapFits(x: int, half: int)
    requires half >= 1 && -half <= x < half
    ensures Wrap(x, half) == x
  {
  }

  lemma WrapAgain(x: int, y: int, half: int)
    requires half >= 1
    ensures Wrap(Wrap(x, half) + y, half) == Wrap(x + y, half)
  {
    var m := 2 * half;
    var q, r := (x + half) / m, (x + half) % m;
    var p, s := (r + y) / m, (r + y) % m;
    assert x + half == m * q + r && r + y == m * p + s;
    assert m * (q + p) == m * q + m * p;
    assert x + y + half == m * (q + p) + s;
    DivUnique(x + y + half, m, q + p, s);
  }
}
