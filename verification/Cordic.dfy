/** The rectangular-to-polar CORDIC of seqpolar.v as a pure 33-step fold: convergence, width,
    length and phase. Right shifts of signed words are floors of division by a power of two. */
module Cordic {
  import opened Words
  import opened Arith

  const STAGES: nat := 33            // NSTAGES
  const IN_LIMIT: int := 0x1000_0000 // 2^28: inputs are 29-bit signed words
  const WIDE: int := 0x4_0000_0000   // 2^34: working registers are 35-bit signed words
  const TURN: int := 0x10_0000_0000  // 2^36 phase units are one turn

  /** cordic_angle, entries 0..36. */
  const ANGLES: seq<nat> := [
    0x12e4051da, 0x09fb385b5, 0x051111d41, 0x028b0d430, 0x0145d7e15, 0x00a2f61e5, 0x00517c551,
    0x0028be534, 0x00145f2eb, 0x000a2f980, 0x000517cc1, 0x00028be60, 0x000145f30, 0x0000a2f98,
    0x0000517cc, 0x000028be6, 0x0000145f3, 0x00000a2f9, 0x00000517c, 0x0000028be, 0x00000145f,
    0x000000a2f, 0x000000517, 0x00000028b, 0x000000145, 0x0000000a2, 0x000000051, 0x000000028,
    0x000000014, 0x00000000a, 0x000000005, 0x000000002, 0x000000001, 0, 0, 0, 0]

  function Angle(i: nat): nat {
    if i < |ANGLES| then ANGLES[i] else 0
  }

  function Pow2(k: nat): (p: nat)
    ensures p >= 1
  {
    if k == 0 then 1 else 2 * Pow2(k - 1)
  }

  /** The arithmetic right shift `v >>> k`. */
  function Asr(v: int, k: nat): int {
    Floor(v, Pow2(k))
  }

  datatype Vec = Vec(x: int, y: int, ph: int)

  /** A 36-bit phase word. */
  function Phase(p: int): int {
    p % TURN
  }

  predicate Input(x: int, y: int) {
    -IN_LIMIT <= x < IN_LIMIT && -IN_LIMIT <= y < IN_LIMIT
  }

  /** The first stage: widen by four bits and turn into the half plane around the x axis. */
  function Pre(x: int, y: int): Vec {
    var ex, ey := 16 * x, 16 * y;
    if x >= 0 && y < 0 then Vec(ex - ey, ex + ey, 0xe_0000_0000)
    else if x < 0 && y >= 0 then Vec(-ex + ey, -ex - ey, 0x6_0000_0000)
    else if x < 0 && y < 0 then Vec(-ex - ey, ex - ey, 0xa_0000_0000)
    else Vec(ex + ey, -ex + ey, 0x2_0000_0000)
  }

  /** One rotation by `angle` with shift `k`, towards the x axis. */
  function Rotate(v: Vec, k: nat, angle: nat): Vec {
    if v.y < 0 then Vec(v.x - Asr(v.y, k), v.y + Asr(v.x, k), Phase(v.ph - angle))
    else Vec(v.x + Asr(v.y, k), v.y - Asr(v.x, k), Phase(v.ph + angle))
  }

  /** The vector after rotations 1..n; rotation k shifts by k and turns by angle k-1. */
  function Fold(v: Vec, n: nat): Vec {
    if n == 0 then v else Rotate(Fold(v, n - 1), n, Angle(n - 1))
  }

  lemma FoldUnfold(v: Vec, n: nat)
    requires n >= 1
    ensures Fold(v, n) == Rotate(Fold(v, n - 1), n, Angle(n - 1))
  {
  }

  // ---- convergence and width ----

  /** y lies within floor(x / 2^n) + n of the axis. */
  predicate Near(v: Vec, n: nat) {
    v.x >= 0 && Abs(v.y) <= Asr(v.x, n) + n
  }

  lemma StageUp(x: int, y: int, h: int, n: nat)
    requires h >= 1 && n >= 1 && 0 <= x && 0 <= y <= Floor(x, h) + n - 1
    ensures var p := 2 * h; var x', y' := x + Floor(y, p), y - Floor(x, p);
            x <= x' <= x + Floor(Floor(x, h) + n - 1, p) + 1 && Abs(y') <= Floor(x', p) + n
  {
    hide Floor;
    var p := 2 * h;
    FloorTwice(x, h);
    FloorNonNeg(x, p);
    FloorNonNeg(y, p);
    FloorMono(y, Floor(x, h) + n - 1, p);
    FloorMono(x, x + Floor(y, p), p);
  }

  lemma StageDown(x: int, y: int, h: int, n: nat)
    requires h >= 1 && n >= 1 && 0 <= x && -(Floor(x, h) + n - 1) <= y < 0
    ensures var p := 2 * h; var x', y' := x - Floor(y, p), y + Floor(x, p);
            x <= x' <= x + Floor(Floor(x, h) + n - 1, p) + 1 && Abs(y') <= Floor(x', p) + n
  {
    hide Floor;
    var p := 2 * h;
    FloorTwice(x, h);
    FloorNonNeg(x, p);
    FloorNegative(y, p);
    FloorMono(-(Floor(x, h) + n - 1), y, p);
    FloorNegated(Floor(x, h) + n - 1, p);
    FloorMono(x, x - Floor(y, p), p);
  }

  lemma RotateConverges(v: Vec, n: nat)
    requires n >= 1 && Near(v, n - 1)
    ensures var w := Rotate(v, n, Angle(n - 1));
            Near(w, n) && v.x <= w.x <= v.x + Asr(Asr(v.x, n - 1) + n - 1, n) + 1
  {
    hide Floor, Angle;
    if v.y >= 0 {
      StageUp(v.x, v.y, Pow2(n - 1), n);
    } else {
      StageDown(v.x, v.y, Pow2(n - 1), n);
    }
  }

  /** After every number of rotations y is within floor(x / 2^n) + n of the axis and x has not
      decreased. */
  lemma {:induction false} FoldConverges(v: Vec, n: nat)
    requires Near(v, 0)
    ensures Near(Fold(v, n), n) && v.x <= Fold(v, n).x
    ensures n >= 1 ==> Fold(v, n - 1).x <= Fold(v, n).x
  {
    if n > 0 {
      FoldConverges(v, n - 1);
      RotateConverges(Fold(v, n - 1), n);
    }
  }

  lemma {:induction false} FoldGrows(v: Vec, n: nat, m: nat)
    requires Near(v, 0) && n <= m
    ensures Fold(v, n).x <= Fold(v, m).x
    decreases m - n
  {
    if n < m {
      FoldConverges(v, n + 1);
      FoldGrows(v, n + 1, m);
    }
  }

  // ---- how far x can grow ----

  /** 2^-n and 4^-n. */
  function Half(n: nat): (h: real)
    ensures 0.0 < h <= 1.0
  {
    if n == 0 then 1.0 else Half(n - 1) / 2.0
  }

  function Quarter(n: nat): (q: real)
    ensures 0.0 < q <= 1.0
  {
    if n == 0 then 1.0 else Quarter(n - 1) / 4.0
  }

  lemma {:induction false} HalfFacts(n: nat)
    ensures Pow2(n) as real * Half(n) == 1.0
    ensures Half(n) * Half(n) == Quarter(n)
    ensures n >= 1 ==> Half(n - 1) * Half(n) == 2.0 * Quarter(n) && Half(n) <= 0.5
  {
    if n >= 1 {
      HalfUnfold(n);
      HalfFacts(n - 1);
      hide Pow2, Half, Quarter;
      Halve(Pow2(n - 1) as real, Half(n - 1));
    }
  }

  lemma HalfUnfold(n: nat)
    requires n >= 1
    ensures Pow2(n) as real == 2.0 * Pow2(n - 1) as real
    ensures Half(n) == Half(n - 1) / 2.0 && Quarter(n) == Quarter(n - 1) / 4.0 && Half(n) <= 0.5
  {
  }

  lemma Halve(p: real, h: real)
    ensures (2.0 * p) * (h / 2.0) == p * h
    ensures (h / 2.0) * (h / 2.0) == (h * h) / 4.0
    ensures h * (h / 2.0) == (h * h) / 2.0
  {
  }

  lemma {:induction false} LinearHalf(n: nat)
    ensures n as real * Half(n) <= 0.5
  {
    if n == 1 {
      assert Half(1) == 0.5;
    } else if n > 1 {
      LinearHalf(n - 1);
      var h := Half(n - 1);
      assert n as real * (h / 2.0) == (n as real * h) / 2.0;
      RealMono(n as real, 2.0 * (n - 1) as real, h);
      assert (2.0 * (n - 1) as real) * h == 2.0 * ((n - 1) as real * h);
    }
  }

  lemma DivByHalf(a: real, p: real, h: real)
    requires p > 0.0 && p * h == 1.0
    ensures a / p == a * h
  {
    assert (a * h) * p == a * (p * h);
  }

  lemma AsrReal(a: int, n: nat)
    ensures Asr(a, n) as real <= a as real * Half(n) < Asr(a, n) as real + 1.0
  {
    hide Floor, Pow2, Half;
    HalfFacts(n);
    FloorReal(a, Pow2(n));
    DivByHalf(a as real, Pow2(n) as real, Half(n));
  }

  /** The product of 1 + 2 * 4^-k over rotations 1..n. */
  function Spread(n: nat): (c: real)
    ensures c >= 1.0
  {
    if n == 0 then 1.0 else
      RealMono(1.0, Spread(n - 1), 1.0 + 2.0 * Quarter(n));
      Spread(n - 1) * (1.0 + 2.0 * Quarter(n))
  }

  /** c (1 + 2u) <= k - d u when c <= k - 4 d u and 3 d >= 2 k. */
  lemma SpreadTail(c: real, k: real, d: real, u: real)
    requires 0.0 <= u && 0.0 <= d && c <= k - 4.0 * d * u && 3.0 * d == 2.0 * k
    ensures c * (1.0 + 2.0 * u) <= k - d * u
  {
    var b := k - 4.0 * d * u;
    RealMono(c, b, 1.0 + 2.0 * u);
    assert b * (1.0 + 2.0 * u) == k + 2.0 * (k * u) - 4.0 * (d * u) - 8.0 * (d * (u * u));
    assert d * (u * u) >= 0.0;
    assert 3.0 * (d * u) == 2.0 * (k * u);
  }

  lemma SpreadNumber(n: nat)
    ensures Spread(n) <= 1.759
  {
    SpreadBelow(n);
  }

  lemma {:induction false} SpreadBelow(n: nat)
    ensures Spread(n) <= if n >= 4 then 1.759 - 1.759 * 2.0 / 3.0 * Quarter(n) else 1.759
  {
    if n > 4 {
      SpreadBelow(n - 1);
      SpreadTail(Spread(n - 1), 1.759, 1.759 * 2.0 / 3.0, Quarter(n));
    } else {
      SpreadStart();
    }
  }

  lemma SpreadStart()
    ensures Spread(0) == 1.0 && Spread(1) == 1.5 && Spread(2) == 1.6875
    ensures Spread(3) == 1.740234375 && Spread(4) == 1.740234375 * 1.0078125
    ensures Quarter(4) == 0.00390625
  {
    assert Quarter(1) == 0.25;
    assert Quarter(2) == 0.0625;
    assert Quarter(3) == 0.015625;
  }

  lemma QuotientReal(x: real, a: real, q: real, m: real, hh: real, h: real, u: real)
    requires 0.0 <= h && a <= x * hh && q <= (a + m) * h && hh * h == 2.0 * u
    ensures q <= 2.0 * (x * u) + m * h
  {
    RealMono(a + m, x * hh + m, h);
    assert (x * hh) * h == x * (hh * h);
    assert (x * hh + m) * h == (x * hh) * h + m * h;
  }

  lemma SmallTerms(m: real, h: real, u: real)
    requires 0.0 <= m && 0.0 <= h <= 0.5 && h * h == u && (m + 1.0) * h <= 0.5
    ensures m * h <= 0.5 && m * u <= 0.25
  {
    assert (m + 1.0) * h == m * h + h;
    assert m * h <= 0.5;
    var t := m * h;
    RealMono(t, 0.5, h);
    assert t * h <= 0.25;
    assert m * u == t * h;
  }

  /** The next bound, in reals: hh and h are 2^-(n-1) and 2^-n, u is 4^-n, m is n - 1. */
  lemma GrowthReal(x: real, a: real, q: real, m: real, hh: real, h: real, u: real, s: real)
    requires 0.0 <= m && 0.0 <= u && 0.0 <= h <= 0.5 && x <= s + 3.0 * m
    requires a <= x * hh && q <= (a + m) * h && hh * h == 2.0 * u && h * h == u && (m + 1.0) * h <= 0.5
    ensures x + q + 1.0 <= s + 2.0 * (s * u) + 3.0 * (m + 1.0)
  {
    QuotientReal(x, a, q, m, hh, h, u);
    SmallTerms(m, h, u);
    RealMono(x, s + 3.0 * m, u);
    Distribute(s, 3.0 * m, u);
    assert (3.0 * m) * u == 3.0 * (m * u);
  }

  lemma Distribute(a: real, b: real, u: real)
    ensures (a + b) * u == a * u + b * u
  {
  }

  lemma SpreadStep(n: nat, start: real)
    requires n >= 1
    ensures Spread(n) * start == Spread(n - 1) * start + 2.0 * ((Spread(n - 1) * start) * Quarter(n))
  {
    var c, u := Spread(n - 1), Quarter(n);
    assert (c * (1.0 + 2.0 * u)) * start == c * start + 2.0 * ((c * start) * u);
  }

  lemma StageGrowth(x: int, n: nat, s: real)
    requires n >= 1 && x >= 0 && x as real <= s + 3.0 * (n - 1) as real
    ensures (x + Asr(Asr(x, n - 1) + n - 1, n) + 1) as real <= s + 2.0 * (s * Quarter(n)) + 3.0 * n as real
  {
    hide *;
    var a, m := Asr(x, n - 1), (n - 1) as real;
    HalfFacts(n);
    LinearHalf(n);
    AsrReal(x, n - 1);
    AsrReal(a + n - 1, n);
    var q := Asr(a + n - 1, n) as real;
    assert (a + n - 1) as real == a as real + m && n as real == m + 1.0;
    GrowthReal(x as real, a as real, q, m, Half(n - 1), Half(n), Quarter(n), s);
  }

  lemma GrowthStep(x: int, n: nat, start: real)
    requires n >= 1 && x >= 0
    requires x as real <= Spread(n - 1) * start + 3.0 * (n - 1) as real
    ensures (x + Asr(Asr(x, n - 1) + n - 1, n) + 1) as real <= Spread(n) * start + 3.0 * n as real
  {
    hide *;
    StageGrowth(x, n, Spread(n - 1) * start);
    SpreadStep(n, start);
  }

  /** x grows by less than the product of 1 + 2 * 4^-k, that is by less than 1.759, up to three
      units a rotation. */
  lemma {:induction false} GrowthBound(v: Vec, n: nat)
    requires Near(v, 0)
    ensures Fold(v, n).x as real <= Spread(n) * v.x as real + 3.0 * n as real
  {
    hide Floor, Pow2, Angle, Asr, Spread, Rotate;
    if n > 0 {
      GrowthBound(v, n - 1);
      FoldConverges(v, n - 1);
      RotateConverges(Fold(v, n - 1), n);
      GrowthStep(Fold(v, n - 1).x, n, v.x as real);
    } else {
      SpreadStart();
    }
  }

  lemma Weaken(f: real, c: real, x: real, t: real)
    requires f <= c * x + t && c <= 1.759 && x >= 0.0
    ensures f <= 1.759 * x + t
  {
    RealMono(c, 1.759, x);
  }

  lemma NearX(v: Vec, n: nat)
    requires Near(v, n)
    ensures v.x >= 0
  {
  }

  lemma GrowthNumber(v: Vec, n: nat)
    requires Near(v, 0)
    ensures Fold(v, n).x as real <= 1.759 * v.x as real + 3.0 * n as real
  {
    hide *;
    NearX(v, 0);
    GrowthBound(v, n);
    SpreadNumber(n);
    Weaken(Fold(v, n).x as real, Spread(n), v.x as real, 3.0 * n as real);
  }

  lemma SquareSum(a: int, b: int)
    ensures (a + b) * (a + b) + (b - a) * (b - a) == 2 * (a * a + b * b)
    ensures (-a) * (-a) == a * a
  {
  }

  lemma Scaled(a: int)
    ensures (16 * a) * (16 * a) == 256 * (a * a)
  {
  }

  lemma PreLength(x: int, y: int)
    ensures var v := Pre(x, y); v.x * v.x + v.y * v.y == 512 * (x * x + y * y)
  {
    SquareSum(16 * x, 16 * y);
    SquareSum(-16 * x, 16 * y);
    SquareSum(16 * x, -16 * y);
    SquareSum(-16 * x, -16 * y);
    SquareSum(16 * y, 0);
    Scaled(x);
    Scaled(y);
    Scaled(-x);
    Scaled(-y);
  }

  lemma PreFacts(x: int, y: int)
    requires Input(x, y)
    ensures var v := Pre(x, y);
            v.x == 16 * (Abs(x) + Abs(y)) <= 0x2_0000_0000 && Near(v, 0) && 0 <= v.ph < TURN
  {
  }

  /** A 35-bit signed register holds this value. */
  predicate Fits(v: int) {
    -WIDE <= v < WIDE
  }

  /** For every input, through all 33 rotations: x is non-negative and has never decreased, y
      is within floor(x / 2^n) + n of the axis, no adder leaves the 35-bit signed range, and in
      the end |y| is at most 34. */
  lemma ConvergenceAndWidth(x: int, y: int, n: nat)
    requires Input(x, y) && n <= STAGES
    ensures var v := Fold(Pre(x, y), n);
            && v.x >= 0 && Abs(v.y) <= Asr(v.x, n) + n
            && Fits(v.x) && Fits(v.y) && Fits(v.x + 256)
            && (n >= 1 ==> v.x >= Fold(Pre(x, y), n - 1).x)
            && (n == STAGES ==> Abs(v.y) <= 34)
  {
    PreFacts(x, y);
    FoldConverges(Pre(x, y), n);
    GrowthNumber(Pre(x, y), n);
    hide Fold, Pre;
    var v := Fold(Pre(x, y), n);
    assert v.x + 256 < WIDE;
    ShiftedBelow(v.x, n);
  }

  lemma ShiftedBelow(a: int, n: nat)
    requires 0 <= a < WIDE
    ensures 0 <= Asr(a, n) <= a
    ensures n == STAGES ==> Asr(a, n) <= 1
  {
    FloorNonNeg(a, Pow2(n));
    if n == STAGES {
      Pow2At33();
    }
  }

  lemma Pow2At33()
    ensures Pow2(33) == 0x2_0000_0000
  {
    assert Pow2(11) == 2048;
    assert Pow2(22) == 0x40_0000;
  }
}
