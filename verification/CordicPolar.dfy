/** What the CORDIC of seqpolar.v computes: the length of the vector times a fixed gain, within
    two output units, and a phase that is the quadrant constant plus the signed table angles. */
module CordicPolar {
  import opened Words
  import opened Arith
  import opened Cordic

  function Prod(a: real, b: real): real {
    a * b
  }

  function Sq(a: real): real {
    a * a
  }

  /** a is at most e away from b. */
  predicate Within(a: real, b: real, e: real) {
    b - e <= a <= b + e
  }

  // ---- length ----

  /** The squared length of the vector. */
  function Length(v: Vec): real {
    Sq(v.x as real) + Sq(v.y as real)
  }

  /** The rotation of `Rotate` without rounding. */
  function ExactX(v: Vec, n: nat): real {
    if v.y < 0 then v.x as real - Prod(Half(n), v.y as real) else v.x as real + Prod(Half(n), v.y as real)
  }

  function ExactY(v: Vec, n: nat): real {
    if v.y < 0 then v.y as real + Prod(Half(n), v.x as real) else v.y as real - Prod(Half(n), v.x as real)
  }

  lemma TurnLength(x: real, y: real, t: real, u: real)
    requires t * t == u
    ensures Sq(x + Prod(t, y)) + Sq(y - Prod(t, x)) == Prod(1.0 + u, Sq(x) + Sq(y))
  {
    assert Sq(x + t * y) == x * x + 2.0 * (x * (t * y)) + (t * t) * (y * y);
    assert Sq(y - t * x) == y * y - 2.0 * (x * (t * y)) + (t * t) * (x * x);
  }

  lemma TurnBackLength(x: real, y: real, t: real, u: real)
    requires t * t == u
    ensures Sq(x - Prod(t, y)) + Sq(y + Prod(t, x)) == Prod(1.0 + u, Sq(x) + Sq(y))
  {
    assert Sq(x - t * y) == x * x - 2.0 * (x * (t * y)) + (t * t) * (y * y);
    assert Sq(y + t * x) == y * y + 2.0 * (x * (t * y)) + (t * t) * (x * x);
  }

  lemma AsrProd(a: int, n: nat)
    ensures Asr(a, n) as real <= Prod(Half(n), a as real) <= Asr(a, n) as real + 1.0
  {
    hide Asr, Half;
    AsrReal(a, n);
  }

  lemma HalfSquare(n: nat)
    ensures Half(n) * Half(n) == Quarter(n)
  {
    HalfFacts(n);
  }

  /** Rounding perturbs each coordinate of a rotation by at most one unit, and the exact
      rotation multiplies the squared length by 1 + 4^-n. */
  lemma RotateExact(v: Vec, n: nat, angle: nat)
    ensures var w := Rotate(v, n, angle);
            && Within(w.x as real, ExactX(v, n), 1.0)
            && Within(w.y as real, ExactY(v, n), 1.0)
            && Sq(ExactX(v, n)) + Sq(ExactY(v, n)) == Prod(1.0 + Quarter(n), Length(v))
  {
    hide Asr, Half, Quarter, Sq, Prod;
    AsrProd(v.x, n);
    AsrProd(v.y, n);
    HalfSquare(n);
    if v.y < 0 {
      TurnBackLength(v.x as real, v.y as real, Half(n), Quarter(n));
    } else {
      TurnLength(v.x as real, v.y as real, Half(n), Quarter(n));
    }
  }

  lemma SquareOfSum(b: real, d: real)
    ensures Sq(b + d) == Sq(b) + 2.0 * (b * d) + d * d
  {
  }

  lemma SmallFactor(a: real, d: real)
    requires -1.0 <= d <= 1.0 && a >= 0.0
    ensures -a <= a * d <= a
  {
    RealMono(d, 1.0, a);
    RealMono(-1.0, d, a);
  }

  lemma SmallSquare(d: real)
    requires -1.0 <= d <= 1.0
    ensures 0.0 <= d * d <= 1.0
  {
    if d >= 0.0 {
      SmallFactor(d, d);
    } else {
      SmallFactor(-d, d);
    }
  }

  function AbsR(a: real): (r: real)
    ensures r >= 0.0
  {
    if a < 0.0 then -a else a
  }

  lemma SquareNear(a: real, b: real)
    requires Within(a, b, 1.0)
    ensures Within(Sq(a), Sq(b), 2.0 * AbsR(a) + 1.0)
  {
    var d := b - a;
    SquareOfSum(a, d);
    SmallSquare(d);
    if a >= 0.0 {
      SmallFactor(a, d);
    } else {
      SmallFactor(-a, d);
      assert (-a) * d == -(a * d);
    }
  }

  /** What one rounded rotation can add to or take from the squared length. */
  function Slack(v: Vec): (e: real)
    ensures e >= 0.0
  {
    2.0 * AbsR(v.x as real) + 2.0 * AbsR(v.y as real) + 2.0
  }

  lemma RotateLength(v: Vec, n: nat, angle: nat)
    ensures var w := Rotate(v, n, angle);
            Within(Length(w), Prod(1.0 + Quarter(n), Length(v)), Slack(w))
  {
    hide Rotate, Half, Quarter, Sq, Prod, ExactX, ExactY, AbsR;
    var w := Rotate(v, n, angle);
    RotateExact(v, n, angle);
    SquareNear(w.x as real, ExactX(v, n));
    SquareNear(w.y as real, ExactY(v, n));
  }

  /** The product of 1 + 4^-k over rotations 1..n: the square of the CORDIC gain. */
  function Gain(n: nat): (g: real)
    ensures g >= 1.0
  {
    if n == 0 then 1.0 else
      RealMono(1.0, Gain(n - 1), 1.0 + Quarter(n));
      Prod(Gain(n - 1), 1.0 + Quarter(n))
  }

  function SlackSum(v: Vec, n: nat): (e: real)
    ensures e >= 0.0
  {
    if n == 0 then 0.0 else SlackSum(v, n - 1) + Slack(Fold(v, n))
  }

  lemma Assoc(g: real, k: real, a: real)
    ensures Prod(k, Prod(g, a)) == Prod(Prod(g, k), a)
  {
  }

  lemma ProdSum(g: real, a: real, b: real)
    ensures Prod(g, a + b) == Prod(g, a) + Prod(g, b) && Prod(g, a - b) == Prod(g, a) - Prod(g, b)
  {
  }

  lemma ProdMono(g: real, a: real, b: real)
    requires g >= 0.0 && a <= b
    ensures Prod(g, a) <= Prod(g, b)
  {
    RealMono(a, b, g);
  }

  lemma ProdAtLeast(g: real, k: real, s: real)
    requires g >= 1.0 && k >= 1.0 && s >= 0.0
    ensures Prod(Prod(g, k), s) >= s
  {
    RealMono(1.0, g, k);
    RealMono(1.0, g * k, s);
  }

  lemma ErrorStep(l: real, l0: real, g: real, k: real, e: real, l': real, s: real)
    requires k >= 1.0 && g >= 1.0 && s >= 0.0
    requires Within(l, Prod(g, l0), Prod(g, e)) && Within(l', Prod(k, l), s)
    ensures Within(l', Prod(Prod(g, k), l0), Prod(Prod(g, k), e + s))
  {
    hide Prod;
    ProdMono(k, l, Prod(g, l0) + Prod(g, e));
    ProdMono(k, Prod(g, l0) - Prod(g, e), l);
    ProdSum(k, Prod(g, l0), Prod(g, e));
    Assoc(g, k, l0);
    Assoc(g, k, e);
    ProdSum(Prod(g, k), e, s);
    ProdAtLeast(g, k, s);
  }

  lemma Unfold(v: Vec, n: nat)
    requires n >= 1
    ensures Gain(n) == Prod(Gain(n - 1), 1.0 + Quarter(n))
    ensures SlackSum(v, n) == SlackSum(v, n - 1) + Slack(Fold(v, n))
    ensures 1.0 + Quarter(n) >= 1.0 && Gain(n - 1) >= 1.0 && Slack(Fold(v, n)) >= 0.0
  {
    hide Fold, Prod;
  }

  lemma LengthStart(v: Vec)
    ensures Within(Length(Fold(v, 0)), Prod(Gain(0), Length(v)), Prod(Gain(0), SlackSum(v, 0)))
  {
    hide Length;
  }

  /** The squared length after n rotations is the start's times the gain, up to the rounding
      of each rotation. */
  lemma {:induction false} FoldLength(v: Vec, n: nat)
    ensures Within(Length(Fold(v, n)), Prod(Gain(n), Length(v)), Prod(Gain(n), SlackSum(v, n)))
  {
    hide *;
    if n == 0 {
      LengthStart(v);
    } else {
      FoldLength(v, n - 1);
      RotateLength(Fold(v, n - 1), n, Angle(n - 1));
      FoldUnfold(v, n);
      Unfold(v, n);
      ErrorStep(Length(Fold(v, n - 1)), Length(v), Gain(n - 1), 1.0 + Quarter(n), SlackSum(v, n - 1), Length(Fold(v, n)), Slack(Fold(v, n)));
    }
  }

  lemma SlackSmall(v: Vec, j: nat, x: real)
    requires Near(v, 0) && 1 <= j <= STAGES && Fold(v, j).x as real <= x
    ensures Slack(Fold(v, j)) <= 3.0 * x + 68.0
  {
    hide Fold, Asr;
    var w := Fold(v, j);
    FoldConverges(v, j);
    AsrHalf(w.x, j);
    assert w.y as real <= (Asr(w.x, j) + j) as real && -(Asr(w.x, j) + j) as real <= w.y as real;
  }

  lemma AsrHalf(a: int, j: nat)
    requires a >= 0 && j >= 1
    ensures Asr(a, j) as real <= 0.5 * a as real
  {
    hide Asr, Half;
    AsrReal(a, j);
    HalfFacts(j);
    RealMono(Half(j), 0.5, a as real);
  }

  lemma {:induction false} SlackSumSmall(v: Vec, n: nat, m: nat)
    requires Near(v, 0) && n <= m <= STAGES
    ensures SlackSum(v, n) <= Prod(n as real, 3.0 * Fold(v, m).x as real + 68.0)
  {
    hide Fold, Slack, Near, Prod;
    if n == 0 {
      ZeroProd(3.0 * Fold(v, m).x as real + 68.0);
    } else {
      SlackSumSmall(v, n - 1, m);
      FoldGrows(v, n, m);
      SlackSmall(v, n, Fold(v, m).x as real);
      CountStep(n, 3.0 * Fold(v, m).x as real + 68.0);
    }
  }

  lemma ZeroProd(b: real)
    ensures Prod(0.0, b) == 0.0
  {
  }

  lemma CountStep(n: nat, b: real)
    requires n >= 1
    ensures Prod(n as real, b) == Prod((n - 1) as real, b) + b
  {
  }

  /** c (1 + u) <= k - d u when c <= k - 4 d u and 3 d == k. */
  lemma GainTail(c: real, k: real, d: real, u: real)
    requires 0.0 <= u && 0.0 <= d && c <= k - 4.0 * d * u && 3.0 * d == k
    ensures c * (1.0 + u) <= k - d * u
  {
    var b := k - 4.0 * d * u;
    RealMono(c, b, 1.0 + u);
    assert b * (1.0 + u) == k + k * u - 4.0 * (d * u) - 4.0 * (d * (u * u));
    assert d * (u * u) >= 0.0;
    assert 3.0 * (d * u) == k * u;
  }

  lemma QuarterAt()
    ensures Quarter(1) == 0.25 && Quarter(2) == 0.0625 && Quarter(3) == 0.015625 && Quarter(4) == 0.00390625
    ensures Quarter(5) == 0.0009765625 && Quarter(6) == 0.000244140625
    ensures Quarter(7) == 0.00006103515625 && Quarter(8) == 0.0000152587890625
  {
    assert Quarter(2) == 0.0625;
    assert Quarter(4) == 0.00390625;
    assert Quarter(6) == 0.000244140625;
  }

  lemma GainStart()
    ensures 1.3559 < Gain(8) <= 1.35591 - 1.35591 / 3.0 * Quarter(8)
  {
    QuarterAt();
    assert Gain(1) == 1.25;
    assert Gain(2) == 1.328125;
    assert Gain(3) == 1.328125 * 1.015625;
    assert Gain(4) == 1.328125 * 1.015625 * 1.00390625;
    assert Gain(5) == 1.328125 * 1.015625 * 1.00390625 * 1.0009765625;
    assert Gain(6) == 1.328125 * 1.015625 * 1.00390625 * 1.0009765625 * 1.000244140625;
    assert Gain(7) == 1.328125 * 1.015625 * 1.00390625 * 1.0009765625 * 1.000244140625 * 1.00006103515625;
  }

  lemma GainUp(n: nat)
    requires n >= 1
    ensures Gain(n) == Gain(n - 1) * (1.0 + Quarter(n)) && Gain(n) >= Gain(n - 1)
    ensures Quarter(n - 1) == 4.0 * Quarter(n)
  {
    RealMono(1.0, 1.0 + Quarter(n), Gain(n - 1));
  }

  lemma {:induction false} GainAbove(n: nat)
    requires n >= 8
    ensures Gain(n) <= 1.35591 - 1.35591 / 3.0 * Quarter(n)
    ensures Gain(n) >= Gain(8)
  {
    hide Gain, Quarter;
    if n == 8 {
      GainStart();
    } else {
      GainAbove(n - 1);
      GainUp(n);
      GainTail(Gain(n - 1), 1.35591, 1.35591 / 3.0, Quarter(n));
    }
  }

  /** The squared gain of the 33 rotations; its root is the 1.164435 of the source. */
  lemma GainNumber()
    ensures 1.3559 < Gain(STAGES) < 1.35591
  {
    hide Gain, Quarter;
    GainAbove(STAGES);
    GainStart();
  }

  /** The squared length that reaches the output, before rounding: 512 times the gain times the
      squared input length. */
  function Target(x: int, y: int): real {
    Prod(Gain(STAGES), 512.0 * (Sq(x as real) + Sq(y as real)))
  }

  lemma IntSquare(a: int)
    ensures (a * a) as real == Sq(a as real)
  {
  }

  lemma PreLengthReal(x: int, y: int)
    ensures Length(Pre(x, y)) == 512.0 * (Sq(x as real) + Sq(y as real))
  {
    PreLength(x, y);
    hide Pre;
    var v := Pre(x, y);
    IntSquare(v.x);
    IntSquare(v.y);
    IntSquare(x);
    IntSquare(y);
    hide Sq;
    assert (v.x * v.x + v.y * v.y) as real == 512.0 * (x * x + y * y) as real;
  }

  /** The final squared length is the target, up to 135 units times x and a constant. */
  lemma FinalLength(x: int, y: int)
    requires Input(x, y)
    ensures var v := Fold(Pre(x, y), STAGES);
            Within(Length(v), Target(x, y), 135.0 * v.x as real + 3100.0)
  {
    hide Fold, Pre, Gain, Length, Sq, Prod, Near;
    var v := Fold(Pre(x, y), STAGES);
    PreFacts(x, y);
    PreLengthReal(x, y);
    FoldLength(Pre(x, y), STAGES);
    SlackSumSmall(Pre(x, y), STAGES, STAGES);
    GainNumber();
    ConvergenceAndWidth(x, y, STAGES);
    ErrorNumber(Gain(STAGES), SlackSum(Pre(x, y), STAGES), v.x as real);
  }

  lemma ErrorNumber(g: real, e: real, x: real)
    requires 1.0 <= g < 1.35591 && e <= Prod(33.0, 3.0 * x + 68.0) && x >= 0.0
    ensures Prod(g, e) <= 135.0 * x + 3100.0
  {
    var b := 99.0 * x + 2244.0;
    assert Prod(33.0, 3.0 * x + 68.0) == b;
    RealMono(e, b, g);
    RealMono(g, 1.35591, b);
  }

  /** The final x is within 68 units of the root of the target, stated on squares. */
  lemma FinalX(x: int, y: int)
    requires Input(x, y)
    ensures var a := Fold(Pre(x, y), STAGES).x as real;
            && Sq(a + 68.0) >= Target(x, y)
            && Sq(a - 68.0) <= Target(x, y) + 7724.0
  {
    hide Fold, Pre, Gain, Prod, Near, Target;
    var v := Fold(Pre(x, y), STAGES);
    FinalLength(x, y);
    ConvergenceAndWidth(x, y, STAGES);
    SmallY(v.y as real);
    hide Sq;
    ShiftSquare(v.x as real);
  }

  lemma SmallY(y: real)
    requires -34.0 <= y <= 34.0
    ensures 0.0 <= Sq(y) <= 1156.0
  {
    SqMono(AbsR(y), 34.0);
    SqMono(0.0, AbsR(y));
    assert Sq(AbsR(y)) == Sq(y);
    assert Sq(34.0) == 1156.0;
  }

  lemma ShiftSquare(a: real)
    ensures Sq(a + 68.0) == Sq(a) + 136.0 * a + 4624.0
    ensures Sq(a - 68.0) == Sq(a) - 136.0 * a + 4624.0
  {
  }

  // ---- the output words ----

  /** Round to even at bit 9: 256 is added when that bit is set and 255 otherwise. */
  function FinalMag(x: nat): nat {
    x + if (x / 512) % 2 == 1 then 256 else 255
  }

  /** Bits 33..8 of the rounded x, the 26-bit word in o_mag. */
  function MagWord(x: nat): nat {
    (FinalMag(x) / 256) % 0x400_0000
  }

  /** A 26-bit word read as signed, as o_mag is. */
  function Signed26(w: nat): int {
    if w < 0x200_0000 then w else w - 0x400_0000
  }

  /** o_mag and o_phase of the conversion of (x, y). */
  function OutMag(x: int, y: int): int {
    var a := Fold(Pre(x, y), STAGES).x;
    if a >= 0 then Signed26(MagWord(a)) else 0
  }

  function OutPhase(x: int, y: int): int {
    PhaseOut(Fold(Pre(x, y), STAGES).ph)
  }

  /** Bits 35..10 of the phase register. */
  function PhaseOut(ph: int): int {
    ph / 1024
  }

  lemma MagWordFacts(a: nat)
    requires a + 256 < WIDE
    ensures a <= 256 * MagWord(a) <= a + 256
  {
  }

  /** The word in exact terms: x in units of 256, always rounded up, and an exact multiple gets one
      more when bit 9 is set; nothing is cut off. */
  lemma MagWordExact(a: nat)
    requires a + 256 < WIDE
    ensures a % 256 != 0 ==> MagWord(a) == a / 256 + 1
    ensures a % 256 == 0 ==> MagWord(a) == a / 256 + (a / 512) % 2
  {
    var b := (a / 512) % 2;
    assert FinalMag(a) == a + 255 + b;
    hide FinalMag;
    assert (a + 255 + b) / 256 < 0x400_0000;
  }

  lemma SqMono(a: real, b: real)
    requires 0.0 <= a <= b
    ensures Sq(a) <= Sq(b)
  {
    RealMono(a, b, a);
    RealMono(a, b, b);
  }

  /** The magnitude word is the root of the target within 1.3 output units: 256 times the word
      plus 68 is at least the root, 256 times the word minus 324 at most the root, up to the
      7724 that is left of the squares. */
  lemma Magnitude(x: int, y: int)
    requires Input(x, y)
    ensures var a := Fold(Pre(x, y), STAGES).x;
            && a >= 0 && a <= 256 * MagWord(a) <= a + 256
            && var m := 256.0 * MagWord(a) as real;
            && Sq(m + 68.0) >= Target(x, y)
            && (m >= 324.0 ==> Sq(m - 324.0) <= Target(x, y) + 7724.0)
  {
    hide Fold, Pre, Target, Sq, Near, Asr;
    var a := Fold(Pre(x, y), STAGES).x;
    ConvergenceAndWidth(x, y, STAGES);
    FinalX(x, y);
    MagWordFacts(a);
    hide MagWord;
    var m := 256.0 * MagWord(a) as real;
    SqMono(a as real + 68.0, m + 68.0);
    if m >= 324.0 {
      SqMono(m - 324.0, a as real - 68.0);
    }
  }

  /** The signed output is non-negative for every input up to a length, and negative for every
      input beyond a length that is larger by less than one part in 200000: o_mag is one bit too
      narrow for the gain. */
  lemma MagnitudeSign(x: int, y: int)
    requires Input(x, y)
    ensures var r := Sq(x as real) + Sq(y as real);
            && (694.22592 * r <= 73786967498745184256.0 ==> OutMag(x, y) >= 0)
            && (694.2208 * r >= 73786976294838206464.0 ==> OutMag(x, y) < 0)
  {
    hide Fold, Pre, Near, Asr, Gain, Sq, Prod;
    Magnitude(x, y);
    GainNumber();
    NonNegSq(x as real);
    NonNegSq(y as real);
    var a := Fold(Pre(x, y), STAGES).x;
    var r := Sq(x as real) + Sq(y as real);
    TargetBounds(Gain(STAGES), r);
    var w := MagWord(a);
    hide MagWord, FinalMag;
    if w >= 0x200_0000 {
      SqMono(8589934592.0 - 324.0, 256.0 * w as real - 324.0);
      SquareNumbers();
    } else {
      SqMono(256.0 * w as real + 68.0, 8589934592.0 - 188.0);
      SquareNumbers();
    }
  }

  lemma NonNegSq(a: real)
    ensures Sq(a) >= 0.0
  {
  }

  lemma TargetBounds(g: real, r: real)
    requires 1.3559 < g < 1.35591
    ensures r >= 0.0 ==> 694.2208 * r <= Prod(g, 512.0 * r) <= 694.22592 * r
  {
    if r >= 0.0 {
      RealMono(1.3559, g, 512.0 * r);
      RealMono(g, 1.35591, 512.0 * r);
    }
  }

  lemma SquareNumbers()
    ensures Sq(8589934592.0 - 324.0) - 7724.0 > 73786967498745184256.0
    ensures Sq(8589934592.0 - 188.0) < 73786976294838206464.0
  {
  }

  /** Inputs with |x| + |y| <= 2^28 give a non-negative magnitude; the corner of the input range
      gives a negative one. */
  lemma MagnitudeSignCases(x: int, y: int)
    requires Input(x, y)
    ensures Abs(x) + Abs(y) <= IN_LIMIT ==> OutMag(x, y) >= 0
    ensures OutMag(-IN_LIMIT, -IN_LIMIT) < 0
  {
    hide OutMag, Sq;
    MagnitudeSign(x, y);
    MagnitudeSign(-IN_LIMIT, -IN_LIMIT);
    CornerSquare();
    if Abs(x) + Abs(y) <= IN_LIMIT {
      DiamondSquare(x as real, y as real);
    }
  }

  lemma CornerSquare()
    ensures Sq((-IN_LIMIT) as real) == 72057594037927936.0
  {
  }

  lemma DiamondSquare(a: real, b: real)
    requires AbsR(a) + AbsR(b) <= 268435456.0
    ensures Sq(a) + Sq(b) <= 72057594037927936.0
  {
    var p, q := AbsR(a), AbsR(b);
    assert Sq(a) == p * p && Sq(b) == q * q;
    SqMono(p + q, 268435456.0);
    SquareOfSum(p, q);
    assert p * q >= 0.0;
  }

  // ---- phase ----

  /** Which way rotation k turns: -1 below the axis. */
  function Turn(v: Vec, k: nat): int
    requires k >= 1
  {
    if Fold(v, k - 1).y < 0 then -1 else 1
  }

  function SignedAngles(v: Vec, n: nat): int {
    if n == 0 then 0 else SignedAngles(v, n - 1) + Turn(v, n) * Angle(n - 1)
  }

  lemma ModSum(p: int, t: int)
    ensures (p % TURN + t) % TURN == (p + t) % TURN
  {
  }

  lemma RotatePhase(v: Vec, k: nat, angle: nat)
    ensures Rotate(v, k, angle).ph == (v.ph + if v.y < 0 then 0 - angle else angle as int) % TURN
  {
    hide Asr;
  }

  /** The phase is the quadrant constant plus each rotation's own table angle, with the sign of
      that rotation, modulo one turn. */
  lemma {:induction false} PhaseSum(v: Vec, n: nat)
    requires 0 <= v.ph < TURN
    ensures Fold(v, n).ph == (v.ph + SignedAngles(v, n)) % TURN
  {
    if n > 0 {
      PhaseSum(v, n - 1);
      PhaseStep(v, n);
    }
  }

  lemma PhaseStep(v: Vec, n: nat)
    requires n >= 1 && Fold(v, n - 1).ph == (v.ph + SignedAngles(v, n - 1)) % TURN
    ensures Fold(v, n).ph == (v.ph + SignedAngles(v, n)) % TURN
  {
    hide Angle, Rotate, Fold;
    FoldUnfold(v, n);
    RotatePhase(Fold(v, n - 1), n, Angle(n - 1));
    var t := if Fold(v, n - 1).y < 0 then 0 - Angle(n - 1) else Angle(n - 1) as int;
    assert Turn(v, n) * Angle(n - 1) == t;
    ModSum(v.ph + SignedAngles(v, n - 1), t);
  }

  lemma RotateShift(a: Vec, b: Vec, k: nat, angle: nat, d: nat)
    requires a.x == b.x && a.y == b.y && b.ph == (a.ph + d) % TURN
    ensures var a', b' := Rotate(a, k, angle), Rotate(b, k, angle);
            a'.x == b'.x && a'.y == b'.y && 0 <= a'.ph < TURN && b'.ph == (a'.ph + d) % TURN
  {
    var s := if a.y < 0 then 0 - angle else angle as int;
    ModSum(a.ph + d, s);
    ModSum(a.ph + s, d);
    hide Asr;
  }

  lemma {:induction false} FoldShift(v: Vec, w: Vec, n: nat, d: nat)
    requires v.x == w.x && v.y == w.y && 0 <= v.ph < TURN && w.ph == (v.ph + d) % TURN
    ensures var a, b := Fold(v, n), Fold(w, n);
            a.x == b.x && a.y == b.y && 0 <= a.ph < TURN && b.ph == (a.ph + d) % TURN
  {
    if n > 0 {
      FoldShift(v, w, n - 1, d);
      RotateShift(Fold(v, n - 1), Fold(w, n - 1), n, Angle(n - 1), d);
      hide Angle, Rotate;
    }
  }

  /** The same vector, a quarter turn on. */
  predicate QuarterOn(v: Vec, w: Vec) {
    v.x == w.x && v.y == w.y && w.ph == (v.ph + TURN / 4) % TURN
  }

  /** Turning the input by 90 degrees turns the first stage by a quarter turn, exactly when the
      input is off the x axis: the quadrants take in one axis each, but zero has no sign, and so
      both halves of the x axis go to the quadrants above it. */
  lemma QuarterTurnStart(x: int, y: int)
    ensures QuarterOn(Pre(x, y), Pre(-y, x)) <==> y != 0
  {
  }

  /** So, off the x axis, the magnitude word stays and the phase is a quarter turn more. */
  lemma QuarterTurn(x: int, y: int)
    requires Input(x, y) && Input(-y, x) && y != 0
    ensures OutMag(-y, x) == OutMag(x, y)
    ensures Fold(Pre(-y, x), STAGES).ph == (Fold(Pre(x, y), STAGES).ph + TURN / 4) % TURN
  {
    FoldShift(Pre(x, y), Pre(-y, x), STAGES, TURN / 4);
    hide Fold;
  }

  lemma {:induction false} FoldShiftFrom(v: Vec, w: Vec, m: nat, n: nat, d: nat)
    requires m <= n
    requires var a, b := Fold(v, m), Fold(w, m); a.x == b.x && a.y == b.y && 0 <= a.ph < TURN && b.ph == (a.ph + d) % TURN
    ensures var a, b := Fold(v, n), Fold(w, n);
            a.x == b.x && a.y == b.y && 0 <= a.ph < TURN && b.ph == (a.ph + d) % TURN
    decreases n - m
  {
    hide Fold, Angle, Rotate;
    if m < n {
      FoldShiftFrom(v, w, m, n - 1, d);
      FoldUnfold(v, n);
      FoldUnfold(w, n);
      RotateShift(Fold(v, n - 1), Fold(w, n - 1), n, Angle(n - 1), d);
    }
  }

  /** On the x axis the phase relation can fail: the origin is its own image, and the images of
      (1, 0) meet after four rotations with phases less than a quarter turn apart. */
  lemma QuarterTurnOnAxis(x: int)
    requires x == 0 || x == 1
    ensures Fold(Pre(0, x), STAGES).ph != (Fold(Pre(x, 0), STAGES).ph + TURN / 4) % TURN
  {
    hide Fold, Angle, Pow2, Pre;
    if x == 0 {
      OriginPhase();
      NotQuarter(Fold(Pre(x, 0), STAGES).ph, 0);
    } else {
      FourFromX(Pre(x, 0));
      FourFromY(Pre(0, x));
      FoldShiftFrom(Pre(x, 0), Pre(0, x), 4, STAGES, 16855351616);
      NotQuarter(Fold(Pre(x, 0), STAGES).ph, 16855351616);
    }
  }

  lemma OriginPhase()
    ensures 0 <= Fold(Pre(0, 0), STAGES).ph < TURN
  {
    assert 0 <= Pre(0, 0).ph < TURN;
    hide Fold, Pre;
    FoldShift(Pre(0, 0), Pre(0, 0), STAGES, 0);
  }

  lemma FoldNone(v: Vec)
    ensures Fold(v, 0) == v
  {
  }

  lemma NotQuarter(p: nat, d: nat)
    requires p < TURN && d < TURN / 4
    ensures (p + d) % TURN != (p + TURN / 4) % TURN
    ensures d == 0 ==> (p + d) % TURN == p
  {
  }

  /** One rotation in numbers; `p` is two to the power of the shift. */
  lemma RotatesTo(v: Vec, n: nat, u: Vec, p: nat, angle: nat, w: Vec)
    requires n >= 1 && Fold(v, n - 1) == u && p == Pow2(n) && angle == Angle(n - 1)
    requires if u.y < 0 then w.x == u.x - u.y / p && w.y == u.y + u.x / p && w.ph == (u.ph - angle) % TURN
             else w.x == u.x + u.y / p && w.y == u.y - u.x / p && w.ph == (u.ph + angle) % TURN
    ensures Fold(v, n) == w
  {
    hide Angle;
  }

  lemma FirstPowers()
    ensures Pow2(1) == 2 && Pow2(2) == 4 && Pow2(3) == 8 && Pow2(4) == 16
    ensures Angle(0) == 0x12e4051da && Angle(1) == 0x09fb385b5 && Angle(2) == 0x051111d41 && Angle(3) == 0x028b0d430
  {
  }

  lemma FourFromX(v: Vec)
    requires v == Pre(1, 0)
    ensures Fold(v, 4) == Vec(27, 0, 162258784)
  {
    hide Fold, Pow2, Angle;
    FoldNone(v);
    FirstPowers();
    RotatesTo(v, 1, Vec(16, -16, 8589934592), 2, 0x12e4051da, Vec(24, -8, 3519000102));
    RotatesTo(v, 2, Vec(24, -8, 3519000102), 4, 0x09fb385b5, Vec(26, -2, 839657585));
    RotatesTo(v, 3, Vec(26, -2, 839657585), 8, 0x051111d41, Vec(27, 1, 68199058224));
    RotatesTo(v, 4, Vec(27, 1, 68199058224), 16, 0x028b0d430, Vec(27, 0, 162258784));
  }

  lemma FourFromY(v: Vec)
    requires v == Pre(0, 1)
    ensures Fold(v, 4) == Vec(27, 0, 17017610400)
  {
    hide Fold, Pow2, Angle;
    FoldNone(v);
    FirstPowers();
    RotatesTo(v, 1, Vec(16, 16, 8589934592), 2, 0x12e4051da, Vec(24, 8, 13660869082));
    RotatesTo(v, 2, Vec(24, 8, 13660869082), 4, 0x09fb385b5, Vec(26, 2, 16340211599));
    RotatesTo(v, 3, Vec(26, 2, 16340211599), 8, 0x051111d41, Vec(26, -1, 17700287696));
    RotatesTo(v, 4, Vec(26, -1, 17700287696), 16, 0x028b0d430, Vec(27, 0, 17017610400));
  }
}
