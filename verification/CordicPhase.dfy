/** The phase that seqpolar.v puts out: the input turned back by it lies on the positive x axis, up
    to a little more than one output unit and the rounding of the rotations. */
module CordicPhase {
  import opened Words
  import opened Arith
  import opened Cordic
  import opened CordicPolar
  import opened CordicAngle
  import SeqPolar

  /** The y coordinate of (x, y) turned by a. */
  function Level(t: Trig, x: real, y: real, a: real): real {
    Prod(t.cos(a), y) + Prod(t.sin(a), x)
  }

  /** The x coordinate of (x, y) turned by a. */
  function Along(t: Trig, x: real, y: real, a: real): real {
    Prod(t.cos(a), x) - Prod(t.sin(a), y)
  }

  // ---- laws ----

  lemma SumOf(t: Trig, a: real, b: real)
    requires IsTrig(t)
    ensures t.cos(a + b) == Prod(t.cos(a), t.cos(b)) - Prod(t.sin(a), t.sin(b))
    ensures t.sin(a + b) == Prod(t.sin(a), t.cos(b)) + Prod(t.cos(a), t.sin(b))
  {
    assert Sum(t, a, b);
  }

  lemma Negated(t: Trig, a: real)
    requires IsTrig(t)
    ensures t.cos(-a) == t.cos(a) && t.sin(-a) == -t.sin(a)
  {
    assert Mirror(t, a);
  }

  lemma OnCircle(t: Trig, a: real)
    requires IsTrig(t)
    ensures Sq(t.cos(a)) + Sq(t.sin(a)) == 1.0
  {
    assert Circle(t, a);
  }

  lemma QuarterPi(t: Trig, a: real)
    requires IsTrig(t)
    ensures t.cos(a + t.pi / 2.0) == -t.sin(a) && t.sin(a + t.pi / 2.0) == t.cos(a)
  {
    SumOf(t, a, t.pi / 2.0);
  }

  lemma HalfPi(t: Trig, a: real)
    requires IsTrig(t)
    ensures t.cos(a + t.pi) == -t.cos(a) && t.sin(a + t.pi) == -t.sin(a)
  {
    QuarterPi(t, a);
    QuarterPi(t, a + t.pi / 2.0);
    assert a + t.pi / 2.0 + t.pi / 2.0 == a + t.pi;
  }

  lemma FullPi(t: Trig, a: real)
    requires IsTrig(t)
    ensures t.cos(a + 2.0 * t.pi) == t.cos(a) && t.sin(a + 2.0 * t.pi) == t.sin(a)
  {
    HalfPi(t, a);
    HalfPi(t, a + t.pi);
    assert a + t.pi + t.pi == a + 2.0 * t.pi;
  }

  lemma {:induction false} Periodic(t: Trig, a: real, m: int)
    requires IsTrig(t)
    ensures var b := a + Prod(m as real, 2.0 * t.pi); t.cos(b) == t.cos(a) && t.sin(b) == t.sin(a)
    decreases Abs(m)
  {
    hide IsTrig;
    if m > 0 {
      Periodic(t, a, m - 1);
      FullPi(t, a + Prod((m - 1) as real, 2.0 * t.pi));
      assert Prod(m as real, 2.0 * t.pi) == Prod((m - 1) as real, 2.0 * t.pi) + 2.0 * t.pi;
    } else if m < 0 {
      Periodic(t, a, m + 1);
      FullPi(t, a + Prod(m as real, 2.0 * t.pi));
      assert Prod((m + 1) as real, 2.0 * t.pi) == Prod(m as real, 2.0 * t.pi) + 2.0 * t.pi;
    } else {
      assert Prod(0.0, 2.0 * t.pi) == 0.0;
    }
  }

  /** Small angles: the sine is below the angle, the cosine near one. */
  lemma SmallAngle(t: Trig, a: real, d: real)
    requires IsTrig(t) && Within(a, 0.0, d)
    ensures Within(t.sin(a), 0.0, d) && t.cos(a) >= 1.0 - Prod(d, d)
  {
    SmallSine(t, a, d);
    SmallSine(t, a / 2.0, d / 2.0);
    HalfAngle(t, a / 2.0);
    assert a / 2.0 + a / 2.0 == a;
    hide IsTrig;
    SquareWithin(t.sin(a / 2.0), d / 2.0);
  }

  lemma SmallSine(t: Trig, a: real, d: real)
    requires IsTrig(t) && Within(a, 0.0, d)
    ensures Within(t.sin(a), 0.0, d)
  {
    if a >= 0.0 {
      assert Chord(t, a);
    } else {
      assert Chord(t, -a);
      Negated(t, a);
    }
  }

  lemma HalfAngle(t: Trig, a: real)
    requires IsTrig(t)
    ensures t.cos(a + a) == 1.0 - 2.0 * Sq(t.sin(a))
  {
    SumOf(t, a, a);
    OnCircle(t, a);
  }

  lemma SquareWithin(s: real, d: real)
    requires Within(s, 0.0, d)
    ensures Sq(s) <= Prod(d, d)
  {
    SqMono(AbsR(s), d);
  }

  // ---- one rotation ----

  /** The rotation by b, where tan b = h, is c times the shift-and-add form. */
  lemma TurnedBy(ca: real, sa: real, cb: real, sb: real, h: real, x: real, y: real)
    requires sb == Prod(h, cb)
    ensures Prod(cb, Prod(ca, y - Prod(h, x)) + Prod(sa, x + Prod(h, y)))
         == Prod(Prod(ca, cb) + Prod(sa, sb), y) + Prod(Prod(sa, cb) - Prod(ca, sb), x)
  {
  }

  lemma TurnedBackBy(ca: real, sa: real, cb: real, sb: real, h: real, x: real, y: real)
    requires sb == Prod(h, cb)
    ensures Prod(cb, Prod(ca, y + Prod(h, x)) + Prod(sa, x - Prod(h, y)))
         == Prod(Prod(ca, cb) - Prod(sa, sb), y) + Prod(Prod(sa, cb) + Prod(ca, sb), x)
  {
  }

  lemma ArcOf(t: Trig, n: nat)
    requires IsTrig(t)
    ensures var b := t.atan(Half(n));
            0.0 < t.cos(b) <= 1.0 && t.sin(b) == Prod(Half(n), t.cos(b))
  {
    hide Half;
    assert Arc(t, Half(n));
    OnCircle(t, t.atan(Half(n)));
    hide IsTrig;
    AtMostOne(t.cos(t.atan(Half(n))), t.sin(t.atan(Half(n))));
  }

  lemma AtMostOne(p: real, q: real)
    requires Sq(p) + Sq(q) == 1.0
    ensures p <= 1.0
  {
    NonNegSq(q);
    if p > 1.0 {
      RealMono(1.0, p, p);
    }
  }

  /** The angle rotation n turns by, towards the axis. */
  function Step(t: Trig, v: Vec, n: nat): real {
    if v.y < 0 then -t.atan(Half(n)) else t.atan(Half(n))
  }

  /** The exact rotation, shrunk by the cosine of its angle, is a rotation. */
  lemma ExactTurn(t: Trig, v: Vec, n: nat, a: real)
    requires IsTrig(t)
    ensures Prod(t.cos(t.atan(Half(n))), Level(t, ExactX(v, n), ExactY(v, n), a))
         == Level(t, v.x as real, v.y as real, a - Step(t, v, n))
  {
    hide IsTrig, Prod, Half;
    var b := t.atan(Half(n));
    ArcOf(t, n);
    if v.y < 0 {
      SumOf(t, a, b);
      assert a - Step(t, v, n) == a + b;
      TurnedBackBy(t.cos(a), t.sin(a), t.cos(b), t.sin(b), Half(n), v.x as real, v.y as real);
    } else {
      SumOf(t, a, -b);
      Negated(t, b);
      NegProd(t.sin(a), t.sin(b));
      NegProd(t.cos(a), t.sin(b));
      assert a - Step(t, v, n) == a + -b;
      TurnedBy(t.cos(a), t.sin(a), t.cos(b), t.sin(b), Half(n), v.x as real, v.y as real);
    }
  }

  lemma NegProd(a: real, b: real)
    ensures Prod(a, -b) == -Prod(a, b) && Prod(-a, b) == -Prod(a, b)
  {
  }

  lemma UnitSum(p: real, q: real)
    requires Sq(p) + Sq(q) == 1.0
    ensures AbsR(p) + AbsR(q) <= 1.42
  {
    var a, b := AbsR(p), AbsR(q);
    assert Sq(a) == Sq(p) && Sq(b) == Sq(q);
    NonNegSq(a - b);
    SquareOfSum(a, b);
    SquareOfSum(a, -b);
    if a + b > 1.42 {
      SqMono(1.42, a + b);
    }
  }

  lemma SmallProd(a: real, d: real)
    requires Within(d, 0.0, 1.0)
    ensures Within(Prod(a, d), 0.0, AbsR(a))
  {
    if a >= 0.0 {
      SmallFactor(a, d);
    } else {
      SmallFactor(-a, d);
      assert (-a) * d == -(a * d);
    }
  }

  /** One unit in each coordinate is at most 1.42 in any direction. */
  lemma LevelNear(t: Trig, x: real, y: real, x': real, y': real, a: real)
    requires IsTrig(t) && Within(x', x, 1.0) && Within(y', y, 1.0)
    ensures Within(Level(t, x', y', a), Level(t, x, y, a), 1.42)
  {
    OnCircle(t, a);
    hide IsTrig, Prod, Sq;
    UnitSum(t.cos(a), t.sin(a));
    SmallProd(t.cos(a), y' - y);
    SmallProd(t.sin(a), x' - x);
    ProdSum(t.cos(a), y', y);
    ProdSum(t.sin(a), x', x);
  }

  // ---- all rotations ----

  /** The angle turned by in rotations 1..n. */
  function Turned(t: Trig, v: Vec, n: nat): real {
    if n == 0 then 0.0 else Turned(t, v, n - 1) + Step(t, Fold(v, n - 1), n)
  }

  /** The product of the cosines of the angles of rotations 1..n. */
  function Shrink(t: Trig, n: nat): real {
    if n == 0 then 1.0 else Prod(Shrink(t, n - 1), t.cos(t.atan(Half(n))))
  }

  lemma {:induction false} ShrinkFacts(t: Trig, n: nat)
    requires IsTrig(t)
    ensures 0.0 < Shrink(t, n) <= 1.0
  {
    if n > 0 {
      ShrinkFacts(t, n - 1);
      ArcOf(t, n);
      hide IsTrig, Half;
      BelowOne(Shrink(t, n - 1), t.cos(t.atan(Half(n))));
    }
  }

  lemma BelowOne(a: real, b: real)
    requires 0.0 < a <= 1.0 && 0.0 < b <= 1.0
    ensures 0.0 < Prod(a, b) <= 1.0
  {
    RealMono(a, 1.0, b);
    assert a * b <= 1.0 * b && a * b > 0.0;
  }

  /** g times what is within 1.42 of e, where g = s c, s <= 1 and c e = d. */
  lemma ScaledError(s: real, c: real, e: real, l: real, d: real, b: real, err: real)
    requires 0.0 < s <= 1.0 && 0.0 < c <= 1.0 && Within(l, e, 1.42)
    requires Prod(c, e) == d && Within(Prod(s, d), b, err)
    ensures Within(Prod(Prod(s, c), l), b, err + 1.42)
  {
    hide Prod;
    var g := Prod(s, c);
    BelowOne(s, c);
    Assoc(c, s, e);
    Commute(s, c);
    Assoc(s, c, e);
    ProdSum(g, l, e);
    ScaleWithin(g, l - e);
    ProdSum(g, e, l - e);
    assert e + (l - e) == l;
  }

  lemma Commute(a: real, b: real)
    ensures Prod(a, b) == Prod(b, a)
  {
  }

  lemma ScaleWithin(g: real, d: real)
    requires 0.0 < g <= 1.0 && Within(d, 0.0, 1.42)
    ensures Within(Prod(g, d), 0.0, 1.42)
  {
    hide Prod;
    Limits(g);
    ProdMono(g, d, 1.42);
    ProdMono(g, -1.42, d);
  }

  lemma Limits(g: real)
    ensures Prod(g, 1.42) == 1.42 * g && Prod(g, -1.42) == -1.42 * g
  {
  }

  /** After n rotations, the vector turned back by all of them and shrunk is the start, up to
      1.42 units a rotation in any direction. */
  lemma {:induction false} FoldTurns(t: Trig, v: Vec, n: nat, a: real)
    requires IsTrig(t)
    ensures var w := Fold(v, n);
            Within(Prod(Shrink(t, n), Level(t, w.x as real, w.y as real, Turned(t, v, n) - a)),
                   Level(t, v.x as real, v.y as real, -a), 1.42 * n as real)
  {
    hide IsTrig, Prod, Half, Rotate, Level, Angle;
    if n == 0 {
      StartTurns(t, v, a);
    } else {
      FoldTurns(t, v, n - 1, a);
      var u, w := Fold(v, n - 1), Fold(v, n);
      FoldUnfold(v, n);
      RotateExact(u, n, Angle(n - 1));
      var b := Turned(t, v, n) - a;
      LevelNear(t, ExactX(u, n), ExactY(u, n), w.x as real, w.y as real, b);
      ExactTurn(t, u, n, b);
      assert b - Step(t, u, n) == Turned(t, v, n - 1) - a;
      ShrinkFacts(t, n - 1);
      ArcOf(t, n);
      hide ExactX, ExactY, Step, Fold;
      ScaledError(Shrink(t, n - 1), t.cos(t.atan(Half(n))), Level(t, ExactX(u, n), ExactY(u, n), b),
        Level(t, w.x as real, w.y as real, b), Level(t, u.x as real, u.y as real, b - Step(t, u, n)),
        Level(t, v.x as real, v.y as real, -a), 1.42 * (n - 1) as real);
    }
  }

  lemma StartTurns(t: Trig, v: Vec, a: real)
    ensures Prod(Shrink(t, 0), Level(t, v.x as real, v.y as real, Turned(t, v, 0) - a)) == Level(t, v.x as real, v.y as real, -a)
  {
    assert Turned(t, v, 0) - a == -a;
  }

  // ---- the phase register ----

  /** One unit of the phase register, as an angle. */
  function Unit(t: Trig): real {
    2.0 * t.pi / UNITS
  }

  lemma UnitFacts(t: Trig)
    requires IsTrig(t)
    ensures 0.0 < Unit(t) < 0.0000000000915 && Prod(UNITS, Unit(t)) == 2.0 * t.pi
  {
  }

  lemma FromUnits(a: real, low: real, pi: real, u: real)
    requires Prod(UNITS, u) == 2.0 * pi
    requires Prod(low, 2.0 * pi) <= Prod(UNITS, a) < Prod(low + 1.0, 2.0 * pi)
    ensures Prod(low, u) <= a < Prod(low + 1.0, u)
  {
    assert low * (2.0 * pi) == UNITS * (low * u);
    assert (low + 1.0) * (2.0 * pi) == UNITS * ((low + 1.0) * u);
  }

  lemma Next(a: real, u: real)
    ensures Prod(a + 1.0, u) == Prod(a, u) + u && Prod(a - 1.0, u) == Prod(a, u) - u
  {
  }

  lemma LowerNear(i: nat)
    requires i < STAGES
    ensures i < |ANGLES| && (Lower(i) == Angle(i) || Lower(i) + 1 == Angle(i))
  {
  }

  lemma AtMostOneUnit(a: real, low: real, e: real, u: real)
    requires Prod(low, u) <= a < Prod(low + 1.0, u) && (e == low || e == low + 1.0) && u > 0.0
    ensures Within(a, Prod(e, u), u)
  {
    hide Prod;
    Next(low, u);
  }

  /** A table entry is within one unit of its arctangent. */
  lemma EntryNear(t: Trig, n: nat)
    requires IsTrig(t) && 1 <= n <= STAGES
    ensures Within(t.atan(Half(n)), Prod(Angle(n - 1) as real, Unit(t)), Unit(t))
  {
    hide *;
    UnitFacts(t);
    LowerNear(n - 1);
    LowerIsAtan(t, n - 1);
    FromUnits(t.atan(Half(n)), Lower(n - 1) as real, t.pi, Unit(t));
    AtMostOneUnit(t.atan(Half(n)), Lower(n - 1) as real, Angle(n - 1) as real, Unit(t));
  }

  lemma IntProd(a: int, b: int, u: real)
    ensures Prod((a + b) as real, u) == Prod(a as real, u) + Prod(b as real, u)
    ensures Prod((-a) as real, u) == -Prod(a as real, u)
  {
  }

  /** The signed table angles are the angle turned by, up to one unit a rotation. */
  lemma {:induction false} TurnedNear(t: Trig, v: Vec, n: nat)
    requires IsTrig(t) && n <= STAGES
    ensures Within(Turned(t, v, n), Prod(SignedAngles(v, n) as real, Unit(t)), Prod(n as real, Unit(t)))
  {
    hide IsTrig, Half, Prod, Unit, Fold, Angle;
    if n == 0 {
      ZeroProd(Unit(t));
    } else {
      TurnedNear(t, v, n - 1);
      EntryNear(t, n);
      SignedStep(v, n, Unit(t));
      CountStep(n, Unit(t));
    }
  }

  lemma SignedStep(v: Vec, n: nat, u: real)
    requires n >= 1
    ensures var a, b := Prod(SignedAngles(v, n - 1) as real, u), Prod(Angle(n - 1) as real, u);
            Prod(SignedAngles(v, n) as real, u) == if Fold(v, n - 1).y < 0 then a - b else a + b
  {
    hide Fold, Angle, Prod;
    var a: int := Angle(n - 1);
    IntProd(a, 0, u);
    assert Turn(v, n) * a == if Fold(v, n - 1).y < 0 then -a else a;
    IntProd(SignedAngles(v, n - 1), Turn(v, n) * a, u);
  }

  /** The angle an output word stands for: 2^26 to the turn. */
  function OutputAngle(t: Trig, o: int): real {
    o as real * (2.0 * t.pi / 67108864.0)
  }

  /** Whole turns between the sum of the angles and the phase register. */
  function Turns(v: Vec, n: nat): int {
    (v.ph + SignedAngles(v, n)) / TURN
  }

  /** The cut to the output word loses less than 1024 units; with the table's errors, the angle
      turned by is less than 1057 units ahead of the output, whole turns apart. */
  lemma OutputNear(t: Trig, v: Vec, o: int)
    requires IsTrig(t) && 0 <= v.ph < TURN
    requires 1024 * o <= Fold(v, STAGES).ph < 1024 * o + 1024
    ensures var a := Turned(t, v, STAGES) + Prod(v.ph as real, Unit(t)) - OutputAngle(t, o);
            Within(a - Prod(Turns(v, STAGES) as real, 2.0 * t.pi), 0.0, 1056.0 * Unit(t))
  {
    UnitFacts(t);
    TurnedNear(t, v, STAGES);
    hide Fold, IsTrig, Prod, Unit;
    PhaseSum(v, STAGES);
    hide SignedAngles;
    var s, m, ph := SignedAngles(v, STAGES), Turns(v, STAGES), Fold(v, STAGES).ph;
    assert v.ph + s == TURN * m + ph;
    WholeTurns(v.ph, s, m, ph, o, Unit(t), t.pi);
    OutputUnits(t, o);
    Several(0.0, Unit(t));
  }

  lemma Several(o: real, u: real)
    ensures Prod(STAGES as real, u) == 33.0 * u && Prod(1024.0 * o, u) == 1024.0 * Prod(o, u)
  {
  }

  lemma OutputUnits(t: Trig, o: int)
    ensures OutputAngle(t, o) == 1024.0 * Prod(o as real, Unit(t))
  {
  }

  lemma WholeTurns(p: int, s: int, m: int, ph: int, o: int, u: real, pi: real)
    requires p + s == TURN * m + ph && 1024 * o <= ph < 1024 * o + 1024 && u > 0.0
    requires Prod(UNITS, u) == 2.0 * pi
    ensures var d := Prod(s as real, u) + Prod(p as real, u) - 1024.0 * Prod(o as real, u) - Prod(m as real, 2.0 * pi);
            0.0 <= d <= 1023.0 * u
  {
    var k := (ph - 1024 * o) as real;
    MoveFactor(m as real, u);
    SplitProd(s as real, p as real, UNITS * m as real, 1024.0 * o as real, k, u);
    Several(o as real, u);
    SmallUnits(k, u);
    hide Prod;
  }

  lemma MoveFactor(m: real, u: real)
    ensures Prod(m, Prod(UNITS, u)) == Prod(UNITS * m, u)
  {
  }

  lemma SplitProd(s: real, p: real, a: real, b: real, k: real, u: real)
    requires s + p == a + b + k
    ensures Prod(s, u) + Prod(p, u) == Prod(a, u) + Prod(b, u) + Prod(k, u)
  {
    assert s * u + p * u == (s + p) * u == (a + b + k) * u;
  }

  lemma SmallUnits(k: real, u: real)
    requires 0.0 <= k <= 1023.0 && u > 0.0
    ensures 0.0 <= Prod(k, u) <= 1023.0 * u
  {
    RealMono(k, 1023.0, u);
  }

  // ---- the first stage ----

  lemma Diagonal(t: Trig)
    requires IsTrig(t)
    ensures var h := t.cos(t.pi / 4.0); t.sin(t.pi / 4.0) == h && 0.0 < h <= 0.7072
  {
    QuarterPi(t, -t.pi / 4.0);
    Negated(t, t.pi / 4.0);
    assert -t.pi / 4.0 + t.pi / 2.0 == t.pi / 4.0 && -t.pi / 4.0 == -(t.pi / 4.0);
    OnCircle(t, t.pi / 4.0);
    SmallAngle(t, t.pi / 4.0, 0.8);
    hide IsTrig;
    if t.cos(t.pi / 4.0) > 0.7072 {
      SqMono(0.7072, t.cos(t.pi / 4.0));
    }
  }

  lemma QuarterBack(t: Trig, x: real, y: real, a: real)
    requires IsTrig(t)
    ensures Level(t, x, y, a - t.pi / 2.0) == Level(t, y, -x, a)
    ensures Along(t, x, y, a - t.pi / 2.0) == Along(t, y, -x, a)
  {
    var b := a - t.pi / 2.0;
    QuarterPi(t, b);
    assert b + t.pi / 2.0 == a;
    hide IsTrig, Prod;
    NegProd(t.sin(b), x);
    NegProd(t.cos(b), x);
    NegProd(t.sin(b), y);
  }

  lemma EighthBack(t: Trig, b: real)
    requires IsTrig(t)
    ensures var h, d := t.cos(t.pi / 4.0), b - t.pi / 4.0;
            t.cos(d) == h * (t.cos(b) + t.sin(b)) && t.sin(d) == h * (t.sin(b) - t.cos(b))
  {
    SumOf(t, b, -(t.pi / 4.0));
    Negated(t, t.pi / 4.0);
    Diagonal(t);
    assert b + -(t.pi / 4.0) == b - t.pi / 4.0;
    hide IsTrig;
  }

  /** Sixteen times the sum and the difference: a turn back by an eighth. */
  lemma EighthStage(t: Trig, x: real, y: real, b: real)
    requires IsTrig(t)
    ensures var h, d := t.cos(t.pi / 4.0), b - t.pi / 4.0;
            && h * Level(t, 16.0 * x + 16.0 * y, 16.0 * y - 16.0 * x, b) == 16.0 * Level(t, x, y, d)
            && h * Along(t, 16.0 * x + 16.0 * y, 16.0 * y - 16.0 * x, b) == 16.0 * Along(t, x, y, d)
  {
    EighthBack(t, b);
    hide IsTrig;
    EighthSums(t.cos(t.pi / 4.0), t.cos(b), t.sin(b), x, y);
  }

  lemma EighthSums(h: real, c: real, s: real, x: real, y: real)
    ensures h * (Prod(c, 16.0 * y - 16.0 * x) + Prod(s, 16.0 * x + 16.0 * y))
         == 16.0 * (Prod(h * (c + s), y) + Prod(h * (s - c), x))
    ensures h * (Prod(c, 16.0 * x + 16.0 * y) - Prod(s, 16.0 * y - 16.0 * x))
         == 16.0 * (Prod(h * (c + s), x) - Prod(h * (s - c), y))
  {
  }

  lemma StartAngles(t: Trig, ph: int)
    requires IsTrig(t)
    requires ph == 0x2_0000_0000 || ph == 0x6_0000_0000 || ph == 0xa_0000_0000 || ph == 0xe_0000_0000
    ensures var p := Prod(ph as real, Unit(t));
            && (ph == 0x2_0000_0000 ==> p == t.pi / 4.0)
            && (ph == 0x6_0000_0000 ==> p == t.pi / 4.0 + t.pi / 2.0)
            && (ph == 0xa_0000_0000 ==> p == t.pi / 4.0 + t.pi)
            && (ph == 0xe_0000_0000 ==> p == t.pi / 4.0 + t.pi + t.pi / 2.0)
  {
  }

  /** The first stage scales by 16 times the root of two and turns back by its start phase. */
  lemma StageTurns(t: Trig, x: int, y: int, b: real)
    requires IsTrig(t)
    ensures var v := Pre(x, y); var h, d := t.cos(t.pi / 4.0), b - Prod(v.ph as real, Unit(t));
            && h * Level(t, v.x as real, v.y as real, b) == 16.0 * Level(t, x as real, y as real, d)
            && h * Along(t, v.x as real, v.y as real, b) == 16.0 * Along(t, x as real, y as real, d)
  {
    hide IsTrig, Level, Along, Prod, Unit;
    var v, e, q := Pre(x, y), b - t.pi / 4.0, t.pi / 2.0;
    var a, c := x as real, y as real;
    StartAngles(t, v.ph);
    if x >= 0 && y >= 0 {
      EighthStage(t, a, c, b);
    } else if x < 0 && y >= 0 {
      EighthStage(t, c, -a, b);
      QuarterBack(t, a, c, e);
    } else if x < 0 && y < 0 {
      EighthStage(t, -a, -c, b);
      QuarterBack(t, a, c, e - q);
      QuarterBack(t, c, -a, e);
      assert e - q - q == b - (t.pi / 4.0 + t.pi);
    } else {
      EighthStage(t, -c, a, b);
      QuarterBack(t, a, c, e - q - q);
      QuarterBack(t, c, -a, e - q);
      QuarterBack(t, -a, -c, e);
      assert e - q - q - q == b - (t.pi / 4.0 + t.pi + t.pi / 2.0);
    }
  }

  // ---- the output ----

  lemma AlongIsLevel(t: Trig, x: real, y: real, a: real)
    requires IsTrig(t)
    ensures Along(t, x, y, a) == Level(t, x, y, a + t.pi / 2.0)
  {
    QuarterPi(t, a);
    hide IsTrig, Prod;
    NegProd(t.sin(a), y);
  }

  lemma SameTurned(t: Trig, x: real, y: real, e: real, m: int)
    requires IsTrig(t)
    ensures Level(t, x, y, e + Prod(m as real, 2.0 * t.pi)) == Level(t, x, y, e)
    ensures Along(t, x, y, e + Prod(m as real, 2.0 * t.pi)) == Along(t, x, y, e)
  {
    hide IsTrig, Prod;
    Periodic(t, e, m);
  }

  /** Both coordinates of the start, turned by b, are those of the shrunk end, turned by e, up to
      47 units. */
  predicate Carried(t: Trig, v: Vec, w: Vec, b: real, e: real) {
    && Within(Prod(Shrink(t, STAGES), Level(t, w.x as real, w.y as real, e)), Level(t, v.x as real, v.y as real, b), 47.0)
    && Within(Prod(Shrink(t, STAGES), Along(t, w.x as real, w.y as real, e)), Along(t, v.x as real, v.y as real, b), 47.0)
  }

  lemma FoldCarries(t: Trig, v: Vec, b: real, e: real, m: int)
    requires IsTrig(t) && Turned(t, v, STAGES) + b == e + Prod(m as real, 2.0 * t.pi)
    ensures Carried(t, v, Fold(v, STAGES), b, e)
  {
    hide IsTrig, Prod, Fold, Level, Along, Turned, Shrink;
    var w, c := Fold(v, STAGES), b + t.pi / 2.0;
    var x, y, f := w.x as real, w.y as real, e + Prod(m as real, 2.0 * t.pi);
    FoldTurns(t, v, STAGES, -b);
    FoldTurns(t, v, STAGES, -c);
    assert Turned(t, v, STAGES) - -b == f && Turned(t, v, STAGES) - -c == f + t.pi / 2.0;
    assert - -b == b && - -c == b + t.pi / 2.0;
    AlongIsLevel(t, x, y, f);
    AlongIsLevel(t, v.x as real, v.y as real, b);
    SameTurned(t, x, y, e, m);
  }

  /** d is 1056 units of phase: the end (x, y), near the axis, is turned by at most that. */
  lemma EndNear(c: real, s: real, x: real, y: real, d: real, q: real, l: real, a: real)
    requires 0.0 < q <= 1.0 && x >= 0.0 && Within(y, 0.0, 34.0) && 0.0 < d < 0.0000001
    requires 0.999999 <= c <= 1.0 && Within(s, 0.0, d)
    requires Within(Prod(q, Prod(c, y) + Prod(s, x)), l, 47.0) && Within(Prod(q, Prod(c, x) - Prod(s, y)), a, 47.0)
    ensures Within(l, 0.0, 81.001 + 1.000002 * Prod(d, a)) && a >= -47.001
  {
    hide Prod;
    var z := Prod(q, x);
    BoundedProd(c, y, 1.0, 34.0);
    BoundedProd(s, y, d, 34.0);
    BoundedProd(s, x, d, x);
    ShrunkSums(q, c, s, x, y, d);
    CosineKeeps(c, z, a);
    ProdMono(d, z, 1.000002 * (a + 47.0001));
    LinearProd(d, a);
  }

  lemma BoundedProd(a: real, b: real, p: real, q: real)
    requires Within(a, 0.0, p) && Within(b, 0.0, q)
    ensures Within(Prod(a, b), 0.0, p * q)
  {
    var u := AbsR(a);
    RealMono(b, q, u);
    RealMono(-q, b, u);
    RealMono(u, p, q);
  }

  lemma ShrunkSums(q: real, c: real, s: real, x: real, y: real, d: real)
    requires 0.0 < q <= 1.0 && d > 0.0 && x >= 0.0
    requires Within(Prod(c, y), 0.0, 34.0) && Within(Prod(s, y), 0.0, 34.0 * d) && Within(Prod(s, x), 0.0, d * x)
    ensures Within(Prod(q, Prod(c, y) + Prod(s, x)), 0.0, 34.0 + Prod(d, Prod(q, x)))
    ensures Prod(q, Prod(c, x) - Prod(s, y)) >= Prod(c, Prod(q, x)) - 34.0 * d
    ensures Prod(q, x) >= 0.0
  {
    assert q * x >= 0.0;
    ProdSum(q, Prod(c, y), Prod(s, x));
    ProdSum(q, Prod(c, x), Prod(s, y));
    Swap(q, d, x);
    Swap(q, c, x);
    Shrunk(q, Prod(c, y), 34.0);
    Shrunk(q, Prod(s, y), 34.0 * d);
    ProdMono(q, Prod(s, x), Prod(d, x));
    ProdMono(q, Prod(-d, x), Prod(s, x));
    NegProd(d, x);
    NegProd(q, Prod(d, x));
    assert Prod(d, x) == d * x;
    hide Prod;
  }

  lemma Swap(q: real, d: real, x: real)
    ensures Prod(q, Prod(d, x)) == Prod(d, Prod(q, x))
  {
  }

  lemma Shrunk(q: real, a: real, m: real)
    requires 0.0 < q <= 1.0 && Within(a, 0.0, m)
    ensures Within(Prod(q, a), 0.0, m)
  {
    RealMono(q, 1.0, AbsR(a));
    RealMono(0.0, q, AbsR(a));
  }

  lemma CosineKeeps(c: real, z: real, a: real)
    requires c >= 0.999999 && z >= 0.0 && Prod(c, z) <= a + 47.0001
    ensures z <= 1.000002 * (a + 47.0001)
  {
    RealMono(0.999999, c, z);
  }

  lemma LinearProd(d: real, a: real)
    requires 0.0 < d < 0.0000001
    ensures Prod(d, 1.000002 * (a + 47.0001)) <= 1.000002 * Prod(d, a) + 0.0001
  {
    assert d * (1.000002 * (a + 47.0001)) == 1.000002 * (d * a) + 1.000002 * (d * 47.0001);
  }

  lemma Constants(h: real, p: real, d: real, a: real)
    ensures Prod(h, 81.001) == 81.001 * h && Prod(h, 1.000002 * p) == 1.000002 * Prod(h, p)
    ensures Prod(d, 16.0 * a) == 16.0 * Prod(d, a) && Prod(h, -47.001) == -47.001 * h
  {
  }

  /** Back to the input's own scale. */
  lemma InputScale(h: real, l0: real, a0: real, l: real, a: real, d: real)
    requires 0.0 < h <= 0.7072 && Prod(h, l0) == 16.0 * l && Prod(h, a0) == 16.0 * a && 0.0 < d < 0.0000001
    requires Within(l0, 0.0, 81.001 + 1.000002 * Prod(d, a0)) && a0 >= -47.001
    ensures a >= -2.1 && Within(l, 0.0, 3.59 + 1.000002 * Prod(d, a))
  {
    hide Prod;
    var b := 81.001 + 1.000002 * Prod(d, a0);
    ProdMono(h, -47.001, a0);
    ProdMono(h, l0, b);
    ProdMono(h, -b, l0);
    NegProd(h, b);
    ProdSum(h, 81.001, 1.000002 * Prod(d, a0));
    Swap(h, d, a0);
    Constants(h, Prod(d, a0), d, a);
  }

  lemma Plain(a: real, b: real)
    ensures Prod(a, b) == a * b
  {
  }

  lemma OutputScale(t: Trig, a: real)
    requires IsTrig(t) && a >= -2.1
    ensures 3.59 + 1.000002 * Prod(1056.0 * Unit(t), a) <= 3.6 + Prod(1.04 * OutputAngle(t, 1), a)
  {
    UnitFacts(t);
    OutputUnits(t, 1);
    hide IsTrig, OutputAngle, Unit;
    var u := Unit(t);
    assert Prod(1.0, u) == u;
    UnitsDiffer(u, a);
    assert 1.04 * OutputAngle(t, 1) == 1064.96 * u;
  }

  lemma UnitsDiffer(u: real, a: real)
    requires 0.0 < u < 0.0000000000915 && a >= -2.1
    ensures 3.59 + 1.000002 * Prod(1056.0 * u, a) <= 3.6 + Prod(1064.96 * u, a)
  {
    var k := 8.957888 * u;
    assert 1064.96 * u - 1.000002 * (1056.0 * u) == k;
    RealMono(-2.1, a, k);
    assert 1.000002 * ((1056.0 * u) * a) + a * k == (1064.96 * u) * a;
  }

  /** o_phase is bits 35..10 of the phase register: no other word meets this. */
  lemma OutputCut(x: int, y: int)
    requires Input(x, y)
    ensures var ph := Fold(Pre(x, y), STAGES).ph;
            1024 * OutPhase(x, y) <= ph < 1024 * OutPhase(x, y) + 1024 && 0 <= OutPhase(x, y) < 0x400_0000
  {
    PreFacts(x, y);
    PhaseSum(Pre(x, y), STAGES);
    hide Fold, Pre;
  }

  /** For every input: turned back by the output angle, it lies off the x axis by at most 1.04
      output units of its own length and 3.6 more. */
  lemma PhaseError(t: Trig, x: int, y: int)
    requires IsTrig(t) && Input(x, y)
    ensures var d := -OutputAngle(t, OutPhase(x, y));
            var l, a := Level(t, x as real, y as real, d), Along(t, x as real, y as real, d);
            a >= -2.1 && Within(l, 0.0, 3.6 + Prod(1.04 * OutputAngle(t, 1), a))
  {
    hide IsTrig, Level, Along, Prod, Fold, Pre, OutputAngle, Turned, OutPhase, Unit;
    var v, w, o := Pre(x, y), Fold(Pre(x, y), STAGES), OutPhase(x, y);
    PreFacts(x, y);
    OutputCut(x, y);
    ConvergenceAndWidth(x, y, STAGES);
    OutputNear(t, v, o);
    var b := Prod(v.ph as real, Unit(t)) - OutputAngle(t, o);
    var e := Turned(t, v, STAGES) + b - Prod(Turns(v, STAGES) as real, 2.0 * t.pi);
    FoldCarries(t, v, b, e, Turns(v, STAGES));
    EndTurned(t, v, w, b, e);
    StageTurns(t, x, y, b);
    Diagonal(t);
    assert b - Prod(v.ph as real, Unit(t)) == -OutputAngle(t, o);
    UnitFacts(t);
    Plain(t.cos(t.pi / 4.0), Level(t, v.x as real, v.y as real, b));
    Plain(t.cos(t.pi / 4.0), Along(t, v.x as real, v.y as real, b));
    InputScale(t.cos(t.pi / 4.0), Level(t, v.x as real, v.y as real, b), Along(t, v.x as real, v.y as real, b),
      Level(t, x as real, y as real, -OutputAngle(t, o)), Along(t, x as real, y as real, -OutputAngle(t, o)), 1056.0 * Unit(t));
    OutputScale(t, Along(t, x as real, y as real, -OutputAngle(t, o)));
  }

  lemma EndTurned(t: Trig, v: Vec, w: Vec, b: real, e: real)
    requires IsTrig(t) && Carried(t, v, w, b, e) && w.x >= 0 && Abs(w.y) <= 34 && Within(e, 0.0, 1056.0 * Unit(t))
    ensures var l, a := Level(t, v.x as real, v.y as real, b), Along(t, v.x as real, v.y as real, b);
            Within(l, 0.0, 81.001 + 1.000002 * Prod(1056.0 * Unit(t), a)) && a >= -47.001
  {
    hide IsTrig, Prod, Unit, Shrink, Sq;
    var d := 1056.0 * Unit(t);
    UnitFacts(t);
    ShrinkFacts(t, STAGES);
    SmallAngle(t, e, d);
    OnCircle(t, e);
    AtMostOne(t.cos(e), t.sin(e));
    TinySquare(d);
    EndNear(t.cos(e), t.sin(e), w.x as real, w.y as real, d, Shrink(t, STAGES),
      Level(t, v.x as real, v.y as real, b), Along(t, v.x as real, v.y as real, b));
  }

  lemma TinySquare(d: real)
    requires 0.0 < d < 0.0000001
    ensures Prod(d, d) <= 0.000001
  {
    RealMono(d, 1.0, d);
  }

  // ---- as a bound on the angle ----

  /** Turning keeps the length. */
  lemma TurnKeepsLength(t: Trig, x: real, y: real, a: real)
    requires IsTrig(t)
    ensures Sq(Level(t, x, y, a)) + Sq(Along(t, x, y, a)) == Sq(x) + Sq(y)
  {
    OnCircle(t, a);
    hide IsTrig;
    RotationLength(t.cos(a), t.sin(a), x, y);
  }

  lemma RotationLength(c: real, s: real, x: real, y: real)
    requires Sq(c) + Sq(s) == 1.0
    ensures Sq(Prod(c, y) + Prod(s, x)) + Sq(Prod(c, x) - Prod(s, y)) == Sq(x) + Sq(y)
  {
    assert Sq(c * y + s * x) == Sq(c) * Sq(y) + 2.0 * (c * s * x * y) + Sq(s) * Sq(x);
    assert Sq(c * x - s * y) == Sq(c) * Sq(x) - 2.0 * (c * s * x * y) + Sq(s) * Sq(y);
    assert Sq(c) * Sq(y) + Sq(s) * Sq(y) == (Sq(c) + Sq(s)) * Sq(y);
    assert Sq(c) * Sq(x) + Sq(s) * Sq(x) == (Sq(c) + Sq(s)) * Sq(x);
  }

  lemma SquareOfSlack(r: real, d: real)
    requires 1.0 <= r <= 536870912.0 && 0.0 < d < 0.0000001
    ensures 0.0 <= Prod(d, r) && Sq(3.6 + Prod(d, r)) <= 13.0 + r
  {
    RealMono(d, 0.0000001, r);
    RealMono(0.0, d, r);
    assert 0.0 <= Prod(d, r) <= 0.0000001 * r;
    hide Prod, Sq;
    SlackNumber(Prod(d, r));
  }

  lemma SlackNumber(e: real)
    requires 0.0 <= e <= 54.0
    ensures Sq(3.6 + e) <= 12.96 + 62.0 * e
  {
    ProdMono(e, e, 54.0);
    Constant54(e);
    hide Prod, Sq;
  }

  lemma Constant54(e: real)
    ensures Prod(e, 54.0) == 54.0 * e && Sq(3.6 + e) == 12.96 + 7.2 * e + Prod(e, e)
  {
  }

  lemma SquareOfAbs(a: real, m: real)
    requires Within(a, 0.0, m)
    ensures Sq(a) <= Sq(m)
  {
    SqMono(AbsR(a), m);
  }

  lemma RadiusSquare(r: real)
    ensures Sq(r + 4.0) == Sq(r) + 8.0 * r + 16.0 && Sq(3.6) == 12.96 && Sq(2.1) == 4.41 && Sq(r) >= 0.0
  {
  }

  /** Outside the radius r + 4, the distance along the axis is at least r. */
  lemma FarAlong(l: real, a: real, r: real, d: real)
    requires 1.0 <= r <= 536870912.0 && 0.0 < d < 0.0000001 && a >= -2.1
    requires Within(l, 0.0, 3.6 + Prod(d, a)) && Sq(l) + Sq(a) >= Sq(r + 4.0)
    ensures a >= r
  {
    hide Prod, Sq;
    RadiusSquare(r);
    SquareOfSlack(r, d);
    if a < 0.0 {
      ProdMono(d, a, 0.0);
      Commute(d, 0.0);
      ZeroProd(d);
      SquareOfAbs(l, 3.6);
      SquareOfAbs(a, 2.1);
    } else if a < r {
      ProdMono(d, a, r);
      SquareOfAbs(l, 3.6 + Prod(d, r));
      SquareOfAbs(a, r);
    }
  }

  lemma RadiusBounded(x: int, y: int, r: real)
    requires Input(x, y) && r >= 0.0 && Sq(x as real) + Sq(y as real) >= Sq(r + 4.0)
    ensures r <= 536870912.0
  {
    SquareOfAbs(x as real, 268435456.0);
    SquareOfAbs(y as real, 268435456.0);
    if r > 536870912.0 {
      SqMono(536870912.0, r + 4.0);
    }
  }

  lemma SlackShare(r: real, a: real, d: real)
    requires 1.0 <= r <= a
    ensures 3.6 + Prod(d, a) <= Prod(3.6 / r + d, a)
  {
    var k := 3.6 / r;
    assert k * r == 3.6;
    RealMono(r, a, k);
    assert (k + d) * a == a * k + d * a;
  }

  /** Outside any radius r + 4 the input turned back by the output angle lies to the right, and the
      tangent of its angle to the x axis is at most 3.6 / r and 1.04 output units. */
  lemma PhaseWithin(t: Trig, x: int, y: int, r: real)
    requires IsTrig(t) && Input(x, y) && r >= 1.0 && Sq(x as real) + Sq(y as real) >= Sq(r + 4.0)
    ensures var d := -OutputAngle(t, OutPhase(x, y));
            var l, a := Level(t, x as real, y as real, d), Along(t, x as real, y as real, d);
            a >= r && Within(l, 0.0, Prod(3.6 / r + 1.04 * OutputAngle(t, 1), a))
  {
    hide Prod, Sq, OutPhase, Level, Along, IsTrig, OutputAngle;
    var d, u := -OutputAngle(t, OutPhase(x, y)), 1.04 * OutputAngle(t, 1);
    var l, a := Level(t, x as real, y as real, d), Along(t, x as real, y as real, d);
    PhaseError(t, x, y);
    TurnKeepsLength(t, x as real, y as real, d);
    RadiusBounded(x, y, r);
    OutputStep(t);
    FarAlong(l, a, r, u);
    SlackShare(r, a, u);
  }

  lemma OutputStep(t: Trig)
    requires IsTrig(t)
    ensures 0.0 < 1.04 * OutputAngle(t, 1) < 0.0000001
  {
  }

  /** So on the clocked machine: 36 clocks after a strobe to an idle machine, o_done is up and the
      strobed input turned back by o_phase lies that close to the x axis. */
  lemma PhaseOfConversion(t: Trig, m: SeqPolar.Regs, ins: seq<SeqPolar.In>, r: real)
    requires IsTrig(t) && |ins| == 36 && m.idle && m.state == 0 && ins[0].stb
    requires forall i <- ins :: !i.reset
    requires var x, y := ins[0].x, ins[0].y;
             Input(x, y) && r >= 1.0 && Sq(x as real) + Sq(y as real) >= Sq(r + 4.0)
    ensures var m' := SeqPolar.Run(m, ins, 36);
            var d := -OutputAngle(t, m'.phase);
            var l, a := Level(t, ins[0].x as real, ins[0].y as real, d), Along(t, ins[0].x as real, ins[0].y as real, d);
            m'.done && a >= r && Within(l, 0.0, Prod(3.6 / r + 1.04 * OutputAngle(t, 1), a))
  {
    hide Prod, Sq, OutPhase, Level, Along, IsTrig, OutputAngle, SeqPolar.Run;
    SeqPolar.MachineRefinesFold(m, ins);
    PhaseWithin(t, ins[0].x, ins[0].y, r);
  }
}
