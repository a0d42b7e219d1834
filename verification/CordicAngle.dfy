/** The angle table of seqpolar.v against the arctangent. Cosine, sine, arctangent and pi are
    parameters: any four that obey the laws of `IsTrig`. */
module CordicAngle {
  import opened Arith
  import opened Cordic
  import opened CordicPolar

  const PI_LOW: real := 3.141592653589
  const PI_HIGH: real := 3.141592653590

  /** 2^36, the phase units of one turn. */
  const UNITS: real := 68719476736.0

  datatype Trig = Trig(cos: real -> real, sin: real -> real, atan: real -> real, pi: real)

  predicate Sum(t: Trig, a: real, b: real) {
    && t.cos(a + b) == t.cos(a) * t.cos(b) - t.sin(a) * t.sin(b)
    && t.sin(a + b) == t.sin(a) * t.cos(b) + t.cos(a) * t.sin(b)
  }

  predicate Mirror(t: Trig, a: real) {
    t.cos(-a) == t.cos(a) && t.sin(-a) == -t.sin(a)
  }

  predicate Circle(t: Trig, a: real) {
    t.cos(a) * t.cos(a) + t.sin(a) * t.sin(a) == 1.0
  }

  /** The chord is no longer than the arc. */
  predicate Chord(t: Trig, a: real) {
    a >= 0.0 ==> -a <= t.sin(a) <= a
  }

  /** The angle whose tangent is x. */
  predicate Arc(t: Trig, x: real) {
    0.0 < x <= 1.0 ==> t.cos(t.atan(x)) > 0.0 && t.sin(t.atan(x)) == x * t.cos(t.atan(x))
  }

  /** n terms of p/(2k+1) - pu/(2k+3) + puu/(2k+5) - ... */
  function Series(p: real, u: real, k: nat, n: nat): real
    decreases n
  {
    if n == 0 then 0.0 else p / (2 * k + 1) as real - Series(p * u, u, k + 1, n - 1)
  }

  /** The first n terms of x - x^3/3 + x^5/5 - ... */
  function Leading(x: real, n: nat): real {
    Series(x, x * x, 0, n)
  }

  /** These sums lie below and above the arctangent in turn. */
  predicate Leibniz(t: Trig, x: real, n: nat) {
    0.0 < x <= 1.0 ==> Leading(x, 2 * n) <= t.atan(x) <= Leading(x, 2 * n + 1)
  }

  ghost predicate IsTrig(t: Trig) {
    && (forall a, b :: Sum(t, a, b))
    && (forall a :: Mirror(t, a))
    && (forall a :: Circle(t, a))
    && (forall a :: Chord(t, a))
    && (forall x :: Arc(t, x))
    && (forall x, n :: Leibniz(t, x, n))
    && PI_LOW < t.pi < PI_HIGH && t.cos(t.pi / 2.0) == 0.0 && t.sin(t.pi / 2.0) == 1.0
  }

  // ---- the table in numbers ----

  /** 2n and 2n + 1 terms of the series at x enclose a to a + 1 units, with pi anywhere between
      its bounds. */
  predicate Entry(x: real, a: int, n: nat) {
    && Prod(UNITS, Leading(x, 2 * n)) >= Prod(a as real, 2.0 * PI_HIGH)
    && Prod(UNITS, Leading(x, 2 * n + 1)) < Prod(a as real + 1.0, 2.0 * PI_LOW)
  }

  lemma Pair(p: real, u: real, k: nat, n: nat)
    ensures Series(p, u, k, n + 2)
         == p / (2 * k + 1) as real - (p * u) / (2 * k + 3) as real + Series(p * u * u, u, k + 2, n)
  {
  }

  lemma LastTerms(n: nat)
    requires n == 0 || n == 1
    ensures 0.00000000096800 < Series(0.0000000298023223876953125, 0.25, 12, n + 6) < 0.00000000096830
  {
    if n == 0 {
      assert 0.00000000096800 < Series(0.0000000298023223876953125, 0.25, 12, 6) < 0.00000000096830;
    } else {
      assert 0.00000000096800 < Series(0.0000000298023223876953125, 0.25, 12, 7) < 0.00000000096830;
    }
  }

  /** The terms of 1/2 after the eighth. */
  lemma FirstTail(n: nat)
    requires n == 0 || n == 1
    ensures 0.0000003668925 < Series(0.00000762939453125, 0.25, 8, n + 10) < 0.0000003668932
  {
    hide Series;
    LastTerms(n);
    Pair(0.00000762939453125, 0.25, 8, n + 8);
    Pair(0.000000476837158203125, 0.25, 10, n + 6);
  }

  lemma FirstSeries(n: nat)
    requires n == 0 || n == 1
    ensures 0.463647608999 < Series(0.5, 0.25, 0, n + 18) < 0.463647609002
  {
    FirstTail(n);
    Pair(0.5, 0.25, 0, n + 16);
    Pair(0.03125, 0.25, 2, n + 14);
    Pair(0.001953125, 0.25, 4, n + 12);
    Pair(0.0001220703125, 0.25, 6, n + 10);
    hide Series;
  }

  lemma FirstEntry(n: nat)
    requires n == 9
    ensures Entry(0.5, 0x12e4051d9, n)
  {
    FirstSeries(2 * n - 18);
    FirstSeries(2 * n - 17);
  }

  lemma Entry1()
    ensures Entry(0.25, 0x09fb385b5, 4)
  {
  }

  lemma Entry2()
    ensures Entry(0.125, 0x051111d41, 3)
  {
  }

  lemma Entry3()
    ensures Entry(0.0625, 0x028b0d430, 2)
  {
  }

  lemma Entries4And5()
    ensures Entry(0.03125, 0x0145d7e15, 2)
    ensures Entry(0.015625, 0x00a2f61e5, 2)
  {
  }

  lemma Entries6To8()
    ensures Entry(0.0078125, 0x00517c551, 1)
    ensures Entry(0.00390625, 0x0028be534, 1)
    ensures Entry(0.001953125, 0x00145f2eb, 1)
  {
  }

  lemma Entries9To11()
    ensures Entry(0.0009765625, 0x000a2f980, 1)
    ensures Entry(0.00048828125, 0x000517cc1, 1)
    ensures Entry(0.000244140625, 0x00028be60, 1)
  {
  }

  lemma EarlyHalves()
    ensures Half(1) == 0.5 && Half(2) == 0.25 && Half(3) == 0.125 && Half(4) == 0.0625
    ensures Half(5) == 0.03125 && Half(6) == 0.015625 && Half(7) == 0.0078125 && Half(8) == 0.00390625
    ensures Half(9) == 0.001953125 && Half(10) == 0.0009765625
    ensures Half(11) == 0.00048828125 && Half(12) == 0.000244140625
  {
  }

  function Terms(i: nat): nat {
    if i == 0 then 9 else if i == 1 then 4 else if i == 2 then 3 else if i <= 5 then 2 else 1
  }

  /** What the table has at i, less one for the first entry, the only one that is rounded up. */
  function Lower(i: nat): int {
    if i == 0 then Angle(i) - 1 else Angle(i)
  }

  lemma EarlyAngles()
    ensures Angle(0) == 0x12e4051da && Angle(1) == 0x09fb385b5 && Angle(2) == 0x051111d41
    ensures Angle(3) == 0x028b0d430 && Angle(4) == 0x0145d7e15 && Angle(5) == 0x00a2f61e5
  {
  }

  lemma MiddleAngles()
    ensures Angle(6) == 0x00517c551 && Angle(7) == 0x0028be534 && Angle(8) == 0x00145f2eb
    ensures Angle(9) == 0x000a2f980 && Angle(10) == 0x000517cc1 && Angle(11) == 0x00028be60
  {
  }

  lemma EarlyEntry(i: nat)
    requires i < 12
    ensures Entry(Half(i + 1), Lower(i), Terms(i))
  {
    hide Entry, Half, Angle;
    EarlyHalves();
    EarlyAngles();
    MiddleAngles();
    FirstEntry(9);
    Entry1();
    Entry2();
    Entry3();
    Entries4And5();
    Entries6To8();
    Entries9To11();
  }

  /** 2^36 times 2^-(i+1). */
  function Whole(i: nat): real {
    Prod(UNITS, Half(i + 1))
  }

  lemma WholeHalves(i: nat)
    ensures Whole(i + 1) == Whole(i) / 2.0
  {
  }

  /** From entry 12 on the cubic term is below 0.05 units. */
  predicate Late(i: nat) {
    Margin(Whole(i), Angle(i) as real)
  }

  /** w is between a units, with some room, and a + 1 units. */
  predicate Margin(w: real, a: real) {
    Prod(a, 2.0 * PI_HIGH) + 0.05 <= w < Prod(a + 1.0, 2.0 * PI_LOW)
  }

  lemma MoreHalves(i: nat)
    ensures Whole(i + 1) == Whole(i) / 2.0 && Whole(i + 2) == Whole(i) / 4.0
    ensures Whole(i + 3) == Whole(i) / 8.0 && Whole(i + 4) == Whole(i) / 16.0
  {
    WholeHalves(i);
    WholeHalves(i + 1);
    WholeHalves(i + 2);
    WholeHalves(i + 3);
  }

  lemma LateWholes(i: nat)
    ensures Whole(12) == 8388608.0 && Whole(16) == 524288.0 && Whole(20) == 32768.0
    ensures Whole(24) == 2048.0 && Whole(28) == 128.0 && Whole(32) == 8.0
  {
    EarlyHalves();
    WholeHalves(11);
    hide Whole;
    MoreHalves(12);
    MoreHalves(16);
    MoreHalves(20);
    MoreHalves(24);
    MoreHalves(28);
  }

  lemma Late12(i: nat)
    requires 12 <= i <= 20
    ensures Late(i)
  {
    LateWholes(i);
    MoreHalves(12);
    MoreHalves(16);
    hide Whole, Half;
  }

  lemma Late20(i: nat)
    requires 20 <= i <= 28
    ensures Late(i)
  {
    LateWholes(i);
    MoreHalves(20);
    MoreHalves(24);
    hide Whole, Half;
  }

  lemma Late28(i: nat)
    requires 28 <= i <= 36
    ensures Late(i)
  {
    LateWholes(i);
    MoreHalves(28);
    MoreHalves(32);
    hide Whole, Half;
  }

  lemma ThreeTerms(x: real, u: real)
    ensures Series(x, u, 0, 2) == x - (x * u) / 3.0
    ensures Series(x, u, 0, 3) == x - (x * u) / 3.0 + ((x * u) * u) / 5.0
  {
  }

  lemma LateTerms(x: real, u: real)
    requires 0.0 < x <= 0.0001220703125 && u == x * x
    ensures 0.0 <= UNITS * (x * u) <= 0.15 && 0.0 <= (x * u) * u <= x * u
  {
    RealMono(x, 0.0001220703125, x);
    assert x * x <= 0.0001220703125 * x <= 0.00000001490116119384765625;
    RealMono(u, 0.00000001490116119384765625, x);
    assert x * u <= 0.00000001490116119384765625 * 0.0001220703125;
    assert u >= 0.0 && x * u >= 0.0;
    RealMono(u, 1.0, x * u);
    assert (x * u) * u >= 0.0;
  }

  lemma LateSeries(x: real)
    requires 0.0 < x <= 0.0001220703125
    ensures Prod(UNITS, x) - 0.05 <= Prod(UNITS, Leading(x, 2))
    ensures Prod(UNITS, Leading(x, 3)) <= Prod(UNITS, x)
  {
    hide Series;
    ThreeTerms(x, x * x);
    LateTerms(x, x * x);
  }

  lemma {:induction false} HalfBelow(i: nat)
    requires i >= 13
    ensures Half(i) <= 0.0001220703125
  {
    if i == 13 {
      EarlyHalves();
    } else {
      HalfBelow(i - 1);
    }
  }

  lemma LateBounds(w: real, low: real, high: real, a: real)
    requires Margin(w, a) && w - 0.05 <= Prod(UNITS, low) && Prod(UNITS, high) <= w
    ensures Prod(UNITS, low) >= Prod(a, 2.0 * PI_HIGH) && Prod(UNITS, high) < Prod(a + 1.0, 2.0 * PI_LOW)
  {
  }

  // ---- the table and the arctangent ----

  lemma Units(s: real, v: real, b: real, a: real, p: real)
    requires s <= v <= b && PI_LOW < p < PI_HIGH && a >= 0.0
    requires Prod(UNITS, s) >= Prod(a, 2.0 * PI_HIGH) && Prod(UNITS, b) < Prod(a + 1.0, 2.0 * PI_LOW)
    ensures Prod(a, 2.0 * p) <= Prod(UNITS, v) < Prod(a + 1.0, 2.0 * p)
  {
    hide Prod;
    ProdMono(a, 2.0 * p, 2.0 * PI_HIGH);
    ProdMono(a + 1.0, 2.0 * PI_LOW, 2.0 * p);
    ProdMono(UNITS, s, v);
    ProdMono(UNITS, v, b);
  }

  lemma FromEntry(t: Trig, x: real, a: nat, n: nat)
    requires IsTrig(t) && 0.0 < x <= 1.0 && Entry(x, a, n)
    ensures Prod(a as real, 2.0 * t.pi) <= Prod(UNITS, t.atan(x)) < Prod(a as real + 1.0, 2.0 * t.pi)
  {
    hide Leading, Prod;
    assert Leibniz(t, x, n);
    Units(Leading(x, 2 * n), t.atan(x), Leading(x, 2 * n + 1), a as real, t.pi);
  }

  lemma LateIsAtan(t: Trig, i: nat)
    requires IsTrig(t) && 12 <= i <= 36
    ensures var a := Angle(i) as real;
            Prod(a, 2.0 * t.pi) <= Prod(UNITS, t.atan(Half(i + 1))) < Prod(a + 1.0, 2.0 * t.pi)
  {
    hide Half, Angle, Leading, Prod, Margin;
    HalfBelow(i + 1);
    if i <= 20 {
      Late12(i);
    } else if i <= 28 {
      Late20(i);
    } else {
      Late28(i);
    }
    var x := Half(i + 1);
    LateSeries(x);
    LateBounds(Whole(i), Leading(x, 2), Leading(x, 3), Angle(i) as real);
    assert Leibniz(t, x, 1);
    Units(Leading(x, 2), t.atan(x), Leading(x, 3), Angle(i) as real, t.pi);
  }

  lemma LowerFacts(i: nat)
    requires i < |ANGLES|
    ensures i < 37 && Lower(i) >= 0 && Lower(i) == ANGLES[i] - if i == 0 then 1 else 0
    ensures i >= 1 ==> Lower(i) == Angle(i)
  {
    EarlyAngles();
  }

  lemma LowerIsAtan(t: Trig, i: nat)
    requires IsTrig(t) && i < |ANGLES|
    ensures var a := Lower(i) as real;
            Prod(a, 2.0 * t.pi) <= Prod(UNITS, t.atan(Half(i + 1))) < Prod(a + 1.0, 2.0 * t.pi)
  {
    hide *;
    LowerFacts(i);
    if i < 12 {
      EarlyEntry(i);
      FromEntry(t, Half(i + 1), Lower(i), Terms(i));
    } else {
      LateIsAtan(t, i);
    }
  }

  /** Entry i is the arctangent of 2^-(i+1) in units of 2^-36 turn, rounded down; the first entry
      is rounded up. */
  lemma TableIsAtan(t: Trig, i: nat)
    requires IsTrig(t) && i < |ANGLES|
    ensures var low := (ANGLES[i] - if i == 0 then 1 else 0) as real;
            low * (2.0 * t.pi) <= UNITS * t.atan(Half(i + 1)) < (low + 1.0) * (2.0 * t.pi)
  {
    hide IsTrig, Half, Lower;
    LowerFacts(i);
    LowerIsAtan(t, i);
  }
}
