/** One BPM channel from the ADC to the CORDIC: both carrier tables, both halves of the
    down-converter and the conversion of the turn sums (tbt_dsp.vhd and beam_ddc.vhd). */
module BeamMagnitude {
  import opened Words
  import opened BeamDdc
  import opened FirLpDdc
  import BeamRom
  import Arith
  import Cordic
  import CordicPolar

  datatype Channel = Channel(i: Arm, q: Arm, cos: BeamRom.Rom, sine: BeamRom.Rom)

  datatype Clock = Clock(trig: bool, din: s24)

  /** One clock of all of it, on the short filter's path and out of reset. */
  function Tick(c: Channel, t: Clock): Channel {
    BeamRom.Lengths();
    Channel(
      NextArm(c.i, false, t.trig, false, t.din, c.cos.dout, 0),
      NextArm(c.q, false, t.trig, false, t.din, c.sine.dout, 0),
      BeamRom.Next(BeamRom.COS, c.cos, false, t.trig),
      BeamRom.Next(BeamRom.SINE, c.sine, false, t.trig))
  }

  function Run(c: Channel, ts: seq<Clock>): Channel {
    if ts == [] then c else Tick(Run(c, ts[..|ts| - 1]), ts[|ts| - 1])
  }

  /** What the two multipliers are given on each clock. */
  function Inputs(c: Channel, ts: seq<Clock>): (r: (seq<In>, seq<In>))
    ensures |r.0| == |r.1| == |ts|
  {
    if ts == [] then ([], []) else
      var front := ts[..|ts| - 1];
      var t, m := ts[|ts| - 1], Run(c, front);
      var r := Inputs(c, front);
      (r.0 + [In(t.trig, t.din, m.cos.dout)], r.1 + [In(t.trig, t.din, m.sine.dout)])
  }

  lemma {:induction false} HalvesRun(c: Channel, ts: seq<Clock>)
    ensures Run(c, ts).i == ArmRun(c.i, Inputs(c, ts).0)
    ensures Run(c, ts).q == ArmRun(c.q, Inputs(c, ts).1)
  {
    hide NextArm;
    if ts != [] {
      var front := ts[..|ts| - 1];
      HalvesRun(c, front);
      var r := Inputs(c, ts);
      assert r.0[..|ts| - 1] == Inputs(c, front).0;
      assert r.1[..|ts| - 1] == Inputs(c, front).1;
    }
  }

  /** Same signal and same triggers in both halves, carriers from one point of the circle. */
  ghost predicate Paired(a: seq<In>, b: seq<In>) {
    |a| == |b| && forall k :: 0 <= k < |a| ==>
      a[k].trig == b[k].trig && a[k].din == b[k].din && BeamRom.InCircle(a[k].carrier, b[k].carrier)
  }

  lemma {:induction false} InputsPaired(c: Channel, ts: seq<Clock>)
    requires BeamRom.Pair(c.cos, c.sine)
    ensures Paired(Inputs(c, ts).0, Inputs(c, ts).1) && BeamRom.Pair(Run(c, ts).cos, Run(c, ts).sine)
  {
    hide NextArm, BeamRom.InCircle, BeamRom.COS, BeamRom.SINE;
    if ts != [] {
      InputsPaired(c, ts[..|ts| - 1]);
      BeamRom.TablesOnCircle(Run(c, ts[..|ts| - 1]).cos.addr);
    }
  }

  // ---- the length of the turn vector ----

  const PAIR_PEAK: int := 5929473

  lemma HighBound(p: s40)
    ensures 0x1_0000 * Abs(High(p)) <= Abs(p) + 0xFFFF
  {
  }

  lemma AbsProduct(d: int, c: int)
    ensures Abs(d * c) == Abs(d) * Abs(c)
  {
    if d < 0 {
      assert -d * c == -(d * c) && -d * -c == d * c;
    } else {
      assert d * -c == -(d * c);
      if c >= 0 {
        Arith.MulUp(d, 0, c);
      } else {
        Arith.MulUp(d, 0, -c);
      }
    }
  }

  lemma MixedPair(a: seq<In>, b: seq<In>, k: nat)
    requires Paired(a, b) && k < |a|
    ensures Abs(Mixed(a)[k]) + Abs(Mixed(b)[k]) <= PAIR_PEAK
  {
    var d, c, s := a[k].din, a[k].carrier, b[k].carrier;
    HighBound(Mix(d, c));
    HighBound(Mix(d, s));
    hide High, Paired;
    AbsProduct(d, c);
    AbsProduct(d, s);
    assert Abs(d) * Abs(c) + Abs(d) * Abs(s) == Abs(d) * (Abs(c) + Abs(s));
    BeamDdc.MixBound(Abs(d), Abs(c) + Abs(s), 0x80_0000, 46324);
  }

  lemma ConvAbs(m: seq<s24>, k: nat)
    requires 3 <= k < |m|
    ensures Abs(Conv(m, k)) <= COEF[0] * Abs(m[k]) + COEF[1] * Abs(m[k - 1]) + COEF[2] * Abs(m[k - 2]) + COEF[3] * Abs(m[k - 3])
  {
  }

  lemma FloorPair(a: int, b: int, p: int)
    requires Abs(a) + Abs(b) <= 0x1_0000 * p
    ensures Abs(a / 0x1_0000) + Abs(b / 0x1_0000) <= p + 1
  {
    assert 0x1_0000 * Abs(a / 0x1_0000) <= Abs(a) + 0xFFFF;
    assert 0x1_0000 * Abs(b / 0x1_0000) <= Abs(b) + 0xFFFF;
  }

  lemma ConvPair(a: seq<s24>, b: seq<s24>, k: nat)
    requires 3 <= k < |a| && |a| == |b|
    requires forall j :: k - 3 <= j <= k ==> Abs(a[j]) + Abs(b[j]) <= PAIR_PEAK
    ensures Abs(Conv(a, k)) + Abs(Conv(b, k)) <= 0x1_0000 * PAIR_PEAK
  {
    ConvAbs(a, k);
    ConvAbs(b, k);
    hide Conv, Abs;
    assert Abs(a[k]) + Abs(b[k]) <= PAIR_PEAK && Abs(a[k - 1]) + Abs(b[k - 1]) <= PAIR_PEAK;
    assert Abs(a[k - 2]) + Abs(b[k - 2]) <= PAIR_PEAK && Abs(a[k - 3]) + Abs(b[k - 3]) <= PAIR_PEAK;
  }

  lemma FilteredPair(a: seq<In>, b: seq<In>, k: nat)
    requires Paired(a, b) && 8 <= k <= |a|
    ensures Abs(Filtered(a, k)) + Abs(Filtered(b, k)) <= PAIR_PEAK + 1
  {
    assert |a| == |b|;
    hide Mixed, Conv, Abs, Paired, PAIR_PEAK;
    forall j | k - 8 <= j <= k - 5
      ensures Abs(Mixed(a)[j]) + Abs(Mixed(b)[j]) <= PAIR_PEAK
    {
      MixedPair(a, b, j);
    }
    ConvPair(Mixed(a), Mixed(b), k - 5);
    FloorPair(Conv(Mixed(a), k - 5), Conv(Mixed(b), k - 5), PAIR_PEAK);
  }

  lemma {:induction false} TotalPair(a: seq<In>, b: seq<In>, from: nat, to: nat)
    requires Paired(a, b) && 8 <= from <= to <= |a|
    ensures Abs(Total(a, from, to)) + Abs(Total(b, from, to)) <= (PAIR_PEAK + 1) * (to - from)
    decreases |a| - from
  {
    hide Filtered, Paired;
    if from < to {
      FilteredPair(a, b, from);
      TotalPair(a, b, from + 1, to);
    }
  }

  /** What the CORDIC is given: bits 31..3 of a turn sum. */
  function Scaled(sum: s32): int {
    sum / 8
  }

  /** The magnitude that comes out for any turn of up to 439 clocks is never negative, whatever the
      signal: the turn vector is then short enough for the 26-bit word. */
  lemma MagnitudeNotNegative(c: Channel, ts: seq<Clock>, s: nat, n: nat)
    requires BeamRom.Pair(c.cos, c.sine) && Turn(Inputs(c, ts).0, s, n) && |ts| == s + n + 2 && n <= 439
    ensures var m := Run(c, ts);
            Cordic.Input(Scaled(m.i.sum), Scaled(m.q.sum)) && CordicPolar.OutMag(Scaled(m.i.sum), Scaled(m.q.sum)) >= 0
  {
    hide *;
    TurnVector(c, ts, s, n);
    var m := Run(c, ts);
    ScaledFits(m.i.sum, m.q.sum);
    ShortVector(Scaled(m.i.sum), Scaled(m.q.sum));
  }

  lemma PairedTurn(a: seq<In>, b: seq<In>, s: nat, n: nat)
    requires Paired(a, b) && Turn(a, s, n)
    ensures Turn(b, s, n) && Carriers(a) && Carriers(b)
  {
  }

  lemma TurnVector(c: Channel, ts: seq<Clock>, s: nat, n: nat)
    requires BeamRom.Pair(c.cos, c.sine) && Turn(Inputs(c, ts).0, s, n) && |ts| == s + n + 2 && n <= 439
    ensures var m := Run(c, ts);
            && m.i.sum == Total(Inputs(c, ts).0, s + 1, s + 1 + n)
            && m.q.sum == Total(Inputs(c, ts).1, s + 1, s + 1 + n)
            && Abs(Scaled(m.i.sum)) + Abs(Scaled(m.q.sum)) <= 325379889
  {
    hide Run, Inputs, Total, ArmRun, Paired, Arith.Wrap, BeamRom.Pair;
    var r := Inputs(c, ts);
    HalvesRun(c, ts);
    InputsPaired(c, ts);
    PairedTurn(r.0, r.1, s, n);
    hide Turn, Carriers;
    assert r.0[..s + n + 2] == r.0 && r.1[..s + n + 2] == r.1;
    TurnSum(c.i, r.0, s, n);
    TurnSum(c.q, r.1, s, n);
    TotalBound(r.0, s + 1, s + 1 + n);
    TotalBound(r.1, s + 1, s + 1 + n);
    Arith.WrapFits(Total(r.0, s + 1, s + 1 + n), 0x8000_0000);
    Arith.WrapFits(Total(r.1, s + 1, s + 1 + n), 0x8000_0000);
    TotalPair(r.0, r.1, s + 1, s + 1 + n);
  }

  lemma ScaledFits(isum: s32, qsum: s32)
    ensures Cordic.Input(Scaled(isum), Scaled(qsum))
    ensures 8 * Scaled(isum) <= isum < 8 * Scaled(isum) + 8 && 8 * Scaled(qsum) <= qsum < 8 * Scaled(qsum) + 8
  {
  }

  lemma SquareSum(x: int, y: int, b: int)
    requires Abs(x) + Abs(y) <= b
    ensures x * x + y * y <= b * b
  {
    var u, v := Abs(x), Abs(y);
    assert x * x == u * u && y * y == v * v by {
      assert -x * -x == x * x && -y * -y == y * y;
    }
    hide Abs;
    Arith.MulUp(u, 0, v);
    Arith.MulUp(b, u + v, b);
    Arith.MulUp(u + v, u + v, b);
    assert (u + v) * (u + v) == u * u + v * v + 2 * (u * v);
  }

  lemma RealSquares(x: int, y: int)
    ensures CordicPolar.Sq(x as real) + CordicPolar.Sq(y as real) == (x * x + y * y) as real
  {
  }

  lemma ShortVector(x: int, y: int)
    requires Cordic.Input(x, y) && Abs(x) + Abs(y) <= 325379889
    ensures CordicPolar.OutMag(x, y) >= 0
  {
    hide *;
    CordicPolar.MagnitudeSign(x, y);
    SquareSum(x, y, 325379889);
    RealSquares(x, y);
    ScaleDown(x * x + y * y);
  }

  lemma ScaleDown(r: int)
    requires r <= 325379889 * 325379889
    ensures 694.22592 * r as real <= 73786967498745184256.0
  {
    assert r as real <= 105872072165652321.0;
  }
}
