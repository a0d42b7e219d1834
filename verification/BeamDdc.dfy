/** beam_ddc.vhd: mixes the ADC signal with a sine and a cosine, filters both products and adds
    them up over each turn of the beam. The 4-tap filter path. */
module BeamDdc {
  import opened Words
  import opened FirLpDdc
  import Arith

  function Sum32(a: s32, b: s24): s32 {
    Arith.Wrap(a + b, 0x8000_0000)
  }

  lemma MixBound(din: int, carrier: int, d: int, c: int)
    requires -d <= din <= d && -c <= carrier <= c
    ensures -(d * c) <= din * carrier <= d * c
  {
    assert (d - din) * (c - carrier) >= 0 && (d + din) * (c + carrier) >= 0;
    assert (d - din) * (c + carrier) >= 0 && (d + din) * (c - carrier) >= 0;
  }

  /** One product of the multiplier; it needs 39 of its 40 bits. */
  function Mix(din: s24, carrier: s16): (p: s40)
    ensures -0x40_0000_0000 <= p <= 0x40_0000_0000
  {
    MixBound(din, carrier, 0x80_0000, 0x8000);
    din * carrier
  }

  /** Bits 39..16 of a product. */
  function High(p: s40): s24 {
    p / 0x1_0000
  }

  // ---- one clock of the in-phase or of the quadrature half ----

  datatype Arm = Arm(raw: s40, fir: Fir, filt: s24, acc: s32, sum: s32)

  /** `other` is the output of the long filter, taken instead when `sel` is set. */
  function NextArm(a: Arm, rst: bool, trig: bool, sel: bool, din: s24, carrier: s16, other: s24): Arm {
    Arm(Mix(din, carrier),
        Next(a.fir, rst, High(a.raw)),
        if sel then other else a.fir.dout,
        if rst || trig then 0 else Sum32(a.acc, a.filt),
        if rst then 0 else if trig then a.acc else a.sum)
  }

  class Ddc {
    const ifilt: Filter
    const qfilt: Filter
    var iraw: s40
    var qraw: s40
    var ifir: s24
    var qfir: s24
    var iacc: s32
    var qacc: s32
    var isum: s32
    var qsum: s32

    ghost predicate Valid()
      reads this, ifilt, qfilt
    {
      && ifilt.Valid() && qfilt.Valid() && ifilt != qfilt
      && ifilt.tap != qfilt.tap && ifilt.tap != qfilt.sum && ifilt.sum != qfilt.tap && ifilt.sum != qfilt.sum
    }

    ghost function InPhase(): Arm
      requires Valid()
      reads this, ifilt, ifilt.tap, ifilt.sum, qfilt
    {
      Arm(iraw, ifilt.Snapshot(), ifir, iacc, isum)
    }

    ghost function Quadrature(): Arm
      requires Valid()
      reads this, ifilt, qfilt, qfilt.tap, qfilt.sum
    {
      Arm(qraw, qfilt.Snapshot(), qfir, qacc, qsum)
    }

    constructor ()
      ensures Valid()
    {
      iraw, qraw, ifir, qfir, iacc, qacc, isum, qsum := 0, 0, 0, 0, 0, 0, 0, 0;
      var f := new Filter();
      var g := new Filter();
      ifilt, qfilt := f, g;
    }

    /** One clock, every register from the old values of the others. */
    method Tick(rst: bool, trig: bool, sel: bool, din: s24, sine: s16, cos: s16, iother: s24, qother: s24)
      requires Valid()
      modifies this, ifilt, ifilt.tap, ifilt.sum, qfilt, qfilt.tap, qfilt.sum
      ensures Valid()
      ensures InPhase() == NextArm(old(InPhase()), rst, trig, sel, din, cos, iother)
      ensures Quadrature() == NextArm(old(Quadrature()), rst, trig, sel, din, sine, qother)
    {
      hide Next, Sum32, Mix, High;
      // accumulate, from the old filtered values
      if rst {
        isum, qsum, iacc, qacc := 0, 0, 0, 0;
      } else if trig {
        isum, qsum, iacc, qacc := iacc, qacc, 0, 0;
      } else {
        iacc, qacc := Sum32(iacc, ifir), Sum32(qacc, qfir);
      }
      // choice of filter, from the old filter outputs
      if sel {
        ifir, qfir := iother, qother;
      } else {
        ifir, qfir := ifilt.dout, qfilt.dout;
      }
      ifilt.Tick(rst, High(iraw));
      qfilt.Tick(rst, High(qraw));
      iraw, qraw := Mix(din, cos), Mix(din, sine);
    }
  }

  /** With the long filter selected its output is what is accumulated, one clock later. */
  lemma OtherFilter(a: Arm, trig: bool, din: s24, carrier: s16, other: s24, sel: bool, din': s24, carrier': s16, other': s24)
    ensures var b := NextArm(a, false, trig, true, din, carrier, other);
            var acc: int := if trig then 0 else Arith.Wrap(a.acc + a.filt, 0x8000_0000);
            NextArm(b, false, false, sel, din', carrier', other').acc == Arith.Wrap(acc + other, 0x8000_0000)
  {
    hide Next, Mix, High, Arith.Wrap;
  }

  // ---- whole runs of one half ----

  datatype In = In(trig: bool, din: s24, carrier: s16)

  function ArmRun(a: Arm, ins: seq<In>): Arm {
    if ins == [] then a
    else var i := ins[|ins| - 1];
      NextArm(ArmRun(a, ins[..|ins| - 1]), false, i.trig, false, i.din, i.carrier, 0)
  }

  /** The samples that the multiplier gives, scaled down to 24 bits. */
  function Mixed(ins: seq<In>): (m: seq<s24>)
    ensures |m| == |ins|
    ensures forall k :: 0 <= k < |ins| ==> m[k] == High(Mix(ins[k].din, ins[k].carrier))
  {
    if ins == [] then [] else
      var i := ins[|ins| - 1];
      Mixed(ins[..|ins| - 1]) + [High(Mix(i.din, i.carrier))]
  }

  /** What the accumulator is given on clock k: the four mixed samples from k - 8 to k - 5,
      weighted by the coefficients and rounded down. */
  function Filtered(ins: seq<In>, k: nat): int
    requires 8 <= k <= |ins|
  {
    Conv(Mixed(ins), k - 5) / 0x1_0000
  }

  /** The exact sum of the filtered samples of the clocks from `from` up to `to`. */
  function Total(ins: seq<In>, from: nat, to: nat): int
    requires 8 <= from <= to <= |ins|
    decreases |ins| - from
  {
    if from == to then 0 else Filtered(ins, from) + Total(ins, from + 1, to)
  }

  lemma LastClock(a: Arm, ins: seq<In>)
    requires ins != []
    ensures var g, r, i := ArmRun(a, ins[..|ins| - 1]), ArmRun(a, ins), ins[|ins| - 1];
            && r.raw == Mix(i.din, i.carrier)
            && r.fir == Next(g.fir, false, High(g.raw))
            && r.filt == g.fir.dout
            && r.acc == (if i.trig then 0 else Sum32(g.acc, g.filt))
            && r.sum == (if i.trig then g.acc else g.sum)
  {
    hide Next, Sum32, Mix, High;
  }

  lemma {:induction false} FirOfArm(a: Arm, ins: seq<In>)
    requires |ins| >= 1
    ensures ArmRun(a, ins).fir == Run(ArmRun(a, ins[..1]).fir, Mixed(ins[..|ins| - 1]))
  {
    hide Next, NextArm, Mix, High;
    var n := |ins| - 1;
    if n == 0 {
      assert ins[..1] == ins;
    } else {
      var front := ins[..n];
      assert front[..1] == ins[..1] && front[..n - 1] == ins[..n - 1];
      FirOfArm(a, front);
      LastClock(a, ins);
      LastClock(a, front);
      assert Mixed(front)[..n - 1] == Mixed(front[..n - 1]);
    }
  }

  lemma MixedPrefix(ins: seq<In>, n: nat)
    requires n <= |ins|
    ensures Mixed(ins[..n]) == Mixed(ins)[..n]
  {
  }

  /** Once eight clocks have filled the pipeline, whatever it held before. */
  lemma FilteredIs(a: Arm, ins: seq<In>, k: nat)
    requires 8 <= k <= |ins|
    ensures ArmRun(a, ins[..k]).filt == Filtered(ins, k)
  {
    hide Next, NextArm, Run, Mixed;
    var front := ins[..k - 1];
    assert ins[..k][..k - 1] == front;
    LastClock(a, ins[..k]);
    FirOfArm(a, front);
    assert front[..k - 2] == ins[..k - 2];
    MixedPrefix(ins, k - 2);
    RefinesConvolution(ArmRun(a, front[..1]).fir, Mixed(ins[..k - 2]));
  }

  lemma {:induction false} TotalStep(ins: seq<In>, from: nat, to: nat)
    requires 8 <= from <= to < |ins|
    ensures Total(ins, from, to + 1) == Total(ins, from, to) + Filtered(ins, to)
    decreases |ins| - from
  {
    hide Filtered;
    if from < to {
      TotalStep(ins, from + 1, to);
    }
  }

  /** No trigger on the clocks from s + 1 up to k. */
  ghost predicate Quiet(ins: seq<In>, s: nat, k: nat) {
    s < k <= |ins| && ins[s].trig && forall j :: s < j < k ==> !ins[j].trig
  }

  lemma {:induction false} Accumulates(a: Arm, ins: seq<In>, s: nat, k: nat)
    requires s >= 7 && Quiet(ins, s, k)
    ensures ArmRun(a, ins[..k]).acc == Arith.Wrap(Total(ins, s + 1, k), 0x8000_0000)
  {
    hide Next, NextArm, Filtered, ArmRun, Arith.Wrap;
    assert ins[..k][..k - 1] == ins[..k - 1];
    LastClock(a, ins[..k]);
    if k == s + 1 {
      Arith.WrapFits(0, 0x8000_0000);
    } else {
      Accumulates(a, ins, s, k - 1);
      FilteredIs(a, ins, k - 1);
      TotalStep(ins, s + 1, k - 1);
      Arith.WrapAgain(Total(ins, s + 1, k - 1), Filtered(ins, k - 1), 0x8000_0000);
    }
  }

  /** Two triggers, on clocks s and s + 1 + n, with n clocks between them and the pipeline filled
      before the first. */
  ghost predicate Turn(ins: seq<In>, s: nat, n: nat) {
    7 <= s && s + 1 + n < |ins| && Quiet(ins, s, s + 1 + n) && ins[s + 1 + n].trig
  }

  /** The turn sum is the sum of the filtered samples of the clocks strictly between two
      triggers, as a 32-bit word: no sample is lost and none is counted in two turns. */
  lemma TurnSum(a: Arm, ins: seq<In>, s: nat, n: nat)
    requires Turn(ins, s, n)
    ensures ArmRun(a, ins[..s + n + 2]).sum == Arith.Wrap(Total(ins, s + 1, s + 1 + n), 0x8000_0000)
  {
    hide Next, NextArm, Filtered, ArmRun, Arith.Wrap, Total;
    var e := s + 1 + n;
    assert ins[..e + 1][..e] == ins[..e];
    LastClock(a, ins[..e + 1]);
    Accumulates(a, ins, s, e);
  }

  // ---- no turn of up to 512 clocks overflows ----

  /** The carriers of the two tables: none of them holds the most negative 16-bit number. */
  predicate Carriers(ins: seq<In>) {
    forall k :: 0 <= k < |ins| ==> -0x7FFF <= ins[k].carrier <= 0x7FFF
  }

  const PEAK: int := 4194176   // 2^23 * 32767 / 2^16

  lemma MixedBound(ins: seq<In>, k: nat)
    requires Carriers(ins) && k < |ins|
    ensures -PEAK <= Mixed(ins)[k] <= PEAK
  {
    var i := ins[k];
    MixBound(i.din, i.carrier, 0x80_0000, 0x7FFF);
    assert -(PEAK * 0x1_0000) <= i.din * i.carrier <= PEAK * 0x1_0000;
  }

  lemma FilteredBound(ins: seq<In>, k: nat)
    requires Carriers(ins) && 8 <= k <= |ins|
    ensures -PEAK <= Filtered(ins, k) <= PEAK
  {
    hide Mixed, Carriers;
    MixedBound(ins, k - 5);
    MixedBound(ins, k - 6);
    MixedBound(ins, k - 7);
    MixedBound(ins, k - 8);
  }

  lemma {:induction false} TotalBound(ins: seq<In>, from: nat, to: nat)
    requires Carriers(ins) && 8 <= from <= to <= |ins|
    ensures -PEAK * (to - from) <= Total(ins, from, to) <= PEAK * (to - from)
    decreases |ins| - from
  {
    hide Filtered, Carriers;
    if from < to {
      FilteredBound(ins, from);
      TotalBound(ins, from + 1, to);
    }
  }

  /** The turn sum of every turn of n clocks between its triggers is exact. */
  ghost predicate AlwaysExact(n: nat) {
    forall a: Arm, ins: seq<In>, s: nat {:trigger ArmRun(a, ins), Turn(ins, s, n)} ::
      Carriers(ins) && Turn(ins, s, n) && |ins| == s + n + 2 ==> ArmRun(a, ins).sum == Total(ins, s + 1, s + 1 + n)
  }

  function Loudest(n: nat): (ins: seq<In>)
    ensures |ins| == n
    ensures forall k :: 0 <= k < n ==> ins[k].din == -0x80_0000 && ins[k].carrier == -0x7FFF
  {
    seq(n, k => In(false, -0x80_0000, -0x7FFF))
  }

  lemma {:induction false} LoudestTotal(ins: seq<In>, from: nat, to: nat)
    requires forall k :: 0 <= k < |ins| ==> ins[k].din == -0x80_0000 && ins[k].carrier == -0x7FFF
    requires 8 <= from <= to <= |ins|
    ensures Total(ins, from, to) == PEAK * (to - from)
    decreases |ins| - from
  {
    if from < to {
      LoudestTotal(ins, from + 1, to);
      hide Total;
      assert Mix(-0x80_0000, -0x7FFF) == PEAK * 0x1_0000;
      assert forall k :: 0 <= k < |ins| ==> Mixed(ins)[k] == PEAK;
    }
  }

  /** Turn sums are exact for every signal and every carrier exactly when there are at most 512
      clocks between two triggers. */
  lemma TurnExact(n: nat)
    ensures AlwaysExact(n) <==> n <= 512
  {
    hide Total, ArmRun, Mixed;
    if n <= 512 {
      hide Carriers;
      forall a: Arm, ins: seq<In>, s: nat {:trigger ArmRun(a, ins), Turn(ins, s, n)}
        | Carriers(ins) && Turn(ins, s, n) && |ins| == s + n + 2
        ensures ArmRun(a, ins).sum == Total(ins, s + 1, s + 1 + n)
      {
        TurnSum(a, ins, s, n);
        assert ins[..s + n + 2] == ins;
        TotalBound(ins, s + 1, s + 1 + n);
      }
    } else {
      var a := Arm(0, Fir([0, 0, 0, 0], [0, 0, 0, 0], 0), 0, 0, 0);
      var quiet := Loudest(n + 9);
      var t := In(true, -0x80_0000, -0x7FFF);
      var ins := quiet[7 := t][n + 8 := t];
      assert Turn(ins, 7, n);
      LoudestTotal(ins, 8, 8 + n);
      assert ArmRun(a, ins).sum != Total(ins, 8, 8 + n);
    }
  }
}
