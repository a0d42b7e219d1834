/** fir_lp_ddc.vhd: a 4-tap low-pass filter in transposed form. */
module FirLpDdc {
  import opened Words
  import Arith

  /** One register of each of the four stages. */
  type Four = s: seq<s40> | |s| == 4 witness [0, 0, 0, 0]

  const COEF: seq<int> := [0x21D1, 0x5E2F, 0x5E2F, 0x21D1]

  function Sum40(a: s40, b: s40): s40 {
    Arith.Wrap(a + b, 0x80_0000_0000)
  }

  // ---- one clock ----

  datatype Fir = Fir(tap: Four, sum: Four, dout: s24)

  function Next(f: Fir, rst: bool, din: s24): Fir {
    Fir([din * COEF[3], din * COEF[2], din * COEF[1], din * COEF[0]],
        [f.tap[0], Sum40(f.tap[1], f.sum[0]), Sum40(f.tap[2], f.sum[1]), Sum40(f.tap[3], f.sum[2])],
        if rst then 0 else f.sum[3] / 0x1_0000)
  }

  class Filter {
    const tap: array<s40>
    const sum: array<s40>
    var dout: s24

    ghost predicate Valid()
      reads this
    {
      tap.Length == 4 && sum.Length == 4 && tap != sum
    }

    ghost function Snapshot(): Fir
      requires Valid()
      reads this, tap, sum
    {
      Fir(tap[..], sum[..], dout)
    }

    constructor ()
      ensures Valid() && fresh(tap) && fresh(sum)
    {
      tap, sum := new s40[4], new s40[4];
      dout := 0;
    }

    /** One clock, every register from the old values of the others. */
    method Tick(rst: bool, din: s24)
      requires Valid()
      modifies this, tap, sum
      ensures Valid() && Snapshot() == Next(old(Snapshot()), rst, din)
    {
      dout := if rst then 0 else sum[3] / 0x1_0000;
      sum[3] := Sum40(tap[3], sum[2]);
      sum[2] := Sum40(tap[2], sum[1]);
      sum[1] := Sum40(tap[1], sum[0]);
      sum[0] := tap[0];
      tap[0] := din * COEF[3];
      tap[1] := din * COEF[2];
      tap[2] := din * COEF[1];
      tap[3] := din * COEF[0];
    }
  }

  // ---- whole runs ----

  function Run(f: Fir, xs: seq<s24>): Fir {
    if xs == [] then f else Next(Run(f, xs[..|xs| - 1]), false, xs[|xs| - 1])
  }

  /** The direct convolution of the coefficients with the four samples up to xs[k]. */
  function Conv(xs: seq<s24>, k: nat): int
    requires 3 <= k < |xs|
  {
    COEF[0] * xs[k] + COEF[1] * xs[k - 1] + COEF[2] * xs[k - 2] + COEF[3] * xs[k - 3]
  }

  lemma ConvFits(xs: seq<s24>, k: nat)
    requires 3 <= k < |xs|
    ensures -0x80_0000_0000 <= Conv(xs, k) < 0x80_0000_0000
  {
  }

  lemma LastStep(f: Fir, xs: seq<s24>)
    requires |xs| >= 1
    ensures var g, r := Run(f, xs[..|xs| - 1]), Run(f, xs);
            && r.sum[0] == g.tap[0]
            && r.sum[1] == Sum40(g.tap[1], g.sum[0])
            && r.sum[2] == Sum40(g.tap[2], g.sum[1])
            && r.sum[3] == Sum40(g.tap[3], g.sum[2])
            && r.dout == g.sum[3] / 0x1_0000
  {
    hide Sum40;
  }

  lemma Taps(f: Fir, xs: seq<s24>)
    requires |xs| >= 1
    ensures forall j :: 0 <= j < 4 ==> Run(f, xs).tap[j] == COEF[3 - j] * xs[|xs| - 1]
  {
  }

  lemma Sum0(f: Fir, xs: seq<s24>)
    requires |xs| >= 2
    ensures Run(f, xs).sum[0] == COEF[3] * xs[|xs| - 2]
  {
    hide Run, Next;
    LastStep(f, xs);
    Taps(f, xs[..|xs| - 1]);
  }

  lemma Sum1(f: Fir, xs: seq<s24>)
    requires |xs| >= 3
    ensures Run(f, xs).sum[1] == COEF[2] * xs[|xs| - 2] + COEF[3] * xs[|xs| - 3]
  {
    hide Run, Next;
    LastStep(f, xs);
    Taps(f, xs[..|xs| - 1]);
    Sum0(f, xs[..|xs| - 1]);
  }

  lemma Sum2(f: Fir, xs: seq<s24>)
    requires |xs| >= 4
    ensures Run(f, xs).sum[2] == COEF[1] * xs[|xs| - 2] + COEF[2] * xs[|xs| - 3] + COEF[3] * xs[|xs| - 4]
  {
    hide Run, Next;
    LastStep(f, xs);
    Taps(f, xs[..|xs| - 1]);
    Sum1(f, xs[..|xs| - 1]);
  }

  lemma Sum3(f: Fir, xs: seq<s24>)
    requires |xs| >= 5
    ensures Run(f, xs).sum[3] == Conv(xs, |xs| - 2)
  {
    hide Run, Next;
    LastStep(f, xs);
    Taps(f, xs[..|xs| - 1]);
    Sum2(f, xs[..|xs| - 1]);
    ConvFits(xs, |xs| - 2);
  }

  /** Whatever the registers hold at first, from the sixth clock on the pipeline's output is the
      direct convolution of the samples, rounded down to 24 bits, three clocks late; no sum
      on the way leaves its 40 bits. */
  lemma RefinesConvolution(f: Fir, xs: seq<s24>)
    requires |xs| >= 6
    ensures Run(f, xs).dout == Conv(xs, |xs| - 3) / 0x1_0000
  {
    hide Run, Next;
    LastStep(f, xs);
    Sum3(f, xs[..|xs| - 1]);
  }

  /** The output lies between the least and the greatest of its four samples, because the
      coefficients add up to exactly 65536. */
  lemma StaysBetween(f: Fir, xs: seq<s24>, lo: int, hi: int)
    requires |xs| >= 6 && forall k :: |xs| - 6 <= k <= |xs| - 3 ==> lo <= xs[k] <= hi
    ensures lo <= Run(f, xs).dout <= hi
  {
    hide Run;
    RefinesConvolution(f, xs);
    var n := |xs|;
    assert xs[n - 3] >= lo && xs[n - 4] >= lo && xs[n - 5] >= lo && xs[n - 6] >= lo;
    assert 0x1_0000 * lo <= Conv(xs, n - 3) <= 0x1_0000 * hi;
  }

  // ---- the response in numbers ----

  /** The four samples that meet in the output after xs, latest first. */
  function Window(xs: seq<s24>): (w: seq<int>)
    requires |xs| >= 6
    ensures |w| == 4
  {
    [xs[|xs| - 3], xs[|xs| - 4], xs[|xs| - 5], xs[|xs| - 6]]
  }

  lemma OutputOf(f: Fir, xs: seq<s24>)
    requires |xs| >= 6
    ensures var w := Window(xs);
            Run(f, xs).dout == (8657 * (w[0] + w[3]) + 24111 * (w[1] + w[2])) / 0x1_0000
  {
    hide Run;
    RefinesConvolution(f, xs);
  }

  /** A lone sample v among zeros, wherever it is, comes out three clocks later over four clocks as
      8657, 24111, 24111 and 8657 parts of 65536 of v: a lone 65536 as those numbers. */
  lemma ImpulseResponse(f: Fir, xs: seq<s24>, p: nat)
    requires |xs| >= 6 && p < |xs| && forall k :: 0 <= k < |xs| && k != p ==> xs[k] == 0
    ensures var age, v: int, out := |xs| - 1 - p, xs[p], Run(f, xs).dout;
            && (age == 2 || age == 5 ==> out == 8657 * v / 0x1_0000)
            && (age == 3 || age == 4 ==> out == 24111 * v / 0x1_0000)
            && (age < 2 || age > 5 ==> out == 0)
            && (v == 0x1_0000 ==> out == if age == 2 || age == 5 then 8657 else if age == 3 || age == 4 then 24111 else 0)
  {
    hide Run;
    OutputOf(f, xs);
  }

  /** A steady input comes out as it is. */
  lemma SteadyPasses(f: Fir, xs: seq<s24>, x: s24)
    requires |xs| >= 6 && Window(xs) == [x, x, x, x]
    ensures Run(f, xs).dout == x
  {
    hide Run;
    OutputOf(f, xs);
    assert forall k :: 0 <= k < 4 ==> Window(xs)[k] == x;
  }

  /** An input that alternates in sign, half the sampling rate, is removed altogether. */
  lemma AlternatingRemoved(f: Fir, xs: seq<s24>, x: s24)
    requires |xs| >= 6 && x > -0x80_0000 && Window(xs) == [x, -x, x, -x]
    ensures Run(f, xs).dout == 0
  {
    hide Run;
    OutputOf(f, xs);
    assert Window(xs)[0] == x && Window(xs)[1] == -x && Window(xs)[2] == x && Window(xs)[3] == -x;
  }

  /** Linear phase: the four samples in reverse order give the same output. */
  lemma ReversedWindow(f: Fir, g: Fir, xs: seq<s24>, ys: seq<s24>)
    requires |xs| >= 6 && |ys| >= 6
    requires forall k :: 0 <= k < 4 ==> Window(ys)[k] == Window(xs)[3 - k]
    ensures Run(f, xs).dout == Run(g, ys).dout
  {
    hide Run;
    OutputOf(f, xs);
    OutputOf(g, ys);
    assert Window(ys)[0] == Window(xs)[3] && Window(ys)[1] == Window(xs)[2];
  }
}
