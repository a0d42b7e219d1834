/** fa_dsp.vhd and sa_dsp.vhd: block averages of the turn-by-turn values. The two entities differ
    in four constants; their seven channels are alike and share the counters, so one is enough. */
module Averager {
  import opened Words
  import opened Arith

  /** Block length, half the range of the accumulator, multiplier and the unit 2^shift. */
  datatype Config = Config(len: nat, half: nat, scale: nat, unit: nat)

  const FA: Config := Config(38, 0x10_0000_0000, 110376, 0x40_0000)
  const SA: Config := Config(38000, 0x8000_0000_0000, 1766, 0x400_0000)

  predicate IsConfig(c: Config) {
    c == FA || c == SA
  }

  datatype State = State(accum: int, lat: int, cnt: nat, done: bool, blocks: u32, scaled: int)

  function Next(c: Config, a: State, rst: bool, turn: bool, latch: bool, data: s32): State
    requires IsConfig(c)
  {
    var scaled := if rst then 0 else if latch then a.lat * c.scale else a.scaled;
    if rst then State(0, a.lat, 0, false, 0, scaled)
    else if turn && a.cnt == c.len - 1 then State(data, a.accum, 0, true, (a.blocks + 1) % 0x1_0000_0000, scaled)
    else if turn then State(Wrap(data + a.accum, c.half), a.lat, a.cnt + 1, false, a.blocks, scaled)
    else a.(scaled := scaled)
  }

  /** The output word: 32 bits of the product, from the shift up. */
  function Output(c: Config, a: State): s32
    requires IsConfig(c)
  {
    Wrap(a.scaled / c.unit, 0x8000_0000)
  }

  class BlockAverager {
    const cfg: Config
    var accum: int
    var lat: int
    var cnt: nat
    var done: bool
    var blocks: u32
    var scaled: int

    ghost function Snapshot(): State
      reads this
    {
      State(accum, lat, cnt, done, blocks, scaled)
    }

    constructor (cfg: Config)
      ensures this.cfg == cfg && Snapshot() == START
    {
      this.cfg := cfg;
      accum, lat, cnt, done, blocks, scaled := 0, 0, 0, false, 0, 0;
    }

    /** One clock: `turn` is tbt_trig, `latch` is fa_trig or sa_trig. */
    method Tick(rst: bool, turn: bool, latch: bool, data: s32)
      requires IsConfig(cfg)
      modifies this
      ensures Snapshot() == Next(cfg, old(Snapshot()), rst, turn, latch, data)
    {
      // scaled output, from the old latched sum
      if rst {
        scaled := 0;
      } else if latch {
        scaled := lat * cfg.scale;
      }
      if rst {
        accum, done, cnt, blocks := 0, false, 0, 0;
      } else if turn {
        if cnt == cfg.len - 1 {
          lat := accum;
          accum := data;
          cnt := 0;
          done := true;
          blocks := (blocks + 1) % 0x1_0000_0000;
        } else {
          done := false;
          cnt := cnt + 1;
          accum := Wrap(data + accum, cfg.half);
        }
      }
    }
  }

  const START: State := State(0, 0, 0, false, 0, 0)

  // ---- whole runs ----

  datatype In = In(turn: bool, latch: bool, data: s32)

  function Run(c: Config, ins: seq<In>): State
    requires IsConfig(c)
  {
    if ins == [] then START
    else var i := ins[|ins| - 1]; Next(c, Run(c, ins[..|ins| - 1]), false, i.turn, i.latch, i.data)
  }

  /** The values on the clocks with a turn trigger. */
  function Samples(ins: seq<In>): seq<s32> {
    if ins == [] then []
    else var i := ins[|ins| - 1]; Samples(ins[..|ins| - 1]) + if i.turn then [i.data] else []
  }

  function Sum(xs: seq<s32>, from: nat, to: nat): int
    requires from <= to <= |xs|
  {
    if from == to then 0 else Sum(xs, from, to - 1) + xs[to - 1]
  }

  /** Where block b starts: the first one has no sample left over from a block before it. */
  function Begin(c: Config, b: nat): nat
    requires c.len >= 1
  {
    if b == 0 then 0 else b * c.len - 1
  }

  lemma {:induction false} SumPrefix(xs: seq<s32>, x: s32, from: nat, to: nat)
    requires from <= to <= |xs|
    ensures Sum(xs + [x], from, to) == Sum(xs, from, to)
  {
    if from < to {
      SumPrefix(xs, x, from, to - 1);
    }
  }

  lemma LastClock(c: Config, ins: seq<In>)
    requires IsConfig(c) && ins != []
    ensures var i, front := ins[|ins| - 1], ins[..|ins| - 1];
            && Run(c, ins) == Next(c, Run(c, front), false, i.turn, i.latch, i.data)
            && Samples(ins) == Samples(front) + if i.turn then [i.data] else []
  {
    hide Next;
  }

  lemma BeginStep(c: Config, m: nat)
    requires IsConfig(c)
    ensures Begin(c, m / c.len) <= m
    ensures m % c.len == c.len - 1 ==> Begin(c, m / c.len + 1) == m
  {
  }

  lemma LastBegin(c: Config, m: nat)
    requires IsConfig(c) && m >= c.len
    ensures m / c.len >= 1 && Begin(c, m / c.len - 1) <= Begin(c, m / c.len) <= m
  {
    BeginStep(c, m);
  }

  /** The samples of the block under way. */
  function UnderWay(c: Config, xs: seq<s32>): int
    requires IsConfig(c)
  {
    BeginStep(c, |xs|);
    Sum(xs, Begin(c, |xs| / c.len), |xs|)
  }

  /** The samples of the last whole block. */
  function LastBlock(c: Config, xs: seq<s32>): int
    requires IsConfig(c) && |xs| >= c.len
  {
    LastBegin(c, |xs|);
    Sum(xs, Begin(c, |xs| / c.len - 1), Begin(c, |xs| / c.len))
  }

  /** The registers after the samples xs: the counters count samples and blocks, the accumulator
      holds the block under way, the latch the last whole block. The first block has one sample
      less than the others, because the sample that ends a block begins the next one. */
  ghost predicate Blocks(c: Config, a: State, xs: seq<s32>)
    requires IsConfig(c)
  {
    && a.cnt == |xs| % c.len
    && a.blocks == |xs| / c.len % 0x1_0000_0000
    && (a.done <==> xs != [] && |xs| % c.len == 0)
    && a.accum == Wrap(UnderWay(c, xs), c.half)
    && (|xs| >= c.len ==> a.lat == Wrap(LastBlock(c, xs), c.half))
  }

  /** A sample that does not end block b, which began at sample g. */
  lemma SameBlock(c: Config, a: State, xs: seq<s32>, latch: bool, x: s32, g: nat)
    requires IsConfig(c) && a.cnt != c.len - 1 && g <= |xs| && a.accum == Wrap(Sum(xs, g, |xs|), c.half)
    ensures var n := Next(c, a, false, true, latch, x);
            && n.cnt == a.cnt + 1 && n.blocks == a.blocks && n.lat == a.lat && !n.done
            && n.accum == Wrap(Sum(xs + [x], g, |xs| + 1), c.half)
  {
    hide Wrap;
    SumPrefix(xs, x, g, |xs|);
    WrapAgain(Sum(xs, g, |xs|), x, c.half);
  }

  /** A sample that ends the block which began at sample g. */
  lemma NextBlock(c: Config, a: State, xs: seq<s32>, latch: bool, x: s32, g: nat)
    requires IsConfig(c) && a.cnt == c.len - 1 && g <= |xs| && a.accum == Wrap(Sum(xs, g, |xs|), c.half)
    ensures var n := Next(c, a, false, true, latch, x);
            && n.cnt == 0 && n.blocks == (a.blocks + 1) % 0x1_0000_0000 && n.done
            && n.lat == Wrap(Sum(xs + [x], g, |xs|), c.half)
            && n.accum == Wrap(Sum(xs + [x], |xs|, |xs| + 1), c.half)
  {
    SumPrefix(xs, x, g, |xs|);
    assert Sum(xs + [x], |xs|, |xs| + 1) == x;
    WrapFits(x, c.half);
    hide Wrap;
  }

  /** The counters after one more of m samples. */
  lemma Counted(c: Config, m: nat)
    requires IsConfig(c)
    ensures c.len > 1 && c.half >= 1
    ensures m % c.len == c.len - 1 ==>
              (m + 1) % c.len == 0 && (m + 1) / c.len == m / c.len + 1 && m + 1 >= c.len && Begin(c, m / c.len + 1) == m
    ensures m % c.len != c.len - 1 ==>
              (m + 1) % c.len == m % c.len + 1 && (m + 1) / c.len == m / c.len && (m + 1 >= c.len ==> m >= c.len)
    ensures Begin(c, m / c.len) <= m
  {
    DivStep(m + 1, c.len);
    BeginStep(c, m);
  }

  lemma CountOn(b: nat)
    ensures (b % 0x1_0000_0000 + 1) % 0x1_0000_0000 == (b + 1) % 0x1_0000_0000
  {
  }

  lemma BlockEnds(c: Config, a: State, xs: seq<s32>, latch: bool, x: s32)
    requires IsConfig(c) && Blocks(c, a, xs) && |xs| % c.len == c.len - 1
    ensures Blocks(c, Next(c, a, false, true, latch, x), xs + [x])
  {
    Counted(c, |xs|);
    hide Next, Wrap, Sum, Begin, IsConfig;
    var b := |xs| / c.len;
    CountOn(b);
    NextBlock(c, a, xs, latch, x, Begin(c, b));
    var n := Next(c, a, false, true, latch, x);
    assert UnderWay(c, xs + [x]) == Sum(xs + [x], |xs|, |xs| + 1);
    assert LastBlock(c, xs + [x]) == Sum(xs + [x], Begin(c, b), |xs|);
    hide UnderWay, LastBlock;
  }

  lemma BlockGoesOn(c: Config, a: State, xs: seq<s32>, latch: bool, x: s32)
    requires IsConfig(c) && Blocks(c, a, xs) && |xs| % c.len != c.len - 1
    ensures Blocks(c, Next(c, a, false, true, latch, x), xs + [x])
  {
    Counted(c, |xs|);
    hide Next, Wrap, Sum, Begin, IsConfig;
    var m, b := |xs|, |xs| / c.len;
    SameBlock(c, a, xs, latch, x, Begin(c, b));
    if m >= c.len {
      LastBegin(c, m);
      SumPrefix(xs, x, Begin(c, b - 1), Begin(c, b));
    }
  }

  lemma BlocksKept(c: Config, a: State, xs: seq<s32>, latch: bool, x: s32)
    requires IsConfig(c) && Blocks(c, a, xs)
    ensures Blocks(c, Next(c, a, false, true, latch, x), xs + [x])
  {
    Counted(c, |xs|);
    hide *;
    if |xs| % c.len == c.len - 1 {
      BlockEnds(c, a, xs, latch, x);
    } else {
      BlockGoesOn(c, a, xs, latch, x);
    }
  }

  lemma NoTurn(c: Config, a: State, latch: bool, x: s32, xs: seq<s32>)
    requires IsConfig(c) && Blocks(c, a, xs)
    ensures Blocks(c, Next(c, a, false, false, latch, x), xs)
  {
    hide Wrap, Sum, Begin;
  }

  /** Which samples are in which block, for every run and every signal. */
  lemma {:induction false} BlockSums(c: Config, ins: seq<In>)
    requires IsConfig(c)
    ensures Blocks(c, Run(c, ins), Samples(ins))
  {
    hide Next;
    if ins == [] {
      WrapFits(0, c.half);
    } else {
      hide Blocks;
      var n := |ins| - 1;
      BlockSums(c, ins[..n]);
      LastClock(c, ins);
      if ins[n].turn {
        BlocksKept(c, Run(c, ins[..n]), Samples(ins[..n]), ins[n].latch, ins[n].data);
      } else {
        assert Samples(ins) == Samples(ins[..n]);
        NoTurn(c, Run(c, ins[..n]), ins[n].latch, ins[n].data, Samples(ins[..n]));
      }
    }
  }

  // ---- conservation ----

  /** The sums latched so far, oldest first. */
  function Latched(c: Config, ins: seq<In>): seq<int>
    requires IsConfig(c)
  {
    if ins == [] then []
    else var front := ins[..|ins| - 1];
      Latched(c, front) + if ins[|ins| - 1].turn && Run(c, front).cnt == c.len - 1 then [Run(c, ins).lat] else []
  }

  function Total(xs: seq<int>): int {
    if xs == [] then 0 else Total(xs[..|xs| - 1]) + xs[|xs| - 1]
  }

  lemma TotalAppend(xs: seq<int>, x: int)
    ensures Total(xs + [x]) == Total(xs) + x
  {
    assert (xs + [x])[..|xs|] == xs;
  }

  /** Every sample lies within b of zero. */
  predicate Bounded(xs: seq<s32>, b: nat) {
    forall k :: 0 <= k < |xs| ==> Abs(xs[k]) <= b
  }

  lemma {:induction false} SumBound(xs: seq<s32>, b: nat, from: nat, to: nat)
    requires Bounded(xs, b) && from <= to <= |xs|
    ensures -(b * (to - from)) <= Sum(xs, from, to) <= b * (to - from)
  {
    if from < to {
      SumBound(xs, b, from, to - 1);
      assert b * (to - from) == b * (to - 1 - from) + b;
    }
  }

  lemma BlockLength(c: Config, m: nat)
    requires IsConfig(c)
    ensures var b := m / c.len;
            && 0 <= m - Begin(c, b) <= c.len
            && (b >= 1 ==> Begin(c, b) - Begin(c, b - 1) == if b == 1 then c.len - 1 else c.len)
            && c.len == if c == FA then 38 else 38000
  {
    BeginStep(c, m);
  }

  lemma BlockFits(c: Config, xs: seq<s32>, b: nat, from: nat, to: nat)
    requires IsConfig(c) && Bounded(xs, b) && c.len * b < c.half
    requires from <= to <= |xs| && to - from <= c.len
    ensures Wrap(Sum(xs, from, to), c.half) == Sum(xs, from, to)
    ensures Abs(Sum(xs, from, to)) <= c.len * b
  {
    hide Wrap, Sum, Bounded;
    SumBound(xs, b, from, to);
    MulUp(b, to - from, c.len);
    assert b * c.len == c.len * b;
    WrapFits(Sum(xs, from, to), c.half);
  }

  /** With samples small enough for the accumulator, it and the latch are exact block sums. */
  lemma ExactSums(c: Config, ins: seq<In>, bound: nat)
    requires IsConfig(c) && Bounded(Samples(ins), bound) && c.len * bound < c.half
    ensures Run(c, ins).accum == UnderWay(c, Samples(ins))
    ensures |Samples(ins)| >= c.len ==> Run(c, ins).lat == LastBlock(c, Samples(ins)) && Abs(Run(c, ins).lat) <= c.len * bound
  {
    hide Run, Sum, Wrap, Begin, Bounded;
    var xs := Samples(ins);
    BlockSums(c, ins);
    BlockLength(c, |xs|);
    BeginStep(c, |xs|);
    var b := |xs| / c.len;
    BlockFits(c, xs, bound, Begin(c, b), |xs|);
    if |xs| >= c.len {
      LastBegin(c, |xs|);
      BlockFits(c, xs, bound, Begin(c, b - 1), Begin(c, b));
    }
  }

  lemma SumsStep(c: Config, a: State, latch: bool, x: s32)
    requires IsConfig(c)
    ensures var n := Next(c, a, false, true, latch, x);
            if a.cnt == c.len - 1 then n.lat == a.accum && n.accum == x else n.accum == Wrap(x + a.accum, c.half)
    ensures Next(c, a, false, false, latch, x).accum == a.accum
  {
  }

  /** One sample more on both sides. */
  lemma SumsAgree(t: int, accum: int, sum: int, x: int, half: int)
    requires half >= 1 && Wrap(t + accum, half) == Wrap(sum, half)
    ensures Wrap(t + accum + x, half) == Wrap(sum + x, half)
    ensures Wrap(t + Wrap(x + accum, half), half) == Wrap(sum + x, half)
  {
    hide Wrap;
    WrapAgain(t + accum, x, half);
    WrapAgain(sum, x, half);
    WrapAgain(x + accum, t, half);
  }

  lemma LatchedStep(c: Config, ins: seq<In>)
    requires IsConfig(c) && ins != []
    ensures var i, front := ins[|ins| - 1], ins[..|ins| - 1];
            Total(Latched(c, ins))
            == Total(Latched(c, front)) + if i.turn && Run(c, front).cnt == c.len - 1 then Run(c, ins).lat else 0
  {
    hide Run;
    var front := ins[..|ins| - 1];
    assert Latched(c, front) + [] == Latched(c, front);
    TotalAppend(Latched(c, front), Run(c, ins).lat);
    hide Total;
  }

  /** No sample is lost and none is counted twice: at every step the latched sums and the running
      accumulator add up to the sum of all samples, as words of the accumulator's width. */
  lemma {:induction false} Conserved(c: Config, ins: seq<In>)
    requires IsConfig(c)
    ensures Wrap(Total(Latched(c, ins)) + Run(c, ins).accum, c.half) == Wrap(Sum(Samples(ins), 0, |Samples(ins)|), c.half)
  {
    if ins != [] {
      hide Wrap, Next, Latched, Total, Run, Samples;
      var front, i := ins[..|ins| - 1], ins[|ins| - 1];
      Conserved(c, front);
      LastClock(c, ins);
      LatchedStep(c, ins);
      var a, xs := Run(c, front), Samples(front);
      SumsStep(c, a, i.latch, i.data);
      if i.turn {
        SumPrefix(xs, i.data, 0, |xs|);
        SumsAgree(Total(Latched(c, front)), a.accum, Sum(xs, 0, |xs|), i.data, c.half);
      } else {
        assert Samples(ins) == xs;
      }
    }
  }

  // ---- which signals are averaged exactly ----

  /** Whatever the triggers, the latch is the exact sum of its block for all samples within b. */
  ghost predicate AlwaysExact(c: Config, b: nat)
    requires IsConfig(c)
  {
    forall ins {:trigger Run(c, ins)} :: Bounded(Samples(ins), b) && |Samples(ins)| >= c.len ==>
      Run(c, ins).lat == LastBlock(c, Samples(ins))
  }

  function Steady(x: s32, n: nat): (ins: seq<In>)
    ensures |ins| == n && Samples(ins) == seq(n, k => x)
  {
    if n == 0 then [] else
      var front := Steady(x, n - 1);
      assert (front + [In(true, false, x)])[..n - 1] == front;
      front + [In(true, false, x)]
  }

  lemma {:induction false} SteadySum(xs: seq<s32>, x: s32, from: nat, to: nat)
    requires from <= to <= |xs| && forall k :: 0 <= k < |xs| ==> xs[k] == x
    ensures Sum(xs, from, to) == x * (to - from)
  {
    if from < to {
      SteadySum(xs, x, from, to - 1);
    }
  }

  /** Block sums are exact for every signal within b exactly when a block of them fits the
      accumulator. For the slow average that is every 32-bit signal, for the fast one it is
      signals within 1808407282. */
  lemma ExactSignals(c: Config, b: nat)
    requires IsConfig(c) && b <= 0x8000_0000
    ensures AlwaysExact(c, b) <==> c.len * b < c.half
    ensures AlwaysExact(c, b) <==> c == SA || b <= 1808407282
  {
    if c.len * b < c.half {
      forall ins {:trigger Run(c, ins)} | Bounded(Samples(ins), b) && |Samples(ins)| >= c.len
        ensures Run(c, ins).lat == LastBlock(c, Samples(ins))
      {
        ExactSums(c, ins, b);
      }
    } else {
      var ins := Steady(0 - b, 2 * c.len);
      var xs := Samples(ins);
      hide Run, Samples, Steady;
      SteadySum(xs, 0 - b, c.len - 1, 2 * c.len - 1);
      BlockSums(c, ins);
      assert LastBlock(c, xs) == 0 - b * c.len;
      assert Run(c, ins).lat != LastBlock(c, xs);
    }
  }

  // ---- accuracy ----

  lemma ScaledDown(c: Config, sum: int, bound: nat)
    requires IsConfig(c) && Abs(sum) <= c.len * bound && c.len * bound < c.half && bound <= 0x8000_0000
    ensures Wrap(sum * c.scale / c.unit, 0x8000_0000) == sum * c.scale / c.unit
    ensures var out := sum * c.scale / c.unit;
            c.unit * Abs(c.len * out - sum) <= (c.unit - c.scale * c.len) * Abs(sum) + c.unit * c.len
  {
    hide Wrap;
    var out := sum * c.scale / c.unit;
    assert -0x8000_0000 <= out < 0x8000_0000;
    WrapFits(out, 0x8000_0000);
  }

  /** The output that a latch trigger gives is the mean of the last whole block, up to one unit of
      rounding and a relative error of 16/2^22 = 1/2^18 for the fast average and of 864/2^26 for
      the slow one. Both sides are multiplied by the block length and by 2^22 or 2^26. */
  lemma OutputIsMean(c: Config, front: seq<In>, i: In, bound: nat)
    requires IsConfig(c) && i.latch && bound <= 0x8000_0000
    requires Bounded(Samples(front), bound) && c.len * bound < c.half && |Samples(front)| >= c.len
    ensures var sum, out := LastBlock(c, Samples(front)), Output(c, Run(c, front + [i]));
            && (c == FA ==> 4194304 * Abs(38 * out - sum) <= 16 * Abs(sum) + 4194304 * 38)
            && (c == SA ==> 67108864 * Abs(38000 * out - sum) <= 864 * Abs(sum) + 67108864 * 38000)
  {
    var sum := LastBlock(c, Samples(front));
    assert (front + [i])[..|front|] == front;
    assert Run(c, front + [i]).scaled == Run(c, front).lat * c.scale;
    hide Run, Wrap, Samples, LastBlock, Bounded, IsConfig;
    ExactSums(c, front, bound);
    assert Output(c, Run(c, front + [i])) == Wrap(sum * c.scale / c.unit, 0x8000_0000);
    ScaledDown(c, sum, bound);
  }

  lemma NoLatch(c: Config, a: State, i: In)
    requires IsConfig(c) && !i.latch
    ensures Next(c, a, false, i.turn, i.latch, i.data).scaled == a.scaled
  {
    hide Wrap;
  }

  lemma {:induction false} ScaledHolds(c: Config, ins: seq<In>, k: nat)
    requires IsConfig(c) && k <= |ins| && forall j :: k <= j < |ins| ==> !ins[j].latch
    ensures Run(c, ins).scaled == Run(c, ins[..k]).scaled
  {
    hide Next;
    if k == |ins| {
      assert ins[..k] == ins;
    } else {
      var front := ins[..|ins| - 1];
      assert front[..k] == ins[..k];
      ScaledHolds(c, front, k);
      NoLatch(c, Run(c, front), ins[|ins| - 1]);
    }
  }

  /** The output holds between latch triggers: after any run it is the mean, with that accuracy, of
      the block that was the last whole one when the latest latch trigger came. */
  lemma OutputHolds(c: Config, ins: seq<In>, k: nat, bound: nat)
    requires IsConfig(c) && k < |ins| && ins[k].latch && (forall j :: k < j < |ins| ==> !ins[j].latch)
    requires bound <= 0x8000_0000 && c.len * bound < c.half
    requires Bounded(Samples(ins[..k]), bound) && |Samples(ins[..k])| >= c.len
    ensures var sum, out := LastBlock(c, Samples(ins[..k])), Output(c, Run(c, ins));
            && (c == FA ==> 4194304 * Abs(38 * out - sum) <= 16 * Abs(sum) + 4194304 * 38)
            && (c == SA ==> 67108864 * Abs(38000 * out - sum) <= 864 * Abs(sum) + 67108864 * 38000)
  {
    ScaledHolds(c, ins, k + 1);
    SameOutput(c, Run(c, ins), Run(c, ins[..k + 1]));
    hide Run, Output, Wrap, Samples, LastBlock, Bounded;
    assert ins[..k] + [ins[k]] == ins[..k + 1];
    OutputIsMean(c, ins[..k], ins[k], bound);
  }

  lemma SameOutput(c: Config, a: State, b: State)
    requires IsConfig(c) && a.scaled == b.scaled
    ensures Output(c, a) == Output(c, b)
  {
  }

  /** Before the first latch trigger the output is zero. */
  lemma OutputBeforeLatch(c: Config, ins: seq<In>)
    requires IsConfig(c) && forall j :: 0 <= j < |ins| ==> !ins[j].latch
    ensures Output(c, Run(c, ins)) == 0
  {
    ScaledHolds(c, ins, 0);
    assert ins[..0] == [];
    assert Run(c, ins).scaled == 0;
    WrapFits(0, 0x8000_0000);
    hide Run, Wrap;
  }
}
