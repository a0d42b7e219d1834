/** trig_logic and the three DMA writers running together on the ADC clock: what the trigger
    pulses, the latch, the completion counter and the software handshake keep. */
module DmaSystem {
  import opened Words
  import opened DmaModules

  /** The machines, and what an observer counts: trigger pulses, completions, the completions at
      the time of the latest pulse, and the clocks since a writer was last active. */
  datatype Sys = Sys(
    t: Trig, adc: Adc, tbt: Writer, fa: Writer,
    pulses: nat, completions: nat, mark: nat, quiet: nat
  )

  datatype In = In(softSource: bool, evr: bool, soft: bool, txDone: bool, ts: nat,
                   adcLen: u32, tbtLen: u32, faLen: u32, tbtStrobe: bool, faStrobe: bool, sample: nat -> nat)

  /** control.c clamps every burst length to at least 1000. */
  predicate Lengths(i: In) {
    i.adcLen >= 1 && i.tbtLen >= 1 && i.faLen >= 1
  }

  const LOW: Sync := Sync(false, false, false)
  const EMPTY: Writer := Writer(Idle, 0, 0, false, false, Payload(0, 0))

  function Reset(): Sys {
    Sys(Trig(false, false, false, false, 0, 0, LOW, LOW), Adc(false, 0, false, false), EMPTY, EMPTY, 0, 0, 0, 0)
  }

  /** dma_active of each writer is "length not zero". */
  predicate IsActive(y: Sys) {
    y.adc.len != 0 || y.tbt.len != 0 || y.fa.len != 0
  }

  predicate AllIdle(y: Sys) {
    !y.adc.busy && y.tbt.state.Idle? && y.fa.state.Idle?
  }

  function Tick(y: Sys, i: In): Sys {
    var t := NextTrig(y.t, TrigIn(false, i.softSource, i.evr, i.soft, i.txDone, i.ts), IsActive(y));
    var completions := y.completions + if y.t.done then 1 else 0;
    Sys(t,
        NextAdc(y.adc, false, y.t.trig, i.adcLen),
        NextWriter(y.tbt, TBT_WORDS, WriterIn(false, y.t.trig, i.tbtLen, i.tbtStrobe, i.sample)),
        NextWriter(y.fa, FA_WORDS, WriterIn(false, y.t.trig, i.faLen, i.faStrobe, i.sample)),
        y.pulses + (if t.trig then 1 else 0),
        completions,
        if t.trig then completions else y.mark,
        if IsActive(y) then 0 else y.quiet + 1)
  }

  function Run(y: Sys, ins: seq<In>): Sys {
    if ins == [] then y else Tick(Run(y, ins[..|ins| - 1]), ins[|ins| - 1])
  }

  // ---- the writers ----

  /** A writer that is not recording has nothing left; one that waits for a strobe has. */
  ghost predicate WriterOk(w: Writer, words: nat) {
    && (w.state.Idle? ==> w.len == 0)
    && (w.state.Active? ==> w.len >= 1)
    && (w.state.Write? ==> w.state.k < words)
  }

  ghost predicate AdcOk(a: Adc) {
    a.busy <==> a.len != 0
  }

  /** A writer whose length has been zero for `q` clocks has at most words - q words to write. */
  ghost predicate Draining(w: Writer, q: nat) {
    w.len == 0 && w.state.Write? ==> w.state.k >= q
  }

  ghost predicate WritersOk(y: Sys) {
    && AdcOk(y.adc) && WriterOk(y.tbt, TBT_WORDS) && WriterOk(y.fa, FA_WORDS)
    && (!IsActive(y) ==> Draining(y.tbt, y.quiet) && Draining(y.fa, y.quiet))
  }

  lemma WritersStay(y: Sys, i: In)
    requires WritersOk(y) && Lengths(i)
    ensures WritersOk(Tick(y, i))
    ensures !IsActive(y) && IsActive(Tick(y, i)) ==> y.t.trig
    ensures AllIdle(y) && !y.t.trig ==> AllIdle(Tick(y, i))
  {
    hide NextTrig;
  }

  // ---- the counter never runs ahead of the pulses ----

  function One(b: bool): nat {
    if b then 1 else 0
  }

  /** Every completion, counted or on its way, has used up a pulse of its own. */
  ghost predicate Credit(y: Sys) {
    && y.completions + One(y.t.done) + One(y.t.running) + One(IsActive(y) && !y.t.running) + One(y.t.trig) <= y.pulses
    && y.t.cnt == y.completions % WORD32
  }

  lemma CreditStays(y: Sys, i: In)
    requires WritersOk(y) && Lengths(i) && Credit(y)
    ensures Credit(Tick(y, i))
  {
    hide NextAdc, NextWriter, WritersOk, IsActive;
    WritersStay(y, i);
  }

  /** trig_cnt is the number of completions modulo 2^32, and there are never more completions than
      trigger pulses, whatever the inputs do. */
  lemma {:induction false} CountNeverExceedsPulses(ins: seq<In>)
    requires forall i <- ins :: Lengths(i)
    ensures var y := Run(Reset(), ins);
            WritersOk(y) && Credit(y) && y.completions <= y.pulses && y.t.cnt == y.completions % WORD32
  {
    if ins != [] {
      var y, i := Run(Reset(), ins[..|ins| - 1]), ins[|ins| - 1];
      CountNeverExceedsPulses(ins[..|ins| - 1]);
      hide Tick, WritersOk;
      WritersStay(y, i);
      CreditStays(y, i);
    }
  }

  // ---- pulses are separated by a set and cleared latch ----

  lemma RunStep(y: Sys, ins: seq<In>, k: nat)
    requires k < |ins|
    ensures Run(y, ins[..k + 1]) == Tick(Run(y, ins[..k]), ins[k])
  {
    assert ins[..k + 1][..k] == ins[..k];
  }

  /** A pulse is out, the latch has not seen it yet, and the source selected now has an edge too. */
  predicate Doubles(y: Sys, i: In) {
    y.t.trig && !y.t.lat && Selected(y.t, i.softSource).Rise()
  }

  ghost predicate Clean(ins: seq<In>) {
    forall k :: 0 <= k < |ins| ==> !Doubles(Run(Reset(), ins[..k]), ins[k])
  }

  lemma CleanPrefix(ins: seq<In>, n: nat)
    requires Clean(ins) && n <= |ins|
    ensures Clean(ins[..n])
  {
    forall k | 0 <= k < n
      ensures !Doubles(Run(Reset(), ins[..n][..k]), ins[..n][k])
    {
      assert ins[..n][..k] == ins[..k];
    }
  }

  /** A pulse finds the latch low. */
  predicate LowAtPulse(y: Sys) {
    y.t.trig ==> !y.t.lat
  }

  lemma PulseStep(y: Sys, i: In)
    requires LowAtPulse(y)
    ensures y.t.trig ==> Tick(y, i).t.lat && (Tick(y, i).t.trig <==> Doubles(y, i))
    ensures !Doubles(y, i) ==> LowAtPulse(Tick(y, i))
  {
    hide NextAdc, NextWriter;
  }

  lemma {:induction false} LowAtPulses(ins: seq<In>)
    requires Clean(ins)
    ensures LowAtPulse(Run(Reset(), ins))
  {
    if ins != [] {
      var n := |ins| - 1;
      CleanPrefix(ins, n);
      LowAtPulses(ins[..n]);
      assert !Doubles(Run(Reset(), ins[..n]), ins[n]);
      hide Tick, LowAtPulse, Doubles;
      PulseStep(Run(Reset(), ins[..n]), ins[n]);
    }
  }

  /** The latch stays set, and no pulse comes, until software clears it. */
  lemma {:induction false} LatchHolds(ins: seq<In>, from: nat, to: nat)
    requires from <= to <= |ins|
    requires var y := Run(Reset(), ins[..from]); y.t.lat && !y.t.trig
    requires forall m :: from <= m < to ==> !ins[m].txDone
    ensures var y := Run(Reset(), ins[..to]); y.t.lat && !y.t.trig
  {
    if from < to {
      LatchHolds(ins, from, to - 1);
      RunStep(Reset(), ins, to - 1);
      LatchStep(Run(Reset(), ins[..to - 1]), ins[to - 1]);
    }
  }

  lemma LatchStep(y: Sys, i: In)
    requires y.t.lat && !y.t.trig
    ensures !i.txDone ==> Tick(y, i).t.lat
    ensures i.txDone ==> !Tick(y, i).t.lat
    ensures !Tick(y, i).t.trig
  {
    hide NextAdc, NextWriter;
  }

  /** txtoioc_done takes the latch down on clock m. */
  ghost predicate Clears(ins: seq<In>, m: nat)
    requires m < |ins|
  {
    ins[m].txDone && Run(Reset(), ins[..m]).t.lat && !Run(Reset(), ins[..m + 1]).t.lat
  }

  /** Between the pulses of clocks a and b the latch is set right after the first and cleared by
      txtoioc_done before the second. */
  ghost predicate Apart(ins: seq<In>, a: nat, b: nat)
    requires a < b <= |ins|
  {
    && a + 1 < b && Run(Reset(), ins[..a + 1]).t.lat
    && exists m :: a < m < b && Clears(ins, m)
  }

  ghost predicate PulseAt(ins: seq<In>, k: nat)
    requires k <= |ins|
  {
    Run(Reset(), ins[..k]).t.trig
  }

  ghost predicate Separated(ins: seq<In>) {
    forall a: nat, b: nat | a < b <= |ins| && PulseAt(ins, a) && PulseAt(ins, b) :: Apart(ins, a, b)
  }

  lemma CleanApart(ins: seq<In>, a: nat, b: nat)
    requires Clean(ins) && a < b <= |ins| && PulseAt(ins, a) && PulseAt(ins, b)
    ensures Apart(ins, a, b)
  {
    hide Run, Tick, LowAtPulse, Doubles;
    CleanPrefix(ins, a);
    LowAtPulses(ins[..a]);
    RunStep(Reset(), ins, a);
    PulseStep(Run(Reset(), ins[..a]), ins[a]);
    assert !Doubles(Run(Reset(), ins[..a]), ins[a]);
    assert a + 1 < b;
    var m := FirstDone(ins, a + 1, b);
    LatchHolds(ins, a + 1, m);
    assert m < b;
    RunStep(Reset(), ins, m);
    LatchStep(Run(Reset(), ins[..m]), ins[m]);
    assert Clears(ins, m);
  }

  /** The first clock from `from` on with txtoioc_done, or `to`. */
  function FirstDone(ins: seq<In>, from: nat, to: nat): (m: nat)
    requires from <= to <= |ins|
    ensures from <= m <= to
    ensures forall j :: from <= j < m ==> !ins[j].txDone
    ensures m < to ==> ins[m].txDone
    decreases |ins| - from
  {
    if from == to || ins[from].txDone then from else FirstDone(ins, from + 1, to)
  }

  lemma DoublesAreNotApart(ins: seq<In>, k: nat)
    requires k < |ins| && Doubles(Run(Reset(), ins[..k]), ins[k])
    ensures PulseAt(ins, k) && PulseAt(ins, k + 1) && !Apart(ins, k, k + 1)
  {
    RunStep(Reset(), ins, k);
    hide NextAdc, NextWriter;
    PulseStep(Run(Reset(), ins[..k]), ins[k]);
  }

  /** Whatever the inputs do, trigsrc included: any two trigger pulses have the latch set and
      cleared between them if and only if no pulse that the latch has yet to see meets an edge of
      the source selected on that clock. */
  lemma SeparatedExact(ins: seq<In>)
    ensures Separated(ins) <==> Clean(ins)
  {
    hide Doubles, Apart, PulseAt;
    if Clean(ins) {
      forall a: nat, b: nat | a < b <= |ins| && PulseAt(ins, a) && PulseAt(ins, b)
        ensures Apart(ins, a, b)
      {
        CleanApart(ins, a, b);
      }
    } else {
      var k :| 0 <= k < |ins| && Doubles(Run(Reset(), ins[..k]), ins[k]);
      DoublesAreNotApart(ins, k);
    }
  }

  ghost predicate Fixed(ins: seq<In>, softSource: bool) {
    forall i <- ins :: i.softSource == softSource
  }

  /** trigsrc changes only on clocks on which the status register shows the latch set. */
  ghost predicate SwitchedWhileLatched(ins: seq<In>) {
    forall k :: 1 <= k < |ins| && ins[k].softSource != ins[k - 1].softSource ==> Run(Reset(), ins[..k]).t.lat
  }

  /** Right after a pulse the synchroniser that gave it is past its edge. */
  lemma PastEdge(y: Sys, i: In)
    ensures Tick(y, i).t.trig ==> !Selected(Tick(y, i).t, i.softSource).Rise()
  {
    hide NextAdc, NextWriter;
  }

  /** Software that switches the trigger source only while the latch reads 1, or never, keeps
      the pulses separated. */
  lemma PulsesSeparated(ins: seq<In>)
    requires SwitchedWhileLatched(ins)
    ensures Clean(ins) && Separated(ins)
  {
    hide Tick, Separated;
    forall k | 0 <= k < |ins|
      ensures !Doubles(Run(Reset(), ins[..k]), ins[k])
    {
      if k == 0 {
        assert ins[..0] == [];
      } else {
        RunStep(Reset(), ins, k - 1);
        PastEdge(Run(Reset(), ins[..k - 1]), ins[k - 1]);
      }
    }
    SeparatedExact(ins);
  }

  lemma FixedIsSwitchedWhileLatched(ins: seq<In>, softSource: bool)
    requires Fixed(ins, softSource)
    ensures SwitchedWhileLatched(ins)
  {
  }

  const QUIET_IN: In := In(false, false, false, false, 0, 1, 1, 1, false, false, _ => 0)

  /** A switch with the latch low: trigsrc changes between two edges one clock apart, and pulses
      come on consecutive clocks with no latch between them. */
  lemma SourceSwitchDoublesPulse()
    ensures var ins := [QUIET_IN.(evr := true), QUIET_IN.(soft := true), QUIET_IN, QUIET_IN.(softSource := true)];
            PulseAt(ins, 3) && PulseAt(ins, 4) && !Separated(ins)
  {
    var ins := [QUIET_IN.(evr := true), QUIET_IN.(soft := true), QUIET_IN, QUIET_IN.(softSource := true)];
    assert ins[..0] == [];
    RunStep(Reset(), ins, 0);
    RunStep(Reset(), ins, 1);
    RunStep(Reset(), ins, 2);
    hide NextAdc, NextWriter, IsActive;
    var y1 := Tick(Reset(), ins[0]);
    assert y1.t.evr == Sync(true, false, false) && y1.t.soft == LOW && !y1.t.trig && !y1.t.lat;
    var y2 := Tick(y1, ins[1]);
    assert y2.t.evr == Sync(false, true, false) && y2.t.soft == Sync(true, false, false) && !y2.t.trig && !y2.t.lat;
    var y3 := Tick(y2, ins[2]);
    assert y3.t.trig && !y3.t.lat && y3.t.soft == Sync(false, true, false);
    DoublesAreNotApart(ins, 3);
  }

  /** The latched timestamp is the one of the clock after the latest pulse, until the next. */
  lemma {:induction false} StampOfPulse(ins: seq<In>, a: nat, b: nat)
    requires a < b <= |ins| && Run(Reset(), ins[..a]).t.trig
    requires forall m :: a < m < b ==> !Run(Reset(), ins[..m]).t.trig
    ensures Run(Reset(), ins[..b]).t.ts == ins[a].ts
  {
    hide Tick, Run, Reset;
    RunStep(Reset(), ins, b - 1);
    StampStep(Run(Reset(), ins[..b - 1]), ins[b - 1]);
    if a < b - 1 {
      StampOfPulse(ins, a, b - 1);
    }
  }

  lemma StampStep(y: Sys, i: In)
    ensures Tick(y, i).t.ts == if y.t.trig then i.ts else y.t.ts
  {
    hide NextAdc, NextWriter;
  }

  // ---- the software handshake ----

  /** Software raises txtoioc_done only after the count has moved since the latest pulse. */
  predicate Polite(y: Sys, i: In) {
    i.txDone ==> y.completions > y.mark
  }

  ghost predicate PoliteRun(ins: seq<In>) {
    forall k :: 0 <= k < |ins| ==> Polite(Run(Reset(), ins[..k]), ins[k])
  }

  lemma PolitePrefix(ins: seq<In>, n: nat)
    requires PoliteRun(ins) && n <= |ins|
    ensures PoliteRun(ins[..n])
  {
    forall k | 0 <= k < n
      ensures Polite(Run(Reset(), ins[..n][..k]), ins[..n][k])
    {
      assert ins[..n][..k] == ins[..k];
    }
  }

  ghost predicate Accounted(y: Sys) {
    && (!y.t.lat && !y.t.trig ==> y.pulses == y.completions)
    && y.pulses <= y.completions + 1
    && (y.pulses >= 1 ==> y.mark == y.pulses - 1)
    && (y.pulses == 0 ==> y.mark == 0 && !y.t.lat && !y.t.trig)
  }

  lemma AccountedStays(y: Sys, i: In)
    requires WritersOk(y) && Lengths(i) && Credit(y) && LowAtPulse(y) && !Doubles(y, i) && Accounted(y) && Polite(y, i)
    ensures Accounted(Tick(y, i))
  {
    WritersStay(y, i);
    CreditStays(y, i);
    hide NextAdc, NextWriter, WritersOk, IsActive;
  }

  lemma {:induction false} AccountedAlways(ins: seq<In>)
    requires Clean(ins) && PoliteRun(ins) && forall i <- ins :: Lengths(i)
    ensures Accounted(Run(Reset(), ins))
  {
    if ins != [] {
      var n := |ins| - 1;
      var y := Run(Reset(), ins[..n]);
      PolitePrefix(ins, n);
      CleanPrefix(ins, n);
      AccountedAlways(ins[..n]);
      CountNeverExceedsPulses(ins[..n]);
      LowAtPulses(ins[..n]);
      assert Polite(y, ins[n]) && !Doubles(y, ins[n]);
      hide Tick, WritersOk, Credit, LowAtPulse, Accounted, Polite, Doubles;
      AccountedStays(y, ins[n]);
    }
  }

  /** With separated pulses and a polite handshake the pulses lead the count by at most one, and
      by none whenever no trigger is pending. */
  lemma PulsesLeadByOne(ins: seq<In>)
    requires Separated(ins) && PoliteRun(ins) && forall i <- ins :: Lengths(i)
    ensures var y := Run(Reset(), ins);
            && y.completions <= y.pulses <= y.completions + 1
            && (!y.t.lat && !y.t.trig ==> y.pulses == y.completions)
  {
    hide Separated;
    SeparatedExact(ins);
    AccountedAlways(ins);
    CountNeverExceedsPulses(ins);
  }
}
