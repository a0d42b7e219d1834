/** How long software has to leave the DMA writers alone before it clears the trigger latch, so that
    the next trigger starts all three bursts: six clocks, and no fewer do. */
module DmaWait {
  import opened Words
  import opened DmaModules
  import opened DmaSystem

  /** Software raises txtoioc_done only after the writers have been inactive for `q` clocks. */
  predicate Waits(y: Sys, i: In, q: nat) {
    i.txDone ==> y.quiet >= q
  }

  ghost predicate WaitRun(ins: seq<In>, q: nat) {
    forall k :: 0 <= k < |ins| ==> Waits(Run(Reset(), ins[..k]), ins[k], q)
  }

  const ENOUGH: nat := 6

  // ---- six clocks are enough ----

  /** Every writer that still has words to write is on its last one. */
  predicate Ready(y: Sys) {
    && (y.t.trig ==> AllIdle(y))
    && (!y.t.lat ==> AllIdle(y) || (!IsActive(y) && y.quiet > ENOUGH))
  }

  lemma ReadyStays(y: Sys, i: In)
    requires WritersOk(y) && Lengths(i) && Credit(y) && LowAtPulse(y) && !Doubles(y, i) && Accounted(y) && Polite(y, i)
    requires Ready(y) && Waits(y, i, ENOUGH)
    ensures Ready(Tick(y, i))
  {
    WritersStay(y, i);
    if y.t.lat && i.txDone {
      assert y.completions == y.pulses;
      assert !IsActive(y);
      assert !IsActive(Tick(y, i));
    } else if !y.t.lat && !y.t.trig && !AllIdle(y) {
      assert AllIdle(Tick(y, i));
    }
    hide NextAdc, NextWriter, WritersOk, IsActive, AllIdle;
  }

  lemma {:induction false} ReadyAlways(ins: seq<In>)
    requires Clean(ins) && PoliteRun(ins) && WaitRun(ins, ENOUGH) && forall i <- ins :: Lengths(i)
    ensures Ready(Run(Reset(), ins))
  {
    if ins == [] {
      assert Run(Reset(), []) == Reset();
    } else {
      var n := |ins| - 1;
      WaitPrefix(ins, n);
      PolitePrefix(ins, n);
      CleanPrefix(ins, n);
      ReadyAlways(ins[..n]);
      AccountedAlways(ins[..n]);
      CountNeverExceedsPulses(ins[..n]);
      LowAtPulses(ins[..n]);
      hide Tick, WritersOk, Credit, LowAtPulse, Accounted, Polite, Waits, Ready, Doubles, Lengths;
      LastClock(ins, n);
      ReadyStays(Run(Reset(), ins[..n]), ins[n]);
    }
  }

  lemma WaitPrefix(ins: seq<In>, n: nat)
    requires WaitRun(ins, ENOUGH) && n <= |ins|
    ensures WaitRun(ins[..n], ENOUGH)
  {
    forall k | 0 <= k < n
      ensures Waits(Run(Reset(), ins[..n][..k]), ins[..n][k], ENOUGH)
    {
      assert ins[..n][..k] == ins[..k];
    }
  }

  lemma LastClock(ins: seq<In>, n: nat)
    requires n < |ins| && Clean(ins) && PoliteRun(ins) && WaitRun(ins, ENOUGH)
    ensures var y := Run(Reset(), ins[..n]);
            !Doubles(y, ins[n]) && Polite(y, ins[n]) && Waits(y, ins[n], ENOUGH)
  {
    hide Run, Doubles, Polite, Waits;
  }

  /** The clock after a pulse: all three writers take up their bursts. */
  ghost predicate Starts(y: Sys, i: In) {
    var y' := Tick(y, i);
    && y'.adc.busy && y'.adc.len == i.adcLen
    && y'.tbt.state == Active && y'.tbt.len == i.tbtLen
    && y'.fa.state == Active && y'.fa.len == i.faLen
  }

  /** When software in addition waits until the writers have been inactive for 6 clocks, every
      trigger pulse finds all three writers idle and starts all three bursts. */
  lemma EveryPulseStartsThreeBursts(ins: seq<In>, i: In)
    requires Clean(ins) && PoliteRun(ins) && WaitRun(ins, ENOUGH) && forall j <- ins :: Lengths(j)
    requires Run(Reset(), ins).t.trig
    ensures AllIdle(Run(Reset(), ins)) && Starts(Run(Reset(), ins), i)
  {
    ReadyAlways(ins);
    hide NextTrig, Run;
  }

  // ---- five are not, whatever the burst lengths ----

  datatype Lens = Lens(adc: u32, tbt: u32, fa: u32)

  predicate Programmed(i: In, n: Lens) {
    i.adcLen == n.adc && i.tbtLen == n.tbt && i.faLen == n.fa
  }

  /** Everything asked of one clock's input. */
  predicate Good(y: Sys, i: In, n: Lens, q: nat) {
    !Doubles(y, i) && Polite(y, i) && Waits(y, i, q) && Programmed(i, n)
  }

  ghost predicate GoodRun(y: Sys, ins: seq<In>, n: Lens, q: nat) {
    forall k :: 0 <= k < |ins| ==> Good(Run(y, ins[..k]), ins[k], n, q)
  }

  lemma {:induction false} RunOnward(y: Sys, a: seq<In>, b: seq<In>)
    ensures Run(y, a + b) == Run(Run(y, a), b)
  {
    if b == [] {
      assert a + b == a;
    } else {
      assert (a + b)[..|a + b| - 1] == a + b[..|b| - 1];
      RunOnward(y, a, b[..|b| - 1]);
    }
  }

  lemma GoodOnward(y: Sys, a: seq<In>, b: seq<In>, n: Lens, q: nat)
    requires GoodRun(y, a, n, q) && GoodRun(Run(y, a), b, n, q)
    ensures GoodRun(y, a + b, n, q) && Run(y, a + b) == Run(Run(y, a), b)
  {
    hide Run, Good;
    RunOnward(y, a, b);
    forall k | 0 <= k < |a + b|
      ensures Good(Run(y, (a + b)[..k]), (a + b)[k], n, q)
    {
      if k < |a| {
        assert (a + b)[..k] == a[..k];
      } else {
        assert (a + b)[..k] == a + b[..k - |a|];
        RunOnward(y, a, b[..k - |a|]);
        assert Good(Run(Run(y, a), b[..k - |a|]), b[k - |a|], n, q);
      }
    }
  }

  lemma GoodOne(y: Sys, i: In, n: Lens, q: nat)
    requires Good(y, i, n, q)
    ensures GoodRun(y, [i], n, q) && Run(y, [i]) == Tick(y, i)
  {
    assert [i][..0] == [];
    hide Tick, Good;
    assert Run(y, []) == y;
  }

  function Input(n: Lens, evr: bool, txDone: bool, tbtStrobe: bool): In {
    In(false, evr, false, txDone, 0, n.adc, n.tbt, n.fa, tbtStrobe, true, _ => 0)
  }

  /** A trigger has been taken, nothing has completed, and the TbT writer has records to go. */
  ghost predicate Pending(y: Sys) {
    && WritersOk(y) && y.t.lat && !y.t.trig && !y.t.done && y.t.evr == LOW && y.t.soft == LOW
    && y.completions == y.mark
    && !y.tbt.state.Idle? && y.tbt.len >= 1
  }

  /** Only the last TbT record is left, and it has not been strobed yet. */
  ghost predicate OneLeft(y: Sys) {
    Pending(y) && !y.adc.busy && y.fa.state.Idle? && y.tbt.state.Active? && y.tbt.len == 1
  }

  /** From reset, an edge of the trigger input starts the three bursts. */
  lemma FirstTrigger(n: Lens, q: nat) returns (ins: seq<In>)
    requires n.adc >= 1 && n.tbt >= 1 && n.fa >= 1
    ensures GoodRun(Reset(), ins, n, q) && Pending(Run(Reset(), ins))
  {
    var edge, low := Input(n, true, false, false), Input(n, false, false, false);
    var y1 := Tick(Reset(), edge);
    var y2 := Tick(y1, low);
    var y3 := Tick(y2, low);
    var y4 := Tick(y3, low);
    assert y1.t.evr == Sync(true, false, false) && y1.t.soft == LOW && !y1.t.trig && !y1.t.lat && AllIdle(y1) && !IsActive(y1);
    assert y2.t.evr == Sync(false, true, false) && y2.t.soft == LOW && !y2.t.trig && !y2.t.lat && AllIdle(y2) && !IsActive(y2);
    assert y3.t.trig && !y3.t.lat && y3.t.soft == LOW && y3.completions == y3.mark && AllIdle(y3) && !IsActive(y3);
    assert Pending(y4);
    hide Tick, Pending;
    GoodOne(Reset(), edge, n, q);
    GoodOne(y1, low, n, q);
    GoodOne(y2, low, n, q);
    GoodOne(y3, low, n, q);
    GoodOnward(Reset(), [edge], [low], n, q);
    GoodOnward(Reset(), [edge] + [low], [low], n, q);
    GoodOnward(Reset(), [edge] + [low] + [low], [low], n, q);
    ins := [edge] + [low] + [low] + [low];
  }

  /** Clocks' worth of work left in a record writer, under a held strobe. */
  function WriterWork(w: Writer): nat {
    10 * w.len + match w.state case Idle => 0 case Active => 0 case Write(k) => Max(9 - k, 0)
  }

  function Work(y: Sys): nat {
    y.adc.len + WriterWork(y.tbt) + WriterWork(y.fa)
  }

  lemma DrainStep(y: Sys, n: Lens, q: nat)
    requires n.adc >= 1 && n.tbt >= 1 && n.fa >= 1 && Pending(y) && !OneLeft(y)
    ensures var i := Input(n, false, false, y.tbt.len > 1); Good(y, i, n, q) && Pending(Tick(y, i)) && Work(Tick(y, i)) < Work(y)
  {
    var i := Input(n, false, false, y.tbt.len > 1);
    WritersStay(y, i);
    hide WritersOk;
  }

  /** Under held strobes, except for the very last TbT record, everything else runs out. */
  lemma {:induction false} Drain(y: Sys, n: Lens, q: nat) returns (ins: seq<In>)
    requires n.adc >= 1 && n.tbt >= 1 && n.fa >= 1 && Pending(y)
    ensures GoodRun(y, ins, n, q) && OneLeft(Run(y, ins))
    decreases Work(y)
  {
    if OneLeft(y) {
      return [];
    }
    DrainStep(y, n, q);
    hide OneLeft, Pending, Good, Tick;
    var i := Input(n, false, false, y.tbt.len > 1);
    GoodOne(y, i, n, q);
    var rest := Drain(Tick(y, i), n, q);
    GoodOnward(y, [i], rest, n, q);
    ins := [i] + rest;
  }

  // The last eight clocks: the last record is strobed on clock 0, the next trigger's edge comes in
  // on clock 5, and software clears the latch on clock 6.

  function Last(n: Lens, k: nat): In {
    Input(n, k == 5, k == 6, k == 0)
  }

  /** The machines k clocks after that strobe. */
  ghost predicate Ending(y: Sys, k: nat)
    requires k >= 1
  {
    && y.tbt.state == Write(k - 1) && y.tbt.len == 0 && !y.adc.busy && y.adc.len == 0 && y.fa.state.Idle? && y.fa.len == 0
    && y.t.lat == (k < 7) && y.t.trig == (k == 8) && y.t.running == (k == 1) && y.t.done == (k == 2)
    && (k < 8 ==> y.completions == y.mark + One(k >= 3))
    && y.quiet == k - 1
    && y.t.evr == Sync(k == 6, k == 7, k == 8) && y.t.soft == LOW
  }

  lemma FirstEnding(y: Sys, n: Lens, q: nat)
    requires OneLeft(y)
    ensures Good(y, Last(n, 0), n, q) && Ending(Tick(y, Last(n, 0)), 1)
  {
  }

  lemma EndingStep(y: Sys, n: Lens, k: nat, q: nat)
    requires 1 <= k < 8 && q < ENOUGH && Ending(y, k)
    ensures Good(y, Last(n, k), n, q) && Ending(Tick(y, Last(n, k)), k + 1)
  {
  }

  lemma {:induction false} End(y: Sys, n: Lens, k: nat, q: nat) returns (ins: seq<In>)
    requires OneLeft(y) && 1 <= k <= 8 && q < ENOUGH
    ensures GoodRun(y, ins, n, q) && Ending(Run(y, ins), k)
  {
    hide OneLeft, Ending, Good, Tick;
    if k == 1 {
      FirstEnding(y, n, q);
      GoodOne(y, Last(n, 0), n, q);
      ins := [Last(n, 0)];
    } else {
      ins := End(y, n, k - 1, q);
      EndingStep(Run(y, ins), n, k - 1, q);
      GoodOne(Run(y, ins), Last(n, k - 1), n, q);
      GoodOnward(y, ins, [Last(n, k - 1)], n, q);
      ins := ins + [Last(n, k - 1)];
    }
  }

  /** Whatever the burst lengths, software that waits five clocks or fewer can lose a burst: the
      pulse comes while the TbT writer puts out the last word, and it does not start again. */
  lemma ShortWaitLosesBurst(n: Lens, q: nat) returns (ins: seq<In>)
    requires n.adc >= 1 && n.tbt >= 1 && n.fa >= 1 && q < ENOUGH
    ensures GoodRun(Reset(), ins, n, q) && Run(Reset(), ins).t.trig
    ensures forall i :: Tick(Run(Reset(), ins), i).tbt.state.Idle?
  {
    hide Tick, Pending, OneLeft, Good;
    var a := FirstTrigger(n, q);
    var b := Drain(Run(Reset(), a), n, q);
    GoodOnward(Reset(), a, b, n, q);
    var c := End(Run(Reset(), a + b), n, 8, q);
    GoodOnward(Reset(), a + b, c, n, q);
    ins := a + b + c;
    forall i
      ensures Tick(Run(Reset(), ins), i).tbt.state.Idle?
    {
      PulseLost(Run(Reset(), ins), i);
    }
  }

  lemma PulseLost(y: Sys, i: In)
    requires Ending(y, 8)
    ensures Tick(y, i).tbt.state.Idle?
  {
    hide NextTrig, NextAdc;
  }

  /** With these burst lengths, every trigger pulse of every run with separated pulses, a polite
      handshake and a wait of `q` clocks starts all three bursts. */
  ghost predicate AlwaysStarts(n: Lens, q: nat) {
    forall ins: seq<In>, i: In |
      && Clean(ins) && PoliteRun(ins) && WaitRun(ins, q)
      && (forall j <- ins :: Programmed(j, n))
      && Run(Reset(), ins).t.trig
      :: Starts(Run(Reset(), ins), i)
  }

  lemma WaitExact(n: Lens, q: nat)
    requires n.adc >= 1 && n.tbt >= 1 && n.fa >= 1
    ensures AlwaysStarts(n, q) <==> q >= ENOUGH
  {
    if q >= ENOUGH {
      forall ins: seq<In>, i: In |
        && Clean(ins) && PoliteRun(ins) && WaitRun(ins, q)
        && (forall j <- ins :: Programmed(j, n))
        && Run(Reset(), ins).t.trig
        ensures Starts(Run(Reset(), ins), i)
      {
        hide Starts, Run;
        EveryPulseStartsThreeBursts(ins, i);
      }
    } else {
      var ins := ShortWaitLosesBurst(n, q);
      hide Run, Tick;
      assert Clean(ins) && PoliteRun(ins) && WaitRun(ins, q) by {
        assert forall k :: 0 <= k < |ins| ==> Good(Run(Reset(), ins[..k]), ins[k], n, q);
      }
      assert !Starts(Run(Reset(), ins), QUIET_IN);
    }
  }
}
