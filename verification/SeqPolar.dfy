/** The clocked machine of seqpolar.v, register by register, and its refinement of the pure
    33-step fold. */
module SeqPolar {
  import opened Words
  import opened Arith
  import opened Cordic
  import opened CordicPolar

  /** The inputs at one clock edge. */
  datatype In = In(reset: bool, stb: bool, x: int, y: int, aux: bool)

  /** Every register of the module. */
  datatype Regs = Regs(
    idle: bool, preValid: bool, state: nat, cangle: nat,
    pre: Vec, v: Vec, aux: bool,
    done: bool, mag: int, phase: int, auxOut: bool
  )

  /** A 35-bit signed adder. */
  function Wrap35(v: int): int {
    Wrap(v, WIDE)
  }

  function WrapVec(v: Vec): Vec {
    Vec(Wrap35(v.x), Wrap35(v.y), v.ph)
  }

  predicate LastState(r: Regs) {
    r.state >= 34
  }

  /** o_mag from the x register, read as the 35-bit word it is. */
  function MagOut(x: int): int {
    Signed26(MagWord(x % (2 * WIDE)))
  }

  /** All registers after a clock edge, from all registers before it. */
  function Next(r: Regs, i: In): Regs {
    Regs(
      if i.reset then true else if i.stb then false else if LastState(r) then true else r.idle,
      !i.reset && i.stb && r.idle,
      if i.reset || r.idle || LastState(r) then 0 else r.state + 1,
      Angle(r.state),
      WrapVec(Pre(i.x, i.y)),
      if r.preValid then r.pre else WrapVec(Rotate(r.v, r.state, r.cangle)),
      if i.reset then false else if i.stb && r.idle then i.aux else r.aux,
      !i.reset && LastState(r),
      if LastState(r) then MagOut(r.v.x) else r.mag,
      if LastState(r) then PhaseOut(r.v.ph) else r.phase,
      if LastState(r) then r.aux else r.auxOut
    )
  }

  class Machine {
    var idle: bool
    var preValid: bool
    var state: nat
    var cangle: nat
    var prex: int
    var prey: int
    var preph: int
    var xv: int
    var yv: int
    var ph: int
    var aux: bool
    var done: bool
    var mag: int
    var phase: int
    var auxOut: bool

    ghost function Snapshot(): Regs
      reads this
    {
      Regs(idle, preValid, state, cangle, Vec(prex, prey, preph), Vec(xv, yv, ph), aux, done, mag, phase, auxOut)
    }

    /** One rising edge. The always blocks run in an order in which each still reads the old
        value of every register it uses. */
    method Tick(i: In)
      modifies this
      ensures Snapshot() == Next(old(Snapshot()), i)
    {
      hide Snapshot, Next, Angle, WrapVec, Pre, Rotate, MagOut, PhaseOut;
      Outputs(i);
      Auxiliary(i);
      Rotator();
      PreRotation(i);
      Control(i);
      Assemble(old(Snapshot()), i, Snapshot());
    }

    method Outputs(i: In)
      modifies this`mag, this`phase, this`auxOut, this`done
      ensures var r := old(Snapshot());
              Snapshot() == r.(done := !i.reset && LastState(r),
                               mag := if LastState(r) then MagOut(r.v.x) else r.mag,
                               phase := if LastState(r) then PhaseOut(r.v.ph) else r.phase,
                               auxOut := if LastState(r) then r.aux else r.auxOut)
    {
      hide MagOut, PhaseOut;
      done := !i.reset && state >= 34;
      if state >= 34 {
        mag := MagOut(xv);
        phase := PhaseOut(ph);
        auxOut := aux;
      }
    }

    method Auxiliary(i: In)
      modifies this`aux
      ensures var r := old(Snapshot());
              Snapshot() == r.(aux := if i.reset then false else if i.stb && r.idle then i.aux else r.aux)
    {
      if i.reset {
        aux := false;
      } else if i.stb && idle {
        aux := i.aux;
      }
    }

    method Rotator()
      modifies this`xv, this`yv, this`ph
      ensures var r := old(Snapshot());
              Snapshot() == r.(v := if r.preValid then r.pre else WrapVec(Rotate(r.v, r.state, r.cangle)))
    {
      hide Asr, Wrap35, Phase;
      if preValid {
        xv, yv, ph := prex, prey, preph;
      } else if yv < 0 {
        xv, yv, ph := Wrap35(xv - Asr(yv, state)), Wrap35(yv + Asr(xv, state)), Phase(ph - cangle);
      } else {
        xv, yv, ph := Wrap35(xv + Asr(yv, state)), Wrap35(yv - Asr(xv, state)), Phase(ph + cangle);
      }
    }

    method PreRotation(i: In)
      modifies this`prex, this`prey, this`preph
      ensures Snapshot() == old(Snapshot()).(pre := WrapVec(Pre(i.x, i.y)))
    {
      hide Pre, Wrap35;
      var p := Pre(i.x, i.y);
      prex, prey, preph := Wrap35(p.x), Wrap35(p.y), p.ph;
    }

    method Control(i: In)
      modifies this`idle, this`preValid, this`state, this`cangle
      ensures var r := old(Snapshot());
              Snapshot() == r.(idle := if i.reset then true else if i.stb then false else if LastState(r) then true else r.idle,
                               preValid := !i.reset && i.stb && r.idle,
                               state := if i.reset || r.idle || LastState(r) then 0 else r.state + 1,
                               cangle := Angle(r.state))
    {
      hide Angle;
      var last := state >= 34;
      cangle := Angle(state);
      preValid := !i.reset && i.stb && idle;
      if i.reset || idle || last {
        state := 0;
      } else {
        state := state + 1;
      }
      if i.reset {
        idle := true;
      } else if i.stb {
        idle := false;
      } else if last {
        idle := true;
      }
    }
  }

  /** The registers that the always blocks change, put together. */
  lemma Assemble(r: Regs, i: In, r': Regs)
    requires r' == r.(
      idle := if i.reset then true else if i.stb then false else if LastState(r) then true else r.idle,
      preValid := !i.reset && i.stb && r.idle,
      state := if i.reset || r.idle || LastState(r) then 0 else r.state + 1,
      cangle := Angle(r.state),
      pre := WrapVec(Pre(i.x, i.y)),
      v := if r.preValid then r.pre else WrapVec(Rotate(r.v, r.state, r.cangle)),
      aux := if i.reset then false else if i.stb && r.idle then i.aux else r.aux,
      done := !i.reset && LastState(r),
      mag := if LastState(r) then MagOut(r.v.x) else r.mag,
      phase := if LastState(r) then PhaseOut(r.v.ph) else r.phase,
      auxOut := if LastState(r) then r.aux else r.auxOut)
    ensures r' == Next(r, i)
  {
    hide Angle, WrapVec, Pre, Rotate, MagOut, PhaseOut;
  }

  /** The registers after the first n of the inputs. */
  function Run(r: Regs, ins: seq<In>, n: nat): Regs
    requires n <= |ins|
  {
    if n == 0 then r else Next(Run(r, ins, n - 1), ins[n - 1])
  }

  /** An idle machine has its state counter at zero, from reset on. */
  lemma IdleIsReset(r: Regs, i: In)
    requires r.idle ==> r.state == 0
    ensures Next(r, i).idle ==> Next(r, i).state == 0
  {
  }

  /** The registers n clocks after the accepted strobe of `first`. While the machine shifts by
      `state`, the angle register holds table entry state-1: the two stay paired. */
  ghost predicate Converting(r: Regs, first: In, n: nat)
    requires 1 <= n <= 35
  {
    && !r.idle && !r.done && r.aux == first.aux
    && r.state == n - 1
    && (r.preValid <==> n == 1)
    && (n == 1 ==> r.pre == Pre(first.x, first.y))
    && (n >= 2 ==> r.v == Fold(Pre(first.x, first.y), n - 2) && r.cangle == Angle(r.state - 1))
  }

  lemma Accepted(r: Regs, first: In)
    requires r.idle && r.state == 0 && first.stb && !first.reset && Input(first.x, first.y)
    ensures Converting(Next(r, first), first, 1)
  {
    PreFacts(first.x, first.y);
    var p := Pre(first.x, first.y);
    WrapFits(p.x, WIDE);
    WrapFits(p.y, WIDE);
  }

  lemma Step(r: Regs, first: In, n: nat, i: In)
    requires 1 <= n < 35 && Input(first.x, first.y) && Converting(r, first, n) && !i.reset
    ensures Converting(Next(r, i), first, n + 1)
  {
    hide Pre, Angle, Wrap, Asr;
    if n >= 2 {
      var v := Fold(Pre(first.x, first.y), n - 1);
      ConvergenceAndWidth(first.x, first.y, n - 1);
      WrapFits(v.x, WIDE);
      WrapFits(v.y, WIDE);
      FoldUnfold(Pre(first.x, first.y), n - 1);
    }
  }

  lemma {:induction false} Conversion(r: Regs, ins: seq<In>, n: nat)
    requires |ins| == 36 && 1 <= n <= 35
    requires r.idle && r.state == 0 && ins[0].stb && Input(ins[0].x, ins[0].y)
    requires forall i <- ins :: !i.reset
    ensures Converting(Run(r, ins, n), ins[0], n)
  {
    hide Next, Converting, Pre;
    if n == 1 {
      assert Run(r, ins, 0) == r;
      Accepted(r, ins[0]);
    } else {
      Conversion(r, ins, n - 1);
      Step(Run(r, ins, n - 1), ins[0], n - 1, ins[n - 1]);
    }
  }

  lemma ResultClock(r: Regs, first: In, i: In)
    requires Input(first.x, first.y) && Converting(r, first, 35) && !i.reset
    ensures var r' := Next(r, i);
            && r'.done && r'.auxOut == first.aux
            && r'.mag == OutMag(first.x, first.y)
            && r'.phase == OutPhase(first.x, first.y)
            && r'.idle == !i.stb && r'.state == 0 && !r'.preValid
  {
    hide Fold, Pre, Angle, Rotate, MagWord, Asr, WrapVec;
    ConvergenceAndWidth(first.x, first.y, STAGES);
  }

  /** A strobe accepted while idle: o_done stays low for 35 clocks and is high after the 36th,
      and the outputs are then the fold of the strobed input, whatever strobes and data arrive
      while the machine is busy. It is idle again exactly when none of them comes on the very
      last clock. */
  lemma MachineRefinesFold(r: Regs, ins: seq<In>)
    requires |ins| == 36 && r.idle && r.state == 0 && ins[0].stb && Input(ins[0].x, ins[0].y)
    requires forall i <- ins :: !i.reset
    ensures forall n :: 1 <= n <= 35 ==> !Run(r, ins, n).done && !Run(r, ins, n).idle
    ensures var r' := Run(r, ins, 36);
            && r'.done
            && r'.mag == OutMag(ins[0].x, ins[0].y)
            && r'.phase == OutPhase(ins[0].x, ins[0].y)
            && r'.auxOut == ins[0].aux
            && (r'.idle <==> !ins[35].stb) && r'.state == 0
    ensures forall i :: !Next(Run(r, ins, 36), i).done
  {
    hide Next, Pre, OutMag, OutPhase;
    forall n | 1 <= n <= 35
      ensures !Run(r, ins, n).done && !Run(r, ins, n).idle
    {
      Conversion(r, ins, n);
    }
    Conversion(r, ins, 35);
    ResultClock(Run(r, ins, 35), ins[0], ins[35]);
    forall i
      ensures !Next(Run(r, ins, 36), i).done
    {
      DoneOnce(Run(r, ins, 36), i);
    }
  }

  lemma DoneOnce(r: Regs, i: In)
    requires r.state == 0
    ensures !Next(r, i).done
  {
  }

  /** A strobe on the last clock of a conversion starts a conversion of stale registers: the
      machine stays busy without having loaded the new input, and raises o_done once more, 35
      clocks later, with outputs that belong to no strobe. */
  lemma LateStrobe(r: Regs, first: In, ins: seq<In>)
    requires |ins| == 36 && Input(first.x, first.y) && Converting(r, first, 35) && ins[0].stb
    requires forall i <- ins :: !i.reset
    ensures var r' := Next(r, ins[0]); !r'.idle && !r'.preValid && r'.aux == first.aux
    ensures forall n :: 2 <= n <= 35 ==> !Run(r, ins, n).done && !Run(r, ins, n).idle && !Run(r, ins, n).preValid
    ensures Run(r, ins, 36).done
  {
    ResultClock(r, first, ins[0]);
    assert Run(r, ins, 0) == r && Run(r, ins, 1) == Next(r, ins[0]);
    hide Next;
    forall n | 2 <= n <= 35
      ensures !Run(r, ins, n).done && !Run(r, ins, n).idle && !Run(r, ins, n).preValid
    {
      StaleRun(r, ins, n);
    }
    StaleRun(r, ins, 35);
    StaleStep(Run(r, ins, 35), ins[35]);
  }

  /** A busy machine counts on without loading anything. */
  lemma StaleStep(r: Regs, i: In)
    requires !r.idle && !i.reset
    ensures var r' := Next(r, i); !r'.preValid && r'.done == LastState(r) && (!LastState(r) ==> !r'.idle && r'.state == r.state + 1)
  {
  }

  lemma {:induction false} StaleRun(r: Regs, ins: seq<In>, n: nat)
    requires |ins| == 36 && 1 <= n <= 35 && (forall i <- ins :: !i.reset)
    requires Run(r, ins, 1).state == 0 && !Run(r, ins, 1).idle
    ensures var s := Run(r, ins, n); !s.idle && s.state == n - 1 && (n >= 2 ==> !s.done && !s.preValid)
  {
    if n > 1 {
      StaleRun(r, ins, n - 1);
      StaleStep(Run(r, ins, n - 1), ins[n - 1]);
    }
    hide Next;
  }
}
