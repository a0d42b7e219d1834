/** The timestamp link: ts_gen.vhd puts a 32-bit time on the event link bit by bit, evg_top.vhd
    registers the codes for transmission, event_rcv_ts.vhd puts the time together again. */
module EventLink {
  import opened Words

  /** A 32-bit word, bit 0 first. */
  type Bits = b: seq<bool> | |b| == 32 witness ZERO

  const ZERO: seq<bool> := [
    false, false, false, false, false, false, false, false, false, false, false, false, false, false, false, false,
    false, false, false, false, false, false, false, false, false, false, false, false, false, false, false, false]

  /** A bit's place in the word. */
  type Index = n: nat | n < 32

  const CODE_1HZ: byte := 0x20
  const CODE_ZERO: byte := 0x70
  const CODE_ONE: byte := 0x71
  const CODE_LATCH: byte := 0x7D
  const COMMA: byte := 0xBC     // low byte of the idle word 0x50BC
  const GAP: byte := 10          // the pause states leave when their counter reads 10

  // ---- the serialiser ----

  datatype GenState = Idle | Send1Hz | PrePause | Active | Pause | CheckIfLast | Update

  datatype Gen = Gen(state: GenState, idx: Index, dly: byte, dout: byte, val: bool)

  function NextGen(g: Gen, rst: bool, start: bool, din: Bits): Gen {
    if rst then g.(state := Idle, dout := 0, val := false)
    else match g.state
    case Idle => g.(val := false, dly := 0, state := if start then Send1Hz else Idle, idx := if start then 31 else g.idx)
    case Send1Hz => g.(dout := CODE_1HZ, val := true, state := PrePause)
    case PrePause =>
      g.(val := false, dly := if g.dly == GAP then 0 else (g.dly + 1) % 0x100, state := if g.dly == GAP then Active else PrePause)
    case Active => g.(dout := if din[g.idx] then CODE_ONE else CODE_ZERO, val := true, state := Pause)
    case Pause =>
      g.(val := false, dly := if g.dly == GAP then 0 else (g.dly + 1) % 0x100, state := if g.dly == GAP then CheckIfLast else Pause)
    case CheckIfLast =>
      if g.idx == 0 then g.(val := false, state := Update)
      else g.(val := false, idx := g.idx - 1, state := Active)
    case Update => g.(dout := CODE_LATCH, val := true, state := Idle)
  }

  class TsGen {
    var state: GenState
    var idx: Index
    var dly: byte
    var dout: byte
    var val: bool

    ghost function Snapshot(): Gen
      reads this
    {
      Gen(state, idx, dly, dout, val)
    }

    constructor ()
      ensures Snapshot() == Gen(Idle, 0, 0, 0, false)
    {
      state, idx, dly, dout, val := Idle, 0, 0, 0, false;
    }

    method Tick(rst: bool, start: bool, din: Bits)
      modifies this
      ensures Snapshot() == NextGen(old(Snapshot()), rst, start, din)
    {
      if rst {
        state, dout, val := Idle, 0, false;
        return;
      }
      match state {
        case Idle =>
          val := false;
          dly := 0;
          if start {
            state := Send1Hz;
            idx := 31;
          }
        case Send1Hz =>
          dout := CODE_1HZ;
          val := true;
          state := PrePause;
        case PrePause =>
          val := false;
          if dly == GAP {
            dly := 0;
            state := Active;
          } else {
            dly := (dly + 1) % 0x100;
          }
        case Active =>
          if din[idx] {
            dout := CODE_ONE;
          } else {
            dout := CODE_ZERO;
          }
          val := true;
          state := Pause;
        case Pause =>
          val := false;
          if dly == GAP {
            dly := 0;
            state := CheckIfLast;
          } else {
            dly := (dly + 1) % 0x100;
          }
        case CheckIfLast =>
          val := false;
          if idx == 0 {
            state := Update;
          } else {
            idx := idx - 1;
            state := Active;
          }
        case Update =>
          dout := CODE_LATCH;
          val := true;
          state := Idle;
      }
    }
  }

  /** The code that the generator offers to the transmit register. */
  function Offered(g: Gen): byte {
    if g.val then g.dout else COMMA
  }

  // ---- the deserialiser ----

  datatype Rcv = Rcv(pos: Index, tmp: Bits, secs: Bits, offset: u32, clear: bool, clearReg: bool, stamp: (Bits, u32))

  predicate IsBit(code: byte) {
    code == CODE_ZERO || code == CODE_ONE
  }

  function NextRcv(r: Rcv, reset: bool, code: byte): Rcv {
    Rcv(
      if code == CODE_LATCH then 31 else if IsBit(code) then (r.pos + 31) % 32 else r.pos,
      if reset || r.clearReg then ZERO else if IsBit(code) then r.tmp[r.pos := code == CODE_ONE] else r.tmp,
      if code == CODE_LATCH then r.tmp else r.secs,
      if code == CODE_LATCH then 0 else (r.offset + 1) % 0x1_0000_0000,
      code == CODE_LATCH,
      r.clear,
      if reset then (ZERO, 0) else (r.secs, r.offset))
  }

  class EventRcvTs {
    var pos: Index
    var tmp: Bits
    var secs: Bits
    var offset: u32
    var clear: bool
    var clearReg: bool
    var stamp: (Bits, u32)

    ghost function Snapshot(): Rcv
      reads this
    {
      Rcv(pos, tmp, secs, offset, clear, clearReg, stamp)
    }

    constructor ()
      ensures Snapshot() == Rcv(31, ZERO, ZERO, 0, false, false, (ZERO, 0))
    {
      pos, tmp, secs, offset, clear, clearReg, stamp := 31, ZERO, ZERO, 0, false, false, (ZERO, 0);
    }

    method Tick(reset: bool, code: byte)
      modifies this
      ensures Snapshot() == NextRcv(old(Snapshot()), reset, code)
    {
      // timestamp output, from the old seconds and offset
      if reset {
        stamp := (ZERO, 0);
      } else {
        stamp := (secs, offset);
      }
      // latched seconds, from the old bits
      if code == CODE_LATCH {
        secs := tmp;
        offset := 0;
      } else {
        offset := (offset + 1) % 0x1_0000_0000;
      }
      // the bit under construction, at the old position
      if reset || clearReg {
        tmp := ZERO;
      } else if code == CODE_ZERO {
        tmp := tmp[pos := false];
      } else if code == CODE_ONE {
        tmp := tmp[pos := true];
      }
      if code == CODE_LATCH {
        pos := 31;
      } else if code == CODE_ZERO || code == CODE_ONE {
        pos := (pos + 31) % 32;
      }
      clearReg := clear;
      clear := code == CODE_LATCH;
    }
  }

  // ---- both ends and the register between them ----

  /** `tx` is the code in evg_top's transmit register. `held` is the time that the current frame
      carries, `last` the time of the last complete frame. */
  datatype Link = Link(g: Gen, tx: byte, r: Rcv, held: Bits, last: Bits)

  datatype In = In(start: bool, din: Bits)

  function Tick(l: Link, i: In): Link {
    Link(NextGen(l.g, false, i.start, i.din), Offered(l.g), NextRcv(l.r, false, l.tx),
         if l.g.state.Idle? && i.start then i.din else l.held,
         if l.g.state.Update? then l.held else l.last)
  }

  /** The time is held while a frame is being sent. */
  predicate Stable(l: Link, i: In) {
    !l.g.state.Idle? ==> i.din == l.held
  }

  /** What the generator's registers can be, and how far behind its state the transmit register
      can carry a bit or the latch code. */
  ghost predicate GenOk(l: Link) {
    var g := l.g;
    && (g.state.PrePause? || g.state.Pause? ==> g.dly <= GAP && (g.val ==> g.dly == 0))
    && (!g.state.PrePause? && !g.state.Pause? && !g.state.Idle? ==> !g.val && g.dly == 0)
    && (g.state.PrePause? && g.val ==> g.dout == CODE_1HZ)
    && (g.state.Idle? && g.val ==> g.dout == CODE_LATCH)
    && (g.state.Pause? ==> (g.val <==> g.dly == 0) && (g.val ==> IsBit(g.dout)))
    && (g.state.Update? ==> g.idx == 0)
    && (g.state.Send1Hz? || g.state.PrePause? ==> g.idx == 31)
    && (IsBit(l.tx) ==> g.state.Pause? && g.dly == 1)
    && (l.tx == CODE_LATCH ==> !g.val && (g.state.Idle? || g.state.Send1Hz?))
  }

  lemma GenStays(l: Link, i: In)
    requires GenOk(l)
    ensures GenOk(Tick(l, i))
  {
    hide NextRcv;
  }

  /** The delayed clear of the receiver comes before the first bit of a new frame. */
  ghost predicate ClearOk(l: Link) {
    var early := l.g.state.Idle? || l.g.state.Send1Hz?;
    && (l.r.clear ==> early || (l.g.state.PrePause? && l.g.dly == 0))
    && (l.r.clearReg ==> early || (l.g.state.PrePause? && l.g.dly <= 1))
  }

  /** Receiver position and bits once a code has been taken, the clear set aside. */
  function AbsorbPos(pos: nat, code: byte): nat {
    if code == CODE_LATCH then 31 else if IsBit(code) then (pos + 31) % 32 else pos
  }

  /** How many bits of the frame have left the generator. */
  function SentFrom(g: Gen): nat {
    match g.state
    case Active => g.idx + 1
    case Pause => g.idx
    case CheckIfLast => g.idx
    case Update => 0
    case _ => 32
  }

  /** Bits SentFrom.. of the receiver are the held time, the one in flight excepted, and its
      position is the next bit to come. */
  ghost predicate Aligned(l: Link) {
    var g, r := l.g, l.r;
    var from := SentFrom(g);
    var flying := (if IsBit(l.tx) then 1 else 0) + (if g.val && IsBit(g.dout) then 1 else 0);
    && GenOk(l) && ClearOk(l)
    && (flying == 1 ==> from < 32)
    && (l.tx == CODE_LATCH || (g.val && g.dout == CODE_LATCH) || AbsorbPos(AbsorbPos(r.pos, l.tx), Offered(g)) == (from + 31) % 32)
    && (forall j :: from + flying <= j < 32 ==> r.tmp[j] == l.held[j])
    && (IsBit(l.tx) ==> (l.tx == CODE_ONE) == l.held[from])
    && (g.val && IsBit(g.dout) ==> (g.dout == CODE_ONE) == l.held[from])
  }

  /** The latched seconds are the last complete frame's, or will be when the latch code that is
      on its way arrives. */
  ghost predicate Latched(l: Link) {
    if l.tx == CODE_LATCH || (l.g.val && l.g.dout == CODE_LATCH) then l.r.tmp == l.last && !l.r.clearReg && !l.r.clear
    else l.r.secs == l.last
  }

  lemma AlignedStays(l: Link, i: In)
    requires Aligned(l) && Stable(l, i)
    ensures Aligned(Tick(l, i))
  {
    GenStays(l, i);
  }

  lemma LatchedStays(l: Link, i: In)
    requires Aligned(l) && Stable(l, i) && (Latched(l) || l.g.state.Update?)
    ensures Latched(Tick(l, i))
  {
    if l.g.state.Update? {
      assert forall j :: 0 <= j < 32 ==> l.r.tmp[j] == l.held[j];
      assert l.r.tmp == l.held;
    }
  }

  // ---- whole runs ----

  function Run(l: Link, ins: seq<In>): Link {
    if ins == [] then l else Tick(Run(l, ins[..|ins| - 1]), ins[|ins| - 1])
  }

  /** The time is held on every clock on which the generator is busy. */
  ghost predicate Steady(l: Link, ins: seq<In>) {
    forall k {:trigger ins[..k]} :: 0 <= k < |ins| ==> Stable(Run(l, ins[..k]), ins[k])
  }

  lemma RunStep(l: Link, ins: seq<In>, k: nat)
    requires k < |ins|
    ensures Run(l, ins[..k + 1]) == Tick(Run(l, ins[..k]), ins[k])
  {
    hide Tick;
    assert ins[..k + 1][..k] == ins[..k];
  }

  lemma {:induction false} RunAligned(l: Link, ins: seq<In>, k: nat)
    requires Aligned(l) && Steady(l, ins) && k <= |ins|
    ensures Aligned(Run(l, ins[..k]))
  {
    hide Aligned, Stable, Tick;
    if k > 0 {
      RunAligned(l, ins, k - 1);
      RunStep(l, ins, k - 1);
      AlignedStays(Run(l, ins[..k - 1]), ins[k - 1]);
    }
  }

  /** Whatever the receiver holds, one latch code puts it back in step with the generator. */
  lemma Realign(l: Link, i: In)
    requires GenOk(l) && l.tx == CODE_LATCH
    ensures Aligned(Tick(l, i))
  {
    GenStays(l, i);
  }

  /** The bit codes of a frame never meet the delayed clear, and the latch code finds all of
      the frame's bits in place. */
  lemma ClearMissesBits(l: Link, ins: seq<In>, k: nat)
    requires Aligned(l) && Latched(l) && Steady(l, ins) && k <= |ins|
    ensures var m := Run(l, ins[..k]);
            (IsBit(m.tx) ==> !m.r.clearReg) && (m.tx == CODE_LATCH ==> m.r.tmp == m.last && !m.r.clearReg)
  {
    hide Tick, Stable;
    RunAligned(l, ins, k);
    RunLatched(l, ins, k);
  }

  lemma {:induction false} RunLatched(l: Link, ins: seq<In>, k: nat)
    requires Aligned(l) && Latched(l) && Steady(l, ins) && k <= |ins|
    ensures Latched(Run(l, ins[..k]))
  {
    hide Aligned, Stable, Tick, Latched;
    if k > 0 {
      RunLatched(l, ins, k - 1);
      RunAligned(l, ins, k - 1);
      RunStep(l, ins, k - 1);
      LatchedStays(Run(l, ins[..k - 1]), ins[k - 1]);
    }
  }

  // ---- one frame ----

  /** Clocks until the generator is idle again. */
  function Left(g: Gen): int {
    match g.state
    case Idle => 0
    case Send1Hz => 429
    case PrePause => (11 - g.dly) + 417
    case Active => 13 * g.idx + 14
    case Pause => (11 - g.dly) + 13 * g.idx + 2
    case CheckIfLast => 13 * g.idx + 2
    case Update => 1
  }

  /** A busy generator comes one clock nearer to the end of its frame on each clock, keeps the
      frame's time, and has sent the latch code on the last one. */
  lemma BusyStep(l: Link, i: In)
    requires GenOk(l) && !l.g.state.Idle?
    ensures var n := Tick(l, i);
            && Left(l.g) >= 1 && Left(n.g) == Left(l.g) - 1
            && n.held == l.held
            && (n.g.state.Idle? <==> Left(l.g) == 1)
            && (n.g.state.Idle? ==> n.last == l.held && n.g.val && n.g.dout == CODE_LATCH)
            && (!n.g.state.Idle? ==> n.last == l.last)
  {
    hide NextRcv;
  }

  /** The input starts a frame and holds its time until the frame's last clock. */
  ghost predicate Frame(ins: seq<In>) {
    ins != [] && ins[0].start && forall k :: 0 <= k < |ins| && k < 430 ==> ins[k].din == ins[0].din
  }

  lemma {:induction false} FrameClock(l: Link, ins: seq<In>, k: nat)
    requires GenOk(l) && l.g.state.Idle? && Frame(ins) && 0 < k <= |ins| && k <= 430
    ensures var m := Run(l, ins[..k]);
            && GenOk(m) && Left(m.g) == 430 - k && m.held == ins[0].din
            && (k < 430 ==> !m.g.state.Idle? && m.last == l.last)
            && (k == 430 ==> m.g.state.Idle? && m.last == m.held && m.g.val && m.g.dout == CODE_LATCH)
  {
    hide NextRcv, GenOk;
    RunStep(l, ins, k - 1);
    if k == 1 {
      assert ins[..0] == [];
      GenStays(l, ins[0]);
    } else {
      FrameClock(l, ins, k - 1);
      hide Tick, Run, Left;
      var m := Run(l, ins[..k - 1]);
      GenStays(m, ins[k - 1]);
      BusyStep(m, ins[k - 1]);
    }
  }

  lemma FrameHolds(l: Link, ins: seq<In>, k: nat)
    requires Frame(ins) && k < |ins| && k < 430 && l.held == ins[0].din
    ensures Stable(l, ins[k])
  {
  }

  lemma IdleHolds(l: Link, i: In)
    requires l.g.state.Idle?
    ensures Stable(l, i)
  {
  }

  /** Only the update state is one clock from the end. */
  lemma LastClock(l: Link)
    requires GenOk(l) && Left(l.g) == 1
    ensures l.g.state.Update?
  {
  }

  lemma {:induction false} FrameAligned(l: Link, ins: seq<In>, base: nat, k: nat)
    requires GenOk(l) && l.g.state.Idle? && Frame(ins) && 0 < base <= k <= |ins| && base < 430 && k <= 430
    requires Aligned(Run(l, ins[..base]))
    ensures Aligned(Run(l, ins[..k])) && (k == 430 ==> Latched(Run(l, ins[..k])))
  {
    hide *;
    if k > base {
      FrameAligned(l, ins, base, k - 1);
      RunStep(l, ins, k - 1);
      FrameClock(l, ins, k - 1);
      var m := Run(l, ins[..k - 1]);
      FrameHolds(m, ins, k - 1);
      AlignedStays(m, ins[k - 1]);
      if k == 430 {
        LastClock(m);
        LatchedStays(m, ins[k - 1]);
      }
    }
  }

  /** In step, or about to be: a latch code is on the link or in the generator's output. */
  ghost predicate Synchronised(l: Link) {
    GenOk(l) && (Aligned(l) || l.tx == CODE_LATCH || (l.g.val && l.g.dout == CODE_LATCH))
  }

  lemma SyncGenOk(l: Link)
    requires Synchronised(l)
    ensures GenOk(l)
  {
  }

  lemma SyncStep(l: Link, i: In)
    requires Synchronised(l) && Stable(l, i)
    ensures Synchronised(Tick(l, i)) && (Aligned(l) || l.tx == CODE_LATCH ==> Aligned(Tick(l, i)))
    ensures !Aligned(l) && l.tx != CODE_LATCH ==> Tick(l, i).tx == CODE_LATCH
  {
    hide Aligned, GenOk, NextRcv;
    GenStays(l, i);
    if l.tx == CODE_LATCH {
      Realign(l, i);
    } else if Aligned(l) {
      AlignedStays(l, i);
    }
  }

  /** Once the generator has put out the latch code, the time is in the seconds register two
      clocks later: one for the transmit register, one for the receiver. */
  lemma LatchArrives(l: Link, i: In, j: In)
    requires Aligned(l) && Latched(l) && l.g.state.Idle? && l.g.val && l.g.dout == CODE_LATCH
    ensures var n := Tick(l, i); n.tx == CODE_LATCH && n.last == l.last && Tick(n, j).r.secs == l.last
  {
    assert !IsBit(l.tx);
  }

  /** Serialise, transmit, deserialise: for every 32-bit time held while its frame is sent, the
      frame takes 430 clocks, its latch code is on the link on clock 431, and after clock 432 the
      receiver's seconds are that time. The receiver may hold anything, as long as it is in step
      or a latch code is just passing; and a new frame may start as soon as this one has left the
      generator. */
  lemma FrameRoundTrip(l: Link, ins: seq<In>)
    requires Synchronised(l) && l.g.state.Idle? && Frame(ins) && |ins| == 432
    ensures Run(l, ins[..430]).g.state.Idle? && Run(l, ins[..431]).tx == CODE_LATCH
    ensures Run(l, ins).r.secs == ins[0].din
  {
    hide *;
    FrameStart(l, ins);
    SyncGenOk(l);
    FrameAligned(l, ins, 2, 430);
    FrameClock(l, ins, 430);
    RunStep(l, ins, 430);
    RunStep(l, ins, 431);
    assert ins[..432] == ins;
    LatchArrives(Run(l, ins[..430]), ins[430], ins[431]);
  }

  lemma FrameStart(l: Link, ins: seq<In>)
    requires Synchronised(l) && l.g.state.Idle? && Frame(ins) && |ins| == 432
    ensures Aligned(Run(l, ins[..2]))
  {
    assert ins[..0] == [] && Run(l, ins[..0]) == l;
    hide *;
    SyncGenOk(l);
    RunStep(l, ins, 0);
    RunStep(l, ins, 1);
    FrameClock(l, ins, 1);
    var m := Run(l, ins[..1]);
    FrameHolds(m, ins, 1);
    IdleHolds(l, ins[0]);
    SyncStep(l, ins[0]);
    SyncStep(m, ins[1]);
  }

  /** Any receiver comes into step: whatever its registers hold when the latch code of some frame
      has left the generator, the next frame is decoded, however long the link is idle between. */
  lemma SelfSynchronising(l: Link, wait: seq<In>, frame: seq<In>)
    requires GenOk(l) && l.g.state.Idle? && (l.tx == CODE_LATCH || (l.g.val && l.g.dout == CODE_LATCH))
    requires forall k :: 0 <= k < |wait| ==> !wait[k].start
    requires Frame(frame) && |frame| == 432
    ensures Run(Run(l, wait), frame).r.secs == frame[0].din
  {
    assert Synchronised(l);
    hide *;
    IdleRun(l, wait);
    FrameRoundTrip(Run(l, wait), frame);
  }

  lemma {:induction false} IdleRun(l: Link, wait: seq<In>)
    requires Synchronised(l) && l.g.state.Idle?
    requires forall k :: 0 <= k < |wait| ==> !wait[k].start
    ensures var m := Run(l, wait); Synchronised(m) && m.g.state.Idle?
  {
    hide Synchronised, NextRcv;
    if wait != [] {
      var n := |wait| - 1;
      IdleRun(l, wait[..n]);
      SyncStep(Run(l, wait[..n]), wait[n]);
    }
  }

  /** The registers' declared values are in step, with nothing on the link. */
  lemma InitAligned(l: Link)
    requires l.g == Gen(Idle, 0, 0, 0, false) && l.tx == COMMA && l.last == ZERO
    requires l.r == Rcv(31, ZERO, ZERO, 0, false, false, (ZERO, 0))
    ensures Aligned(l) && Latched(l)
  {
  }

  // ---- order of timestamps ----

  /** The number that a word stands for, read from bit `from` up. */
  function Value(b: seq<bool>): nat {
    if b == [] then 0 else (if b[0] then 1 else 0) + 2 * Value(b[1..])
  }

  predicate Earlier(a: (Bits, u32), b: (Bits, u32)) {
    Value(a.0) < Value(b.0) || (a.0 == b.0 && a.1 < b.1)
  }

  /** Each frame carries a later time than the frame before it. */
  predicate Later(l: Link, i: In) {
    l.g.state.Idle? && i.start ==> Value(i.din) > Value(l.last)
  }

  /** The offset counter does not run over between two latch codes. */
  predicate NoWrap(l: Link) {
    l.tx == CODE_LATCH || l.r.offset < 0xFFFF_FFFF
  }

  ghost predicate InOrder(l: Link) {
    && (!l.g.state.Idle? ==> Value(l.held) > Value(l.last))
    && (l.tx == CODE_LATCH || (l.g.val && l.g.dout == CODE_LATCH) ==> Value(l.last) > Value(l.r.secs))
  }

  lemma InOrderStays(l: Link, i: In)
    requires Aligned(l) && Latched(l) && InOrder(l) && Stable(l, i) && Later(l, i)
    ensures InOrder(Tick(l, i))
  {
    hide Value;
  }

  /** The pair written to the timestamp register, and the pair that will be written next. */
  lemma StampStep(l: Link, i: In)
    requires Aligned(l) && Latched(l) && InOrder(l) && NoWrap(l)
    ensures var n := Tick(l, i); n.r.stamp == (l.r.secs, l.r.offset) && Earlier(n.r.stamp, (n.r.secs, n.r.offset))
  {
    hide Value;
  }

  /** Timestamps never tear and never go back: when every frame carries a later time than the one
      before and the offset does not wrap, the timestamp register strictly increases, seconds
      first, on every clock after the first. */
  lemma {:induction false} StampsIncrease(l: Link, ins: seq<In>, k: nat)
    requires Aligned(l) && Latched(l) && InOrder(l) && Steady(l, ins) && 1 <= k < |ins|
    requires forall j {:trigger ins[..j]} :: 0 <= j < |ins| ==> Later(Run(l, ins[..j]), ins[j]) && NoWrap(Run(l, ins[..j]))
    ensures Earlier(Run(l, ins[..k]).r.stamp, Run(l, ins[..k + 1]).r.stamp)
  {
    hide Aligned, Latched, InOrder, Earlier, Stable, Tick;
    RunAligned(l, ins, k);
    RunLatched(l, ins, k);
    RunInOrder(l, ins, k);
    RunAligned(l, ins, k - 1);
    RunLatched(l, ins, k - 1);
    RunInOrder(l, ins, k - 1);
    RunStep(l, ins, k - 1);
    RunStep(l, ins, k);
    StampStep(Run(l, ins[..k - 1]), ins[k - 1]);
    StampStep(Run(l, ins[..k]), ins[k]);
  }

  lemma {:induction false} RunInOrder(l: Link, ins: seq<In>, k: nat)
    requires Aligned(l) && Latched(l) && InOrder(l) && Steady(l, ins) && k <= |ins|
    requires forall j {:trigger ins[..j]} :: 0 <= j < |ins| ==> Later(Run(l, ins[..j]), ins[j]) && NoWrap(Run(l, ins[..j]))
    ensures InOrder(Run(l, ins[..k]))
  {
    hide Aligned, Latched, InOrder, Later, NoWrap, Stable, Tick;
    if k > 0 {
      RunInOrder(l, ins, k - 1);
      RunAligned(l, ins, k - 1);
      RunLatched(l, ins, k - 1);
      RunStep(l, ins, k - 1);
      InOrderStays(Run(l, ins[..k - 1]), ins[k - 1]);
    }
  }
}
