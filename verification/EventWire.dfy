/** What one frame puts on the event link, clock by clock and in numbers, and what an event channel
    at the other end makes of its 1 Hz code. */
module EventWire {
  import opened Words
  import opened EventLink
  import EventChan
  import EvgTop

  /** The input starts a frame, holds its time to the frame's last clock and starts no other. */
  ghost predicate OneFrame(ins: seq<In>) {
    && ins != [] && ins[0].start
    && (forall k :: 0 <= k < |ins| && k < 430 ==> ins[k].din == ins[0].din)
    && (forall k :: 430 <= k < |ins| ==> !ins[k].start)
  }

  /** The clocks of a frame on which a code comes: the 1 Hz code, 32 bits 13 clocks apart, the latch code. */
  predicate CodeDue(k: nat) {
    k == 2 || k == 430 || (14 <= k <= 417 && (417 - k) % 13 == 0)
  }

  /** The code due on clock k: 0x20, then 0x70 or 0x71 for bits 31 down to 0 of the time, then 0x7D. */
  function CodeAt(k: nat, time: Bits): int
    requires CodeDue(k)
  {
    if k == 2 then 0x20 else if k == 430 then 0x7D else if time[(417 - k) / 13] then 0x71 else 0x70
  }

  /** The generator's registers k clocks after a start. */
  ghost predicate OnFrame(g: Gen, k: nat, time: Bits) {
    if k > 430 then g.state.Idle? && !g.val
    else
      && k + Left(g) == 430
      && match g.state
         case Idle => k == 430 && g.val && g.dout == 0x7D
         case Send1Hz => g.idx == 31 && g.dly == 0 && !g.val
         case PrePause => g.idx == 31 && g.dly <= 10 && (g.val <==> g.dly == 0) && (g.val ==> g.dout == 0x20)
         case Active => g.dly == 0 && !g.val
         case Pause => g.dly <= 10 && (g.val <==> g.dly == 0) && (g.val ==> g.dout == if time[g.idx] then 0x71 else 0x70)
         case CheckIfLast => g.dly == 0 && !g.val
         case Update => g.idx == 0 && g.dly == 0 && !g.val
  }

  lemma OnFrameStep(g: Gen, k: nat, i: In, time: Bits)
    requires k >= 1 && OnFrame(g, k, time) && (k < 430 ==> i.din == time) && (k >= 430 ==> !i.start)
    ensures OnFrame(NextGen(g, false, i.start, i.din), k + 1, time)
  {
  }

  lemma OnFrameStart(g: Gen, i: In)
    requires g.state.Idle? && i.start
    ensures OnFrame(NextGen(g, false, i.start, i.din), 1, i.din)
  {
  }

  lemma {:induction false} FrameRun(l: Link, ins: seq<In>, k: nat)
    requires l.g.state.Idle? && OneFrame(ins) && 1 <= k <= |ins|
    ensures OnFrame(Run(l, ins[..k]).g, k, ins[0].din)
  {
    hide NextGen, NextRcv, OnFrame;
    RunStep(l, ins, k - 1);
    if k == 1 {
      assert ins[..0] == [];
      OnFrameStart(l.g, ins[0]);
    } else {
      FrameRun(l, ins, k - 1);
      OnFrameStep(Run(l, ins[..k - 1]).g, k - 1, ins[k - 1], ins[0].din);
    }
  }

  lemma OnFrameCode(g: Gen, k: nat, time: Bits)
    requires k >= 1 && OnFrame(g, k, time)
    ensures g.val <==> CodeDue(k)
    ensures g.val ==> g.dout == CodeAt(k, time)
  {
    if g.state.Pause? && k <= 430 {
      assert 417 - k == 13 * g.idx - g.dly;
    } else if g.state.Active? && k <= 430 {
      assert 417 - k == 13 * g.idx + 1;
    } else if g.state.CheckIfLast? && k <= 430 {
      assert 417 - k == 13 * (g.idx - 1) + 2;
    }
  }

  /** The exact trace of a frame: from the clock after an accepted start on, dout_val is high on
      clock 2 with 0x20, on clock 417 - 13 j with 0x70 plus bit j of the time, for j from 31 down to
      0, on clock 430 with 0x7D, and on no other clock until the next start. */
  lemma FrameTrace(l: Link, ins: seq<In>, k: nat)
    requires l.g.state.Idle? && OneFrame(ins) && 1 <= k <= |ins|
    ensures var g := Run(l, ins[..k]).g;
            && (g.val <==> k == 2 || k == 430 || (14 <= k <= 417 && (417 - k) % 13 == 0))
            && (k == 2 ==> g.dout == 0x20)
            && (forall j :: 0 <= j < 32 && k == 417 - 13 * j ==> g.dout == 0x70 + if ins[0].din[j] then 1 else 0)
            && (k == 430 ==> g.dout == 0x7D)
  {
    hide NextGen, NextRcv, OnFrame, Run;
    FrameRun(l, ins, k);
    OnFrameCode(Run(l, ins[..k]).g, k, ins[0].din);
    forall j | 0 <= j < 32 && k == 417 - 13 * j
      ensures CodeDue(k) && CodeAt(k, ins[0].din) == 0x70 + if ins[0].din[j] then 1 else 0
    {
      BitPlace(j, k);
    }
  }

  lemma BitPlace(j: nat, k: nat)
    requires j < 32 && k == 417 - 13 * j
    ensures 14 <= k <= 417 && (417 - k) % 13 == 0 && (417 - k) / 13 == j
  {
  }

  /** One clock later the transmit register holds the code, and 0xBC on all other clocks. */
  lemma WireTrace(l: Link, ins: seq<In>, k: nat)
    requires l.g.state.Idle? && OneFrame(ins) && 1 <= k < |ins|
    ensures var tx := Run(l, ins[..k + 1]).tx;
            && (k == 2 ==> tx == 0x20)
            && (forall j :: 0 <= j < 32 && k == 417 - 13 * j ==> tx == 0x70 + if ins[0].din[j] then 1 else 0)
            && (k == 430 ==> tx == 0x7D)
            && (!(k == 2 || k == 430 || (14 <= k <= 417 && (417 - k) % 13 == 0)) ==> tx == 0xBC)
  {
    hide NextGen, NextRcv, OneFrame, Run;
    FrameTrace(l, ins, k);
    RunStep(l, ins, k);
    forall j | 0 <= j < 32 && k == 417 - 13 * j
      ensures (417 - k) % 13 == 0 && 14 <= k <= 417
    {
      BitPlace(j, k);
    }
  }

  /** The transmit register with its K flag: a code goes out as a data character, and the idle word
      0x50BC with a comma on every other clock. */
  lemma TransmitTrace(l: Link, ins: seq<In>, k: nat)
    requires l.g.state.Idle? && OneFrame(ins) && 1 <= k <= |ins|
    ensures var g := Run(l, ins[..k]).g;
            var tx := EvgTop.NextTx(false, g.dout, g.val);
            && (k == 2 ==> tx == EvgTop.Tx(0x0020, 0))
            && (forall j :: 0 <= j < 32 && k == 417 - 13 * j ==> tx == EvgTop.Tx(0x0070 + if ins[0].din[j] then 1 else 0, 0))
            && (k == 430 ==> tx == EvgTop.Tx(0x007D, 0))
            && (!(k == 2 || k == 430 || (14 <= k <= 417 && (417 - k) % 13 == 0)) ==> tx == EvgTop.Tx(0x50BC, 1))
  {
    hide OneFrame, Run;
    FrameTrace(l, ins, k);
    forall j | 0 <= j < 32 && k == 417 - 13 * j
      ensures (417 - k) % 13 == 0 && 14 <= k <= 417
    {
      BitPlace(j, k);
    }
  }

  // ---- the receiver's timestamp after a frame ----

  lemma OffsetStep(l: Link, i: In)
    ensures var n := Tick(l, i);
            && (l.tx == 0x7D ==> n.r.offset == 0)
            && (l.tx != 0x7D ==> n.r.offset == (l.r.offset + 1) % 0x1_0000_0000 && n.r.secs == l.r.secs)
            && n.r.stamp == (l.r.secs, l.r.offset)
  {
    hide NextGen;
  }

  /** The offset counts the link clocks since the latch code arrived. */
  lemma {:induction false} OffsetCounts(l: Link, ins: seq<In>, k: nat)
    requires Synchronised(l) && l.g.state.Idle? && OneFrame(ins) && 432 <= k <= |ins|
    ensures var r := Run(l, ins[..k]).r;
            r.secs == ins[0].din && r.offset == (k - 432) % 0x1_0000_0000
  {
    hide Synchronised, NextGen, NextRcv, OneFrame, Run, Tick;
    RunStep(l, ins, k - 1);
    if k == 432 {
      AsFrame(ins);
      FrameRoundTrip(l, ins[..432]);
      assert ins[..432][..431] == ins[..431];
    } else {
      OffsetCounts(l, ins, k - 1);
      WireTrace(l, ins, k - 2);
    }
    OffsetStep(Run(l, ins[..k - 1]), ins[k - 1]);
  }

  lemma AsFrame(ins: seq<In>)
    requires OneFrame(ins) && |ins| >= 432
    ensures Frame(ins[..432]) && ins[..432][0] == ins[0]
  {
  }

  /** So n clocks after the latch code has arrived the timestamp register holds the frame's seconds
      and n - 1, until the next frame. */
  lemma StampAfterFrame(l: Link, ins: seq<In>, k: nat)
    requires Synchronised(l) && l.g.state.Idle? && OneFrame(ins) && 433 <= k <= |ins|
    ensures Run(l, ins[..k]).r.stamp == (ins[0].din, (k - 433) % 0x1_0000_0000)
  {
    hide Synchronised, OneFrame, Run, Tick;
    OffsetCounts(l, ins, k - 1);
    RunStep(l, ins, k - 1);
    OffsetStep(Run(l, ins[..k - 1]), ins[k - 1]);
  }

  // ---- an event channel on the link ----

  /** Whether a channel programmed to 0x20 sees its event, clock by clock from the one on which the
      transmit register is as the third clock of the frame left it. */
  function Matches(l: Link, ins: seq<In>, n: nat): (m: seq<bool>)
    requires n + 2 <= |ins|
    ensures |m| == n
  {
    seq(n, j requires 0 <= j < n => Run(l, ins[..j + 3]).tx == 0x20)
  }

  /** A channel programmed to 0x20 sees exactly one match from one start to the next. */
  lemma OneMatch(l: Link, ins: seq<In>, k: nat)
    requires GenOk(l) && l.g.state.Idle? && OneFrame(ins) && 1 <= k <= |ins|
    ensures Run(l, ins[..k]).tx == 0x20 <==> k == 3
  {
    hide NextGen, NextRcv, OneFrame;
    if k == 1 {
      RunStep(l, ins, 0);
      assert ins[..0] == [];
    } else {
      hide Run, GenOk;
      WireTrace(l, ins, k - 1);
      if 14 <= k - 1 <= 417 && (417 - (k - 1)) % 13 == 0 {
        var j := (417 - (k - 1)) / 13;
        assert k - 1 == 417 - 13 * j && 0 <= j < 32;
        assert Run(l, ins[..k - 1 + 1]).tx == 0x70 + if ins[0].din[j] then 1 else 0;
      }
    }
  }

  /** So a channel that is idle when a frame starts gives one pulse in the frame, of its programmed delay
      and width, counted from the clock on which the 1 Hz code is in the transmit register. */
  lemma OneHzPulse(l: Link, ins: seq<In>, d: u32, w: u32, n: nat)
    requires GenOk(l) && l.g.state.Idle? && OneFrame(ins) && n + 2 <= |ins|
    requires 1 <= d < EventChan.MAX_DELAY && w >= 1
    ensures EventChan.Run(d, w, Matches(l, ins, n)).startWidth <==> d + 3 <= n <= d + 3 + w
  {
    hide Run, GenOk, OneFrame, EventChan.Run;
    var m := Matches(l, ins, n);
    forall j | 0 <= j < n
      ensures m[j] <==> j == 0
    {
      OneMatch(l, ins, j + 3);
    }
    assert EventChan.OneEvent(d, m);
    EventChan.PulseExact(d, w);
  }

  /** The channel for the second tick, with delay 1 and width 3125000 on event 32: high from the
      fourth clock to the 3125004th. */
  lemma GpsPulse(l: Link, ins: seq<In>, n: nat)
    requires GenOk(l) && l.g.state.Idle? && OneFrame(ins) && n + 2 <= |ins|
    ensures EventChan.Trigger(EventChan.Run(1, 3125000, Matches(l, ins, n)), 1, 3125000, false) <==> 4 <= n <= 3125004
  {
    hide GenOk, OneFrame, EventChan.Run, Matches;
    OneHzPulse(l, ins, 1, 3125000, n);
  }
}
