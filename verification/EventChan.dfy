/** event_rcv_chan.vhd: a matched event code gives a pulse of programmable delay and width. */
module EventChan {
  import opened Words

  const WRAP: int := 0x1_0000_0000
  const MAX_DELAY: u32 := 0xFFFF_FFFF

  datatype Chan = Chan(delayCounter: u32, widthCounter: u32, startDelay: bool, startWidth: bool)

  const IDLE: Chan := Chan(0, 0, false, false)

  function Next(c: Chan, reset: bool, matched: bool, myDelay: u32, myWidth: u32): Chan {
    Chan(
      if reset then 0 else if c.startDelay then (c.delayCounter + 1) % WRAP
      else if c.delayCounter >= myDelay then 0 else c.delayCounter,
      if reset then 0 else if c.startWidth then (c.widthCounter + 1) % WRAP
      else if c.widthCounter >= myWidth then 0 else c.widthCounter,
      !reset && (matched || (c.startDelay && c.delayCounter < myDelay)),
      !reset && (c.delayCounter > myDelay || (c.startWidth && c.widthCounter < myWidth)))
  }

  /** The output pin: the pulse, inverted on request, and low when delay or width is zero. */
  function Trigger(c: Chan, myDelay: u32, myWidth: u32, myPolarity: bool): bool {
    myDelay != 0 && myWidth != 0 && c.startWidth != myPolarity
  }

  class EventRcvChan {
    var delayCounter: u32
    var widthCounter: u32
    var startDelay: bool
    var startWidth: bool

    ghost function Snapshot(): Chan
      reads this
    {
      Chan(delayCounter, widthCounter, startDelay, startWidth)
    }

    constructor ()
      ensures Snapshot() == IDLE
    {
      delayCounter, widthCounter, startDelay, startWidth := 0, 0, false, false;
    }

    method Tick(reset: bool, eventStream: byte, myEvent: byte, myDelay: u32, myWidth: u32)
      modifies this
      ensures Snapshot() == Next(old(Snapshot()), reset, eventStream == myEvent, myDelay, myWidth)
    {
      var delay, width := delayCounter, widthCounter;
      // delay counter
      if reset {
        delayCounter := 0;
      } else if startDelay {
        delayCounter := (delay + 1) % WRAP;
      } else if delay >= myDelay {
        delayCounter := 0;
      }
      // width counter
      if reset {
        widthCounter := 0;
      } else if startWidth {
        widthCounter := (width + 1) % WRAP;
      } else if width >= myWidth {
        widthCounter := 0;
      }
      // start of the delay
      if reset {
        startDelay := false;
      } else if myEvent == eventStream {
        startDelay := true;
      } else if delay >= myDelay {
        startDelay := false;
      }
      // start of the width
      if reset {
        startWidth := false;
      } else if delay > myDelay {
        startWidth := true;
      } else if width >= myWidth {
        startWidth := false;
      }
    }

    method Output(myDelay: u32, myWidth: u32, myPolarity: bool) returns (trigger: bool)
      ensures trigger == Trigger(Snapshot(), myDelay, myWidth, myPolarity)
    {
      var trigVal := if myPolarity then !startWidth else startWidth;
      trigger := if myDelay != 0 && myWidth != 0 then trigVal else false;
    }
  }

  /** The registers after one clock for each element, which says whether the code matched. */
  function Run(d: u32, w: u32, matches: seq<bool>): Chan {
    if matches == [] then IDLE
    else Next(Run(d, w, matches[..|matches| - 1]), false, matches[|matches| - 1], d, w)
  }

  /** An event on the first clock; more of them only while its delay is being counted. */
  ghost predicate OneEvent(d: u32, matches: seq<bool>) {
    (matches != [] ==> matches[0]) && forall k :: d < k < |matches| ==> !matches[k]
  }

  /** Pulse high: from clock d + 3 of the run, for w + 1 clocks. */
  predicate InPulse(d: u32, w: u32, clocks: nat) {
    d + 3 <= clocks <= d + 3 + w
  }

  function Expected(d: u32, w: u32, n: nat): Chan {
    if n == 0 then IDLE
    else if n <= d + 1 then Chan(n - 1, 0, true, false)
    else if n == d + 2 then Chan((d + 1) % WRAP, 0, false, false)
    else if d == MAX_DELAY then IDLE
    else if n <= d + 3 + w then Chan(0, n - d - 3, false, true)
    else if n == d + 4 + w then Chan(0, (w + 1) % WRAP, false, false)
    else IDLE
  }

  lemma {:induction false} RunExpected(d: u32, w: u32, matches: seq<bool>)
    requires d >= 1 && w >= 1 && OneEvent(d, matches)
    ensures Run(d, w, matches) == Expected(d, w, |matches|)
  {
    if matches != [] {
      RunExpected(d, w, matches[..|matches| - 1]);
    }
  }

  /** For every delay and width of at least one, an event from idle gives one pulse that rises on
      clock d + 3, lasts w + 1 clocks and leaves all four registers idle on the clock after it falls,
      exactly when the delay is not the greatest 32-bit number. With that one the delay counter
      runs over before it is compared, and there is never a pulse. Events that come while the
      delay is counted change nothing. */
  lemma PulseExact(d: u32, w: u32)
    requires d >= 1 && w >= 1
    ensures d != MAX_DELAY <==>
            forall matches :: OneEvent(d, matches) ==> (Run(d, w, matches).startWidth <==> InPulse(d, w, |matches|))
    ensures forall matches :: OneEvent(d, matches) && |matches| >= d + 5 + w ==> Run(d, w, matches) == IDLE
  {
    forall matches | OneEvent(d, matches)
      ensures Run(d, w, matches) == Expected(d, w, |matches|)
    {
      RunExpected(d, w, matches);
    }
    if d == MAX_DELAY {
      var m := seq(d + 3, k => k == 0);
      assert OneEvent(d, m) && |m| == d + 3;
      assert !Run(d, w, m).startWidth && InPulse(d, w, |m|);
    }
  }

  /** What the pin shows of it: the pulse in the chosen polarity, and a constant low when delay or
      width is zero, whatever the polarity and whatever the registers do. */
  lemma PinShowsPulse(d: u32, w: u32, matches: seq<bool>, polarity: bool)
    requires OneEvent(d, matches) && d != MAX_DELAY
    ensures Trigger(Run(d, w, matches), d, w, polarity)
            <==> d != 0 && w != 0 && (InPulse(d, w, |matches|) <==> !polarity)
  {
    if d != 0 && w != 0 {
      RunExpected(d, w, matches);
    }
  }
}
