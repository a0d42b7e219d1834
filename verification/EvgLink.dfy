/** evg_top.vhd on its two clocks, with the receiver at the other end of the link: the second
    counter runs on the system clock, the serialiser and everything after it on the link clock.
    The time that a frame carries holds still while the frame is sent, although nothing but the
    length of a second makes it so. */
module EvgLink {
  import opened Words
  import opened EventLink
  import opened EvgTop
  import opened DmaModules

  /** The number of system clocks that come before each link clock. */
  type Clocks = nat -> nat

  /** The link clock leaves reset within the first half second, and any 432 of its clocks take no
      longer than a second. */
  ghost predicate Fast(t: Clocks) {
    && t(0) < HALF_SECOND
    && (forall j: nat, k: nat :: j <= k ==> t(j) <= t(k))
    && (forall k: nat :: t(k + 432) <= t(k) + 2 * HALF_SECOND)
  }

  /** Half seconds since reset. */
  function Half(t: Clocks, k: nat): nat {
    t(k) / HALF_SECOND
  }

  function Sig(t: Clocks, k: nat): bool {
    After(t(k)).sig
  }

  /** The 1 Hz signal's synchroniser before link clock k. */
  function Synchroniser(t: Clocks, k: nat): Sync {
    if k == 0 then Sync(false, false, false) else NextSync(Synchroniser(t, k - 1), false, Sig(t, k - 1))
  }

  predicate Starts(t: Clocks, k: nat) {
    Synchroniser(t, k).Rise()
  }

  // ---- numbers as words ----

  function Two(w: nat): (p: nat)
    ensures p >= 1
  {
    if w == 0 then 1 else 2 * Two(w - 1)
  }

  /** The low bits of a number, bit 0 first. */
  function Low(n: nat, w: nat): (b: seq<bool>)
    ensures |b| == w
  {
    if w == 0 then [] else [n % 2 == 1] + Low(n / 2, w - 1)
  }

  lemma {:induction false} LowValue(n: nat, w: nat)
    requires n < Two(w)
    ensures Value(Low(n, w)) == n
  {
    if w > 0 {
      LowValue(n / 2, w - 1);
      assert Low(n, w)[1..] == Low(n / 2, w - 1);
    }
  }

  function Word(n: u32): Bits {
    Low(n, 32)
  }

  lemma WordValue(n: u32)
    ensures Value(Word(n)) == n
  {
    assert Two(8) == 0x100;
    assert Two(16) == 0x1_0000;
    assert Two(24) == 0x100_0000;
    assert Two(32) == 0x1_0000_0000;
    LowValue(n, 32);
  }

  // ---- one second, one start, one time ----

  /** The seconds that the counter has reached at link clock k, before they wrap at 32 bits. */
  function Seconds(t: Clocks, k: nat): nat {
    EPOCH + (Half(t, k) + 1) / 2
  }

  function Time(t: Clocks, k: nat): Bits {
    Word(After(t(k)).epoch)
  }

  lemma Sampled(t: Clocks, k: nat)
    ensures Sig(t, k) == (Half(t, k) % 2 == 1)
    ensures After(t(k)).epoch == Seconds(t, k) % 0x1_0000_0000
  {
    SecondsCounted(t(k));
  }

  lemma HalfBounds(t: Clocks, k: nat, h: nat)
    ensures Half(t, k) >= h <==> t(k) >= h * HALF_SECOND
  {
  }

  /** The synchroniser reports a rise two clocks after the sample that showed it. */
  lemma RiseSeen(t: Clocks, k: nat)
    requires Fast(t) && Starts(t, k)
    ensures k >= 3 && Half(t, k - 3) % 2 == 0 && Half(t, k - 2) % 2 == 1 && Half(t, k - 2) == Half(t, k - 3) + 1
  {
    hide After;
    Sampled(t, 0);
    assert Half(t, 0) == 0;
    assert !Synchroniser(t, 1).Rise() && !Synchroniser(t, 2).s1;
    assert k >= 3;
    assert Synchroniser(t, k).s1 == Sig(t, k - 2) && Synchroniser(t, k - 1).s1 == Sig(t, k - 3);
    Sampled(t, k - 2);
    Sampled(t, k - 3);
    var h := Half(t, k - 3);
    assert t(k - 3) <= t(k - 2) <= t(k - 3 + 432) <= t(k - 3) + 2 * HALF_SECOND;
    HalfBounds(t, k - 3, h + 1);
    HalfBounds(t, k - 2, h + 3);
    HalfBounds(t, k - 2, h);
  }

  /** Up to 429 clocks after a start the seconds have not moved on. */
  lemma SecondsHeld(t: Clocks, k: nat, j: nat)
    requires Fast(t) && Starts(t, k) && k - 2 <= j < k + 430
    ensures k >= 3 && Half(t, k - 2) <= Half(t, j) < Half(t, k - 2) + 2 && Seconds(t, j) == Seconds(t, k - 2)
  {
    RiseSeen(t, k);
    var h := Half(t, k - 2);
    assert t(k - 2) <= t(j) <= t(k - 3 + 432) <= t(k - 3) + 2 * HALF_SECOND;
    HalfBounds(t, k - 3, h);
    HalfBounds(t, k - 2, h);
    HalfBounds(t, j, h);
    HalfBounds(t, j, h + 2);
  }

  /** So the time is held for the 430 clocks of a frame, ... */
  lemma TimeHeld(t: Clocks, k: nat, j: nat)
    requires Fast(t) && Starts(t, k) && k <= j < k + 430
    ensures Time(t, j) == Time(t, k)
  {
    SecondsHeld(t, k, j);
    SecondsHeld(t, k, k);
    Sampled(t, j);
    Sampled(t, k);
    hide After, Low;
  }

  /** ... the next start finds the frame over, and brings a later second. */
  lemma StartsApart(t: Clocks, k: nat, m: nat)
    requires Fast(t) && Starts(t, k) && Starts(t, m) && k < m
    ensures m >= k + 430 && Seconds(t, m) > Seconds(t, k)
  {
    RiseSeen(t, k);
    RiseSeen(t, m);
    SecondsHeld(t, k, k);
    SecondsHeld(t, m, m);
    var h := Half(t, k - 2);
    // the rise that m reports is not the one that k reports
    assert t(k - 2) <= t(m - 3) <= t(m - 2);
    HalfBounds(t, k - 2, h);
    HalfBounds(t, m - 3, h);
    assert Half(t, m - 2) >= h + 2;
    if m < k + 430 {
      SecondsHeld(t, k, m - 2);
      assert false;
    }
  }

  // ---- the whole link ----

  /** The serialiser's inputs on the first n link clocks. */
  function Inputs(t: Clocks, n: nat): (ins: seq<In>)
    ensures |ins| == n
  {
    seq(n, k requires 0 <= k < n => In(Starts(t, k), Time(t, k)))
  }

  /** Generator, transmit register and receiver before link clock k. */
  function State(t: Clocks, l: Link, k: nat): Link {
    EventLink.Run(l, Inputs(t, k))
  }

  lemma StateStep(t: Clocks, l: Link, k: nat)
    ensures State(t, l, 0) == l
    ensures State(t, l, k + 1) == EventLink.Tick(State(t, l, k), In(Starts(t, k), Time(t, k)))
  {
    assert Inputs(t, k + 1)[..k] == Inputs(t, k);
    hide EventLink.Tick, Starts, Time;
  }

  /** A busy generator is on the frame of some start, and holds its time. */
  ghost predicate OnFrame(t: Clocks, k: nat, l: Link) {
    && GenOk(l)
    && (!l.g.state.Idle? ==> exists s: nat ::
          s < k < s + 430 && Starts(t, s) && Left(l.g) == 430 - (k - s) && l.held == Time(t, s))
  }

  lemma OnFrameStays(t: Clocks, k: nat, l: Link)
    requires Fast(t) && OnFrame(t, k, l)
    ensures var i := In(Starts(t, k), Time(t, k));
            OnFrame(t, k + 1, EventLink.Tick(l, i)) && Stable(l, i) && (Starts(t, k) ==> l.g.state.Idle?)
  {
    hide Starts, Time, GenOk, Fast;
    var i := In(Starts(t, k), Time(t, k));
    var n := EventLink.Tick(l, i);
    GenStays(l, i);
    if l.g.state.Idle? {
      if !n.g.state.Idle? {
        assert Left(n.g) == 429 && n.held == Time(t, k) by { assert GenOk(n); }
      }
    } else {
      var s: nat :| s < k < s + 430 && Starts(t, s) && Left(l.g) == 430 - (k - s) && l.held == Time(t, s);
      TimeHeld(t, s, k);
      BusyStep(l, i);
      if Starts(t, k) {
        StartsApart(t, s, k);
      }
    }
  }

  lemma {:induction false} AlwaysOnFrame(t: Clocks, l: Link, k: nat)
    requires Fast(t) && GenOk(l) && l.g.state.Idle?
    ensures OnFrame(t, k, State(t, l, k))
  {
    hide OnFrame, Fast, Starts, Time, State;
    StateStep(t, l, 0);
    if k == 0 {
      assert OnFrame(t, 0, l) by { FreshOnFrame(t, l); }
    } else {
      AlwaysOnFrame(t, l, k - 1);
      StateStep(t, l, k - 1);
      OnFrameStays(t, k - 1, State(t, l, k - 1));
    }
  }

  lemma FreshOnFrame(t: Clocks, l: Link)
    requires GenOk(l) && l.g.state.Idle?
    ensures OnFrame(t, 0, l)
  {
  }

  /** The hold that the single frame needs is kept on every clock of every run. */
  lemma AlwaysSteady(t: Clocks, l: Link, n: nat)
    requires Fast(t) && GenOk(l) && l.g.state.Idle?
    ensures Steady(l, Inputs(t, n))
  {
    hide Fast, Starts, Time, Stable, OnFrame;
    forall k {:trigger Inputs(t, n)[..k]} | 0 <= k < n
      ensures Stable(EventLink.Run(l, Inputs(t, n)[..k]), Inputs(t, n)[k])
    {
      assert Inputs(t, n)[..k] == Inputs(t, k);
      AlwaysOnFrame(t, l, k);
      OnFrameStays(t, k, State(t, l, k));
    }
  }

  lemma {:induction false} RunOnward(l: Link, a: seq<In>, b: seq<In>)
    ensures EventLink.Run(l, a + b) == EventLink.Run(EventLink.Run(l, a), b)
  {
    hide EventLink.Tick;
    if b == [] {
      assert a + b == a;
    } else {
      assert (a + b)[..|a + b| - 1] == a + b[..|b| - 1];
      RunOnward(l, a, b[..|b| - 1]);
    }
  }

  /** Every start is taken, and 432 link clocks later the receiver's seconds are those that the
      counter has held since: from the counter on one clock to the register on the other. */
  lemma SecondsArrive(t: Clocks, l: Link, k: nat)
    requires Fast(t) && Aligned(l) && l.g.state.Idle? && Starts(t, k)
    ensures State(t, l, k).g.state.Idle?
    ensures State(t, l, k + 432).r.secs == Word(Seconds(t, k) % 0x1_0000_0000)
  {
    assert GenOk(l);
    hide *;
    AlwaysOnFrame(t, l, k);
    OnFrameStays(t, k, State(t, l, k));
    AlwaysSteady(t, l, k);
    RunAligned(l, Inputs(t, k), k);
    ArriveFrom(t, l, k);
  }

  lemma ArriveFrom(t: Clocks, l: Link, k: nat)
    requires Fast(t) && Starts(t, k) && State(t, l, k).g.state.Idle? && Aligned(EventLink.Run(l, Inputs(t, k)[..k]))
    ensures State(t, l, k + 432).r.secs == Word(Seconds(t, k) % 0x1_0000_0000)
  {
    hide Starts, Fast, Aligned, GenOk, EventLink.Run, Word;
    var all := Inputs(t, k + 432);
    var frame := all[k..];
    assert Inputs(t, k)[..k] == Inputs(t, k);
    assert all == Inputs(t, k) + frame;
    RunOnward(l, Inputs(t, k), frame);
    assert EventLink.Frame(frame) by {
      forall j | 0 <= j < |frame| && j < 430
        ensures frame[j].din == frame[0].din
      {
        TimeHeld(t, k, k + j);
      }
    }
    AlignedIsSynchronised(State(t, l, k));
    FrameRoundTrip(State(t, l, k), frame);
    Sampled(t, k);
  }

  lemma AlignedIsSynchronised(l: Link)
    requires Aligned(l)
    ensures Synchronised(l)
  {
  }

  // ---- timestamps of the running system ----

  /** The last frame's time is earlier than that of any start still to come, this frame's own too. */
  ghost predicate LastIsPast(t: Clocks, k: nat, l: Link) {
    && (forall m: nat :: m >= k && Starts(t, m) && Seconds(t, m) < 0x1_0000_0000 ==> Value(l.last) < Seconds(t, m))
    && (!l.g.state.Idle? ==> Value(l.last) < Value(l.held))
  }

  /** The second counter has not wrapped by link clock n. */
  ghost predicate Unwrapped(t: Clocks, n: nat) {
    forall k: nat :: k < n ==> Seconds(t, k) < 0x1_0000_0000
  }

  lemma TimeValue(t: Clocks, k: nat)
    requires Seconds(t, k) < 0x1_0000_0000
    ensures Value(Time(t, k)) == Seconds(t, k)
  {
    Sampled(t, k);
    WordValue(After(t(k)).epoch);
    hide After, Low, Value;
  }

  /** The frame under way is earlier than any start still to come. */
  lemma HeldIsPast(t: Clocks, k: nat, l: Link)
    requires Fast(t) && OnFrame(t, k, l) && Unwrapped(t, k + 1) && !l.g.state.Idle?
    ensures !Starts(t, k)
    ensures forall m: nat :: m >= k && Starts(t, m) ==> Value(l.held) < Seconds(t, m)
  {
    hide Starts, Time, Value, Fast, GenOk, Seconds;
    OnFrameStays(t, k, l);
    var s: nat :| s < k < s + 430 && Starts(t, s) && Left(l.g) == 430 - (k - s) && l.held == Time(t, s);
    TimeValue(t, s);
    forall m: nat | m >= k && Starts(t, m)
      ensures Value(l.held) < Seconds(t, m)
    {
      StartsApart(t, s, m);
    }
  }

  /** What a link clock does to the times that the link keeps account of. */
  lemma TimesStep(l: Link, i: In)
    ensures var n := EventLink.Tick(l, i);
            && n.last == (if l.g.state.Update? then l.held else l.last)
            && n.held == (if l.g.state.Idle? && i.start then i.din else l.held)
            && (l.g.state.Idle? && !n.g.state.Idle? ==> i.start)
            && (l.g.state.Update? ==> n.g.state.Idle?)
  {
    hide NextRcv;
  }

  lemma LastIsPastStays(t: Clocks, k: nat, l: Link)
    requires Fast(t) && OnFrame(t, k, l) && LastIsPast(t, k, l) && Unwrapped(t, k + 1)
    ensures LastIsPast(t, k + 1, EventLink.Tick(l, In(Starts(t, k), Time(t, k))))
    ensures Later(l, In(Starts(t, k), Time(t, k)))
  {
    hide Starts, Time, Value, Fast, Seconds, EventLink.Tick, OnFrame;
    TimesStep(l, In(Starts(t, k), Time(t, k)));
    TimeValue(t, k);
    if !l.g.state.Idle? {
      HeldIsPast(t, k, l);
    }
  }

  lemma {:induction false} AlwaysPast(t: Clocks, l: Link, k: nat)
    requires Fast(t) && GenOk(l) && l.g.state.Idle? && l.last == ZERO && Unwrapped(t, k)
    ensures LastIsPast(t, k, State(t, l, k))
  {
    hide OnFrame, Fast, Starts, Time, State;
    StateStep(t, l, 0);
    if k == 0 {
      ZeroValue(32);
      assert ZERO == seq(32, _ => false);
      assert LastIsPast(t, 0, l);
    } else {
      hide LastIsPast;
      AlwaysPast(t, l, k - 1);
      AlwaysOnFrame(t, l, k - 1);
      StateStep(t, l, k - 1);
      LastIsPastStays(t, k - 1, State(t, l, k - 1));
    }
  }

  lemma {:induction false} ZeroValue(w: nat)
    ensures Value(seq(w, _ => false)) == 0
  {
    if w > 0 {
      assert seq(w, _ => false)[1..] == seq(w - 1, _ => false);
      ZeroValue(w - 1);
    }
  }

  /** From the declared initial values on, the receiver's timestamps strictly increase on every
      clock after the first, as long as the second counter and the offset counter do not wrap:
      that the time is held and grows from frame to frame is no assumption any more. */
  lemma SystemStampsIncrease(t: Clocks, l: Link, n: nat, k: nat)
    requires Fast(t) && Unwrapped(t, n) && 1 <= k < n
    requires l.g == Gen(GenState.Idle, 0, 0, 0, false) && l.tx == COMMA && l.last == ZERO
    requires l.r == Rcv(31, ZERO, ZERO, 0, false, false, (ZERO, 0))
    requires forall j: nat :: j < n ==> NoWrap(State(t, l, j))
    ensures Earlier(State(t, l, k).r.stamp, State(t, l, k + 1).r.stamp)
  {
    InitAligned(l);
    assert InOrder(l);
    var ins := Inputs(t, n);
    assert forall j :: 0 <= j <= n ==> ins[..j] == Inputs(t, j);
    assert GenOk(l) && l.g.state.Idle?;
    hide *;
    AlwaysSteady(t, l, n);
    forall j {:trigger ins[..j]} | 0 <= j < n
      ensures Later(EventLink.Run(l, ins[..j]), ins[j]) && NoWrap(EventLink.Run(l, ins[..j]))
    {
      LaterAt(t, l, n, j);
    }
    StampsIncrease(l, ins, k);
    assert State(t, l, k) == EventLink.Run(l, ins[..k]) && State(t, l, k + 1) == EventLink.Run(l, ins[..k + 1]) by {
      StateIsRun(t, l, n, k);
      StateIsRun(t, l, n, k + 1);
    }
  }

  lemma StateIsRun(t: Clocks, l: Link, n: nat, k: nat)
    requires k <= n
    ensures State(t, l, k) == EventLink.Run(l, Inputs(t, n)[..k])
    ensures k < n ==> Inputs(t, n)[k] == In(Starts(t, k), Time(t, k))
  {
    assert Inputs(t, n)[..k] == Inputs(t, k);
  }

  lemma LaterAt(t: Clocks, l: Link, n: nat, j: nat)
    requires Fast(t) && Unwrapped(t, n) && j < n && GenOk(l) && l.g.state.Idle? && l.last == ZERO && NoWrap(State(t, l, j))
    ensures Later(EventLink.Run(l, Inputs(t, n)[..j]), Inputs(t, n)[j]) && NoWrap(EventLink.Run(l, Inputs(t, n)[..j]))
  {
    assert Unwrapped(t, j) && Unwrapped(t, j + 1);
    hide *;
    StateIsRun(t, l, n, j);
    AlwaysOnFrame(t, l, j);
    AlwaysPast(t, l, j);
    LastIsPastStays(t, j, State(t, l, j));
  }
}
