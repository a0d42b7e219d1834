/** The multi-client broadcast of listener.c under its mutex. A thread inside the mutex is
    interrupted between any two socket sends, and every send may take any part of what is left
    of a frame or fail; threads outside wait, accept, release or do nothing. A connection is one
    slot lifetime, from allocation to release, and never reuses another one's identity. */
module Broadcast {
  import opened Words
  import opened PscMsg

  const MAX_CLIENTS: nat := 4   // PSC_MAX_CLIENTS

  /** A slot of the clients array: unused, or used by a connection whose `sock` is still open
      or has been set to -1. */
  datatype Slot = Unused | Used(conn: nat, open: bool)

  /** The thread inside the mutex: psc_send at slot `at`, or psc_send_one for slot `at`, with
      `off` bytes of the frame already sent to that slot. */
  datatype Holder =
    | Nobody
    | ToAll(m: Message, at: nat, off: nat)
    | ToOne(m: Message, at: nat, off: nat)

  /** What a connection has been sent completely: a broadcast by its number, or a message of its
      own. */
  datatype Item = Shared(n: nat) | Own(m: Message)

  /** A connection: its bytes, and as observed the items sent whole, the broadcast number at
      which it was allocated, the one it has got up to, and the cut-off frame if any. */
  datatype Conn = Conn(wire: seq<byte>, items: seq<Item>, start: nat, upTo: nat, tail: seq<byte>)

  datatype State = State(slots: seq<Slot>, conns: seq<Conn>, holder: Holder, log: seq<Message>)

  datatype Step =
    | Accept
    | Release(slot: nat)
    | LockAll(m: Message)
    | LockOne(slot: nat, m: Message)
    | SendSome(n: nat)
    | SendFails
    | PassOver
    | Unlock

  function Start(): State {
    State(seq(MAX_CLIENTS, _ => Unused), [], Nobody, [])
  }

  /** The loop of psc_client_alloc: the lowest unused slot, if any. */
  function FirstUnused(slots: seq<Slot>, i: nat): (r: Option<nat>)
    requires i <= |slots|
    ensures r.Some? ==> i <= r.value < |slots| && slots[r.value].Unused?
    ensures r.None? ==> forall j :: i <= j < |slots| ==> slots[j].Used?
    decreases |slots| - i
  {
    if i == |slots| then None else if slots[i].Unused? then Some(i) else FirstUnused(slots, i + 1)
  }

  /** The holder is about to send to this slot. */
  predicate AtOpenSlot(s: State) {
    && s.holder != Nobody && s.holder.at < |s.slots|
    && s.slots[s.holder.at].Used? && s.slots[s.holder.at].open
    && s.slots[s.holder.at].conn < |s.conns|
  }

  predicate Enabled(s: State, step: Step) {
    match step
    case Accept => s.holder.Nobody?
    case Release(i) => s.holder.Nobody? && i < |s.slots| && s.slots[i].Used?
    case LockAll(m) => s.holder.Nobody? && Sendable(m)
    case LockOne(i, m) => s.holder.Nobody? && i < |s.slots| && s.slots[i].Used? && Sendable(m)
    case SendSome(n) =>
      AtOpenSlot(s) && Sendable(s.holder.m) && s.holder.off < |Frame(s.holder.m)| && 1 <= n <= |Frame(s.holder.m)| - s.holder.off
    case SendFails => AtOpenSlot(s)
    case PassOver =>
      s.holder != Nobody && s.holder.at < |s.slots| && !(s.slots[s.holder.at].Used? && s.slots[s.holder.at].open)
    case Unlock => s.holder != Nobody && s.holder.at >= |s.slots|
  }

  /** psc_send goes on to the next slot; psc_send_one is finished. */
  function Advance(s: State): Holder
    requires s.holder != Nobody
  {
    match s.holder
    case ToAll(m, at, _) => ToAll(m, at + 1, 0)
    case ToOne(m, _, _) => ToOne(m, |s.slots|, 0)
  }

  function Apply(s: State, step: Step): State {
    if !Enabled(s, step) then s
    else
      match step
      case Accept =>
        var i := FirstUnused(s.slots, 0);
        if i.None? then s
        else s.(slots := s.slots[i.value := Used(|s.conns|, true)],
                conns := s.conns + [Conn([], [], |s.log|, |s.log|, [])])
      case Release(i) => s.(slots := s.slots[i := Unused])
      case LockAll(m) => s.(holder := ToAll(m, 0, 0), log := s.log + [m])
      case LockOne(i, m) => s.(holder := ToOne(m, i, 0))
      case SendSome(n) =>
        var f := Frame(s.holder.m);
        var off := s.holder.off + n;
        var c := s.slots[s.holder.at].conn;
        var wire := s.conns[c].wire + f[s.holder.off..off];
        if off < |f| then
          s.(conns := s.conns[c := s.conns[c].(wire := wire, tail := f[..off])], holder := s.holder.(off := off))
        else if s.holder.ToAll? then
          s.(conns := s.conns[c := s.conns[c].(wire := wire, tail := [], items := s.conns[c].items + [Shared(Max(|s.log| - 1, 0))],
                                                 upTo := |s.log|)],
             holder := Advance(s))
        else
          s.(conns := s.conns[c := s.conns[c].(wire := wire, tail := [], items := s.conns[c].items + [Own(s.holder.m)])],
             holder := Advance(s))
      case SendFails =>
        s.(slots := s.slots[s.holder.at := s.slots[s.holder.at].(open := false)], holder := Advance(s))
      case PassOver => s.(holder := Advance(s))
      case Unlock => s.(holder := Nobody)
  }

  function Run(steps: seq<Step>): State {
    if steps == [] then Start() else Apply(Run(steps[..|steps| - 1]), steps[|steps| - 1])
  }

  // ---- what the streams look like ----

  /** The messages that the items stand for. */
  function Bodies(log: seq<Message>, items: seq<Item>): seq<Message> {
    if items == [] then []
    else
      var i := items[|items| - 1];
      Bodies(log, items[..|items| - 1]) + [if i.Own? then i.m else if i.n < |log| then log[i.n] else Message(0, [])]
  }

  /** The broadcast numbers among the items. */
  function Shares(items: seq<Item>): seq<nat> {
    if items == [] then []
    else Shares(items[..|items| - 1]) + if items[|items| - 1].Shared? then [items[|items| - 1].n] else []
  }

  function Range(a: nat, b: nat): seq<nat>
    requires a <= b
  {
    seq(b - a, i requires 0 <= i < b - a => a + i)
  }

  /** A strict prefix of some frame. */
  ghost predicate CutOff(tail: seq<byte>) {
    exists m, k: nat :: Sendable(m) && k < |Frame(m)| && tail == Frame(m)[..k]
  }

  /** Complete frames, then at most one frame cut off. */
  ghost predicate StreamOk(log: seq<Message>, c: Conn) {
    && AllSendable(Bodies(log, c.items))
    && c.wire == FrameAll(Bodies(log, c.items)) + c.tail
    && CutOff(c.tail)
    && c.start <= c.upTo <= |log|
    && Shares(c.items) == Range(c.start, c.upTo)
    && (forall i <- c.items :: i.Shared? ==> i.n < |log|)
  }

  predicate IsLive(s: State, i: nat) {
    i < |s.slots| && s.slots[i].Used? && s.slots[i].open
  }

  ghost predicate HolderOk(s: State) {
    && (s.holder != Nobody ==> Sendable(s.holder.m) && s.holder.off < |Frame(s.holder.m)| && s.holder.at <= |s.slots|)
    && (s.holder.ToAll? ==> |s.log| >= 1 && s.log[|s.log| - 1] == s.holder.m)
    && (s.holder != Nobody && s.holder.off > 0 ==> IsLive(s, s.holder.at))
  }

  /** A live connection has got every broadcast since its allocation, except the one that the
      holder has not yet brought to its slot; only the holder's slot has part of a frame. */
  ghost predicate LiveOk(s: State, i: nat)
    requires HolderOk(s) && IsLive(s, i) && s.slots[i].conn < |s.conns|
  {
    var c := s.conns[s.slots[i].conn];
    && c.upTo == (if s.holder.ToAll? && i >= s.holder.at then |s.log| - 1 else |s.log|)
    && c.tail == (if s.holder != Nobody && i == s.holder.at then Frame(s.holder.m)[..s.holder.off] else [])
  }

  ghost predicate Inv(s: State) {
    && |s.slots| == MAX_CLIENTS
    && (forall m <- s.log :: Sendable(m))
    && (forall i :: 0 <= i < |s.slots| && s.slots[i].Used? ==> s.slots[i].conn < |s.conns|)
    && (forall i, j :: 0 <= i < j < |s.slots| && s.slots[i].Used? && s.slots[j].Used? ==> s.slots[i].conn != s.slots[j].conn)
    && HolderOk(s)
    && (forall c <- s.conns :: StreamOk(s.log, c))
    && (forall i :: 0 <= i < |s.slots| && IsLive(s, i) ==> LiveOk(s, i))
  }

  // ---- every step keeps it ----

  lemma {:induction false} BodiesGrow(log: seq<Message>, m: Message, items: seq<Item>)
    requires forall i <- items :: i.Shared? ==> i.n < |log|
    ensures Bodies(log + [m], items) == Bodies(log, items)
  {
    if items != [] {
      BodiesGrow(log, m, items[..|items| - 1]);
    }
  }

  lemma StreamGrows(log: seq<Message>, m: Message, c: Conn)
    requires StreamOk(log, c)
    ensures StreamOk(log + [m], c)
  {
    BodiesGrow(log, m, c.items);
    hide Bodies, Shares, FrameAll;
  }

  lemma NoTail()
    ensures CutOff([])
  {
    var m := Message(0, []);
    assert Frame(m)[..0] == [];
  }

  lemma ItemAppend(log: seq<Message>, items: seq<Item>, i: Item)
    ensures Bodies(log, items + [i]) == Bodies(log, items) + [if i.Own? then i.m else if i.n < |log| then log[i.n] else Message(0, [])]
    ensures Shares(items + [i]) == Shares(items) + if i.Shared? then [i.n] else []
  {
    assert (items + [i])[..|items|] == items;
  }

  /** More of the frame after its first `off` bytes. */
  lemma StreamPart(log: seq<Message>, c: Conn, m: Message, off: nat, off': nat)
    requires StreamOk(log, c) && Sendable(m) && off <= off' < |Frame(m)| && c.tail == Frame(m)[..off]
    ensures StreamOk(log, c.(wire := c.wire + Frame(m)[off..off'], tail := Frame(m)[..off']))
  {
    hide Bodies, Shares, FrameAll;
    assert Frame(m)[..off] + Frame(m)[off..off'] == Frame(m)[..off'];
    assert c.wire + Frame(m)[off..off'] == FrameAll(Bodies(log, c.items)) + (Frame(m)[..off] + Frame(m)[off..off']);
  }

  /** The rest of the frame: one more item. */
  lemma StreamItem(log: seq<Message>, c: Conn, m: Message, off: nat, i: Item, upTo: nat)
    requires StreamOk(log, c) && Sendable(m) && off <= |Frame(m)| && c.tail == Frame(m)[..off]
    requires (i == Own(m) && upTo == c.upTo) || (i == Shared(c.upTo) && c.upTo < |log| && log[c.upTo] == m && upTo == c.upTo + 1)
    ensures StreamOk(log, c.(wire := c.wire + Frame(m)[off..], tail := [], items := c.items + [i], upTo := upTo))
  {
    NoTail();
    ItemAppend(log, c.items, i);
    FrameAllAppend(Bodies(log, c.items), m);
    CompleteFrame(FrameAll(Bodies(log, c.items)), Frame(m), off);
    if i.Shared? {
      RangeNext(c.start, c.upTo);
    }
    hide Bodies, Shares, FrameAll, CutOff, Frame, Range;
  }

  lemma CompleteFrame(all: seq<byte>, f: seq<byte>, off: nat)
    requires off <= |f|
    ensures (all + f[..off]) + f[off..] == (all + f) + []
  {
  }

  lemma RangeNext(a: nat, b: nat)
    requires a <= b
    ensures Range(a, b + 1) == Range(a, b) + [b]
  {
  }

  lemma AcceptKeeps(s: State)
    requires Inv(s) && s.holder.Nobody?
    ensures Inv(Apply(s, Accept))
  {
    NoTail();
    var s' := Apply(s, Accept);
    var c := Conn([], [], |s.log|, |s.log|, []);
    assert StreamOk(s.log, c) by {
      assert Range(|s.log|, |s.log|) == [];
    }
    hide StreamOk;
    forall i | 0 <= i < |s'.slots| && IsLive(s', i)
      ensures LiveOk(s', i)
    {
      if s'.slots[i] == s.slots[i] {
        assert LiveOk(s, i);
      }
    }
  }

  lemma LockKeeps(s: State, step: Step)
    requires Inv(s) && Enabled(s, step) && (step.Release? || step.LockAll? || step.LockOne? || step.Unlock? || step.PassOver?)
    ensures Inv(Apply(s, step))
  {
    var s' := Apply(s, step);
    if step.LockAll? {
      forall c <- s.conns
        ensures StreamOk(s'.log, c)
      {
        StreamGrows(s.log, step.m, c);
      }
    }
    hide StreamOk;
    forall i | 0 <= i < |s'.slots| && IsLive(s', i)
      ensures LiveOk(s', i)
    {
      assert IsLive(s, i) && LiveOk(s, i);
    }
  }

  lemma FailKeeps(s: State)
    requires Inv(s) && Enabled(s, SendFails)
    ensures Inv(Apply(s, SendFails))
  {
    hide StreamOk;
    var s' := Apply(s, SendFails);
    forall i | 0 <= i < |s'.slots| && IsLive(s', i)
      ensures LiveOk(s', i)
    {
      assert IsLive(s, i) && LiveOk(s, i);
    }
  }

  /** The connection that the holder is sending to. */
  lemma SendTarget(s: State)
    requires Inv(s) && AtOpenSlot(s)
    ensures var c := s.conns[s.slots[s.holder.at].conn];
            && Sendable(s.holder.m) && s.holder.off < |Frame(s.holder.m)|
            && StreamOk(s.log, c) && c.tail == Frame(s.holder.m)[..s.holder.off]
            && (s.holder.ToAll? ==> |s.log| >= 1 && c.upTo == |s.log| - 1 && s.log[c.upTo] == s.holder.m)
            && (s.holder.ToOne? ==> c.upTo == |s.log|)
  {
    hide StreamOk, Frame;
    assert LiveOk(s, s.holder.at);
  }

  lemma SendStream(s: State, n: nat)
    requires Inv(s) && Enabled(s, SendSome(n))
    ensures var s' := Apply(s, SendSome(n)); var k := s.slots[s.holder.at].conn;
            |s'.conns| == |s.conns| && s'.conns == s.conns[k := s'.conns[k]] && StreamOk(s.log, s'.conns[k])
  {
    hide Inv, StreamOk, Frame, Advance;
    SendTarget(s);
    var m, off, k := s.holder.m, s.holder.off, s.slots[s.holder.at].conn;
    if off + n < |Frame(m)| {
      StreamPart(s.log, s.conns[k], m, off, off + n);
    } else {
      assert Frame(m)[off..off + n] == Frame(m)[off..];
      StreamItem(s.log, s.conns[k], m, off, if s.holder.ToAll? then Shared(|s.log| - 1) else Own(m), |s.log|);
    }
  }

  lemma FrameLong(m: Message)
    requires Sendable(m)
    ensures |Frame(m)| >= HEAD
  {
  }

  lemma SendHolder(s: State, n: nat)
    requires Inv(s) && Enabled(s, SendSome(n))
    ensures var s' := Apply(s, SendSome(n)); s'.slots == s.slots && s'.log == s.log && HolderOk(s')
  {
    FrameLong(s.holder.m);
    hide StreamOk, LiveOk, Frame;
  }

  lemma SendLive(s: State, n: nat, i: nat)
    requires Inv(s) && Enabled(s, SendSome(n)) && IsLive(s, i) && HolderOk(Apply(s, SendSome(n)))
    ensures var s' := Apply(s, SendSome(n)); s.slots[i].conn < |s'.conns| && LiveOk(s', i)
  {
    assert LiveOk(s, i);
    hide StreamOk, Frame, HolderOk;
  }

  lemma SendKeeps(s: State, n: nat)
    requires Inv(s) && Enabled(s, SendSome(n))
    ensures Inv(Apply(s, SendSome(n)))
  {
    SendStream(s, n);
    SendHolder(s, n);
    var s' := Apply(s, SendSome(n));
    forall i | 0 <= i < |s'.slots| && IsLive(s', i)
      ensures s.slots[i].conn < |s'.conns| && LiveOk(s', i)
    {
      SendLive(s, n, i);
    }
    hide StreamOk, Frame, Apply, HolderOk, LiveOk;
  }

  lemma StartOk()
    ensures Inv(Start())
  {
  }

  /** Every interleaving keeps the invariant. */
  lemma {:induction false} RunKeeps(steps: seq<Step>)
    ensures Inv(Run(steps))
  {
    if steps == [] {
      StartOk();
    } else {
      var s, step := Run(steps[..|steps| - 1]), steps[|steps| - 1];
      RunKeeps(steps[..|steps| - 1]);
      if Enabled(s, step) {
        hide Inv, Enabled;
        match step {
          case Accept => AcceptStep(s);
          case SendSome(n) => SendKeeps(s, n);
          case SendFails => FailKeeps(s);
          case _ => LockKeeps(s, step);
        }
      }
    }
  }

  lemma AcceptStep(s: State)
    requires Inv(s) && Enabled(s, Accept)
    ensures Inv(Apply(s, Accept))
  {
    AcceptKeeps(s);
  }

  // ---- main results ----

  /** In every interleaving, a connection's bytes are whole frames followed by at most one frame
      cut off; its broadcasts are consecutive ones from its allocation on; live connections sit
      in distinct slots; and whenever the mutex is free a live connection has no partial frame
      and has every broadcast sent so far. */
  lemma StreamsAreFrames(steps: seq<Step>)
    ensures var s := Run(steps);
            && (forall c <- s.conns :: StreamOk(s.log, c))
            && (forall i, j :: 0 <= i < j < |s.slots| && s.slots[i].Used? && s.slots[j].Used? ==> s.slots[i].conn != s.slots[j].conn)
            && (forall i :: 0 <= i < |s.slots| && IsLive(s, i) ==> s.slots[i].conn < |s.conns|)
            && (s.holder.Nobody? ==> forall i :: 0 <= i < |s.slots| && IsLive(s, i) ==>
                  s.conns[s.slots[i].conn].tail == [] && s.conns[s.slots[i].conn].upTo == |s.log|)
  {
    RunKeeps(steps);
    hide StreamOk, Run;
    var s := Run(steps);
    forall i | s.holder.Nobody? && 0 <= i < |s.slots| && IsLive(s, i)
      ensures s.conns[s.slots[i].conn].tail == [] && s.conns[s.slots[i].conn].upTo == |s.log|
    {
      assert LiveOk(s, i);
    }
  }

  /** What the client at the other end makes of its bytes: exactly the messages sent whole. */
  lemma ClientSeesWholeMessages(steps: seq<Step>, c: Conn, max: nat)
    requires c in Run(steps).conns
    ensures ParseMany(c.wire, max) == CutAll(Bodies(Run(steps).log, c.items), max)
  {
    hide Run, Frame, ParseMany, CutAll, Bodies, FrameAll;
    StreamsAreFrames(steps);
    var m, k: nat :| Sendable(m) && k < |Frame(m)| && c.tail == Frame(m)[..k];
    StreamRoundTrip(Bodies(Run(steps).log, c.items), m, k, max);
  }

  /** No live slot belongs to the connection. */
  ghost predicate Closed(s: State, k: nat) {
    forall i :: 0 <= i < |s.slots| && IsLive(s, i) ==> s.slots[i].conn != k
  }

  lemma ClosedStep(s: State, step: Step, k: nat)
    requires Inv(s) && k < |s.conns| && Closed(s, k)
    ensures var s' := Apply(s, step); k < |s'.conns| && s'.conns[k] == s.conns[k] && Closed(s', k)
  {
    hide StreamOk, Frame;
  }

  /** And then nothing: whatever happens after a failed send or after its release, a connection's
      bytes never change again. */
  lemma {:induction false} ClosedIsFrozen(steps: seq<Step>, n: nat, k: nat)
    requires n <= |steps| && k < |Run(steps[..n]).conns| && Closed(Run(steps[..n]), k)
    ensures var s := Run(steps);
            k < |s.conns| && s.conns[k] == Run(steps[..n]).conns[k] && Closed(s, k)
  {
    hide Inv, Apply, Closed;
    if n == |steps| {
      assert steps[..n] == steps;
    } else {
      var m := |steps| - 1;
      assert steps[..m][..n] == steps[..n];
      ClosedIsFrozen(steps[..m], n, k);
      RunKeeps(steps[..m]);
      ClosedStep(Run(steps[..m]), steps[m], k);
    }
  }

  lemma {:induction false} SharesAppear(items: seq<Item>, k: nat)
    requires k < |Shares(items)|
    ensures Shared(Shares(items)[k]) in items
  {
    var n := |items| - 1;
    if k < |Shares(items[..n])| {
      SharesAppear(items[..n], k);
    } else {
      assert items[n] == Shared(Shares(items)[k]);
    }
  }

  /** Any two connections got the broadcasts they have in common in the same order: in each the
      broadcast numbers count up by one, so every number below both ends and past both starts is
      in both, at the same distance from any other such number. */
  lemma SameOrder(steps: seq<Step>, a: Conn, b: Conn, n: nat)
    requires var cs := Run(steps).conns; a in cs && b in cs
    requires Max(a.start, b.start) <= n < Min(a.upTo, b.upTo)
    ensures var sa, sb := Shares(a.items), Shares(b.items);
            && |sa| == a.upTo - a.start && |sb| == b.upTo - b.start
            && sa[n - a.start] == n && sb[n - b.start] == n
            && (forall i, j :: 0 <= i < j < |sa| ==> sa[i] < sa[j])
            && (forall i, j :: 0 <= i < j < |sb| ==> sb[i] < sb[j])
            && Shared(n) in a.items && Shared(n) in b.items
  {
    StreamsAreFrames(steps);
    hide Run, Shares, Bodies, FrameAll;
    assert Shares(a.items) == Range(a.start, a.upTo);
    assert Shares(b.items) == Range(b.start, b.upTo);
    SharesAppear(a.items, n - a.start);
    SharesAppear(b.items, n - b.start);
  }
}
