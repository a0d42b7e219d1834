/** The C functions of pscmsg.c over a socket, and the receive loop of listener.c. */
module PscSocket {
  import opened Words
  import opened PscMsg
  import opened PscRecv

  /** A connected stream socket: what has been sent, what the peer's stream still holds, and how
      the coming recv calls turn out. */
  class Socket {
    var sent: seq<byte>
    var incoming: seq<byte>
    var arrivals: seq<int>
    ghost var lost: bool

    ghost function Receiver(): (rx: Rx)
      ensures rx.left == |incoming|
      reads this
    {
      Rx(|incoming|, arrivals, lost)
    }

    constructor (incoming: seq<byte>, arrivals: seq<int>)
      ensures sent == [] && this.incoming == incoming && Receiver() == Rx(|incoming|, arrivals, false)
    {
      sent, this.incoming, this.arrivals, lost := [], incoming, arrivals, false;
    }

    /** send: some leading bytes of the buffer, or a failure that takes none. */
    method Send(buf: seq<byte>) returns (ret: int)
      modifies this`sent
      ensures -1 <= ret <= |buf|
      ensures sent == old(sent) + buf[..Max(ret, 0)]
    {
      ret :| -1 <= ret <= |buf|;
      sent := sent + buf[..Max(ret, 0)];
    }

    /** recv: at least one and at most `len` of the bytes still coming, or a failure. */
    method Recv(len: nat) returns (ret: int, data: seq<byte>)
      modifies this`incoming, this`arrivals, this`lost
      ensures ret == RecvResult(old(Receiver()), len) && Receiver() == AfterRecv(old(Receiver()), len)
      ensures old(incoming) == data + incoming && |data| == Max(ret, 0)
    {
      ret, data := -1, [];
      if arrivals != [] {
        ret, arrivals := Min(Min(arrivals[0], len), |incoming|), arrivals[1..];
      }
      if ret <= 0 {
        assert data + incoming == incoming;
        lost := lost || incoming != [];
      } else {
        data, incoming := incoming[..ret], incoming[ret..];
      }
    }
  }

  /** psc_sendall: exactly the buffer, or a strict prefix of it and an error. */
  method SendAll(sock: Socket, buf: seq<byte>) returns (status: Status)
    modifies sock`sent
    ensures old(sock.sent) <= sock.sent <= old(sock.sent) + buf
    ensures status.Ok? <==> sock.sent == old(sock.sent) + buf
  {
    var left := buf;
    while |left| > 0
      invariant old(sock.sent) <= sock.sent
      invariant sock.sent + left == old(sock.sent) + buf
      decreases |left|
    {
      var ret := sock.Send(left);
      if ret < 0 {
        return Errno;
      } else if ret == 0 {
        return NotConnected;
      }
      left := left[ret..];
    }
    status := Ok;
  }

  /** psc_recvall after `n` bytes, with `left` to go. */
  function WholeOn(rx: Rx, n: nat, left: nat): Whole {
    var r := RecvWhole(rx, left);
    Whole(r.status, n + r.n, r.rx)
  }

  lemma WholeStep(rx: Rx, n: nat, left: nat)
    ensures WholeOn(rx, 0, left) == RecvWhole(rx, left)
    ensures left == 0 ==> WholeOn(rx, n, left) == Whole(Ok, n, rx)
    ensures left > 0 ==>
              var ret := RecvResult(rx, left);
              WholeOn(rx, n, left) == if ret < 0 then Whole(Errno, n, AfterRecv(rx, left))
                                      else if ret == 0 then Whole(NotConnected, n, AfterRecv(rx, left))
                                      else WholeOn(AfterRecv(rx, left), n + ret, left - ret)
  {
  }

  /** psc_recvall: the next `len` bytes, or fewer and an error. */
  method RecvAll(sock: Socket, len: nat) returns (status: Status, buf: seq<byte>)
    modifies sock`incoming, sock`arrivals, sock`lost
    ensures RecvWhole(old(sock.Receiver()), len) == Whole(status, |buf|, sock.Receiver())
    ensures old(sock.incoming) == buf + sock.incoming
    ensures status.Ok? <==> |buf| == len
  {
    WholeStep(sock.Receiver(), 0, len);
    hide RecvWhole, WholeOn, RecvResult, AfterRecv;
    buf := [];
    while |buf| < len
      invariant |buf| <= len && old(sock.incoming) == buf + sock.incoming
      invariant RecvWhole(old(sock.Receiver()), len) == WholeOn(sock.Receiver(), |buf|, len - |buf|)
      decreases len - |buf|
    {
      WholeStep(sock.Receiver(), |buf|, len - |buf|);
      var ret, data := sock.Recv(len - |buf|);
      if ret <= 0 {
        assert data == [];
        assert [] + sock.incoming == sock.incoming;
      }
      if ret < 0 {
        return Errno, buf;
      } else if ret == 0 {
        return NotConnected, buf;
      }
      Concat(buf, data, sock.incoming);
      buf := buf + data;
    }
    WholeStep(sock.Receiver(), |buf|, 0);
    status := Ok;
  }

  ghost predicate Suffix(t: seq<byte>, s: seq<byte>) {
    |t| <= |s| && t == s[|s| - |t|..]
  }

  lemma SuffixStep(s: seq<byte>, t: seq<byte>, buf: seq<byte>, u: seq<byte>)
    requires Suffix(t, s) && t == buf + u
    ensures Suffix(u, s)
  {
    assert u == t[|buf|..];
  }

  lemma Concat(a: seq<byte>, b: seq<byte>, c: seq<byte>)
    ensures a + (b + c) == (a + b) + c
  {
  }

  /** What is left of psc_recvskip: its loop when there is more to come, or only the last receive. */
  function SkipOn(rx: Rx, left: nat, more: bool, stored: nat): Skipped {
    if more then
      var k := Skip(rx, left);
      Skipped(k.status, Max(stored, k.stored), k.rx)
    else
      var r := RecvWhole(rx, left);
      Skipped(r.status, Max(stored, r.n), r.rx)
  }

  lemma SkipStart(rx: Rx, len: nat)
    ensures Skip(rx, len) == SkipOn(rx, len, len > SKIP, 0)
  {
    hide RecvWhole;
  }

  lemma SkipUnfold(rx: Rx, left: nat, stored: nat)
    requires left > SKIP
    ensures var r := RecvWhole(rx, SKIP);
            var left' := if r.status.Ok? then left - SKIP else left;
            SkipOn(rx, left, true, stored) == SkipOn(r.rx, left', r.status.Ok? && left' > SKIP, Max(stored, r.n))
  {
    WholeFacts(rx, SKIP);
    SkipStart(RecvWhole(rx, SKIP).rx, left - SKIP);
    hide RecvWhole;
  }

  /** psc_recvskip: 128 bytes at a time, and after an error in that loop one more receive, for all
      that is left to skip. `stored` is the most that one of them has put into the 128-byte
      buffer. */
  method RecvSkip(sock: Socket, len: nat) returns (status: Status, ghost stored: nat)
    modifies sock`incoming, sock`arrivals, sock`lost
    ensures Skip(old(sock.Receiver()), len) == Skipped(status, stored, sock.Receiver())
    ensures sock.incoming == Rest(old(sock.incoming), sock.Receiver())
  {
    SkipStart(sock.Receiver(), len);
    hide Skip, RecvWhole, SkipOn, Suffix, Rest;
    assert Suffix(sock.incoming, sock.incoming) by { AllOfIt(sock.incoming); }
    stored := 0;
    var left: nat, more, buf := len, len > SKIP, [];
    while more
      invariant left <= len && (more ==> left > SKIP)
      invariant Suffix(sock.incoming, old(sock.incoming))
      invariant Skip(old(sock.Receiver()), len) == SkipOn(sock.Receiver(), left, more, stored)
      decreases left, more
    {
      ghost var t := sock.incoming;
      SkipUnfold(sock.Receiver(), left, stored);
      status, buf := RecvAll(sock, SKIP);
      SuffixStep(old(sock.incoming), t, buf, sock.incoming);
      stored := Max(stored, |buf|);
      if status.Ok? {
        left := left - SKIP;
      }
      more := status.Ok? && left > SKIP;
    }
    ghost var t := sock.incoming;
    SkipEnd(sock.Receiver(), left, stored);
    status, buf := RecvAll(sock, left);
    SuffixStep(old(sock.incoming), t, buf, sock.incoming);
    stored := Max(stored, |buf|);
    SuffixIsRest(old(sock.incoming), sock.incoming, sock.Receiver());
  }

  lemma AllOfIt(s: seq<byte>)
    ensures Suffix(s, s)
  {
  }

  lemma SuffixIsRest(s: seq<byte>, t: seq<byte>, rx: Rx)
    requires Suffix(t, s) && rx.left == |t|
    ensures t == Rest(s, rx)
  {
  }

  lemma SkipEnd(rx: Rx, left: nat, stored: nat)
    ensures var r := RecvWhole(rx, left); SkipOn(rx, left, false, stored) == Skipped(r.status, Max(stored, r.n), r.rx)
  {
  }

  /** psc_sendmsg: the whole frame, or a strict prefix of it and an error. */
  method SendMsg(sock: Socket, m: Message) returns (status: Status)
    requires Sendable(m)
    modifies sock`sent
    ensures old(sock.sent) <= sock.sent <= old(sock.sent) + Frame(m)
    ensures status.Ok? <==> sock.sent == old(sock.sent) + Frame(m)
  {
    ghost var before := sock.sent;
    status := SendAll(sock, Head(m.id, |m.body|));
    if !status.Ok? {
      assert |sock.sent| < |before| + |Frame(m)|;
      assert before + Frame(m) == before + Head(m.id, |m.body|) + m.body;
      return;
    }
    status := SendAll(sock, m.body);
    assert before + Frame(m) == before + Head(m.id, |m.body|) + m.body;
  }

  /** psc_recvhead. */
  method RecvHead(sock: Socket) returns (status: Status, id: u16, len: u32)
    modifies sock`incoming, sock`arrivals, sock`lost
    ensures GetHead(old(sock.incoming), old(sock.Receiver())) == HeadGot(status, id, len, sock.Receiver())
    ensures sock.incoming == Rest(old(sock.incoming), sock.Receiver())
  {
    hide RecvWhole, Be16Value, Be32Value;
    id, len := 0, 0;
    var buf;
    status, buf := RecvAll(sock, HEAD);
    if !status.Ok? {
      return;
    }
    if buf[0] != P || buf[1] != S {
      return BadMagic, 0, 0;
    }
    assert buf[2..4] == old(sock.incoming)[2..4] && buf[4..8] == old(sock.incoming)[4..8];
    id, len := Be16Value(buf[2..4]), Be32Value(buf[4..8]);
  }

  /** psc_recvmsg with a buffer of `max` bytes. */
  method RecvMsg(sock: Socket, max: u32) returns (status: Status, id: u16, body: seq<byte>, ghost stored: nat)
    modifies sock`incoming, sock`arrivals, sock`lost
    ensures GetMsg(old(sock.incoming), old(sock.Receiver()), max) == Got(status, id, body, stored, sock.Receiver())
    ensures sock.incoming == Rest(old(sock.incoming), sock.Receiver())
  {
    hide RecvWhole, Skip, GetHead, GetMsg, GetTail;
    ghost var s, rx := sock.incoming, sock.Receiver();
    HeadFacts(s, rx);
    MsgIs(s, rx, max);
    var len;
    status, id, len := RecvHead(sock);
    if !status.Ok? {
      body, stored := [], 0;
      return;
    }
    status, body, stored := RecvTail(sock, len, max);
    TailOfStream(s, body, sock.incoming);
  }

  lemma MsgIs(s: seq<byte>, rx: Rx, max: u32)
    requires |s| == rx.left
    ensures var g := GetMsg(s, rx, max); var h := GetHead(s, rx);
            if !h.status.Ok? then g == Got(h.status, h.id, [], 0, h.rx)
            else
              var t := GetTail(h.rx, h.len, max);
              |s| >= HEAD + t.n && g == Got(t.status, h.id, s[HEAD..HEAD + t.n], t.stored, t.rx)
  {
    HeadFacts(s, rx);
    TailFacts(GetHead(s, rx).rx, GetHead(s, rx).len, max);
    hide GetHead, RecvWhole, GetTail;
  }

  /** What psc_recvmsg does after the header. */
  method RecvTail(sock: Socket, len: u32, max: u32) returns (status: Status, body: seq<byte>, ghost stored: nat)
    modifies sock`incoming, sock`arrivals, sock`lost
    ensures GetTail(old(sock.Receiver()), len, max) == Tail(status, |body|, stored, sock.Receiver())
    ensures body <= old(sock.incoming) && Suffix(sock.incoming, old(sock.incoming))
  {
    hide RecvWhole, Skip;
    stored := 0;
    var rlen := if len > max then max else len;
    status, body := RecvAll(sock, rlen);
    ghost var t := sock.incoming;
    if status.Ok? && rlen < len {
      SkipFacts(sock.Receiver(), len - rlen);
      status, stored := RecvSkip(sock, len - rlen);
    }
  }

  lemma TailOfStream(s: seq<byte>, body: seq<byte>, rest: seq<byte>)
    requires |s| >= HEAD && body <= s[HEAD..] && Suffix(rest, s[HEAD..])
    ensures body == s[HEAD..HEAD + |body|] && rest == s[|s| - |rest|..]
  {
  }

  /** The receive loop after the messages `ms`. */
  function LoopOn(s: seq<byte>, rx: Rx, max: u32, ms: seq<Message>): Loop
    requires |s| == rx.left
  {
    var rest := GetAll(s, rx, max);
    Loop(ms + rest.ms, rest.rx)
  }

  lemma LoopStart(s: seq<byte>, rx: Rx, max: u32)
    requires |s| == rx.left
    ensures GetAll(s, rx, max) == LoopOn(s, rx, max, [])
  {
    hide GetAll;
  }

  lemma LoopStep(s: seq<byte>, rx: Rx, max: u32, ms: seq<Message>)
    requires |s| == rx.left
    ensures var g := GetMsg(s, rx, max);
            && g.rx.left <= |s| && (g.status.Ok? ==> g.rx.left < |s|)
            && LoopOn(s, rx, max, ms) == if g.status.Ok? then LoopOn(Rest(s, g.rx), g.rx, max, ms + [Message(g.id, g.body)])
                                         else Loop(ms, g.rx)
  {
    MsgFacts(s, rx, max);
    hide GetMsg;
  }

  /** The receive loop of handle_client. */
  method ReceiveLoop(sock: Socket, max: u32) returns (ms: seq<Message>)
    modifies sock`incoming, sock`arrivals, sock`lost
    ensures GetAll(old(sock.incoming), old(sock.Receiver()), max) == Loop(ms, sock.Receiver())
  {
    hide GetMsg, GetAll, LoopOn;
    ms := [];
    LoopStart(sock.incoming, sock.Receiver(), max);
    while true
      invariant GetAll(old(sock.incoming), old(sock.Receiver()), max) == LoopOn(sock.incoming, sock.Receiver(), max, ms)
      decreases |sock.incoming|
    {
      LoopStep(sock.incoming, sock.Receiver(), max, ms);
      var status, id, body, stored := RecvMsg(sock, max);
      if !status.Ok? {
        return;
      }
      ms := ms + [Message(id, body)];
    }
  }

  /** Both ends: one side sends messages with psc_sendmsg until one of them fails, and what it has
      sent is the other side's stream. The receive loop delivers the messages sent whole, each cut
      to the buffer: all of them, if no receive fails with bytes still to come. */
  method Transfer(sender: Socket, ms: seq<Message>, arrivals: seq<int>, max: u32)
    returns (whole: nat, got: seq<Message>, ghost lost: bool)
    requires AllSendable(ms) && sender.sent == []
    modifies sender`sent
    ensures whole <= |ms|
    ensures !lost ==> got == CutAll(ms[..whole], max)
    ensures (forall m <- ms :: |m.body| <= max + SKIP) ==> got <= CutAll(ms[..whole], max)
  {
    whole := 0;
    ghost var next, k: nat := Message(0, []), 0;
    var status := Ok;
    assert Frame(next)[..k] == [];
    while whole < |ms| && status.Ok?
      invariant whole <= |ms| && Sendable(next) && k < |Frame(next)| && (status.Ok? ==> k == 0)
      invariant next in ms || next.body == []
      invariant sender.sent == FrameAll(ms[..whole]) + Frame(next)[..k]
      decreases |ms| - whole, status.Ok?
    {
      ghost var before := sender.sent;
      var m := ms[whole];
      assert before == FrameAll(ms[..whole]);
      status := SendMsg(sender, m);
      if status.Ok? {
        FrameAllAppend(ms[..whole], m);
        assert ms[..whole + 1] == ms[..whole] + [m];
        whole := whole + 1;
        next, k := Message(0, []), 0;
        assert Frame(next)[..k] == [];
      } else {
        next, k := m, |sender.sent| - |before|;
        PrefixOf(before, Frame(m), sender.sent);
      }
    }
    var receiver := new Socket(sender.sent, arrivals);
    assert forall m <- ms[..whole] :: m in ms;
    RoundTrip(ms[..whole], next, k, receiver.Receiver(), max);
    got := ReceiveLoop(receiver, max);
    lost := receiver.lost;
  }

  lemma PrefixOf(a: seq<byte>, f: seq<byte>, b: seq<byte>)
    requires a <= b <= a + f && b != a + f
    ensures |b| - |a| < |f| && b == a + f[..|b| - |a|]
  {
  }
}
