/** PSC messages, pscmsg.c: the wire format of a message, and what a receiver is meant to make of a
    byte stream. */
module PscMsg {
  import opened Words

  const P: byte := 80   // 'P'
  const S: byte := 83   // 'S'
  const HEAD: nat := 8

  datatype Message = Message(id: u16, body: seq<byte>)

  /** The length field has 32 bits. */
  predicate Sendable(m: Message) {
    |m.body| < 0x1_0000_0000
  }

  // ---- the wire format ----

  /** htons and htonl: most significant byte first. */
  function Be16(n: u16): (b: seq<byte>)
    ensures |b| == 2
  {
    [n / 0x100, n % 0x100]
  }

  function Be32(n: u32): (b: seq<byte>)
    ensures |b| == 4
  {
    Be16(n / 0x1_0000) + Be16(n % 0x1_0000)
  }

  function Be16Value(b: seq<byte>): u16
    requires |b| == 2
  {
    (b[0] as int) * 0x100 + b[1]
  }

  function Be32Value(b: seq<byte>): u32
    requires |b| == 4
  {
    Be16Value(b[..2]) * 0x1_0000 + Be16Value(b[2..])
  }

  lemma Be32RoundTrip(n: u32)
    ensures Be32Value(Be32(n)) == n
  {
    assert Be32(n)[..2] == Be16(n / 0x1_0000);
    assert Be32(n)[2..] == Be16(n % 0x1_0000);
  }

  function Head(id: u16, len: u32): (h: seq<byte>)
    ensures |h| == HEAD
  {
    [P, S] + Be16(id) + Be32(len)
  }

  function Frame(m: Message): seq<byte>
    requires Sendable(m)
  {
    Head(m.id, |m.body|) + m.body
  }

  ghost predicate AllSendable(ms: seq<Message>) {
    forall m <- ms :: Sendable(m)
  }

  function FrameAll(ms: seq<Message>): seq<byte>
    requires AllSendable(ms)
  {
    if ms == [] then [] else Frame(ms[0]) + FrameAll(ms[1..])
  }

  /** The frame byte by byte: "PS", the id and the length with their most significant bytes first,
      then the body. */
  lemma FrameBytes(m: Message)
    requires Sendable(m)
    ensures var f := Frame(m);
            && |f| == 8 + |m.body| && f[0] == 0x50 && f[1] == 0x53
            && (f[2] as int) * 256 + f[3] == m.id
            && (f[4] as int) * 16777216 + (f[5] as int) * 65536 + (f[6] as int) * 256 + f[7] == |m.body|
            && forall k :: 0 <= k < |m.body| ==> f[8 + k] == m.body[k]
  {
  }

  // ---- what a receiver makes of a stream ----

  /** The message at the head of the stream, its body cut to `max` bytes, and the rest. */
  datatype Parsed = Short | Bad | Parsed(id: u16, body: seq<byte>, rest: seq<byte>)

  function ParseOne(stream: seq<byte>, max: nat): Parsed {
    if |stream| < HEAD then Short
    else if stream[0] != P || stream[1] != S then Bad
    else
      var len := Be32Value(stream[4..8]);
      if |stream| < HEAD + len then Short
      else Parsed(Be16Value(stream[2..4]), stream[HEAD..HEAD + Min(len, max)], stream[HEAD + len..])
  }

  function ParseMany(stream: seq<byte>, max: nat): seq<Message>
    decreases |stream|
  {
    var p := ParseOne(stream, max);
    if p.Parsed? then [Message(p.id, p.body)] + ParseMany(p.rest, max) else []
  }

  function Cut(m: Message, max: nat): Message {
    Message(m.id, m.body[..Min(|m.body|, max)])
  }

  function CutAll(ms: seq<Message>, max: nat): seq<Message> {
    if ms == [] then [] else [Cut(ms[0], max)] + CutAll(ms[1..], max)
  }

  lemma HeadFields(m: Message, rest: seq<byte>)
    requires Sendable(m)
    ensures var s := Frame(m) + rest;
            && |s| >= HEAD && s[0] == P && s[1] == S
            && Be16Value(s[2..4]) == m.id && Be32Value(s[4..8]) == |m.body|
  {
    var s := Frame(m) + rest;
    var h := Head(m.id, |m.body|);
    assert s[..8] == h;
    assert s[2..4] == h[2..4] == Be16(m.id);
    assert s[4..8] == h[4..8] == Be32(|m.body|);
    Be32RoundTrip(|m.body|);
  }

  lemma ParseFrame(m: Message, rest: seq<byte>, max: nat)
    requires Sendable(m)
    ensures var c := Cut(m, max); ParseOne(Frame(m) + rest, max) == Parsed(c.id, c.body, rest)
  {
    HeadFields(m, rest);
    var s := Frame(m) + rest;
    hide Head, Be16Value, Be32Value;
    assert s[HEAD..HEAD + |m.body|] == m.body;
    assert s[HEAD..HEAD + Min(|m.body|, max)] == m.body[..Min(|m.body|, max)];
    assert s[HEAD + |m.body|..] == rest;
  }

  /** A frame cut short yields nothing. */
  lemma ParseCutFrame(m: Message, k: nat, max: nat)
    requires Sendable(m) && k < |Frame(m)|
    ensures ParseOne(Frame(m)[..k], max) == Short
  {
    if k >= HEAD {
      HeadFields(m, []);
      assert Frame(m) + [] == Frame(m);
      hide Head, Be16Value, Be32Value;
      assert Frame(m)[..k][4..8] == Frame(m)[4..8];
      assert Frame(m)[..k][2..4] == Frame(m)[2..4];
    }
  }

  /** Round trip: from the frames of any messages, followed by at most part of another frame,
      a receiver gets exactly those messages, each body cut to its buffer. */
  lemma {:induction false} StreamRoundTrip(ms: seq<Message>, next: Message, k: nat, max: nat)
    requires AllSendable(ms) && Sendable(next) && k < |Frame(next)|
    ensures ParseMany(FrameAll(ms) + Frame(next)[..k], max) == CutAll(ms, max)
  {
    hide Frame, ParseOne, Cut;
    if ms == [] {
      assert FrameAll(ms) + Frame(next)[..k] == Frame(next)[..k];
      ParseCutFrame(next, k, max);
    } else {
      var tail := FrameAll(ms[1..]) + Frame(next)[..k];
      assert FrameAll(ms) + Frame(next)[..k] == Frame(ms[0]) + tail;
      ParseFrame(ms[0], tail, max);
      StreamRoundTrip(ms[1..], next, k, max);
      MessageEta(Cut(ms[0], max));
    }
  }

  lemma MessageEta(m: Message)
    ensures Message(m.id, m.body) == m
  {
  }

  lemma {:induction false} FrameAllAppend(ms: seq<Message>, m: Message)
    requires AllSendable(ms) && Sendable(m)
    ensures AllSendable(ms + [m])
    ensures FrameAll(ms + [m]) == FrameAll(ms) + Frame(m)
  {
    hide Frame;
    if ms == [] {
      assert ms + [m] == [m];
      assert FrameAll([m]) == Frame(m) + FrameAll([]);
    } else {
      FrameAllAppend(ms[1..], m);
      assert (ms + [m])[1..] == ms[1..] + [m];
      assert FrameAll(ms + [m]) == Frame(ms[0]) + FrameAll(ms[1..] + [m]);
    }
  }
}
