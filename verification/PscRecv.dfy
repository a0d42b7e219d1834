/** Receiving PSC messages, pscmsg.c: which bytes end up where, for every way in which a stream may
    be split over recv calls and in which these calls may fail, finally or for a while. */
module PscRecv {
  import opened Words
  import opened PscMsg

  // ---- receiving: how many bytes, and whether it fails ----

  datatype Status = Ok | Errno | NotConnected | BadMagic

  const SKIP: nat := 128   // size of the buffer that psc_recvskip skips through

  /** The receiving side of a connected stream socket. `left` is how many bytes of the peer's
      stream are still to come. `arrivals` is how the coming recv calls turn out: so many bytes are
      waiting, or, when not positive, the call fails, by the end of the connection, an error or the
      receive timeout, after which later calls may well succeed; once the list is used up they all
      fail. `lost` notes that a call has failed with bytes still to come. */
  datatype Rx = Rx(left: nat, arrivals: seq<int>, lost: bool)

  /** The result of one recv for at least one byte. */
  function RecvResult(rx: Rx, len: nat): (ret: int)
    ensures ret <= len && ret <= rx.left
  {
    if rx.arrivals == [] then -1 else Min(Min(rx.arrivals[0], len), rx.left)
  }

  /** What it leaves. */
  function AfterRecv(rx: Rx, len: nat): Rx {
    var ret := RecvResult(rx, len);
    var arrivals := if rx.arrivals == [] then [] else rx.arrivals[1..];
    if ret <= 0 then Rx(rx.left, arrivals, rx.lost || rx.left > 0) else Rx(rx.left - ret, arrivals, rx.lost)
  }

  datatype Whole = Whole(status: Status, n: nat, rx: Rx)

  /** psc_recvall for `len` bytes: its result, and how many bytes it has stored. */
  function RecvWhole(rx: Rx, len: nat): Whole
    decreases len
  {
    if len == 0 then Whole(Ok, 0, rx)
    else
      var ret := RecvResult(rx, len);
      if ret <= 0 then Whole(if ret < 0 then Errno else NotConnected, 0, AfterRecv(rx, len))
      else
        var rest := RecvWhole(AfterRecv(rx, len), len - ret);
        Whole(rest.status, ret + rest.n, rest.rx)
  }

  datatype Skipped = Skipped(status: Status, stored: nat, rx: Rx)

  /** psc_recvskip; `stored` is the most that one psc_recvall has put into its 128-byte buffer. */
  function Skip(rx: Rx, len: nat): Skipped
    decreases len
  {
    if len <= SKIP then
      var r := RecvWhole(rx, len);
      Skipped(r.status, r.n, r.rx)
    else
      var r := RecvWhole(rx, SKIP);
      if r.status.Ok? then
        var rest := Skip(r.rx, len - SKIP);
        Skipped(rest.status, Max(SKIP, rest.stored), rest.rx)
      else
        // the loop ends on the error, but the last receive is made all the same
        var last := RecvWhole(r.rx, len);
        Skipped(last.status, Max(r.n, last.n), last.rx)
  }

  /** psc_recvall stores all that was asked for or less; and less only when the stream has run out
      or something in it has not come in time. */
  lemma {:induction false} WholeFacts(rx: Rx, len: nat)
    ensures var r := RecvWhole(rx, len);
            && r.n <= len && r.n <= rx.left && r.rx.left == rx.left - r.n
            && (r.status.Ok? <==> r.n == len) && r.status != BadMagic
            && (!r.status.Ok? ==> r.rx.lost || r.rx.left == 0)
            && (rx.lost ==> r.rx.lost) && (r.status.Ok? ==> r.rx.lost == rx.lost)
    decreases len
  {
    if len > 0 && RecvResult(rx, len) > 0 {
      WholeFacts(AfterRecv(rx, len), len - RecvResult(rx, len));
    }
  }

  // ---- skipping: when it keeps to its buffer and to the stream ----

  /** The bytes went through the 128-byte buffer, and success means exactly `len` of them. */
  predicate SkipsWell(rx: Rx, len: nat) {
    var k := Skip(rx, len);
    k.stored <= SKIP && (k.status.Ok? ==> rx.left >= len && k.rx.left == rx.left - len)
  }

  lemma {:induction false} SkipFacts(rx: Rx, len: nat)
    ensures var k := Skip(rx, len);
            && k.status != BadMagic && k.rx.left <= rx.left
            && (rx.lost ==> k.rx.lost)
            && (len <= SKIP || !k.rx.lost ==> SkipsWell(rx, len))
            && (!k.rx.lost ==> (k.status.Ok? <==> rx.left >= len))
    decreases len
  {
    if len <= SKIP {
      WholeFacts(rx, len);
    } else {
      WholeFacts(rx, SKIP);
      var r := RecvWhole(rx, SKIP);
      if r.status.Ok? {
        SkipFacts(r.rx, len - SKIP);
      } else {
        WholeFacts(r.rx, len);
      }
    }
    hide RecvWhole;
  }

  /** A stall in the middle of a chunk: some bytes come, the next call times out, the rest comes. */
  function Stall(early: nat, len: nat, later: seq<int>): seq<int> {
    [early as int, -1] + AtOnce(len, later)
  }

  /** `n` bytes arrive at once; none take no call. */
  function AtOnce(n: nat, later: seq<int>): seq<int> {
    if n == 0 then later else [n as int] + later
  }

  lemma OneCall(left: nat, n: nat, later: seq<int>, lost: bool)
    requires left >= n
    ensures RecvWhole(Rx(left, AtOnce(n, later), lost), n) == Whole(Ok, n, Rx(left - n, later, lost))
  {
    var arrivals := AtOnce(n, later);
    if n > 0 {
      assert arrivals[1..] == later;
      assert RecvResult(Rx(left, arrivals, lost), n) == n;
      assert RecvWhole(Rx(left - n, later, lost), 0) == Whole(Ok, 0, Rx(left - n, later, lost));
    }
  }

  lemma StalledChunk(early: nat, len: nat, left: nat, later: seq<int>)
    requires 1 <= early < SKIP && left > early
    ensures RecvWhole(Rx(left, Stall(early, len, later), false), SKIP) == Whole(Errno, early, Rx(left - early, AtOnce(len, later), true))
  {
    hide AtOnce;
    var rx := Rx(left, Stall(early, len, later), false);
    var rx1 := Rx(left - early, [-1] + AtOnce(len, later), false);
    var rx2 := Rx(left - early, AtOnce(len, later), true);
    assert rx.arrivals[1..] == rx1.arrivals && rx1.arrivals[1..] == rx2.arrivals;
    assert RecvResult(rx, SKIP) == early && AfterRecv(rx, SKIP) == rx1;
    assert RecvResult(rx1, SKIP - early) == -1 && AfterRecv(rx1, SKIP - early) == rx2;
    assert RecvWhole(rx1, SKIP - early) == Whole(Errno, 0, rx2);
  }

  lemma StallBreaks(early: nat, len: nat, left: nat, later: seq<int>)
    requires len > SKIP && 1 <= early < SKIP && left >= len + early
    ensures Skip(Rx(left, Stall(early, len, later), false), len) == Skipped(Ok, len, Rx(left - len - early, later, true))
  {
    hide RecvWhole, Stall;
    StalledChunk(early, len, left, later);
    OneCall(left - early, len, later, true);
  }

  /** psc_recvskip keeps to its buffer, and to the stream when it reports success, however calls
      fail and recover, if and only if there is no more than one chunk to skip. */
  lemma SkipExact(len: nat)
    ensures (forall rx :: SkipsWell(rx, len)) <==> len <= 128
  {
    if len <= SKIP {
      forall rx
        ensures SkipsWell(rx, len)
      {
        SkipFacts(rx, len);
      }
    } else {
      StallBreaks(5, len, len + 5, []);
      assert !SkipsWell(Rx(len + 5, Stall(5, len, []), false), len);
    }
  }

  /** A failed call is final: no later one succeeds. */
  ghost predicate Final(rx: Rx) {
    forall i, j :: 0 <= i < j < |rx.arrivals| && rx.arrivals[i] <= 0 ==> rx.arrivals[j] <= 0
  }

  /** Nothing comes any more. */
  ghost predicate Dead(rx: Rx) {
    rx.left == 0 || forall n <- rx.arrivals :: n <= 0
  }

  lemma FinalRecv(rx: Rx, len: nat)
    requires Final(rx)
    ensures Final(AfterRecv(rx, len))
    ensures len >= 1 && RecvResult(rx, len) <= 0 ==> Dead(AfterRecv(rx, len))
  {
    if len >= 1 && RecvResult(rx, len) <= 0 && rx.left > 0 && rx.arrivals != [] {
      assert rx.arrivals[0] <= 0;
      forall n <- rx.arrivals[1..]
        ensures n <= 0
      {
        var j :| 0 <= j < |rx.arrivals[1..]| && rx.arrivals[1..][j] == n;
        assert rx.arrivals[j + 1] == n;
      }
    }
  }

  lemma {:induction false} FinalWhole(rx: Rx, len: nat)
    requires Final(rx)
    ensures var r := RecvWhole(rx, len); Final(r.rx) && (!r.status.Ok? ==> Dead(r.rx))
    decreases len
  {
    if len > 0 {
      FinalRecv(rx, len);
      hide Final, Dead;
      if RecvResult(rx, len) > 0 {
        FinalWhole(AfterRecv(rx, len), len - RecvResult(rx, len));
      }
    }
  }

  lemma DeadWhole(rx: Rx, len: nat)
    requires Dead(rx) && len >= 1
    ensures !RecvWhole(rx, len).status.Ok? && RecvWhole(rx, len).n == 0
  {
    assert rx.arrivals != [] ==> rx.arrivals[0] in rx.arrivals;
    assert RecvResult(rx, len) <= 0;
  }

  /** When failures are final, skipping does well whatever the length. */
  lemma {:induction false} FinalSkip(rx: Rx, len: nat)
    requires Final(rx)
    ensures SkipsWell(rx, len) && Final(Skip(rx, len).rx)
    decreases len
  {
    hide Final, Dead;
    if len <= SKIP {
      FinalWhole(rx, len);
      WholeFacts(rx, len);
    } else {
      WholeFacts(rx, SKIP);
      FinalWhole(rx, SKIP);
      var r := RecvWhole(rx, SKIP);
      if r.status.Ok? {
        FinalSkip(r.rx, len - SKIP);
      } else {
        DeadWhole(r.rx, len);
        FinalWhole(r.rx, len);
      }
    }
    hide RecvWhole;
  }

  // ---- one message ----

  /** The bytes of `s` that are still to come. */
  function Rest(s: seq<byte>, rx: Rx): seq<byte> {
    if rx.left <= |s| then s[|s| - rx.left..] else s
  }

  datatype HeadGot = HeadGot(status: Status, id: u16, len: u32, rx: Rx)

  /** psc_recvhead on the stream `s`. */
  function GetHead(s: seq<byte>, rx: Rx): HeadGot
    requires |s| == rx.left
  {
    WholeFacts(rx, HEAD);
    var r := RecvWhole(rx, HEAD);
    if !r.status.Ok? then HeadGot(r.status, 0, 0, r.rx)
    else if s[0] != P || s[1] != S then HeadGot(BadMagic, 0, 0, r.rx)
    else HeadGot(Ok, Be16Value(s[2..4]), Be32Value(s[4..8]), r.rx)
  }

  datatype Tail = Tail(status: Status, n: nat, stored: nat, rx: Rx)

  /** What psc_recvmsg receives after a header that announces `len` bytes: `n` of the body, and then
      the excess. */
  function GetTail(rx: Rx, len: nat, max: nat): Tail {
    var rlen := Min(len, max);
    var r := RecvWhole(rx, rlen);
    if !r.status.Ok? || rlen == len then Tail(r.status, r.n, 0, r.rx)
    else
      var k := Skip(r.rx, len - rlen);
      Tail(k.status, r.n, k.stored, k.rx)
  }

  lemma TailFacts(rx: Rx, len: nat, max: nat)
    ensures var t := GetTail(rx, len, max);
            && t.n <= rx.left && t.n <= Min(len, max) && t.rx.left <= rx.left
            && (rx.lost ==> t.rx.lost)
            && (!t.rx.lost ==> (t.status.Ok? <==> rx.left >= len))
            && (t.status.Ok? ==> t.n == Min(len, max))
  {
    var rlen := Min(len, max);
    WholeFacts(rx, rlen);
    SkipFacts(RecvWhole(rx, rlen).rx, len - rlen);
    hide RecvWhole, Skip, SkipsWell;
  }

  /** No more in the chunk buffer than it holds, and success means exactly `len` bytes. */
  predicate TailWell(rx: Rx, len: nat, max: nat) {
    var t := GetTail(rx, len, max);
    t.stored <= SKIP && (t.status.Ok? ==> rx.left >= len && t.rx.left == rx.left - len)
  }

  lemma TailExact(rx: Rx, len: nat, max: nat)
    requires len <= max + SKIP || !GetTail(rx, len, max).rx.lost || Final(rx)
    ensures TailWell(rx, len, max)
  {
    hide RecvWhole, Skip, Final, SkipsWell;
    var rlen := Min(len, max);
    var r := RecvWhole(rx, rlen);
    WholeFacts(rx, rlen);
    if r.status.Ok? && rlen < len {
      SkipFacts(r.rx, len - rlen);
      if Final(rx) {
        FinalWhole(rx, rlen);
        FinalSkip(r.rx, len - rlen);
      }
      SkipsWellMeans(r.rx, len - rlen);
    }
  }

  lemma SkipsWellMeans(rx: Rx, len: nat)
    requires SkipsWell(rx, len)
    ensures var k := Skip(rx, len);
            k.stored <= SKIP && (k.status.Ok? ==> rx.left >= len && k.rx.left == rx.left - len)
  {
  }

  lemma TailFinal(rx: Rx, len: nat, max: nat)
    requires Final(rx)
    ensures Final(GetTail(rx, len, max).rx)
  {
    var rlen := Min(len, max);
    FinalWhole(rx, rlen);
    FinalSkip(RecvWhole(rx, rlen).rx, len - rlen);
    hide RecvWhole, Skip, Final, SkipsWell;
  }

  datatype Got = Got(status: Status, id: u16, body: seq<byte>, stored: nat, rx: Rx)

  /** psc_recvmsg with a buffer of `max` bytes. */
  function GetMsg(s: seq<byte>, rx: Rx, max: u32): Got
    requires |s| == rx.left
  {
    var h := GetHead(s, rx);
    if !h.status.Ok? then Got(h.status, h.id, [], 0, h.rx)
    else
      WholeFacts(rx, HEAD);
      TailFacts(h.rx, h.len, max);
      var t := GetTail(h.rx, h.len, max);
      Got(t.status, h.id, s[HEAD..HEAD + t.n], t.stored, t.rx)
  }

  /** The message at the head of the stream, cut to the buffer, with exactly its frame consumed,
      and never more in the chunk buffer than it holds. */
  predicate GetsWell(s: seq<byte>, rx: Rx, max: u32)
    requires |s| == rx.left
  {
    var g := GetMsg(s, rx, max);
    g.stored <= SKIP && (g.status.Ok? ==> ParseOne(s, max) == Parsed(g.id, g.body, Rest(s, g.rx)))
  }

  /** The stream starts with a header, announcing `len` bytes. */
  predicate Announces(s: seq<byte>, len: nat) {
    |s| >= HEAD && s[0] == P && s[1] == S && Be32Value(s[4..8]) == len
  }

  lemma HeadFacts(s: seq<byte>, rx: Rx)
    requires |s| == rx.left
    ensures var h := GetHead(s, rx);
            && (h.status.Ok? ==> Announces(s, h.len) && h.id == Be16Value(s[2..4]) && h.rx.left == rx.left - HEAD && h.rx.lost == rx.lost)
            && (!h.status.Ok? && !h.rx.lost ==> |s| < HEAD || s[0] != P || s[1] != S)
            && (rx.lost ==> h.rx.lost) && h.rx.left <= rx.left
            && h.rx == RecvWhole(rx, HEAD).rx
  {
    WholeFacts(rx, HEAD);
    hide RecvWhole, Be32Value, Be16Value;
  }

  /** psc_recvmsg does well when the skip it may need does, ... */
  lemma MsgWell(s: seq<byte>, rx: Rx, max: u32)
    requires |s| == rx.left && GetHead(s, rx).status.Ok?
    requires var h := GetHead(s, rx); h.len <= max + SKIP || !GetMsg(s, rx, max).rx.lost || Final(h.rx)
    ensures GetsWell(s, rx, max)
  {
    HeadFacts(s, rx);
    hide GetHead, RecvWhole, Be16Value, Final, GetTail, ParseOne, Announces;
    var h := GetHead(s, rx);
    ParseAnnounced(s, h.len, max);
    TailFacts(h.rx, h.len, max);
    TailExact(h.rx, h.len, max);
  }

  lemma ParseAnnounced(s: seq<byte>, len: nat, max: nat)
    requires Announces(s, len)
    ensures |s| >= HEAD
    ensures |s| >= HEAD + len ==> ParseOne(s, max) == Parsed(Be16Value(s[2..4]), s[HEAD..HEAD + Min(len, max)], s[HEAD + len..])
  {
    hide Be16Value, Be32Value;
  }

  /** ... and gets the message whenever no call has failed with bytes still to come. */
  lemma MsgFacts(s: seq<byte>, rx: Rx, max: u32)
    requires |s| == rx.left
    ensures var g := GetMsg(s, rx, max);
            && (!g.rx.lost ==> (g.status.Ok? <==> ParseOne(s, max).Parsed?))
            && (rx.lost ==> g.rx.lost)
            && g.rx.left <= |s| && (g.status.Ok? ==> g.rx.left < |s|)
  {
    HeadFacts(s, rx);
    hide GetHead, RecvWhole, Be32Value, Be16Value, GetTail;
    var h := GetHead(s, rx);
    if h.status.Ok? {
      TailFacts(h.rx, h.len, max);
    }
  }

  lemma MsgExact(s: seq<byte>, rx: Rx, max: u32)
    requires |s| == rx.left
    requires Final(rx) || (GetHead(s, rx).status.Ok? ==> GetHead(s, rx).len <= max + SKIP) || !GetMsg(s, rx, max).rx.lost
    ensures GetsWell(s, rx, max) && (Final(rx) ==> Final(GetMsg(s, rx, max).rx))
  {
    HeadFacts(s, rx);
    hide RecvWhole, GetHead, ParseOne, GetTail, Final;
    if Final(rx) {
      FinalWhole(rx, HEAD);
    }
    var h := GetHead(s, rx);
    if h.status.Ok? {
      if Final(rx) {
        TailFinal(h.rx, h.len, max);
      }
      MsgWell(s, rx, max);
    }
  }

  /** A header at once, a body at once, and then what is left to skip. */
  function Promptly(max: u32, later: seq<int>): seq<int> {
    AtOnce(HEAD, AtOnce(max, later))
  }

  lemma PromptHead(s: seq<byte>, len: u32, later: seq<int>)
    requires Announces(s, len)
    ensures GetHead(s, Rx(|s|, AtOnce(HEAD, later), false)) == HeadGot(Ok, Be16Value(s[2..4]), len, Rx(|s| - HEAD, later, false))
  {
    OneCall(|s|, HEAD, later, false);
    hide RecvWhole, Be16Value, Be32Value, AtOnce;
  }

  /** A body at once, and a stall while the excess is skipped. */
  lemma StalledTail(left: nat, len: nat, early: nat, max: nat, later: seq<int>)
    requires len > max + SKIP && 1 <= early < SKIP && left >= len + early
    ensures var rx := Rx(left, AtOnce(max, Stall(early, len - max, later)), false);
            GetTail(rx, len, max) == Tail(Ok, max, len - max, Rx(left - len - early, later, true))
  {
    hide RecvWhole, Skip, Stall, AtOnce;
    assert Min(len, max) == max;
    OneCall(left, max, Stall(early, len - max, later), false);
    StallBreaks(early, len - max, left - max, later);
  }

  /** An oversize message during which the network stalls. */
  lemma StalledMsg(s: seq<byte>, len: u32, early: nat, max: u32, later: seq<int>)
    requires Announces(s, len) && len > max + SKIP && 1 <= early < SKIP && |s| >= HEAD + len + early
    ensures var rx := Rx(|s|, Promptly(max, Stall(early, len - max, later)), false);
            GetMsg(s, rx, max) == Got(Ok, Be16Value(s[2..4]), s[HEAD..HEAD + max], len - max, Rx(|s| - HEAD - len - early, later, true))
  {
    hide RecvWhole, Skip, Stall, GetHead, GetTail, Announces, Be16Value, AtOnce;
    PromptHead(s, len, AtOnce(max, Stall(early, len - max, later)));
    StalledTail(|s| - HEAD, len, early, max, later);
  }

  lemma Zeros(id: u16, len: u32, n: nat)
    ensures Announces(Head(id, len) + seq(n, _ => 0), len)
  {
    var s := Head(id, len) + seq(n, _ => 0);
    Be32RoundTrip(len);
    assert s[4..8] == Be32(len);
  }

  /** Whatever arrives when: messages of an announced length are received well if and only if they
      exceed the caller's buffer by at most one chunk. */
  lemma RecvMsgExact(len: u32, max: u32)
    ensures (forall s: seq<byte>, rx: Rx | |s| == rx.left && Announces(s, len) :: GetsWell(s, rx, max)) <==> len <= max + 128
  {
    if len <= max + SKIP {
      forall s: seq<byte>, rx: Rx | |s| == rx.left && Announces(s, len)
        ensures GetsWell(s, rx, max)
      {
        HeadFacts(s, rx);
        MsgExact(s, rx, max);
        hide GetsWell, Be32Value, GetHead;
      }
    } else {
      var s := Head(0, len) + seq(len + 5, _ => 0);
      Zeros(0, len, len + 5);
      StalledMsg(s, len, 5, max, []);
      hide GetMsg, Announces;
      assert !GetsWell(s, Rx(|s|, Promptly(max, Stall(5, len - max, [])), false), max);
    }
  }

  // ---- the receive loop ----

  datatype Loop = Loop(ms: seq<Message>, rx: Rx)

  /** The receive loop of handle_client: messages until the first error. */
  function GetAll(s: seq<byte>, rx: Rx, max: u32): Loop
    requires |s| == rx.left
    decreases |s|
  {
    var g := GetMsg(s, rx, max);
    MsgFacts(s, rx, max);
    if !g.status.Ok? then Loop([], g.rx)
    else
      var rest := GetAll(Rest(s, g.rx), g.rx, max);
      Loop([Message(g.id, g.body)] + rest.ms, rest.rx)
  }

  /** Every message of the stream exceeds the buffer by at most one chunk. */
  predicate Modest(s: seq<byte>, max: nat)
    decreases |s|
  {
    |s| >= HEAD && s[0] == P && s[1] == S ==>
      var len := Be32Value(s[4..8]);
      len <= max + SKIP && (|s| >= HEAD + len ==> Modest(s[HEAD + len..], max))
  }

  lemma ModestNext(s: seq<byte>, max: nat)
    requires Modest(s, max) && ParseOne(s, max).Parsed?
    ensures Modest(ParseOne(s, max).rest, max)
  {
    hide Be32Value, Be16Value;
  }

  lemma ModestHead(s: seq<byte>, rx: Rx, max: nat)
    requires |s| == rx.left && Modest(s, max) && GetHead(s, rx).status.Ok?
    ensures GetHead(s, rx).len <= max + SKIP
  {
    HeadFacts(s, rx);
    hide GetHead, Be32Value;
  }

  /** What the loop delivers are the first messages of the stream in order, when failures are
      final or no message is more than one chunk too long. */
  lemma {:induction false} LoopDeliversPrefix(s: seq<byte>, rx: Rx, max: u32)
    requires |s| == rx.left && (Final(rx) || Modest(s, max))
    ensures GetAll(s, rx, max).ms <= ParseMany(s, max)
    decreases |s|
  {
    MsgFacts(s, rx, max);
    if Modest(s, max) && GetHead(s, rx).status.Ok? {
      ModestHead(s, rx, max);
    }
    MsgExact(s, rx, max);
    var g := GetMsg(s, rx, max);
    if g.status.Ok? {
      if Modest(s, max) {
        ModestNext(s, max);
      }
      hide GetMsg, ParseOne, Modest, Final, GetHead;
      LoopDeliversPrefix(Rest(s, g.rx), g.rx, max);
      assert ParseMany(s, max) == [Message(g.id, g.body)] + ParseMany(Rest(s, g.rx), max);
    }
  }

  lemma {:induction false} LoopKeepsLost(s: seq<byte>, rx: Rx, max: u32)
    requires |s| == rx.left && rx.lost
    ensures GetAll(s, rx, max).rx.lost
    decreases |s|
  {
    MsgFacts(s, rx, max);
    hide GetMsg;
    var g := GetMsg(s, rx, max);
    if g.status.Ok? {
      LoopKeepsLost(Rest(s, g.rx), g.rx, max);
    }
  }

  /** It delivers all of them when no call has failed with bytes still to come. */
  lemma {:induction false} LoopDeliversAll(s: seq<byte>, rx: Rx, max: u32)
    requires |s| == rx.left && !GetAll(s, rx, max).rx.lost
    ensures GetAll(s, rx, max).ms == ParseMany(s, max)
    decreases |s|
  {
    MsgFacts(s, rx, max);
    var g := GetMsg(s, rx, max);
    if !g.rx.lost {
      MsgExact(s, rx, max);
    }
    hide GetMsg, ParseOne;
    if g.status.Ok? {
      if g.rx.lost {
        LoopKeepsLost(Rest(s, g.rx), g.rx, max);
      }
      LoopDeliversAll(Rest(s, g.rx), g.rx, max);
    }
  }

  /** Each of the coming calls finds something, for as long as there is anything to come. */
  ghost predicate Prompt(rx: Rx) {
    !rx.lost && rx.left <= |rx.arrivals| && forall i :: 0 <= i < rx.left ==> rx.arrivals[i] >= 1
  }

  lemma {:induction false} PromptWhole(rx: Rx, len: nat)
    requires Prompt(rx)
    ensures Prompt(RecvWhole(rx, len).rx)
    decreases len
  {
    if len > 0 {
      assert Prompt(AfterRecv(rx, len));
      hide Prompt;
      if RecvResult(rx, len) > 0 {
        PromptWhole(AfterRecv(rx, len), len - RecvResult(rx, len));
      }
    }
  }

  lemma {:induction false} PromptSkip(rx: Rx, len: nat)
    requires Prompt(rx)
    ensures Prompt(Skip(rx, len).rx)
    decreases len
  {
    hide Prompt, RecvWhole;
    PromptWhole(rx, Min(len, SKIP));
    if len > SKIP {
      var r := RecvWhole(rx, SKIP);
      if r.status.Ok? {
        PromptSkip(r.rx, len - SKIP);
      } else {
        PromptWhole(r.rx, len);
      }
    }
  }

  lemma PromptMsg(s: seq<byte>, rx: Rx, max: u32)
    requires |s| == rx.left && Prompt(rx)
    ensures Prompt(GetMsg(s, rx, max).rx)
  {
    HeadFacts(s, rx);
    PromptWhole(rx, HEAD);
    hide Prompt, RecvWhole, GetHead, Skip;
    var h := GetHead(s, rx);
    PromptWhole(h.rx, Min(h.len, max));
    PromptSkip(RecvWhole(h.rx, Min(h.len, max)).rx, h.len - Min(h.len, max));
  }

  /** Then the loop delivers everything. */
  lemma {:induction false} PromptLoop(s: seq<byte>, rx: Rx, max: u32)
    requires |s| == rx.left && Prompt(rx)
    ensures !GetAll(s, rx, max).rx.lost && GetAll(s, rx, max).ms == ParseMany(s, max)
    decreases |s|
  {
    MsgFacts(s, rx, max);
    PromptMsg(s, rx, max);
    assert !GetMsg(s, rx, max).rx.lost;
    hide Prompt, GetMsg;
    var g := GetMsg(s, rx, max);
    if g.status.Ok? {
      PromptLoop(Rest(s, g.rx), g.rx, max);
    }
    LoopDeliversAll(s, rx, max);
  }

  // ---- the whole way ----

  /** Sent and received: from the frames of `ms` and part of one more, the loop gets the messages
      in order, each body cut to its buffer, however the bytes are split: all of them when no call
      fails with bytes still to come; the first of them when a failure is final, or when no message
      is more than one chunk too long. */
  lemma RoundTrip(ms: seq<Message>, next: Message, k: nat, rx: Rx, max: u32)
    requires AllSendable(ms) && Sendable(next) && k < |Frame(next)| && rx.left == |FrameAll(ms) + Frame(next)[..k]|
    ensures var got := GetAll(FrameAll(ms) + Frame(next)[..k], rx, max);
            && (!got.rx.lost ==> got.ms == CutAll(ms, max))
            && (Final(rx) || (forall m <- ms + [next] :: |m.body| <= max + SKIP) ==> got.ms <= CutAll(ms, max))
  {
    var s := FrameAll(ms) + Frame(next)[..k];
    StreamRoundTrip(ms, next, k, max);
    var got := GetAll(s, rx, max);
    if !got.rx.lost {
      LoopDeliversAll(s, rx, max);
    }
    if forall m <- ms + [next] :: |m.body| <= max + SKIP {
      FramesModest(ms, next, k, max);
      LoopDeliversPrefix(s, rx, max);
    } else if Final(rx) {
      LoopDeliversPrefix(s, rx, max);
    }
  }

  lemma {:induction false} FramesModest(ms: seq<Message>, next: Message, k: nat, max: nat)
    requires AllSendable(ms) && Sendable(next) && k < |Frame(next)| && forall m <- ms + [next] :: |m.body| <= max + SKIP
    ensures Modest(FrameAll(ms) + Frame(next)[..k], max)
  {
    if ms == [] {
      assert FrameAll(ms) + Frame(next)[..k] == Frame(next)[..k];
      assert next in ms + [next];
      CutFrameModest(next, k, max);
    } else {
      var tail := FrameAll(ms[1..]) + Frame(next)[..k];
      assert FrameAll(ms) + Frame(next)[..k] == Frame(ms[0]) + tail;
      assert ms[0] in ms + [next];
      assert forall m <- ms[1..] + [next] :: m in ms + [next];
      FramesModest(ms[1..], next, k, max);
      FrameModest(ms[0], tail, max);
    }
  }

  lemma FrameModest(m: Message, rest: seq<byte>, max: nat)
    requires Sendable(m) && |m.body| <= max + SKIP && Modest(rest, max)
    ensures Modest(Frame(m) + rest, max)
  {
    HeadFields(m, rest);
    var s := Frame(m) + rest;
    assert s[HEAD + |m.body|..] == rest;
    hide Frame, Be32Value;
  }

  lemma CutFrameModest(m: Message, k: nat, max: nat)
    requires Sendable(m) && |m.body| <= max + SKIP && k < |Frame(m)|
    ensures Modest(Frame(m)[..k], max)
  {
    if k >= HEAD {
      HeadFields(m, []);
      assert Frame(m) + [] == Frame(m);
      hide Head, Be16Value, Be32Value;
      assert Frame(m)[..k][4..8] == Frame(m)[4..8];
    }
  }

  /** The arrivals of that run: the stall hides the header of the second message from the loop. */
  function Stalling(left: nat, len: u32, max: u32): Rx
    requires len > max
  {
    Rx(left, Promptly(max, Stall(HEAD, len - max, [HEAD as int])), false)
  }

  lemma FirstStalled(s: seq<byte>, big: Message, max: u32)
    requires Announces(s, |big.body|) && |big.body| < 0x1_0000_0000 && |s| == HEAD + |big.body| + 2 * HEAD
    requires Be16Value(s[2..4]) == big.id && |big.body| > max + SKIP && s[HEAD..HEAD + max] == big.body[..max]
    ensures GetMsg(s, Stalling(|s|, |big.body|, max), max)
            == Got(Ok, big.id, big.body[..max], |big.body| - max, Rx(HEAD, [HEAD as int], true))
  {
    hide GetMsg, Announces, Be16Value, Promptly, Stall;
    StalledMsg(s, |big.body|, HEAD, max, [HEAD as int]);
  }

  lemma AnnouncesBody(m: Message, rest: seq<byte>)
    requires Sendable(m)
    ensures |Frame(m) + rest| == HEAD + |m.body| + |rest|
    ensures var s := Frame(m) + rest; Announces(s, |m.body|) && |s| >= HEAD && Be16Value(s[2..4]) == m.id
  {
    HeadFields(m, rest);
  }

  lemma LastBytes(a: seq<byte>, b: seq<byte>, rx: Rx)
    requires |b| == 2 * HEAD && rx.left == HEAD
    ensures Rest(a + b, rx) == b[HEAD..]
  {
  }

  /** What a stall can do beyond those bounds: the loop delivers a message that was never sent, here
      one that a later message's body happens to spell. */
  lemma StallDeliversUnsent(big: Message, unsent: Message, id: u16, max: u32) returns (rx: Rx)
    requires Sendable(big) && |big.body| > max + SKIP && Sendable(unsent) && unsent.body == []
    ensures AllSendable([big, Message(id, Frame(unsent))])
    ensures rx.left == |FrameAll([big, Message(id, Frame(unsent))])|
    ensures var ms := [big, Message(id, Frame(unsent))]; var got := GetAll(FrameAll(ms), rx, max).ms;
            got == [Cut(big, max), unsent] && (max >= 1 ==> !(got <= CutAll(ms, max)))
  {
    var second := Message(id, Frame(unsent));
    SecondFrame(unsent, id, max);
    TwoFrames(big, second);
    AnnouncesBody(big, Frame(second));
    BigCut(big, Frame(second), max);
    assert |big.body| < 0x1_0000_0000 && HEAD == 8;
    hide *;
    var s := Frame(big) + Frame(second);
    rx := Stalling(|s|, |big.body|, max);
    StallingLeft(|s|, |big.body|, max);
    FirstStalled(s, big, max);
    LastBytes(Frame(big), Frame(second), Rx(HEAD, [HEAD as int], true));
    LastHeader(unsent, max);
    SecondCut(big, second, max);
    FirstOf(s, rx, max);
    CutBig(big, max);
  }

  lemma SecondFrame(unsent: Message, id: u16, max: u32)
    requires Sendable(unsent) && unsent.body == []
    ensures |Frame(unsent)| == HEAD
    ensures var second := Message(id, Frame(unsent));
            Sendable(second) && |Frame(second)| == 2 * HEAD && Frame(second)[HEAD..] == Frame(unsent)
            && (max >= 1 ==> Cut(second, max) != unsent)
  {
    var second := Message(id, Frame(unsent));
    assert Frame(second) == Head(id, HEAD) + Frame(unsent);
    assert max >= 1 ==> |Cut(second, max).body| >= 1;
  }

  lemma FirstOf(s: seq<byte>, rx: Rx, max: u32)
    requires |s| == rx.left && GetMsg(s, rx, max).status.Ok?
    ensures var g := GetMsg(s, rx, max); g.rx.left <= |s|
    ensures var g := GetMsg(s, rx, max); GetAll(s, rx, max).ms == [Message(g.id, g.body)] + GetAll(Rest(s, g.rx), g.rx, max).ms
  {
    MsgFacts(s, rx, max);
    hide GetMsg;
  }

  lemma CutBig(m: Message, max: nat)
    requires |m.body| > max
    ensures Cut(m, max) == Message(m.id, m.body[..max])
  {
  }

  lemma StallingLeft(left: nat, len: u32, max: u32)
    requires len > max
    ensures Stalling(left, len, max).left == left
  {
  }

  lemma SecondCut(a: Message, b: Message, max: nat)
    ensures |CutAll([a, b], max)| == 2 && CutAll([a, b], max)[1] == Cut(b, max)
  {
    hide Cut;
    assert [a, b][1..] == [b] && [b][1..] == [];
    assert CutAll([b], max) == [Cut(b, max)] + CutAll([], max);
  }

  lemma TwoFrames(a: Message, b: Message)
    requires Sendable(a) && Sendable(b)
    ensures AllSendable([a, b]) && FrameAll([a, b]) == Frame(a) + Frame(b)
  {
    hide Frame;
    assert [a, b][1..] == [b] && [b][1..] == [];
    assert FrameAll([b]) == Frame(b) + FrameAll([]);
    assert FrameAll([a, b]) == Frame(a) + FrameAll([b]);
  }

  lemma BigCut(m: Message, rest: seq<byte>, max: nat)
    requires Sendable(m) && |m.body| > max
    ensures var s := Frame(m) + rest; |s| >= HEAD + max && s[HEAD..HEAD + max] == m.body[..max]
  {
  }

  /** The last eight bytes of the stream, taken for a header without a body. */
  lemma LastHeader(m: Message, max: u32)
    requires Sendable(m) && m.body == []
    ensures |Frame(m)| == HEAD && GetAll(Frame(m), Rx(HEAD, [HEAD as int], true), max).ms == [m]
  {
    var s, rx := Frame(m), Rx(HEAD, [HEAD as int], true);
    HeadFields(m, []);
    assert s + [] == s;
    assert rx.arrivals[1..] == [];
    var rx1 := Rx(0, [], true);
    assert RecvResult(rx, HEAD) == HEAD && AfterRecv(rx, HEAD) == rx1;
    assert RecvWhole(rx1, 0) == Whole(Ok, 0, rx1);
    assert RecvWhole(rx, HEAD) == Whole(Ok, HEAD, rx1);
    hide Frame, Be16Value, Be32Value, Head;
    assert GetMsg(s, rx, max) == Got(Ok, m.id, [], 0, rx1);
    assert Rest(s, rx1) == [];
    assert !GetMsg([], rx1, max).status.Ok? by { HeadFacts([], rx1); }
    assert GetAll([], rx1, max).ms == [];
    assert GetAll(s, rx, max).ms == [Message(m.id, [])] + [];
  }
}
