/** The TFTP server of tftp_server.c with the SD card callbacks of tftp_handler.c.
    The datatype Session is the static `tftp_state` record; the functions say what each
    C function does to it; the class at the end is the C code, field by field, proved
    against those functions. */
module Tftp {
  import opened Words

  const PAYLOAD: nat := 512         // TFTP_MAX_PAYLOAD_SIZE
  const TIMEOUT_TICKS: nat := 10    // TFTP_TIMEOUT_MSECS / TFTP_TIMER_MSECS
  const MAX_RETRIES: nat := 5       // TFTP_MAX_RETRIES
  const MAX_FILENAME: nat := 20     // TFTP_MAX_FILENAME_LEN
  const MAX_MODE: nat := 7          // TFTP_MAX_MODE_LEN
  const OCTET: seq<byte> := [111, 99, 116, 101, 116]

  datatype Error = FileNotFound | AccessViolation | IllegalOperation | UnknownTransferId

  /** A datagram by its opcode; `body` is what follows the opcode of a request. */
  datatype Datagram =
    | Request(write: bool, body: seq<byte>)
    | Data(num: u16, payload: seq<byte>)
    | Ack(num: u16)
    | Fault(code: Error)
    | Unknown

  datatype Sent = Sent(addr: nat, port: u16, datagram: Datagram)

  /** One f_write call: its status and the byte count it reports. */
  datatype Io = Io(ok: bool, count: nat)

  /** What the environment decides during one call: buffer allocations and file results. */
  datatype Env = Env(
    dataAlloc: bool,  // allocation of the block that send_data retains
    sendAlloc: bool,  // allocation of the datagram that goes out
    openOk: bool,     // f_open
    readOk: bool,     // f_read
    io: seq<Io>       // f_write, one per chain segment; missing entries succeed
  )

  datatype Block = Block(num: u16, payload: seq<byte>)

  /** `addr` 0 is the any-address; `timers` counts pending tftp_tmr entries in the lwIP timer list;
      `disk` and `pos` are the open file's bytes and its position. */
  datatype Session = Session(
    open: bool,
    retained: Option<Block>,
    addr: nat,
    port: u16,
    timer: int,
    lastPkt: int,
    blknum: u16,
    retries: nat,
    modeWrite: bool,
    timers: nat,
    pos: nat,
    disk: seq<byte>
  )

  datatype Result = Result(session: Session, out: seq<Sent>)

  function Init(disk: seq<byte>): Session {
    Session(false, None, 0, 0, 0, 0, 0, 0, false, 0, 0, disk)
  }

  // ---- file callbacks ----

  /** What f_read yields at position `pos`. */
  function Chunk(disk: seq<byte>, pos: nat): seq<byte> {
    if pos < |disk| then disk[pos..Min(pos + PAYLOAD, |disk|)] else []
  }

  /** A write at `pos` into a file opened without truncation: the old tail stays. */
  function Overwrite(disk: seq<byte>, pos: nat, bytes: seq<byte>): seq<byte> {
    disk[..Min(pos, |disk|)] + bytes + (if pos + |bytes| < |disk| then disk[pos + |bytes|..] else [])
  }

  function IoAt(io: seq<Io>, i: nat, len: nat): Io {
    if i < |io| then io[i] else Io(true, len)
  }

  /** Bytes stored and success of writing `chain` from segment `i` on. */
  function WriteChain(chain: seq<seq<byte>>, io: seq<Io>, i: nat): (r: (nat, bool))
    requires i <= |chain|
    ensures r.0 <= |Flatten(chain[i..])|
    ensures r.1 ==> r.0 == |Flatten(chain[i..])|
    decreases |chain| - i
  {
    if i == |chain| then (0, true)
    else
      assert chain[i..][1..] == chain[i + 1..];
      if |chain[i]| == 0 then WriteChain(chain, io, i + 1)
      else
        var w := IoAt(io, i, |chain[i]|);
        if w.ok && w.count == |chain[i]| then
          var rest := WriteChain(chain, io, i + 1);
          (|chain[i]| + rest.0, rest.1)
        else (Min(w.count, |chain[i]|), false)
  }

  /** The file, the position and the success after writing segments i.. one by one. */
  function Segments(disk: seq<byte>, pos: nat, chain: seq<seq<byte>>, io: seq<Io>, i: nat): (seq<byte>, nat, bool)
    requires i <= |chain|
    decreases |chain| - i
  {
    if i == |chain| then (disk, pos, true)
    else if |chain[i]| == 0 then Segments(disk, pos, chain, io, i + 1)
    else
      var w := IoAt(io, i, |chain[i]|);
      var n := Min(w.count, |chain[i]|);
      var disk' := Overwrite(disk, pos, chain[i][..n]);
      if w.ok && w.count == |chain[i]| then Segments(disk', pos + n, chain, io, i + 1)
      else (disk', pos + n, false)
  }

  lemma OverwriteTwice(disk: seq<byte>, pos: nat, a: seq<byte>, b: seq<byte>)
    requires pos <= |disk|
    ensures Overwrite(Overwrite(disk, pos, a), pos + |a|, b) == Overwrite(disk, pos, a + b)
  {
    var d1 := Overwrite(disk, pos, a);
    assert d1[..pos + |a|] == disk[..pos] + a;
    if pos + |a| + |b| < |d1| {
      assert d1[pos + |a| + |b|..] == disk[pos + |a| + |b|..];
    }
  }

  lemma OverwriteNothing(disk: seq<byte>, pos: nat)
    requires pos <= |disk|
    ensures Overwrite(disk, pos, []) == disk
  {
  }

  lemma OverwriteLength(disk: seq<byte>, pos: nat, bytes: seq<byte>)
    requires pos <= |disk|
    ensures pos + |bytes| <= |Overwrite(disk, pos, bytes)|
  {
  }

  lemma {:induction false} SegmentsStoreChain(disk: seq<byte>, pos: nat, chain: seq<seq<byte>>, io: seq<Io>, i: nat)
    requires i <= |chain| && pos <= |disk|
    ensures var w := WriteChain(chain, io, i);
            Segments(disk, pos, chain, io, i) == (Overwrite(disk, pos, Flatten(chain[i..])[..w.0]), pos + w.0, w.1)
    decreases |chain| - i
  {
    if i == |chain| {
      OverwriteNothing(disk, pos);
    } else {
      hide Overwrite;
      var seg, rest := chain[i], Flatten(chain[i + 1..]);
      assert chain[i..][1..] == chain[i + 1..];
      assert Flatten(chain[i..]) == seg + rest;
      var w := IoAt(io, i, |seg|);
      if |seg| == 0 {
        SegmentsStoreChain(disk, pos, chain, io, i + 1);
        assert seg + rest == rest;
      } else if w.ok && w.count == |seg| {
        var k := WriteChain(chain, io, i + 1).0;
        WholeSegment(disk, pos, seg, rest, k);
        SegmentsStoreChain(Overwrite(disk, pos, seg), pos + |seg|, chain, io, i + 1);
      } else {
        assert (seg + rest)[..Min(w.count, |seg|)] == seg[..Min(w.count, |seg|)];
      }
    }
  }

  lemma WholeSegment(disk: seq<byte>, pos: nat, seg: seq<byte>, rest: seq<byte>, k: nat)
    requires pos <= |disk| && k <= |rest|
    ensures seg[..|seg|] == seg && pos + |seg| <= |Overwrite(disk, pos, seg)|
    ensures Overwrite(Overwrite(disk, pos, seg), pos + |seg|, rest[..k]) == Overwrite(disk, pos, (seg + rest)[..|seg| + k])
  {
    OverwriteLength(disk, pos, seg);
    OverwriteTwice(disk, pos, seg, rest[..k]);
    assert (seg + rest)[..|seg| + k] == seg + rest[..k];
    hide Overwrite;
  }

  // ---- request parsing ----

  datatype Parsed = BadName | BadMode | Names(name: seq<byte>, mode: seq<byte>)

  /** pbuf_memfind of a zero byte. */
  function NulFrom(b: seq<byte>, from: nat): (r: Option<nat>)
    ensures r.Some? ==> from <= r.value < |b| && b[r.value] == 0 && 0 !in b[from..r.value]
    ensures r.None? ==> from > |b| || 0 !in b[from..]
    decreases |b| - from
  {
    if from >= |b| then None
    else if b[from] == 0 then Some(from)
    else
      var r := NulFrom(b, from + 1);
      assert r.Some? ==> b[from..r.value] == [b[from]] + b[from + 1..r.value];
      assert b[from..] == [b[from]] + b[from + 1..];
      r
  }

  function ParseRequest(body: seq<byte>): Parsed {
    var nameEnd := NulFrom(body, 0);
    if nameEnd.None? || nameEnd.value > MAX_FILENAME then BadName
    else
      var modeEnd := NulFrom(body, nameEnd.value + 1);
      if modeEnd.None? || modeEnd.value - nameEnd.value - 1 > MAX_MODE then BadMode
      else Names(body[..nameEnd.value], body[nameEnd.value + 1..modeEnd.value])
  }

  ghost predicate WellFormedRequest(body: seq<byte>, name: seq<byte>, mode: seq<byte>) {
    && |name| <= 20 && 0 !in name
    && |mode| <= 7 && 0 !in mode
    && name + [0] + mode + [0] <= body
  }

  lemma {:induction false} NulFromIs(b: seq<byte>, from: nat, k: nat)
    requires from <= k < |b| && b[k] == 0 && 0 !in b[from..k]
    ensures NulFrom(b, from) == Some(k)
    decreases k - from
  {
    if from < k {
      assert b[from..k][0] == b[from];
      assert b[from + 1..k] == b[from..k][1..];
      NulFromIs(b, from + 1, k);
    }
  }

  lemma WellFormedParses(body: seq<byte>, name: seq<byte>, mode: seq<byte>)
    requires WellFormedRequest(body, name, mode)
    ensures ParseRequest(body) == Names(name, mode)
  {
    hide NulFrom;
    var whole := name + [0] + mode + [0];
    var j := |name| + 1 + |mode|;
    assert forall i :: 0 <= i < |whole| ==> body[i] == whole[i];
    assert body[0..|name|] == name;
    assert body[|name| + 1..j] == mode;
    assert whole[|name|] == 0 && whole[j] == 0;
    NulFromIs(body, 0, |name|);
    NulFromIs(body, |name| + 1, j);
    assert body[..|name|] == name;
  }

  lemma ParsedIsWellFormed(body: seq<byte>, name: seq<byte>, mode: seq<byte>)
    requires ParseRequest(body) == Names(name, mode)
    ensures WellFormedRequest(body, name, mode)
  {
    hide NulFrom;
    var n := NulFrom(body, 0).value;
    var m := NulFrom(body, n + 1).value;
    assert body[0..n] == name;
    assert body[..m + 1] == name + [0] + mode + [0];
  }

  /** The server accepts a request's names exactly when both are zero-terminated and short enough. */
  lemma ParseRequestExact(body: seq<byte>, name: seq<byte>, mode: seq<byte>)
    ensures ParseRequest(body) == Names(name, mode) <==> WellFormedRequest(body, name, mode)
  {
    hide *;
    if WellFormedRequest(body, name, mode) {
      WellFormedParses(body, name, mode);
    }
    if ParseRequest(body) == Names(name, mode) {
      ParsedIsWellFormed(body, name, mode);
    }
  }

  // ---- the C functions on the session record ----

  function CloseHandle(s: Session): Session {
    s.(port := 0, addr := 0, retained := None, open := false, timers := Max(s.timers - 1, 0))
  }

  /** One outgoing datagram, dropped when its buffer cannot be allocated. */
  function Reply(env: Env, addr: nat, port: u16, d: Datagram): seq<Sent> {
    if env.sendAlloc then [Sent(addr, port, d)] else []
  }

  function SendError(env: Env, addr: nat, port: u16, code: Error): seq<Sent> {
    Reply(env, addr, port, Fault(code))
  }

  function SendAck(s: Session, env: Env, num: u16): seq<Sent> {
    Reply(env, s.addr, s.port, Ack(num))
  }

  function ResendData(s: Session, env: Env): seq<Sent> {
    if s.retained.Some?
    then Reply(env, s.addr, s.port, Data(s.retained.value.num, s.retained.value.payload))
    else []
  }

  function SendData(s: Session, env: Env): Result {
    if !env.dataAlloc then Result(s.(retained := None), [])
    else if !env.readOk then
      Result(CloseHandle(s), SendError(env, s.addr, s.port, AccessViolation))
    else
      var chunk := Chunk(s.disk, s.pos);
      var s' := s.(retained := Some(Block(s.blknum, chunk)), pos := s.pos + |chunk|);
      Result(s', ResendData(s', env))
  }

  /** The guard of recv that turns a packet away without looking at it. */
  predicate Foreign(s: Session, addr: nat, port: u16) {
    (s.port != 0 && port != s.port) || (s.addr != 0 && s.addr != addr)
  }

  function RecvRequest(s: Session, env: Env, write: bool, body: seq<byte>, addr: nat, port: u16): Result {
    if s.open then Result(s, SendError(env, addr, port, AccessViolation))
    else
      var armed := s.(timers := s.timers + 1);
      match ParseRequest(body)
      case BadName => Result(armed, SendError(env, addr, port, AccessViolation))
      case BadMode => Result(armed, SendError(env, addr, port, AccessViolation))
      case Names(_, mode) =>
        if mode != OCTET || !env.openOk then
          Result(armed.(blknum := 1), SendError(env, addr, port, FileNotFound))
        else
          var started := armed.(open := true, blknum := 1, addr := addr, port := port, modeWrite := write, pos := 0);
          if write then Result(started, SendAck(started, env, 0)) else SendData(started, env)
  }

  function RecvData(s: Session, env: Env, num: u16, chain: seq<seq<byte>>, addr: nat, port: u16): Result {
    if !s.open || !s.modeWrite then Result(s, SendError(env, addr, port, AccessViolation))
    else if num == s.blknum then
      var payload := Flatten(chain);
      assert chain[0..] == chain;
      var w := WriteChain(chain, env.io, 0);
      var s1 := s.(disk := Overwrite(s.disk, s.pos, payload[..w.0]), pos := s.pos + w.0);
      var s2 := if w.1 then s1 else CloseHandle(s1);
      var out := if w.1 then SendAck(s1, env, num) else SendError(env, addr, port, AccessViolation);
      Result(if |payload| < PAYLOAD then CloseHandle(s2) else s2.(blknum := Succ16(s2.blknum)), out)
    else if Succ16(num) == s.blknum then Result(s, SendAck(s, env, num))
    else Result(s, SendError(env, addr, port, UnknownTransferId))
  }

  /** The retained block is the last one of the file: it is not full. */
  predicate LastBlock(s: Session) {
    s.retained.Some? && |s.retained.value.payload| != PAYLOAD
  }

  function RecvAck(s: Session, env: Env, num: u16, addr: nat, port: u16): Result {
    if !s.open || s.modeWrite then Result(s, SendError(env, addr, port, AccessViolation))
    else if num != s.blknum then Result(s, SendError(env, addr, port, UnknownTransferId))
    else if LastBlock(s) then Result(CloseHandle(s), [])
    else SendData(s.(blknum := Succ16(s.blknum)), env)
  }

  /** A datagram from (addr, port); for DATA, `chain` is how its payload is split over pbufs. */
  function Recv(s: Session, env: Env, d: Datagram, chain: seq<seq<byte>>, addr: nat, port: u16): Result {
    if Foreign(s, addr, port) then Result(s, SendError(env, addr, port, AccessViolation))
    else
      var s1 := s.(lastPkt := s.timer, retries := 0);
      match d
      case Request(write, body) => RecvRequest(s1, env, write, body, addr, port)
      case Data(num, _) => RecvData(s1, env, num, chain, addr, port)
      case Ack(num) => RecvAck(s1, env, num, addr, port)
      case Fault(_) => Result(s1, SendError(env, addr, port, IllegalOperation))
      case Unknown => Result(s1, SendError(env, addr, port, IllegalOperation))
  }

  /** One pending tftp_tmr entry fires: lwIP takes it off its list, then calls the function. */
  function Tick(s: Session, env: Env): Result
    requires s.timers >= 1
  {
    var s1 := s.(timer := s.timer + 1, timers := s.timers - 1);
    if !s1.open then Result(s1, [])
    else
      var s2 := s1.(timers := s1.timers + 1);
      if s2.timer - s2.lastPkt <= TIMEOUT_TICKS then Result(s2, [])
      else if s2.retained.Some? && s2.retries < MAX_RETRIES then
        Result(s2.(retries := s2.retries + 1), ResendData(s2, env))
      else Result(CloseHandle(s2), [])
  }

  // ---- the C code ----

  class TftpServer {
    var open: bool
    var retained: Option<Block>
    var addr: nat
    var port: u16
    var timer: int
    var lastPkt: int
    var blknum: u16
    var retries: nat
    var modeWrite: bool
    var timers: nat
    var pos: nat
    var disk: seq<byte>

    ghost function Snapshot(): Session
      reads this
    {
      Session(open, retained, addr, port, timer, lastPkt, blknum, retries, modeWrite, timers, pos, disk)
    }

    constructor (disk: seq<byte>)
      ensures Snapshot() == Init(disk)
    {
      open, retained, addr, port := false, None, 0, 0;
      timer, lastPkt, blknum, retries := 0, 0, 0, 0;
      modeWrite, timers, pos := false, 0, 0;
      this.disk := disk;
    }

    method DoClose()
      modifies this
      ensures Snapshot() == CloseHandle(old(Snapshot()))
    {
      port := 0;
      addr := 0;
      if retained != None {
        retained := None;
      }
      if timers > 0 {
        timers := timers - 1;
      }
      if open {
        open := false;
      }
    }

    method DoResend(env: Env) returns (out: seq<Sent>)
      requires retained.Some?
      ensures out == ResendData(Snapshot(), env)
    {
      if !env.sendAlloc {
        return [];
      }
      out := [Sent(addr, port, Data(retained.value.num, retained.value.payload))];
    }

    method DoSendData(env: Env) returns (out: seq<Sent>)
      modifies this
      ensures SendData(old(Snapshot()), env) == Result(Snapshot(), out)
    {
      if retained != None {
        retained := None;
      }
      if !env.dataAlloc {
        return [];
      }
      retained := Some(Block(blknum, []));
      if !env.readOk {
        out := SendError(env, addr, port, AccessViolation);
        DoClose();
        return;
      }
      var chunk := Chunk(disk, pos);
      pos := pos + |chunk|;
      retained := Some(Block(blknum, chunk));
      out := DoResend(env);
    }

    /** tftp_sdcard_write: walks the pbuf chain, one f_write per non-empty segment. What is
        stored is the first w.0 bytes of the concatenated payload, all of it on success. */
    method SdcardWrite(chain: seq<seq<byte>>, io: seq<Io>) returns (ret: int)
      requires pos <= |disk|
      modifies this`disk, this`pos
      ensures chain[0..] == chain
      ensures var w := WriteChain(chain, io, 0);
              && (ret < 0 <==> !w.1)
              && disk == Overwrite(old(disk), old(pos), Flatten(chain)[..w.0])
              && pos == old(pos) + w.0
    {
      assert chain[0..] == chain;
      SegmentsStoreChain(disk, pos, chain, io, 0);
      var i := 0;
      while i < |chain|
        invariant 0 <= i <= |chain|
        invariant Segments(disk, pos, chain, io, i) == Segments(old(disk), old(pos), chain, io, 0)
      {
        if |chain[i]| != 0 {
          var w := IoAt(io, i, |chain[i]|);
          var n := Min(w.count, |chain[i]|);
          disk := Overwrite(disk, pos, chain[i][..n]);
          pos := pos + n;
          if !w.ok || w.count != |chain[i]| {
            return -1;
          }
        }
        i := i + 1;
      }
      ret := 0;
    }

    method Receive(env: Env, d: Datagram, chain: seq<seq<byte>>, fromAddr: nat, fromPort: u16) returns (out: seq<Sent>)
      requires pos <= |disk|
      modifies this
      ensures Recv(old(Snapshot()), env, d, chain, fromAddr, fromPort) == Result(Snapshot(), out)
    {
      if (port != 0 && fromPort != port) || (addr != 0 && addr != fromAddr) {
        out := SendError(env, fromAddr, fromPort, AccessViolation);
        return;
      }
      lastPkt := timer;
      retries := 0;
      match d {
        case Request(write, body) => out := ReceiveRequest(env, write, body, fromAddr, fromPort);
        case Data(num, _) => out := ReceiveData(env, num, chain, fromAddr, fromPort);
        case Ack(num) => out := ReceiveAck(env, num, fromAddr, fromPort);
        case Fault(_) => out := SendError(env, fromAddr, fromPort, IllegalOperation);
        case Unknown => out := SendError(env, fromAddr, fromPort, IllegalOperation);
      }
    }

    method ReceiveRequest(env: Env, write: bool, body: seq<byte>, fromAddr: nat, fromPort: u16) returns (out: seq<Sent>)
      modifies this
      ensures RecvRequest(old(Snapshot()), env, write, body, fromAddr, fromPort) == Result(Snapshot(), out)
    {
      if open {
        out := SendError(env, fromAddr, fromPort, AccessViolation);
        return;
      }
      timers := timers + 1;
      var parsed := ParseRequest(body);
      if !parsed.Names? {
        out := SendError(env, fromAddr, fromPort, AccessViolation);
        return;
      }
      open := parsed.mode == OCTET && env.openOk;
      blknum := 1;
      if !open {
        out := SendError(env, fromAddr, fromPort, FileNotFound);
        return;
      }
      pos := 0;
      addr := fromAddr;
      port := fromPort;
      modeWrite := write;
      if write {
        out := Reply(env, addr, port, Ack(0));
      } else {
        out := DoSendData(env);
      }
    }

    method ReceiveData(env: Env, num: u16, chain: seq<seq<byte>>, fromAddr: nat, fromPort: u16) returns (out: seq<Sent>)
      requires pos <= |disk|
      modifies this
      ensures RecvData(old(Snapshot()), env, num, chain, fromAddr, fromPort) == Result(Snapshot(), out)
    {
      if !open || !modeWrite {
        out := SendError(env, fromAddr, fromPort, AccessViolation);
        return;
      }
      if num == blknum {
        var ret := SdcardWrite(chain, env.io);
        if ret < 0 {
          out := SendError(env, fromAddr, fromPort, AccessViolation);
          DoClose();
        } else {
          out := Reply(env, addr, port, Ack(num));
        }
        if |Flatten(chain)| < PAYLOAD {
          DoClose();
        } else {
          blknum := Succ16(blknum);
        }
      } else if Succ16(num) == blknum {
        out := Reply(env, addr, port, Ack(num));
      } else {
        out := SendError(env, fromAddr, fromPort, UnknownTransferId);
      }
    }

    method ReceiveAck(env: Env, num: u16, fromAddr: nat, fromPort: u16) returns (out: seq<Sent>)
      modifies this
      ensures RecvAck(old(Snapshot()), env, num, fromAddr, fromPort) == Result(Snapshot(), out)
    {
      if !open || modeWrite {
        out := SendError(env, fromAddr, fromPort, AccessViolation);
        return;
      }
      if num != blknum {
        out := SendError(env, fromAddr, fromPort, UnknownTransferId);
        return;
      }
      var lastpkt := false;
      if retained != None {
        lastpkt := |retained.value.payload| != PAYLOAD;
      }
      if !lastpkt {
        blknum := Succ16(blknum);
        out := DoSendData(env);
      } else {
        DoClose();
        out := [];
      }
    }

    method TimerFires(env: Env) returns (out: seq<Sent>)
      requires timers >= 1
      modifies this
      ensures Tick(old(Snapshot()), env) == Result(Snapshot(), out)
    {
      timers := timers - 1;
      timer := timer + 1;
      out := [];
      if !open {
        return;
      }
      timers := timers + 1;
      if timer - lastPkt > TIMEOUT_TICKS {
        if retained != None && retries < MAX_RETRIES {
          out := DoResend(env);
          retries := retries + 1;
        } else {
          DoClose();
        }
      }
    }
  }
}
