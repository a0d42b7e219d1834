/** Whole runs of a TFTP read (RFC 1350, sections 2, 5 and 6): the server, a conforming reader
    and a network that may lose, duplicate, delay and reorder every datagram. A datagram once
    sent stays in its set for ever: losing it is never delivering it, duplicating it is
    delivering it twice. */
module TftpRead {
  import opened Words
  import opened Tftp
  import opened TftpSession
  import opened TftpNetwork

  /** `single`: at most one session is opened in the run. `allocFails`: the buffer of the block
      that send_data retains may be unavailable. */
  datatype Config = Config(file: seq<byte>, addr: nat, port: u16, request: seq<byte>, single: bool, allocFails: bool)

  ghost predicate Proper(c: Config) {
    && c.addr != 0 && c.port != 0
    && exists name :: WellFormedRequest(c.request, name, OCTET)
  }

  /** The block a 16-bit number stands for in a transfer of at most 65536 blocks. */
  function Index(num: u16): nat {
    if num == 0 then 0x1_0000 else num
  }

  /** `count` blocks received, `got` their bytes; a block shorter than 512 bytes ends the transfer. */
  datatype Reader = Reader(got: seq<byte>, count: nat, done: bool)

  datatype Sys = Sys(
    server: Session,
    toServer: set<Datagram>,
    toReader: set<Datagram>,
    reader: Reader,
    sessions: nat,
    completed: bool   // the server has closed on the ACK of the last block
  )

  datatype Step =
    | ToServer(d: Datagram, env: Env)
    | ToReader(d: Datagram)
    | Alien(d: Datagram, chain: seq<seq<byte>>, env: Env, addr: nat, port: u16)
    | Timer(env: Env)

  function Start(c: Config): Sys {
    Sys(Init(c.file), {Request(false, c.request)}, {}, Reader([], 0, false), 0, false)
  }

  predicate EnvAllowed(c: Config, env: Env) {
    c.allocFails || env.dataAlloc
  }

  predicate Enabled(c: Config, y: Sys, step: Step) {
    match step
    case ToServer(d, env) =>
      d in y.toServer && EnvAllowed(c, env) && (c.single && Opens(y.server, d, env) ==> y.sessions == 0)
    case ToReader(d) => d in y.toReader
    case Alien(d, _, env, addr, port) =>
      (addr, port) != (c.addr, c.port) && (y.server.open || !d.Request?)
    case Timer(env) => y.server.timers >= 1
  }

  /** A conforming reader: takes the block it waits for, acknowledges it, and acknowledges the
      previous one again when it comes again. */
  function Receive(r: Reader, d: Datagram): (Reader, set<Datagram>) {
    if !d.Data? then (r, {})
    else if !r.done && d.num == Num(r.count + 1) then
      (Reader(r.got + d.payload, r.count + 1, |d.payload| < PAYLOAD), {Ack(d.num)})
    else if r.count > 0 && d.num == Num(r.count) then (r, {Ack(d.num)})
    else (r, {})
  }

  predicate LastBlockClose(s: Session, d: Datagram) {
    s.open && !s.modeWrite && d.Ack? && d.num == s.blknum && LastBlock(s)
  }

  /** A step that is not enabled leaves the system as it is. */
  function Apply(c: Config, y: Sys, step: Step): Sys {
    if !Enabled(c, y, step) then y
    else
      match step
      case ToServer(d, env) =>
        var r := Recv(y.server, env, d, [], c.addr, c.port);
        y.(server := r.session,
           toReader := y.toReader + Outgoing(c.addr, c.port, r.out),
           sessions := y.sessions + (if Opens(y.server, d, env) then 1 else 0),
           completed := y.completed || LastBlockClose(y.server, d))
      case ToReader(d) =>
        var (reader, acks) := Receive(y.reader, d);
        y.(reader := reader, toServer := y.toServer + acks)
      case Alien(d, chain, env, addr, port) =>
        var r := Recv(y.server, env, d, chain, addr, port);
        y.(server := r.session, toReader := y.toReader + Outgoing(c.addr, c.port, r.out))
      case Timer(env) =>
        var r := Tick(y.server, env);
        y.(server := r.session, toReader := y.toReader + Outgoing(c.addr, c.port, r.out))
  }

  function Exec(c: Config, steps: seq<Step>): Sys {
    if steps == [] then Start(c)
    else Apply(c, Exec(c, steps[..|steps| - 1]), steps[|steps| - 1])
  }

  // ---- safety ----

  /** The reader always holds a gap-free prefix of the file, stops only with all of it, and the
      server takes the last-block close only when the reader holds all of it. */
  ghost predicate Safe(c: Config, y: Sys) {
    && y.reader.got <= c.file
    && (y.reader.done ==> y.reader.got == c.file)
    && (y.completed ==> y.reader.got == c.file)
  }

  ghost predicate AlwaysSafe(c: Config) {
    forall steps :: Safe(c, Exec(c, steps))
  }

  // ---- invariant for files of at most 65536 blocks ----

  ghost predicate ServerReads(c: Config, s: Session) {
    && SessionInv(s)
    && s.disk == c.file
    && (s.open ==> s.addr == c.addr && s.port == c.port && !s.modeWrite)
  }

  ghost predicate ReaderInv(c: Config, r: Reader) {
    && r.count <= Blocks(c.file)
    && r.got == FirstBlocks(c.file, r.count)
    && (r.done <==> r.count == Blocks(c.file))
  }

  ghost predicate ServerAt(c: Config, y: Sys) {
    var s := y.server;
    var b := Index(s.blknum);
    s.open ==>
      && 1 <= b <= Blocks(c.file)
      && y.sessions >= 1
      && (s.retained.Some? ==> s.retained.value.payload == BlockAt(c.file, b) && s.pos == Min(b * PAYLOAD, |c.file|))
      && (s.retained.None? ==> c.single && s.pos == (b - 1) * PAYLOAD)
      && (c.single ==> forall d <- y.toReader :: d.Data? ==> Index(d.num) <= b && (s.retained.None? ==> Index(d.num) < b))
  }

  ghost predicate NetInv(c: Config, y: Sys) {
    && (forall d <- y.toReader :: d.Data? ==> Index(d.num) <= Blocks(c.file) && d.payload == BlockAt(c.file, Index(d.num)))
    && (forall d <- y.toServer :: d == Request(false, c.request) || (d.Ack? && Index(d.num) <= y.reader.count))
    && (c.single && y.sessions == 0 ==> forall d <- y.toReader :: !d.Data?)
    && (y.reader.count > 0 ==> exists d :: d in y.toReader && d.Data? && Index(d.num) == y.reader.count)
  }

  ghost predicate Inv(c: Config, y: Sys) {
    && ServerReads(c, y.server)
    && ReaderInv(c, y.reader)
    && ServerAt(c, y)
    && NetInv(c, y)
    && (y.completed ==> y.reader.done)
  }

  ghost predicate Bounded(c: Config) {
    Proper(c) && Blocks(c.file) <= 0x1_0000 && (c.single || !c.allocFails)
  }

  /** send_data with block `b` due either closes, or retains nothing, or retains and sends
      exactly that block. */
  lemma SendDataFacts(c: Config, s: Session, env: Env, b: nat)
    requires s.open && s.addr == c.addr && s.port == c.port && s.disk == c.file
    requires 1 <= b <= Blocks(c.file) && s.pos == (b - 1) * PAYLOAD
    ensures var r := SendData(s, env);
            || (!env.dataAlloc && r == Result(s.(retained := None), []))
            || (r.session == CloseHandle(s) && forall d <- Outgoing(c.addr, c.port, r.out) :: !d.Data?)
            || (env.dataAlloc
                && r.session == s.(retained := Some(Block(s.blknum, BlockAt(c.file, b))), pos := Min(b * PAYLOAD, |c.file|))
                && Outgoing(c.addr, c.port, r.out) <= {Data(s.blknum, BlockAt(c.file, b))})
  {
    var r := SendData(s, env);
    BlockFacts(c.file, b);
    if r.out != [] {
      OutgoingOne(c.addr, c.port, r.out[0]);
    }
  }

  /** A server step that sends no data and at most closes the session keeps the invariant. */
  lemma QuietKeepsInv(c: Config, y: Sys, y': Sys)
    requires Inv(c, y)
    requires y' == y.(server := y'.server, toReader := y'.toReader, completed := y'.completed)
    requires forall d <- y'.toReader :: d.Data? ==> d in y.toReader
    requires y.toReader <= y'.toReader
    requires ServerReads(c, y'.server)
    requires y'.server.open ==> y'.server.(lastPkt := 0, retries := 0, timers := 0) == y.server.(lastPkt := 0, retries := 0, timers := 0)
    requires y'.completed ==> y.reader.done
    ensures Inv(c, y')
  {
  }

  /** The server has moved on to block `b` in this session, or closed. */
  ghost predicate MovedTo(c: Config, y: Sys, y': Sys, b: nat) {
    var s' := y'.server;
    && y' == y.(server := s', toReader := y'.toReader, sessions := y'.sessions)
    && y.sessions <= y'.sessions
    && ServerReads(c, s')
    && (forall d <- y'.toReader :: d.Data? ==> d in y.toReader || (s'.open && d == Data(s'.blknum, BlockAt(c.file, b))))
    && y.toReader <= y'.toReader
    && (s'.open ==> y'.sessions >= 1 && Index(s'.blknum) == b)
    && (s'.open && s'.retained.None? ==> y'.toReader == y.toReader && c.single && s'.pos == (b - 1) * PAYLOAD)
    && (s'.open && s'.retained.Some? ==> s'.retained.value.payload == BlockAt(c.file, b) && s'.pos == Min(b * PAYLOAD, |c.file|))
  }

  lemma MovedKeepsInv(c: Config, y: Sys, y': Sys, b: nat)
    requires Inv(c, y) && 1 <= b <= Blocks(c.file)
    requires MovedTo(c, y, y', b)
    requires c.single ==> forall d <- y.toReader :: d.Data? ==> Index(d.num) < b
    requires c.single && y'.sessions == 0 ==> !y'.server.open
    ensures Inv(c, y')
  {
  }

  lemma AckKeepsInv(c: Config, y: Sys, d: Datagram, env: Env)
    requires Bounded(c) && Inv(c, y) && Enabled(c, y, ToServer(d, env)) && d.Ack?
    ensures Inv(c, Apply(c, y, ToServer(d, env)))
  {
    if y.server.open && d.num == y.server.blknum && !LastBlock(y.server) {
      MovingAck(c, y, d, env);
    } else {
      QuietAck(c, y, d, env);
    }
  }

  /** The ACK waited for moves the server on, unless reading fails. */
  lemma AckMoves(c: Config, y: Sys, d: Datagram, env: Env)
    requires Bounded(c) && Inv(c, y) && Enabled(c, y, ToServer(d, env)) && d.Ack?
    requires y.server.open && d.num == y.server.blknum && !LastBlock(y.server)
    ensures Index(y.server.blknum) < Blocks(c.file) && y.server.retained.Some?
    ensures MovedTo(c, y, Apply(c, y, ToServer(d, env)), Index(y.server.blknum) + 1)
  {
    hide SendData, Recv;
    var s := y.server;
    HandleKeepsInv(s, Arrives(env, d, [], c.addr, c.port));
    var b := Index(s.blknum);
    BlockFacts(c.file, b);
    AckSends(s, d, env);
    SendDataFacts(c, s.(lastPkt := s.timer, retries := 0, blknum := Succ16(s.blknum)), env, b + 1);
  }

  lemma MovingAck(c: Config, y: Sys, d: Datagram, env: Env)
    requires Bounded(c) && Inv(c, y) && Enabled(c, y, ToServer(d, env)) && d.Ack?
    requires y.server.open && d.num == y.server.blknum && !LastBlock(y.server)
    ensures Inv(c, Apply(c, y, ToServer(d, env)))
  {
    AckMoves(c, y, d, env);
    hide MovedTo, Apply, Recv, LastBlock, Bounded, BlockAt;
    MovedKeepsInv(c, y, Apply(c, y, ToServer(d, env)), Index(y.server.blknum) + 1);
  }

  lemma AckSends(s: Session, d: Datagram, env: Env)
    requires s.open && !s.modeWrite && d.Ack? && d.num == s.blknum && !LastBlock(s)
    ensures Recv(s, env, d, [], s.addr, s.port) == SendData(s.(lastPkt := s.timer, retries := 0, blknum := Succ16(s.blknum)), env)
  {
    hide SendData;
  }

  lemma QuietAck(c: Config, y: Sys, d: Datagram, env: Env)
    requires Bounded(c) && Inv(c, y) && Enabled(c, y, ToServer(d, env)) && d.Ack?
    requires !y.server.open || d.num != y.server.blknum || LastBlock(y.server)
    ensures Inv(c, Apply(c, y, ToServer(d, env)))
  {
    var r := Recv(y.server, env, d, [], c.addr, c.port);
    HandleKeepsInv(y.server, Arrives(env, d, [], c.addr, c.port));
    if r.out != [] {
      OutgoingOne(c.addr, c.port, r.out[0]);
    }
    if y.server.open {
      BlockFacts(c.file, Index(y.server.blknum));
    }
    QuietKeepsInv(c, y, Apply(c, y, ToServer(d, env)));
  }

  lemma OpeningKeepsInv(c: Config, y: Sys, d: Datagram, env: Env)
    requires Bounded(c) && Inv(c, y) && Enabled(c, y, ToServer(d, env)) && Opens(y.server, d, env)
    ensures Inv(c, Apply(c, y, ToServer(d, env)))
  {
    var s := y.server;
    var y' := Apply(c, y, ToServer(d, env));
    HandleKeepsInv(s, Arrives(env, d, [], c.addr, c.port));
    assert d == Request(false, c.request);
    var started := s.(lastPkt := s.timer, retries := 0, timers := s.timers + 1, open := true, blknum := 1,
                      addr := c.addr, port := c.port, modeWrite := false, pos := 0);
    SendDataFacts(c, started, env, 1);
    assert Recv(s, env, d, [], c.addr, c.port) == SendData(started, env);
    MovedKeepsInv(c, y, y', 1);
  }

  lemma QuietRequest(c: Config, y: Sys, d: Datagram, env: Env)
    requires Bounded(c) && Inv(c, y) && Enabled(c, y, ToServer(d, env)) && d.Request? && !Opens(y.server, d, env)
    ensures Inv(c, Apply(c, y, ToServer(d, env)))
  {
    var r := Recv(y.server, env, d, [], c.addr, c.port);
    HandleKeepsInv(y.server, Arrives(env, d, [], c.addr, c.port));
    if r.out != [] {
      OutgoingOne(c.addr, c.port, r.out[0]);
    }
    assert r.session.open ==> r.session == y.server.(lastPkt := y.server.timer, retries := 0);
    QuietKeepsInv(c, y, Apply(c, y, ToServer(d, env)));
  }

  lemma TimerKeepsInv(c: Config, y: Sys, env: Env)
    requires Bounded(c) && Inv(c, y) && Enabled(c, y, Timer(env))
    ensures Inv(c, Apply(c, y, Timer(env)))
  {
    var r := Tick(y.server, env);
    HandleKeepsInv(y.server, Fires(env));
    if r.out != [] {
      OutgoingOne(c.addr, c.port, r.out[0]);
    }
  }

  lemma AlienKeepsInv(c: Config, y: Sys, step: Step)
    requires Bounded(c) && Inv(c, y) && Enabled(c, y, step) && step.Alien?
    ensures Inv(c, Apply(c, y, step))
  {
    var r := Recv(y.server, step.env, step.d, step.chain, step.addr, step.port);
    HandleKeepsInv(y.server, Arrives(step.env, step.d, step.chain, step.addr, step.port));
    if r.out != [] {
      OutgoingOne(c.addr, c.port, r.out[0]);
    }
    assert Outgoing(c.addr, c.port, r.out) == {};
    assert r.session.(lastPkt := y.server.lastPkt, retries := y.server.retries) == y.server;
  }

  lemma ReaderKeepsInv(c: Config, y: Sys, d: Datagram)
    requires Bounded(c) && Inv(c, y) && d in y.toReader
    ensures Inv(c, Apply(c, y, ToReader(d)))
  {
    if d.Data? && !y.reader.done && d.num == Num(y.reader.count + 1) {
      assert Index(d.num) == y.reader.count + 1;
      BlockFacts(c.file, y.reader.count + 1);
    }
  }

  /** Every step keeps the invariant. */
  lemma StepKeepsInv(c: Config, y: Sys, step: Step)
    requires Bounded(c) && Inv(c, y)
    ensures Inv(c, Apply(c, y, step))
  {
    if Enabled(c, y, step) {
      match step {
        case ToServer(d, env) =>
          if d.Ack? {
            AckKeepsInv(c, y, d, env);
          } else if Opens(y.server, d, env) {
            OpeningKeepsInv(c, y, d, env);
          } else {
            QuietRequest(c, y, d, env);
          }
        case ToReader(d) => ReaderKeepsInv(c, y, d);
        case Alien(_, _, _, _, _) => AlienKeepsInv(c, y, step);
        case Timer(env) => TimerKeepsInv(c, y, env);
      }
    }
  }

  lemma {:induction false} ExecInv(c: Config, steps: seq<Step>)
    requires Bounded(c)
    ensures Inv(c, Exec(c, steps))
  {
    if steps != [] {
      hide Inv, Apply;
      ExecInv(c, steps[..|steps| - 1]);
      StepKeepsInv(c, Exec(c, steps[..|steps| - 1]), steps[|steps| - 1]);
    } else {
      StartInv(c);
    }
  }

  lemma StartInv(c: Config)
    ensures Inv(c, Start(c))
  {
  }

  // ---- files shorter than one block are safe under every policy ----

  ghost predicate TinyInv(c: Config, y: Sys) {
    var s := y.server;
    var done := y.reader == Reader(c.file, 1, true);
    && ServerReads(c, s)
    && (done || y.reader == Reader([], 0, false))
    && (y.completed ==> done)
    && (forall d <- y.toReader :: d.Data? ==> d.payload == c.file && (d.num == 1 || (d.num == 2 && done)))
    && (forall d <- y.toServer :: d == Request(false, c.request) || (d == Ack(1) && done))
    && (s.open ==> s.blknum == 1 || (s.blknum == 2 && done))
    && (s.open && s.retained.Some? ==> s.retained.value.payload == c.file)
    && (s.open && s.retained.None? ==> s.pos == 0)
  }

  /** A session that send_data leaves at block number 1 or 2 keeps the invariant. */
  lemma TinySend(c: Config, y: Sys, started: Session, env: Env, y': Sys)
    requires Proper(c) && |c.file| < PAYLOAD && TinyInv(c, y)
    requires started.open && !started.modeWrite && started.addr == c.addr && started.port == c.port
    requires started.disk == c.file && started.pos == 0
    requires started.blknum == 1 || (started.blknum == 2 && y.reader.done)
    requires y' == y.(server := SendData(started, env).session, sessions := y'.sessions,
                      toReader := y.toReader + Outgoing(c.addr, c.port, SendData(started, env).out))
    requires SessionInv(y'.server)
    ensures TinyInv(c, y')
  {
    assert BlockAt(c.file, 1) == c.file;
    SendDataFacts(c, started, env, 1);
    hide SessionInv;
  }

  lemma TinyServerStep(c: Config, y: Sys, d: Datagram, env: Env)
    requires Proper(c) && |c.file| < PAYLOAD && TinyInv(c, y) && Enabled(c, y, ToServer(d, env))
    ensures TinyInv(c, Apply(c, y, ToServer(d, env)))
  {
    hide WriteChain, Overwrite, Flatten, RecvData;
    var s := y.server;
    var y' := Apply(c, y, ToServer(d, env));
    var r := Recv(s, env, d, [], c.addr, c.port);
    HandleKeepsInv(s, Arrives(env, d, [], c.addr, c.port));
    if Opens(s, d, env) {
      TinySend(c, y, s.(lastPkt := s.timer, retries := 0, timers := s.timers + 1, open := true, blknum := 1,
                        addr := c.addr, port := c.port, modeWrite := false, pos := 0), env, y');
    } else if s.open && d.Ack? && d.num == s.blknum && !LastBlock(s) {
      TinySend(c, y, s.(lastPkt := s.timer, retries := 0, blknum := Succ16(s.blknum)), env, y');
    } else {
      TinyQuiet(c, y, d, env);
    }
  }

  lemma TinyQuiet(c: Config, y: Sys, d: Datagram, env: Env)
    requires Proper(c) && |c.file| < PAYLOAD && TinyInv(c, y) && Enabled(c, y, ToServer(d, env))
    requires !Opens(y.server, d, env)
    requires d.Ack? && y.server.open && d.num == y.server.blknum ==> LastBlock(y.server)
    ensures TinyInv(c, Apply(c, y, ToServer(d, env)))
  {
    var r := Recv(y.server, env, d, [], c.addr, c.port);
    HandleKeepsInv(y.server, Arrives(env, d, [], c.addr, c.port));
    if r.out != [] {
      OutgoingOne(c.addr, c.port, r.out[0]);
    }
    assert r.session.open ==> r.session == y.server.(lastPkt := y.server.timer, retries := 0);
    assert forall o <- r.out :: !o.datagram.Data?;
  }

  lemma TinyAlien(c: Config, y: Sys, step: Step)
    requires Proper(c) && |c.file| < PAYLOAD && TinyInv(c, y) && Enabled(c, y, step) && step.Alien?
    ensures TinyInv(c, Apply(c, y, step))
  {
    var r := Recv(y.server, step.env, step.d, step.chain, step.addr, step.port);
    HandleKeepsInv(y.server, Arrives(step.env, step.d, step.chain, step.addr, step.port));
    if r.out != [] {
      OutgoingOne(c.addr, c.port, r.out[0]);
    }
    assert Outgoing(c.addr, c.port, r.out) == {};
  }

  lemma TinyOtherStep(c: Config, y: Sys, step: Step)
    requires Proper(c) && |c.file| < PAYLOAD && TinyInv(c, y) && Enabled(c, y, step) && !step.ToServer?
    ensures TinyInv(c, Apply(c, y, step))
  {
    match step {
      case ToReader(_) =>
      case Alien(_, _, _, _, _) =>
        TinyAlien(c, y, step);
      case Timer(env) =>
        TinyTimer(c, y, env);
    }
    hide Recv, Tick;
  }

  lemma TinyTimer(c: Config, y: Sys, env: Env)
    requires Proper(c) && |c.file| < PAYLOAD && TinyInv(c, y) && Enabled(c, y, Timer(env))
    ensures TinyInv(c, Apply(c, y, Timer(env)))
  {
    var r := Tick(y.server, env);
    HandleKeepsInv(y.server, Fires(env));
    if r.out != [] {
      OutgoingOne(c.addr, c.port, r.out[0]);
    }
  }

  lemma {:induction false} ExecTiny(c: Config, steps: seq<Step>)
    requires Proper(c) && |c.file| < PAYLOAD
    ensures TinyInv(c, Exec(c, steps))
  {
    if steps != [] {
      var y := Exec(c, steps[..|steps| - 1]);
      var step := steps[|steps| - 1];
      ExecTiny(c, steps[..|steps| - 1]);
      if Enabled(c, y, step) {
        match step {
          case ToServer(d, env) => TinyServerStep(c, y, d, env);
          case _ => TinyOtherStep(c, y, step);
        }
      }
    }
  }

  // ---- a run in which nothing goes wrong ----

  function DataFor(c: Config, n: nat): Datagram {
    Data(Num(n), BlockAt(c.file, n))
  }

  /** The server sends block 1; the reader then receives and acknowledges blocks 1..k. */
  function HonestRun(c: Config, k: nat): seq<Step> {
    if k == 0 then [ToServer(Request(false, c.request), GOOD)]
    else HonestRun(c, k - 1) + [ToReader(DataFor(c, k)), ToServer(Ack(Num(k)), GOOD)]
  }

  /** The reader holds blocks 1..k, the server retains block k+1 and every earlier block and
      acknowledgement is still travelling. */
  ghost predicate Honest(c: Config, y: Sys, k: nat) {
    var s := y.server;
    && ServerReads(c, s) && s.open
    && s.blknum == Num(k + 1) && s.pos == Min((k + 1) * PAYLOAD, |c.file|)
    && s.retained == Some(Block(Num(k + 1), BlockAt(c.file, k + 1)))
    && y.reader == Reader(FirstBlocks(c.file, k), k, false)
    && Request(false, c.request) in y.toServer
    && (forall i :: 1 <= i <= k ==> Ack(Num(i)) in y.toServer)
    && (forall i :: 1 <= i <= k + 1 ==> DataFor(c, i) in y.toReader)
  }

  lemma ExecAppend(c: Config, steps: seq<Step>, step: Step)
    ensures Exec(c, steps + [step]) == Apply(c, Exec(c, steps), step)
  {
    assert (steps + [step])[..|steps|] == steps;
  }

  lemma ExecAppendTwo(c: Config, steps: seq<Step>, a: Step, b: Step)
    ensures Exec(c, steps + [a, b]) == Apply(c, Apply(c, Exec(c, steps), a), b)
  {
    hide Apply, Exec;
    ExecAppend(c, steps, a);
    ExecAppend(c, steps + [a], b);
    assert steps + [a] + [b] == steps + [a, b];
  }

  /** The reader takes block k+1. */
  lemma HonestDelivery(c: Config, y: Sys, k: nat)
    requires Proper(c) && k + 1 < Blocks(c.file) && Honest(c, y, k)
    ensures var y' := Apply(c, y, ToReader(DataFor(c, k + 1)));
            y' == y.(reader := Reader(FirstBlocks(c.file, k + 1), k + 1, false), toServer := y.toServer + {Ack(Num(k + 1))})
  {
    BlockFacts(c.file, k + 1);
  }

  /** The server takes the acknowledgement of block `b` and goes on to block b+1. */
  lemma AckAdvances(c: Config, y: Sys, b: nat, content: nat)
    requires Proper(c) && ServerReads(c, y.server) && y.server.open && y.server.blknum == Num(b) && Ack(Num(b)) in y.toServer
    requires !LastBlock(y.server)
    requires 1 <= content <= Blocks(c.file) && y.server.pos == (content - 1) * PAYLOAD
    ensures var y' := Apply(c, y, ToServer(Ack(Num(b)), GOOD));
            && y' == y.(server := y'.server, toReader := y'.toReader)
            && ServerReads(c, y'.server) && y'.server.open && y'.server.blknum == Num(b + 1)
            && y'.server.retained == Some(Block(Num(b + 1), BlockAt(c.file, content)))
            && y'.server.pos == Min(content * PAYLOAD, |c.file|)
            && y'.toReader == y.toReader + {Data(Num(b + 1), BlockAt(c.file, content))}
  {
    var s := y.server;
    HandleKeepsInv(s, Arrives(GOOD, Ack(Num(b)), [], c.addr, c.port));
    BlockFacts(c.file, content);
    OutgoingOne(c.addr, c.port, Sent(c.addr, c.port, Data(Num(b + 1), BlockAt(c.file, content))));
  }

  lemma HonestAck(c: Config, y: Sys, k: nat)
    requires Proper(c) && k + 1 < Blocks(c.file) && Honest(c, y, k)
    ensures Honest(c, Apply(c, Apply(c, y, ToReader(DataFor(c, k + 1))), ToServer(Ack(Num(k + 1)), GOOD)), k + 1)
  {
    HonestDelivery(c, y, k);
    BlockFacts(c.file, k + 1);
    AckAdvances(c, Apply(c, y, ToReader(DataFor(c, k + 1))), k + 1, k + 2);
  }

  lemma HonestStart(c: Config)
    requires Proper(c)
    ensures Honest(c, Exec(c, HonestRun(c, 0)), 0)
  {
    var d := Request(false, c.request);
    var name :| WellFormedRequest(c.request, name, OCTET);
    ParseRequestExact(c.request, name, OCTET);
    ExecAppend(c, [], ToServer(d, GOOD));
    assert [] + [ToServer(d, GOOD)] == HonestRun(c, 0);
    BlockFacts(c.file, 1);
    HandleKeepsInv(Init(c.file), Arrives(GOOD, d, [], c.addr, c.port));
    OutgoingOne(c.addr, c.port, Sent(c.addr, c.port, DataFor(c, 1)));
  }

  lemma {:induction false} HonestRuns(c: Config, k: nat)
    requires Proper(c) && k < Blocks(c.file)
    ensures Honest(c, Exec(c, HonestRun(c, k)), k)
  {
    hide Apply, Exec, Honest;
    if k == 0 {
      HonestStart(c);
    } else {
      HonestRuns(c, k - 1);
      ExecAppendTwo(c, HonestRun(c, k - 1), ToReader(DataFor(c, k)), ToServer(Ack(Num(k)), GOOD));
      HonestAck(c, Exec(c, HonestRun(c, k - 1)), k - 1);
    }
  }

  /** The last block and its acknowledgement end the transfer on both sides. */
  lemma HonestEnd(c: Config, y: Sys)
    requires Proper(c) && Honest(c, y, Blocks(c.file) - 1)
    ensures var n := Blocks(c.file);
            var y1 := Apply(c, y, ToReader(DataFor(c, n)));
            var y2 := Apply(c, y1, ToServer(Ack(Num(n)), GOOD));
            y2.completed && !y2.server.open && y2.reader.done && y2.reader.got == c.file
  {
    var n := Blocks(c.file);
    BlockFacts(c.file, n);
    var y1 := Apply(c, y, ToReader(DataFor(c, n)));
    assert y1.reader == Reader(c.file, n, true) && Ack(Num(n)) in y1.toServer;
    assert LastBlockClose(y1.server, Ack(Num(n)));
  }

  /** Every file can be read to the end: in the honest run the reader gets all of it and the
      server then closes on the last ACK. */
  lemma Completes(c: Config)
    requires Proper(c)
    ensures var y := Exec(c, HonestRun(c, Blocks(c.file)));
            y.completed && !y.server.open && y.reader.done && y.reader.got == c.file
  {
    hide Apply, Exec, Honest;
    var n := Blocks(c.file);
    HonestRuns(c, n - 1);
    ExecAppendTwo(c, HonestRun(c, n - 1), ToReader(DataFor(c, n)), ToServer(Ack(Num(n)), GOOD));
    HonestEnd(c, Exec(c, HonestRun(c, n - 1)));
  }

  // ---- what goes wrong outside the bounds ----

  /** More than 65536 blocks: the block 65536 before the last one carries the number the reader
      waits for, and a full block ends up in the place of the short last one. */
  lemma WrapBreaks(c: Config)
    requires Proper(c) && Blocks(c.file) > 0x1_0000
    ensures !AlwaysSafe(c)
  {
    hide Apply, Exec;
    var n := Blocks(c.file);
    HonestRuns(c, n - 1);
    var y := Exec(c, HonestRun(c, n - 1));
    var stale := DataFor(c, n - 0x1_0000);
    BlockFacts(c.file, n - 1);
    BlockFacts(c.file, n - 0x1_0000);
    FullBlockTooMany(c, HonestRun(c, n - 1), stale);
  }

  /** A full block taken as the last one leaves the reader with more bytes than the file has. */
  lemma FullBlockTooMany(c: Config, run: seq<Step>, d: Datagram)
    requires var y := Exec(c, run);
             && y.reader == Reader(FirstBlocks(c.file, Blocks(c.file) - 1), Blocks(c.file) - 1, false)
             && d in y.toReader && d.Data? && d.num == Num(Blocks(c.file)) && |d.payload| == PAYLOAD
    ensures !AlwaysSafe(c)
  {
    ExecAppend(c, run, ToReader(d));
    var y := Exec(c, run);
    var y' := Exec(c, run + [ToReader(d)]);
    assert y'.reader.got == y.reader.got + d.payload;
    assert |y'.reader.got| == Blocks(c.file) * PAYLOAD > |c.file|;
    assert !Safe(c, y');
  }

  const BAD_READ: Env := Env(true, true, true, false, [])
  const NO_BLOCK: Env := Env(false, true, true, true, [])

  /** After an honest run a read error closes the session; the duplicated request opens a new
      one whose first block cannot be allocated; stale ACKs 1..j then number every block one
      too high. */
  function ShiftedRun(c: Config, j: nat): seq<Step> {
    var n := Blocks(c.file);
    if j == 0 then
      HonestRun(c, n - 1)[..|HonestRun(c, n - 1)| - 1]
      + [ToServer(Ack(Num(n - 1)), BAD_READ), ToServer(Request(false, c.request), NO_BLOCK)]
    else ShiftedRun(c, j - 1) + [ToServer(Ack(Num(j)), GOOD)]
  }

  ghost predicate Shifted(c: Config, y: Sys, j: nat) {
    var s := y.server;
    var n := Blocks(c.file);
    && ServerReads(c, s) && s.open
    && s.blknum == Num(j + 1) && s.pos == j * PAYLOAD
    && (j == 0 ==> s.retained.None?)
    && (j > 0 ==> s.retained == Some(Block(Num(j + 1), BlockAt(c.file, j))) && Data(Num(j + 1), BlockAt(c.file, j)) in y.toReader)
    && y.reader == Reader(FirstBlocks(c.file, n - 1), n - 1, false)
    && (forall i :: 1 <= i <= n - 1 ==> Ack(Num(i)) in y.toServer)
  }

  /** The read error on block `n` closes the session. */
  lemma ReadErrorCloses(c: Config, y: Sys, b: nat)
    requires Proper(c) && ServerReads(c, y.server) && y.server.open && y.server.blknum == Num(b) && Ack(Num(b)) in y.toServer
    requires !LastBlock(y.server)
    ensures var y' := Apply(c, y, ToServer(Ack(Num(b)), BAD_READ));
            && y'.reader == y.reader && y'.toServer == y.toServer
            && ServerReads(c, y'.server) && !y'.server.open
  {
    HandleKeepsInv(y.server, Arrives(BAD_READ, Ack(Num(b)), [], c.addr, c.port));
  }

  /** The duplicated request opens a session that retains nothing. */
  lemma ReopenWithoutBlock(c: Config, y: Sys)
    requires Proper(c) && !c.single && c.allocFails
    requires ServerReads(c, y.server) && !y.server.open && Request(false, c.request) in y.toServer
    ensures var y' := Apply(c, y, ToServer(Request(false, c.request), NO_BLOCK));
            && y'.reader == y.reader && y'.toServer == y.toServer
            && ServerReads(c, y'.server) && y'.server.open
            && y'.server.blknum == 1 && y'.server.pos == 0 && y'.server.retained.None?
  {
    var name :| WellFormedRequest(c.request, name, OCTET);
    ParseRequestExact(c.request, name, OCTET);
    HandleKeepsInv(y.server, Arrives(NO_BLOCK, Request(false, c.request), [], c.addr, c.port));
  }

  lemma ShiftedStart(c: Config)
    requires Proper(c) && Blocks(c.file) > 1 && !c.single && c.allocFails
    ensures Shifted(c, Exec(c, ShiftedRun(c, 0)), 0)
  {
    hide Apply, Exec;
    var n := Blocks(c.file);
    var prefix := HonestRun(c, n - 2) + [ToReader(DataFor(c, n - 1))];
    assert HonestRun(c, n - 1)[..|HonestRun(c, n - 1)| - 1] == prefix;
    HonestRuns(c, n - 2);
    ExecAppend(c, HonestRun(c, n - 2), ToReader(DataFor(c, n - 1)));
    HonestDelivery(c, Exec(c, HonestRun(c, n - 2)), n - 2);
    ExecAppendTwo(c, prefix, ToServer(Ack(Num(n - 1)), BAD_READ), ToServer(Request(false, c.request), NO_BLOCK));
    BlockFacts(c.file, n - 1);
    ReadErrorCloses(c, Exec(c, prefix), n - 1);
    ReopenWithoutBlock(c, Apply(c, Exec(c, prefix), ToServer(Ack(Num(n - 1)), BAD_READ)));
  }

  lemma {:induction false} ShiftedRuns(c: Config, j: nat)
    requires Proper(c) && 1 < Blocks(c.file) <= 0x1_0000 && !c.single && c.allocFails
    requires j < Blocks(c.file)
    ensures Shifted(c, Exec(c, ShiftedRun(c, j)), j)
  {
    hide Apply, Exec;
    if j == 0 {
      ShiftedStart(c);
    } else {
      ShiftedRuns(c, j - 1);
      ExecAppend(c, ShiftedRun(c, j - 1), ToServer(Ack(Num(j)), GOOD));
      BlockFacts(c.file, j);
      if j > 1 {
        BlockFacts(c.file, j - 1);
      }
      AckAdvances(c, Exec(c, ShiftedRun(c, j - 1)), j, j);
    }
  }

  lemma ShiftBreaks(c: Config)
    requires Proper(c) && 1 < Blocks(c.file) <= 0x1_0000 && !c.single && c.allocFails
    ensures !AlwaysSafe(c)
  {
    hide Apply, Exec;
    var n := Blocks(c.file);
    ShiftedRuns(c, n - 1);
    BlockFacts(c.file, n - 1);
    FullBlockTooMany(c, ShiftedRun(c, n - 1), Data(Num(n), BlockAt(c.file, n - 1)));
  }

  /** The read path is safe in every run, exactly for files below 32 MiB of which either no
      second session is opened, or the retained block can always be allocated, or which fit in
      one short block. */
  lemma ReadSafeExact(c: Config)
    requires Proper(c)
    ensures AlwaysSafe(c) <==> |c.file| < 65536 * 512 && (c.single || !c.allocFails || |c.file| < 512)
  {
    if |c.file| >= 0x1_0000 * PAYLOAD {
      WrapBreaks(c);
    } else if |c.file| < PAYLOAD {
      forall steps
        ensures Safe(c, Exec(c, steps))
      {
        ExecTiny(c, steps);
      }
    } else if c.single || !c.allocFails {
      forall steps
        ensures Safe(c, Exec(c, steps))
      {
        ExecInv(c, steps);
        BlockFacts(c.file, Blocks(c.file));
      }
    } else {
      ShiftBreaks(c);
    }
  }
}
