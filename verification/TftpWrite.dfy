/** Whole runs of a TFTP write (RFC 1350, sections 2, 5 and 6): the server, a conforming writer
    and a network that may lose, duplicate, delay and reorder every datagram, over any number
    of sessions and with allocations and card operations failing at any time. */
module TftpWrite {
  import opened Words
  import opened Tftp
  import opened TftpSession
  import opened TftpNetwork

  /** `previous` is the file before the run; it is opened without truncation. */
  datatype Config = Config(data: seq<byte>, previous: seq<byte>, addr: nat, port: u16, request: seq<byte>)

  ghost predicate Proper(c: Config) {
    && c.addr != 0 && c.port != 0
    && exists name :: WellFormedRequest(c.request, name, OCTET)
  }

  /** `waiting` is the block whose ACK the writer waits for, 0 standing for the request. */
  datatype Writer = Writer(waiting: nat, done: bool)

  /** `written` and `blocks` are what the current session has stored, `stored` and `high` the
      most blocks and bytes any session has. */
  datatype Sys = Sys(
    server: Session,
    toServer: set<Datagram>,
    toWriter: set<Datagram>,
    writer: Writer,
    written: seq<byte>,
    blocks: nat,
    stored: nat,
    high: nat
  )

  datatype Step =
    | ToServer(d: Datagram, chain: seq<seq<byte>>, env: Env)
    | ToWriter(d: Datagram)
    | Alien(d: Datagram, chain: seq<seq<byte>>, env: Env, addr: nat, port: u16)
    | Timer(env: Env)

  function Start(c: Config): Sys {
    Sys(Init(c.previous), {Request(true, c.request)}, {}, Writer(0, false), [], 0, 0, 0)
  }

  predicate Enabled(c: Config, y: Sys, step: Step) {
    match step
    case ToServer(d, chain, _) => d in y.toServer && (d.Data? ==> Flatten(chain) == d.payload)
    case ToWriter(d) => d in y.toWriter
    case Alien(d, _, _, addr, port) => (addr, port) != (c.addr, c.port) && (y.server.open || !d.Request?)
    case Timer(_) => y.server.timers >= 1
  }

  function DataFor(c: Config, n: nat): Datagram {
    Data(Num(n), BlockAt(c.data, n))
  }

  /** A conforming writer: sends block n+1 when the ACK of block n arrives. */
  function Receive(c: Config, w: Writer, d: Datagram): (Writer, set<Datagram>) {
    if !d.Ack? || w.done || d.num != Num(w.waiting) then (w, {})
    else if w.waiting == Blocks(c.data) then (w.(done := true), {})
    else (w.(waiting := w.waiting + 1), {DataFor(c, w.waiting + 1)})
  }

  /** The server takes this DATA datagram as the block it waits for. */
  predicate Accepts(s: Session, d: Datagram) {
    s.open && s.modeWrite && d.Data? && d.num == s.blknum
  }

  function Apply(c: Config, y: Sys, step: Step): Sys {
    if !Enabled(c, y, step) then y
    else
      match step
      case ToServer(d, chain, env) =>
        var r := Recv(y.server, env, d, chain, c.addr, c.port);
        assert chain[0..] == chain;
        var w := if Accepts(y.server, d) then WriteChain(chain, env.io, 0) else (0, false);
        var written := if Opens(y.server, d, env) then [] else y.written + Flatten(chain)[..w.0];
        var blocks := if Opens(y.server, d, env) then 0 else if w.1 then y.blocks + 1 else y.blocks;
        y.(server := r.session, toWriter := y.toWriter + Outgoing(c.addr, c.port, r.out), written := written,
           blocks := blocks, stored := Max(y.stored, blocks), high := Max(y.high, |written|))
      case ToWriter(d) =>
        var (writer, data) := Receive(c, y.writer, d);
        y.(writer := writer, toServer := y.toServer + data)
      case Alien(d, chain, env, addr, port) =>
        var r := Recv(y.server, env, d, chain, addr, port);
        y.(server := r.session, toWriter := y.toWriter + Outgoing(c.addr, c.port, r.out))
      case Timer(env) =>
        var r := Tick(y.server, env);
        y.(server := r.session, toWriter := y.toWriter + Outgoing(c.addr, c.port, r.out))
  }

  function Exec(c: Config, steps: seq<Step>): Sys {
    if steps == [] then Start(c)
    else Apply(c, Exec(c, steps[..|steps| - 1]), steps[|steps| - 1])
  }

  // ---- safety ----

  /** Blocks the writer believes to be stored. */
  function Believed(c: Config, w: Writer): nat {
    if w.done then Blocks(c.data) else Max(w.waiting - 1, 0)
  }

  /** What a session writes is a prefix of the data, each byte once and in order, whatever is
      duplicated; the file is the data written so far over the old content; a block the writer
      believes stored is stored; and a finished writer's data is all in the file. */
  ghost predicate Safe(c: Config, y: Sys) {
    && y.written <= c.data
    && y.high <= |c.data|
    && y.server.disk == Overwrite(c.previous, 0, c.data[..y.high])
    && Believed(c, y.writer) <= y.stored
    && (y.writer.done ==> y.server.disk == Overwrite(c.previous, 0, c.data))
  }

  ghost predicate AlwaysSafe(c: Config) {
    forall steps :: Safe(c, Exec(c, steps))
  }

  // ---- invariant for data of at most 65535 blocks ----

  ghost predicate Bounded(c: Config) {
    Proper(c) && Blocks(c.data) < 0x1_0000
  }

  ghost predicate ServerWrites(c: Config, s: Session) {
    && SessionInv(s)
    && (s.open ==> s.addr == c.addr && s.port == c.port && s.modeWrite)
  }

  ghost predicate StoreInv(c: Config, y: Sys) {
    && y.written <= c.data
    && |y.written| <= y.high <= |c.data|
    && y.server.disk == Overwrite(c.previous, 0, c.data[..y.high])
    && y.blocks <= y.stored <= Blocks(c.data)
    && Min(y.stored * PAYLOAD, |c.data|) <= y.high
    && (y.server.open ==>
          && y.server.blknum == y.blocks + 1 <= Blocks(c.data)
          && y.server.pos == |y.written| == y.blocks * PAYLOAD)
  }

  ghost predicate NetInv(c: Config, y: Sys) {
    && (forall d <- y.toServer :: d == Request(true, c.request)
          || (d.Data? && 1 <= d.num <= y.writer.waiting && d.payload == BlockAt(c.data, d.num)))
    && (forall d <- y.toWriter :: d.Ack? ==> d.num <= y.stored)
    && y.writer.waiting <= Blocks(c.data)
    && y.writer.waiting <= y.stored + 1
    && (y.writer.done ==> y.stored == Blocks(c.data))
  }

  ghost predicate Inv(c: Config, y: Sys) {
    ServerWrites(c, y.server) && StoreInv(c, y) && NetInv(c, y)
  }

  lemma OverwriteGrows(previous: seq<byte>, data: seq<byte>, high: nat, from: nat, to: nat)
    requires from <= to <= |data| && from <= high <= |data|
    ensures Overwrite(Overwrite(previous, 0, data[..high]), from, data[from..to])
         == Overwrite(previous, 0, data[..Max(high, to)])
  {
    var disk := Overwrite(previous, 0, data[..high]);
    assert disk[..from] == data[..from];
    assert data[..from] + data[from..to] == data[..to];
    if to < |disk| {
      if to < high {
        assert disk[to..] == data[to..high] + (if high < |previous| then previous[high..] else []);
        assert data[..to] + data[to..high] == data[..high];
      } else {
        assert disk[to..] == previous[to..];
      }
    }
  }

  /** A server step that stores nothing, opens nothing and acknowledges only stored blocks. */
  lemma QuietKeepsInv(c: Config, y: Sys, y': Sys)
    requires Inv(c, y)
    requires y' == y.(server := y'.server, toWriter := y'.toWriter)
    requires y.toWriter <= y'.toWriter
    requires forall d <- y'.toWriter :: d.Ack? ==> d in y.toWriter || d.num <= y.stored
    requires ServerWrites(c, y'.server)
    requires y'.server.disk == y.server.disk
    requires y'.server.open ==> y.server.open && y'.server.blknum == y.server.blknum && y'.server.pos == y.server.pos
    ensures Inv(c, y')
  {
    hide Overwrite, SessionInv;
  }

  lemma OpeningKeepsInv(c: Config, y: Sys, d: Datagram, chain: seq<seq<byte>>, env: Env)
    requires Bounded(c) && Inv(c, y) && Enabled(c, y, ToServer(d, chain, env)) && Opens(y.server, d, env)
    ensures Inv(c, Apply(c, y, ToServer(d, chain, env)))
  {
    hide Overwrite;
    var s := y.server;
    HandleKeepsInv(s, Arrives(env, d, chain, c.addr, c.port));
    assert d == Request(true, c.request);
    OutgoingOne(c.addr, c.port, Sent(c.addr, c.port, Ack(0)));
  }

  /** What the server does with the block it waits for. */
  lemma AcceptedBlock(c: Config, s: Session, d: Datagram, chain: seq<seq<byte>>, env: Env)
    requires ServerWrites(c, s) && Accepts(s, d) && Flatten(chain) == d.payload
    ensures chain[0..] == chain
    ensures var w := WriteChain(chain, env.io, 0);
            var r := Recv(s, env, d, chain, c.addr, c.port);
            && ServerWrites(c, r.session)
            && r.session.disk == Overwrite(s.disk, s.pos, d.payload[..w.0])
            && (r.session.open <==> w.1 && |d.payload| >= PAYLOAD)
            && (r.session.open ==> r.session.blknum == Succ16(s.blknum) && r.session.pos == s.pos + w.0)
            && (forall a <- Outgoing(c.addr, c.port, r.out) :: a.Ack? ==> w.1 && a.num == d.num)
  {
    assert chain[0..] == chain;
    HandleKeepsInv(s, Arrives(env, d, chain, c.addr, c.port));
    OutgoingOne(c.addr, c.port, Sent(c.addr, c.port, Ack(d.num)));
    OutgoingOne(c.addr, c.port, Sent(c.addr, c.port, Fault(AccessViolation)));
  }

  /** The first `k` bytes of the block due extend what the session has written. */
  lemma WrittenGrows(data: seq<byte>, written: seq<byte>, payload: seq<byte>, k: nat)
    requires written <= data && k <= |payload| && |written| + |payload| <= |data|
    requires payload == data[|written|..|written| + |payload|]
    ensures payload[..k] == data[|written|..|written| + k]
    ensures written + payload[..k] == data[..|written| + k]
  {
  }

  /** Storing `k` bytes of the block due, all of them when `ok`. */
  lemma StoreKeepsInv(c: Config, y: Sys, y': Sys, payload: seq<byte>, k: nat, ok: bool)
    requires Bounded(c) && Inv(c, y) && y.server.open && payload == BlockAt(c.data, y.blocks + 1)
    requires k <= |payload| && (ok ==> k == |payload|)
    requires y'.written == y.written + payload[..k] && y'.blocks == (if ok then y.blocks + 1 else y.blocks)
    requires y'.stored == Max(y.stored, y'.blocks) && y'.high == Max(y.high, |y'.written|)
    requires y'.server.disk == Overwrite(y.server.disk, y.server.pos, payload[..k])
    requires y'.server.open <==> ok && |payload| >= PAYLOAD
    requires y'.server.open ==> y'.server.blknum == Succ16(y.server.blknum) && y'.server.pos == y.server.pos + k
    ensures StoreInv(c, y')
  {
    hide SessionInv, Overwrite, BlockAt, FirstBlocks;
    BlockFacts(c.data, y.blocks + 1);
    WrittenGrows(c.data, y.written, payload, k);
    OverwriteGrows(c.previous, c.data, y.high, y.server.pos, y.server.pos + k);
    assert y'.written == c.data[..y.server.pos + k];
    assert y'.server.disk == Overwrite(c.previous, 0, c.data[..y'.high]);
  }

  /** The block waited for: what f_write stores of it is the next stretch of the data. */
  lemma BlockKeepsInv(c: Config, y: Sys, d: Datagram, chain: seq<seq<byte>>, env: Env)
    requires Bounded(c) && Inv(c, y) && Enabled(c, y, ToServer(d, chain, env)) && Accepts(y.server, d)
    ensures Inv(c, Apply(c, y, ToServer(d, chain, env)))
  {
    hide Overwrite, WriteChain, Recv, SessionInv, StoreInv;
    AcceptedBlock(c, y.server, d, chain, env);
    var w := WriteChain(chain, env.io, 0);
    var y' := Apply(c, y, ToServer(d, chain, env));
    DueBlock(c, y, d);
    StoreKeepsInv(c, y, y', d.payload, w.0, w.1);
    BlockNet(c, y, y', d, w.1);
  }

  lemma DueBlock(c: Config, y: Sys, d: Datagram)
    requires Bounded(c) && Inv(c, y) && d in y.toServer && Accepts(y.server, d)
    ensures d.num == y.blocks + 1 && d.payload == BlockAt(c.data, y.blocks + 1)
  {
  }

  lemma BlockNet(c: Config, y: Sys, y': Sys, d: Datagram, ok: bool)
    requires Inv(c, y) && StoreInv(c, y') && d.Data? && d.num == y.blocks + 1
    requires y'.writer == y.writer && y'.toServer == y.toServer
    requires y'.stored == Max(y.stored, if ok then y.blocks + 1 else y.blocks)
    requires forall a <- y'.toWriter :: a in y.toWriter || (a.Ack? ==> ok && a.num == d.num)
    ensures NetInv(c, y')
  {
    hide SessionInv, Overwrite;
  }

  lemma OtherKeepsInv(c: Config, y: Sys, step: Step)
    requires Bounded(c) && Inv(c, y) && Enabled(c, y, step) && !step.ToWriter?
    requires step.ToServer? ==> !Opens(y.server, step.d, step.env) && !Accepts(y.server, step.d)
    ensures Inv(c, Apply(c, y, step))
  {
    hide Overwrite;
    var s := y.server;
    var r := match step
      case ToServer(d, chain, env) => Recv(s, env, d, chain, c.addr, c.port)
      case Alien(d, chain, env, addr, port) => Recv(s, env, d, chain, addr, port)
      case Timer(env) => Tick(s, env);
    match step {
      case ToServer(d, chain, env) => HandleKeepsInv(s, Arrives(env, d, chain, c.addr, c.port));
      case Alien(d, chain, env, addr, port) => HandleKeepsInv(s, Arrives(env, d, chain, addr, port));
      case Timer(env) => HandleKeepsInv(s, Fires(env));
    }
    if r.out != [] {
      OutgoingOne(c.addr, c.port, r.out[0]);
    }
    assert r.session.disk == s.disk;
    QuietKeepsInv(c, y, Apply(c, y, step));
  }

  lemma WriterKeepsInv(c: Config, y: Sys, d: Datagram)
    requires Bounded(c) && Inv(c, y) && d in y.toWriter
    ensures Inv(c, Apply(c, y, ToWriter(d)))
  {
    hide Overwrite, SessionInv, Recv, Tick, ParseRequest, WriteChain, Flatten, BlockAt, Opens, Accepts, Outgoing;
  }

  /** Every step keeps the invariant. */
  lemma StepKeepsInv(c: Config, y: Sys, step: Step)
    requires Bounded(c) && Inv(c, y)
    ensures Inv(c, Apply(c, y, step))
  {
    hide Inv, Apply, Opens;
    if !Enabled(c, y, step) {
      StepDisabled(c, y, step);
    } else if step.ToWriter? {
      WriterKeepsInv(c, y, step.d);
    } else if step.ToServer? && Opens(y.server, step.d, step.env) {
      OpeningKeepsInv(c, y, step.d, step.chain, step.env);
    } else if step.ToServer? && Accepts(y.server, step.d) {
      BlockKeepsInv(c, y, step.d, step.chain, step.env);
    } else {
      OtherKeepsInv(c, y, step);
    }
  }

  lemma {:induction false} ExecInv(c: Config, steps: seq<Step>)
    requires Bounded(c)
    ensures Inv(c, Exec(c, steps))
  {
    if steps == [] {
      assert Overwrite(c.previous, 0, []) == c.previous;
    } else {
      hide Inv, Apply;
      ExecInv(c, steps[..|steps| - 1]);
      StepKeepsInv(c, Exec(c, steps[..|steps| - 1]), steps[|steps| - 1]);
    }
  }

  lemma StepDisabled(c: Config, y: Sys, step: Step)
    requires !Enabled(c, y, step)
    ensures Apply(c, y, step) == y
  {
  }

  lemma InvIsSafe(c: Config, y: Sys)
    requires Bounded(c) && Inv(c, y)
    ensures Safe(c, y)
  {
    assert c.data[..|c.data|] == c.data;
  }

  /** An ACK that has left the server vouches for every block up to its number. */
  lemma AckVouches(c: Config, steps: seq<Step>, num: u16)
    requires Bounded(c) && Ack(num) in Exec(c, steps).toWriter
    ensures var y := Exec(c, steps);
            num <= y.stored && FirstBlocks(c.data, num) <= y.server.disk
  {
    hide Exec;
    ExecInv(c, steps);
    var y := Exec(c, steps);
    assert num * PAYLOAD <= y.stored * PAYLOAD;
    assert y.server.disk[..y.high] == c.data[..y.high];
  }

  // ---- a run in which nothing goes wrong ----

  /** The request is answered; then blocks 1..k are stored and acknowledged. */
  function HonestRun(c: Config, k: nat): seq<Step> {
    if k == 0 then [ToServer(Request(true, c.request), [], GOOD), ToWriter(Ack(0))]
    else HonestRun(c, k - 1) + [ToServer(DataFor(c, k), [BlockAt(c.data, k)], GOOD), ToWriter(Ack(Num(k)))]
  }

  ghost predicate Honest(c: Config, y: Sys, k: nat) {
    var s := y.server;
    && ServerWrites(c, s) && s.open && s.blknum == Num(k + 1) && s.pos == k * PAYLOAD == |y.written|
    && y.blocks == y.stored == k && y.high == k * PAYLOAD
    && y.writer == Writer(k + 1, false)
    && DataFor(c, k + 1) in y.toServer
    && Ack(0) in y.toWriter
  }

  lemma ExecAppend(c: Config, steps: seq<Step>, step: Step)
    ensures Exec(c, steps + [step]) == Apply(c, Exec(c, steps), step)
  {
    assert (steps + [step])[..|steps|] == steps;
  }

  lemma ExecAppendTwo(c: Config, steps: seq<Step>, a: Step, b: Step)
    ensures Exec(c, steps + [a, b]) == Apply(c, Apply(c, Exec(c, steps), a), b)
  {
    hide Apply, Exec;
    ExecAppend(c, steps, a);
    ExecAppend(c, steps + [a], b);
    assert steps + [a] + [b] == steps + [a, b];
  }

  lemma HonestStart(c: Config)
    requires Proper(c)
    ensures Honest(c, Exec(c, HonestRun(c, 0)), 0)
  {
    var d := Request(true, c.request);
    var name :| WellFormedRequest(c.request, name, OCTET);
    ParseRequestExact(c.request, name, OCTET);
    HandleKeepsInv(Init(c.previous), Arrives(GOOD, d, [], c.addr, c.port));
    OutgoingOne(c.addr, c.port, Sent(c.addr, c.port, Ack(0)));
    var y1 := Apply(c, Start(c), ToServer(d, [], GOOD));
    assert y1.server.open && Ack(0) in y1.toWriter;
    var y2 := Apply(c, y1, ToWriter(Ack(0)));
    hide Apply;
    ExecAppendTwo(c, [], ToServer(d, [], GOOD), ToWriter(Ack(0)));
    assert [] + HonestRun(c, 0) == HonestRun(c, 0);
  }

  /** The server stores block k+1 whole and acknowledges it. */
  lemma HonestStore(c: Config, y: Sys, k: nat)
    requires Proper(c) && k < Blocks(c.data) && Honest(c, y, k)
    ensures var y' := Apply(c, y, ToServer(DataFor(c, k + 1), [BlockAt(c.data, k + 1)], GOOD));
            && ServerWrites(c, y'.server)
            && y'.writer == y.writer && y'.toServer == y.toServer
            && Ack(Num(k + 1)) in y'.toWriter && Ack(0) in y'.toWriter
            && y'.blocks == y'.stored == k + 1
            && |y'.written| == y'.high == Min((k + 1) * PAYLOAD, |c.data|)
            && (k + 1 == Blocks(c.data) ==> !y'.server.open)
            && (k + 1 < Blocks(c.data) ==> y'.server.open && y'.server.blknum == Num(k + 2) && y'.server.pos == (k + 1) * PAYLOAD)
  {
    var d, chain := DataFor(c, k + 1), [BlockAt(c.data, k + 1)];
    BlockFacts(c.data, k + 1);
    assert chain[0..] == chain;
    assert Flatten(chain) == chain[0] + Flatten([]) == d.payload;
    assert WriteChain(chain, [], 1) == (0, true);
    assert WriteChain(chain, [], 0) == (|d.payload|, true);
    HandleKeepsInv(y.server, Arrives(GOOD, d, chain, c.addr, c.port));
    OutgoingOne(c.addr, c.port, Sent(c.addr, c.port, Ack(d.num)));
    hide Overwrite;
  }

  lemma HonestStep(c: Config, y: Sys, k: nat)
    requires Proper(c) && k + 1 < Blocks(c.data) && Honest(c, y, k)
    ensures Honest(c, Apply(c, Apply(c, y, ToServer(DataFor(c, k + 1), [BlockAt(c.data, k + 1)], GOOD)), ToWriter(Ack(Num(k + 1)))), k + 1)
  {
    HonestStore(c, y, k);
    var y1 := Apply(c, y, ToServer(DataFor(c, k + 1), [BlockAt(c.data, k + 1)], GOOD));
    HonestAck(c, y1, k);
  }

  lemma HonestAck(c: Config, y: Sys, k: nat)
    requires k + 1 < Blocks(c.data) && y.writer == Writer(k + 1, false) && Ack(Num(k + 1)) in y.toWriter
    ensures Apply(c, y, ToWriter(Ack(Num(k + 1))))
         == y.(writer := Writer(k + 2, false), toServer := y.toServer + {DataFor(c, k + 2)})
  {
  }

  lemma {:induction false} HonestRuns(c: Config, k: nat)
    requires Proper(c) && k < Blocks(c.data)
    ensures Honest(c, Exec(c, HonestRun(c, k)), k)
  {
    hide Apply, Exec, Honest;
    if k == 0 {
      HonestStart(c);
    } else {
      HonestRuns(c, k - 1);
      ExecAppendTwo(c, HonestRun(c, k - 1), ToServer(DataFor(c, k), [BlockAt(c.data, k)], GOOD), ToWriter(Ack(Num(k))));
      HonestStep(c, Exec(c, HonestRun(c, k - 1)), k - 1);
    }
  }

  lemma HonestEnd(c: Config, y: Sys)
    requires Proper(c) && Honest(c, y, Blocks(c.data) - 1)
    ensures var n := Blocks(c.data);
            var y1 := Apply(c, y, ToServer(DataFor(c, n), [BlockAt(c.data, n)], GOOD));
            Apply(c, y1, ToWriter(Ack(Num(n)))).writer.done
  {
    HonestStore(c, y, Blocks(c.data) - 1);
  }

  /** Every file of at most 65535 blocks can be written to the end, and is then stored. */
  lemma Completes(c: Config)
    requires Bounded(c)
    ensures var y := Exec(c, HonestRun(c, Blocks(c.data)));
            y.writer.done && c.data <= y.server.disk
  {
    hide Apply, Exec, Honest, Inv;
    var n := Blocks(c.data);
    HonestRuns(c, n - 1);
    ExecAppendTwo(c, HonestRun(c, n - 1), ToServer(DataFor(c, n), [BlockAt(c.data, n)], GOOD), ToWriter(Ack(Num(n))));
    HonestEnd(c, Exec(c, HonestRun(c, n - 1)));
    ExecInv(c, HonestRun(c, n));
    InvIsSafe(c, Exec(c, HonestRun(c, n)));
  }

  /** Block 65536 carries number 0, and the old ACK of the request acknowledges it unseen. */
  lemma WrapBreaks(c: Config)
    requires Proper(c) && Blocks(c.data) >= 0x1_0000
    ensures !AlwaysSafe(c)
  {
    HonestRuns(c, 0xFFFF);
    var run := HonestRun(c, 0xFFFF);
    ExecAppend(c, run, ToWriter(Ack(0)));
    StaleRequestAck(c, Exec(c, run));
    hide Apply, Exec, HonestRun;
    assert !Safe(c, Exec(c, run + [ToWriter(Ack(0))]));
  }

  lemma StaleRequestAck(c: Config, y: Sys)
    requires Blocks(c.data) >= 0x1_0000 && Honest(c, y, 0xFFFF)
    ensures !Safe(c, Apply(c, y, ToWriter(Ack(0))))
  {
  }

  /** The write path is safe in every run, exactly for data of fewer than 65536 blocks. */
  lemma WriteSafeExact(c: Config)
    requires Proper(c)
    ensures AlwaysSafe(c) <==> |c.data| < 65535 * 512
  {
    hide Apply, Exec, Safe, Inv;
    if Blocks(c.data) >= 0x1_0000 {
      WrapBreaks(c);
    } else {
      forall steps
        ensures Safe(c, Exec(c, steps))
      {
        ExecInv(c, steps);
        InvIsSafe(c, Exec(c, steps));
      }
    }
  }
}
