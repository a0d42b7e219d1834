/** What holds of the TFTP session in every reachable state, whoever sends what and whatever
    the allocator, the card and the timer do. */
module TftpSession {
  import opened Words
  import opened Tftp

  datatype Event =
    | Arrives(env: Env, d: Datagram, chain: seq<seq<byte>>, addr: nat, port: u16)
    | Fires(env: Env)

  predicate Possible(s: Session, e: Event) {
    e.Fires? ==> s.timers >= 1
  }

  function Handle(s: Session, e: Event): Result
    requires Possible(s, e)
  {
    match e
    case Arrives(env, d, chain, addr, port) => Recv(s, env, d, chain, addr, port)
    case Fires(env) => Tick(s, env)
  }

  /** The session after an event; one that cannot happen changes nothing. */
  function After(s: Session, e: Event): Session {
    if Possible(s, e) then Handle(s, e).session else s
  }

  /** A run of the server from `s`. */
  function Run(s: Session, events: seq<Event>): Session
    decreases |events|
  {
    if events == [] then s else Run(After(s, events[0]), events[1..])
  }

  ghost predicate SessionInv(s: Session) {
    && s.pos <= |s.disk|
    && s.retries <= MAX_RETRIES
    && s.lastPkt <= s.timer
    && (!s.open ==> s.retained.None? && s.addr == 0 && s.port == 0)
    && (s.open ==> s.timers >= 1 && s.timer - s.lastPkt <= TIMEOUT_TICKS + MAX_RETRIES)
    && (s.open && s.modeWrite ==> s.retained.None?)
    && (s.retained.Some? ==> s.retained.value.num == s.blknum && |s.retained.value.payload| <= PAYLOAD)
    && (s.open && s.timer - s.lastPkt > TIMEOUT_TICKS ==> s.timer - s.lastPkt == TIMEOUT_TICKS + s.retries)
    && (s.open && s.timer - s.lastPkt <= TIMEOUT_TICKS ==> s.retries == 0)
  }

  lemma TickKeepsInv(s: Session, env: Env)
    requires SessionInv(s) && s.timers >= 1
    ensures SessionInv(Tick(s, env).session)
  {
    hide ResendData;
  }

  lemma RecvKeepsInv(s: Session, env: Env, d: Datagram, chain: seq<seq<byte>>, addr: nat, port: u16)
    requires SessionInv(s)
    ensures SessionInv(Recv(s, env, d, chain, addr, port).session)
  {
    hide ParseRequest, WriteChain, Flatten, ResendData, SendError, SendAck;
  }

  lemma HandleKeepsInv(s: Session, e: Event)
    requires SessionInv(s) && Possible(s, e)
    ensures SessionInv(Handle(s, e).session)
  {
    hide SessionInv, Recv, Tick;
    match e {
      case Arrives(env, d, chain, addr, port) => RecvKeepsInv(s, env, d, chain, addr, port);
      case Fires(env) => TickKeepsInv(s, env);
    }
  }

  /** Every reachable session: no handle means no retained block and no peer; an open handle
      always has a pending timer, even after failed opens and nested closes. */
  lemma {:induction false} Reachable(s: Session, events: seq<Event>)
    requires SessionInv(s)
    ensures SessionInv(Run(s, events))
    decreases |events|
  {
    if events != [] {
      if Possible(s, events[0]) {
        HandleKeepsInv(s, events[0]);
      }
      Reachable(After(s, events[0]), events[1..]);
    }
  }

  lemma ReachableFromInit(disk: seq<byte>, events: seq<Event>)
    ensures SessionInv(Run(Init(disk), events))
  {
    Reachable(Init(disk), events);
  }

  /** Nobody but the peer can touch an open session, exactly when the peer's address and port
      are both non-zero: the code reads a zero in either field as "no peer yet". */
  ghost predicate PeerOnly(s: Session) {
    forall env, d, chain, addr: nat, port: u16 ::
      (addr, port) != (s.addr, s.port) ==> Recv(s, env, d, chain, addr, port).session == s
  }

  lemma PeerOnlyExact(s: Session)
    requires SessionInv(s) && s.open
    ensures PeerOnly(s) <==> s.addr != 0 && s.port != 0
  {
    if s.addr == 0 || s.port == 0 {
      var addr := if s.addr == 0 then 1 else s.addr;
      var port: u16 := if s.port == 0 then 1 else s.port;
      var env := Env(false, false, false, false, []);
      var d := if s.modeWrite then Data(s.blknum, []) else Ack(s.blknum);
      assert Recv(s, env, d, [], addr, port).session != s;
    }
  }

  /** The ERRORs of a wrong block number, of an opcode out of place and of a file that cannot be
      opened: when they go out, and that they go to the sender. */
  lemma ErrorsExact(s: Session, env: Env, d: Datagram, chain: seq<seq<byte>>, addr: nat, port: u16)
    requires env.sendAlloc
    ensures var foreign := (s.port != 0 && port != s.port) || (s.addr != 0 && addr != s.addr);
            var names := if d.Request? then ParseRequest(d.body) else BadName;
            var octet := names.Names? && names.mode == [0x6f, 0x63, 0x74, 0x65, 0x74];
            var out := Recv(s, env, d, chain, addr, port).out;
            && (out == [Sent(addr, port, Fault(UnknownTransferId))] <==>
                  !foreign && s.open && if s.modeWrite then d.Data? && d.num != s.blknum && (d.num + 1) % 0x1_0000 != s.blknum
                                        else d.Ack? && d.num != s.blknum)
            && (out == [Sent(addr, port, Fault(IllegalOperation))] <==> !foreign && (d.Fault? || d.Unknown?))
            && (out == [Sent(addr, port, Fault(FileNotFound))] <==>
                  !foreign && d.Request? && !s.open && names.Names? && !(octet && env.openOk))
  {
    hide ParseRequest, WriteChain, Flatten, Overwrite, Chunk, CloseHandle;
  }

  /** And the ERROR of an access that is not allowed or that fails on the card: for every session,
      sender and datagram. */
  lemma AccessErrorsExact(s: Session, env: Env, d: Datagram, chain: seq<seq<byte>>, addr: nat, port: u16)
    requires env.sendAlloc
    ensures chain[0..] == chain
    ensures var foreign := (s.port != 0 && port != s.port) || (s.addr != 0 && addr != s.addr);
            var names := if d.Request? then ParseRequest(d.body) else BadName;
            var opens := !s.open && names.Names? && names.mode == [0x6f, 0x63, 0x74, 0x65, 0x74] && env.openOk;
            var readFails := env.dataAlloc && !env.readOk;
            Recv(s, env, d, chain, addr, port).out == [Sent(addr, port, Fault(AccessViolation))] <==>
              || foreign
              || (d.Request? && (s.open || !names.Names? || (opens && !d.write && readFails)))
              || (d.Data? && (!s.open || !s.modeWrite || (d.num == s.blknum && !WriteChain(chain, env.io, 0).1)))
              || (d.Ack? && (!s.open || s.modeWrite))
              || (d.Ack? && d.num == s.blknum && !LastBlock(s) && readFails && addr == s.addr && port == s.port)
  {
    assert chain[0..] == chain;
    hide ParseRequest, WriteChain, Flatten, Overwrite, Chunk, CloseHandle;
  }

  predicate IsData(o: Sent) {
    o.datagram.Data?
  }

  /** An ACK that does not carry the current block number sends no data and moves nothing. */
  lemma StaleAck(s: Session, env: Env, num: u16, addr: nat, port: u16)
    requires num != s.blknum
    ensures var r := Recv(s, env, Ack(num), [], addr, port);
            && (forall o <- r.out :: !IsData(o))
            && r.session.(lastPkt := s.lastPkt, retries := s.retries) == s
  {
  }

  // ---- duplicate ACKs ----

  /** The session is open in every state of the run. */
  ghost predicate StaysOpen(s: Session, events: seq<Event>)
    decreases |events|
  {
    s.open && (events != [] ==> StaysOpen(After(s, events[0]), events[1..]))
  }

  /** How many events of the run give the session another block number. */
  function Moves(s: Session, events: seq<Event>): nat
    decreases |events|
  {
    if events == [] then 0
    else (if After(s, events[0]).blknum != s.blknum then 1 else 0) + Moves(After(s, events[0]), events[1..])
  }

  /** While a read session stays open, an event leaves its number and its peer or counts the number up by one. */
  lemma OpenStep(s: Session, e: Event)
    requires s.open && !s.modeWrite && After(s, e).open
    ensures var s' := After(s, e);
            && !s'.modeWrite && s'.addr == s.addr && s'.port == s.port
            && (s'.blknum == s.blknum || s'.blknum == Succ16(s.blknum))
  {
    hide ParseRequest, WriteChain, Flatten, ResendData, SendError, SendAck;
  }

  lemma {:induction false} OpenRun(s: Session, events: seq<Event>)
    requires !s.modeWrite && StaysOpen(s, events)
    ensures var s' := Run(s, events);
            && s'.open && !s'.modeWrite && s'.addr == s.addr && s'.port == s.port
            && s'.blknum == (s.blknum + Moves(s, events)) % 0x1_0000
    decreases |events|
  {
    hide Recv, Tick, Handle, After;
    if events != [] {
      var s' := After(s, events[0]);
      StillOpen(s', events[1..]);
      OpenStep(s, events[0]);
      OpenRun(s', events[1..]);
      CountOn(s.blknum, s'.blknum, Moves(s', events[1..]));
    }
  }

  lemma StillOpen(s: Session, events: seq<Event>)
    requires StaysOpen(s, events)
    ensures s.open
  {
  }

  lemma CountOn(n: u16, n': u16, moves: nat)
    requires n' == n || n' == Succ16(n)
    ensures (n' + moves) % 0x1_0000 == (n + (if n' != n then 1 else 0) + moves) % 0x1_0000
  {
  }

  /** No ACK `num` makes the server send data, whoever sends it and whatever can be allocated and read. */
  ghost predicate Silent(s: Session, num: u16) {
    forall env, addr: nat, port: u16 :: forall o <- Recv(s, env, Ack(num), [], addr, port).out :: !IsData(o)
  }

  lemma SilentExact(s: Session, num: u16)
    requires s.open && !s.modeWrite
    ensures Silent(s, num) <==> num != s.blknum || LastBlock(s)
  {
    if num == s.blknum && !LastBlock(s) {
      var env := Env(true, true, true, true, []);
      var out := Recv(s, env, Ack(num), [], s.addr, s.port).out;
      assert |out| == 1 && IsData(out[0]);
      assert out[0] in out;
    }
  }

  /** The sorcerer's apprentice rule: after an ACK that advanced the session, whatever arrives and
      however often the timer runs while the session stays open, the ACK's duplicate causes no data to be sent,
      except when the number has meanwhile come round to it again: after 65535, 131071, ... moves. */
  lemma DuplicateAckSilent(s: Session, env: Env, events: seq<Event>)
    requires s.open && !s.modeWrite
    requires StaysOpen(Recv(s, env, Ack(s.blknum), [], s.addr, s.port).session, events)
    ensures var s1 := Recv(s, env, Ack(s.blknum), [], s.addr, s.port).session;
            var s2 := Run(s1, events);
            && (Silent(s2, s.blknum) <==> Moves(s1, events) % 0x1_0000 != 0xFFFF || LastBlock(s2))
            && (Moves(s1, events) < 0xFFFF ==> Silent(s2, s.blknum))
  {
    hide *;
    var s1 := Recv(s, env, Ack(s.blknum), [], s.addr, s.port).session;
    StillOpen(s1, events);
    AckMoves(s, env);
    OpenRun(s1, events);
    SilentExact(Run(s1, events), s.blknum);
    ComesRound(s.blknum, Moves(s1, events));
  }

  lemma AckMoves(s: Session, env: Env)
    requires s.open && !s.modeWrite
    ensures var s1 := Recv(s, env, Ack(s.blknum), [], s.addr, s.port).session;
            s1.open ==> !s1.modeWrite && s1.blknum == Succ16(s.blknum)
  {
    hide ResendData, SendError;
  }

  lemma ComesRound(n: u16, moves: nat)
    ensures (Succ16(n) + moves) % 0x1_0000 == n <==> moves % 0x1_0000 == 0xFFFF
  {
  }

  /** A session that has closed and opened again counts from 1, so an ACK of the earlier session can move it on:
      here the reader has the whole file, asks for it again, and a duplicate of its old first ACK sends block 2. */
  lemma ReopeningRevivesAck(disk: seq<byte>, body: seq<byte>, name: seq<byte>, addr: nat, port: u16)
    requires PAYLOAD <= |disk| < 2 * PAYLOAD && WellFormedRequest(body, name, OCTET)
    ensures var env := Env(true, true, true, true, []);
            var request := Arrives(env, Request(false, body), [], addr, port);
            var events := [request, Arrives(env, Ack(1), [], addr, port), Arrives(env, Ack(2), [], addr, port), request];
            !Silent(Run(Init(disk), events), 1)
  {
    ParseRequestExact(body, name, OCTET);
    hide ParseRequest;
    var env := Env(true, true, true, true, []);
    var request := Arrives(env, Request(false, body), [], addr, port);
    var ack1, ack2 := Arrives(env, Ack(1), [], addr, port), Arrives(env, Ack(2), [], addr, port);
    var events := [request, ack1, ack2, request];
    var s1 := After(Init(disk), request);
    assert s1.open && s1.blknum == 1 && !LastBlock(s1);
    var s2 := After(s1, ack1);
    assert s2.open && s2.blknum == 2 && LastBlock(s2);
    var s3 := After(s2, ack2);
    assert !s3.open && s3.disk == disk && s3.port == 0 && s3.addr == 0;
    var s4 := After(s3, request);
    assert s4.open && s4.blknum == 1 && !LastBlock(s4);
    RunFour(Init(disk), request, ack1, ack2, request);
    SilentExact(s4, 1);
  }

  lemma RunFour(s: Session, a: Event, b: Event, c: Event, d: Event)
    ensures Run(s, [a, b, c, d]) == After(After(After(After(s, a), b), c), d)
  {
    hide After;
    var s1, s2, s3 := After(s, a), After(After(s, a), b), After(After(After(s, a), b), c);
    assert [a, b, c, d][1..] == [b, c, d] && [b, c, d][1..] == [c, d] && [c, d][1..] == [d] && [d][1..] == [];
    assert Run(s, [a, b, c, d]) == Run(s1, [b, c, d]);
    assert Run(s1, [b, c, d]) == Run(s2, [c, d]);
    assert Run(s2, [c, d]) == Run(s3, [d]);
    assert Run(s3, [d]) == Run(After(s3, d), []);
  }

  // ---- timer entries ----

  /** One pending timer entry for an open session and none otherwise. */
  predicate Tidy(s: Session) {
    s.timers == if s.open then 1 else 0
  }

  /** A request at a server without a session that does not open one. */
  predicate Refused(s: Session, e: Event) {
    e.Arrives? && e.d.Request? && !s.open
    && !(e.env.openOk && ParseRequest(e.d.body).Names? && ParseRequest(e.d.body).mode == [0x6f, 0x63, 0x74, 0x65, 0x74])
  }

  /** The timer is armed before the request is looked at: an entry is left over exactly when a
      request is refused. Everything else, double closes included, leaves as many as there should be. */
  lemma TidyExact(s: Session, e: Event)
    requires SessionInv(s) && Tidy(s) && Possible(s, e)
    ensures Tidy(Handle(s, e).session) <==> !Refused(s, e)
  {
    hide ParseRequest, WriteChain, Flatten, ResendData, SendError, SendAck, Overwrite, Chunk;
  }

  ghost predicate NoneRefused(s: Session, events: seq<Event>)
    decreases |events|
  {
    events != [] ==> !Refused(s, events[0]) && NoneRefused(After(s, events[0]), events[1..])
  }

  lemma {:induction false} TidyRun(s: Session, events: seq<Event>)
    requires SessionInv(s) && Tidy(s) && NoneRefused(s, events)
    ensures Tidy(Run(s, events))
    decreases |events|
  {
    hide Handle, SessionInv, Tidy, Refused;
    if events != [] {
      if Possible(s, events[0]) {
        HandleKeepsInv(s, events[0]);
        TidyExact(s, events[0]);
      }
      TidyRun(After(s, events[0]), events[1..]);
    }
  }

  // ---- timeouts ----

  /** The timer entries fire once per element of `envs`, as long as one is pending. */
  function FireAll(s: Session, envs: seq<Env>): Session
    decreases |envs|
  {
    if envs == [] || s.timers == 0 then s else FireAll(Tick(s, envs[0]).session, envs[1..])
  }

  /** The datagrams those timer calls send. */
  function FireOut(s: Session, envs: seq<Env>): seq<Sent>
    decreases |envs|
  {
    if envs == [] || s.timers == 0 then []
    else Tick(s, envs[0]).out + FireOut(Tick(s, envs[0]).session, envs[1..])
  }

  /** One retransmission attempt per environment. */
  function Resends(s: Session, envs: seq<Env>): seq<Sent> {
    if envs == [] then [] else ResendData(s, envs[0]) + Resends(s, envs[1..])
  }

  lemma {:induction false} ResendsSame(s: Session, t: Session, envs: seq<Env>)
    requires s.retained == t.retained && s.addr == t.addr && s.port == t.port
    ensures Resends(s, envs) == Resends(t, envs)
  {
    if envs != [] {
      ResendsSame(s, t, envs[1..]);
    }
  }

  /** Where the session is `k` ticks after the last accepted packet. */
  ghost predicate Waiting(s: Session, k: nat) {
    && SessionInv(s) && s.open
    && s.timer - s.lastPkt == k
    && s.retries == (if k <= TIMEOUT_TICKS then 0 else k - TIMEOUT_TICKS)
  }

  /** Ticks before the server gives up: 16 with a retained block, 11 without. */
  function GiveUp(s: Session): nat {
    TIMEOUT_TICKS + 1 + if s.retained.Some? then MAX_RETRIES else 0
  }

  /** One timer call before the last. */
  lemma OneTick(s: Session, k: nat, env: Env)
    requires Waiting(s, k) && k + 1 < GiveUp(s)
    ensures var r := Tick(s, env);
            && Waiting(r.session, k + 1) && GiveUp(r.session) == GiveUp(s)
            && r.session == s.(timer := s.timer + 1, retries := if k < TIMEOUT_TICKS then 0 else k + 1 - TIMEOUT_TICKS)
            && r.out == if k < TIMEOUT_TICKS then [] else ResendData(s, env)
  {
  }

  lemma {:induction false} WaitOn(s: Session, k: nat, envs: seq<Env>)
    requires Waiting(s, k) && k + |envs| < GiveUp(s)
    ensures var n := k + |envs|;
            && FireAll(s, envs) == s.(timer := s.timer + |envs|, retries := if n <= TIMEOUT_TICKS then 0 else n - TIMEOUT_TICKS)
            && FireOut(s, envs) == Resends(s, envs[Min(Max(TIMEOUT_TICKS - k, 0), |envs|)..])
    decreases |envs|
  {
    if envs != [] {
      hide Tick, GiveUp, SessionInv, ResendData;
      OneTick(s, k, envs[0]);
      var s' := Tick(s, envs[0]).session;
      WaitOn(s', k + 1, envs[1..]);
      if k < TIMEOUT_TICKS {
        var c := Min(TIMEOUT_TICKS - k, |envs|);
        assert envs[1..][c - 1..] == envs[c..];
        ResendsSame(s, s', envs[c..]);
      } else {
        assert envs[0..] == envs && envs[1..][0..] == envs[1..];
        ResendsSame(s, s', envs[1..]);
      }
    }
  }

  /** With no further accepted packet, an open session lives through every tick before the
      last one and is closed by it: the 16th tick after exactly 5 retransmission attempts
      when a block is retained, the 11th otherwise. */
  lemma Abandonment(s: Session, envs: seq<Env>)
    requires SessionInv(s) && s.open && s.lastPkt == s.timer
    requires |envs| == GiveUp(s)
    ensures GiveUp(s) == if s.retained.Some? then 16 else 11
    ensures forall n :: 0 <= n < |envs| ==> FireAll(s, envs[..n]).open
    ensures FireAll(s, envs) == CloseHandle(s.(timer := s.timer + |envs|, retries := |envs| - 11))
    ensures FireOut(s, envs) == Resends(s, envs[10..|envs| - 1])
  {
    var m := |envs| - 1;
    assert forall n :: 0 <= n <= m ==> FireAll(s, envs[..n]).open by {
      hide FireAll, FireOut;
      forall n | 0 <= n <= m
        ensures FireAll(s, envs[..n]).open
      {
        WaitOn(s, 0, envs[..n]);
      }
    }
    hide FireAll, FireOut, Resends;
    WaitOn(s, 0, envs[..m]);
    var last := FireAll(s, envs[..m]);
    assert envs == envs[..m] + [envs[m]];
    FireAllSplit(s, envs[..m], [envs[m]]);
    LastTick(last, envs[m]);
    assert envs[..m][10..] == envs[10..m];
  }

  /** The tick on which the server gives up. */
  lemma LastTick(s: Session, env: Env)
    requires SessionInv(s) && s.open && s.timer - s.lastPkt + 1 == GiveUp(s)
    ensures FireAll(s, [env]) == CloseHandle(s.(timer := s.timer + 1)) && FireOut(s, [env]) == []
  {
    hide ResendData;
    assert FireAll(s, [env]) == FireAll(Tick(s, env).session, []);
    assert FireOut(s, [env]) == Tick(s, env).out + FireOut(Tick(s, env).session, []);
  }

  lemma {:induction false} FireAllSplit(s: Session, a: seq<Env>, b: seq<Env>)
    ensures FireAll(s, a + b) == FireAll(FireAll(s, a), b)
    ensures FireOut(s, a + b) == FireOut(s, a) + FireOut(FireAll(s, a), b)
    decreases |a|
  {
    if a == [] {
      assert a + b == b;
    } else if s.timers != 0 {
      assert (a + b)[1..] == a[1..] + b;
      FireAllSplit(Tick(s, a[0]).session, a[1..], b);
    }
  }
}
