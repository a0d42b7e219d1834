/** listener.c between taking and giving back the mutex: the loops over the client slots, which
    send through the sockets of pscmsg.c. Every call is a run of the broadcast's steps. */
module PscServer {
  import opened Words
  import opened PscMsg
  import opened PscRecv
  import opened PscSocket
  import opened Broadcast
  import opened BroadcastRuns

  ghost predicate Reachable(s: State) {
    exists steps :: Run(steps) == s
  }

  lemma ReachableStep(s: State, a: Step)
    requires Reachable(s)
    ensures Reachable(Apply(s, a))
  {
    hide Apply;
    var steps :| Run(steps) == s;
    assert (steps + [a])[..|steps|] == steps;
    assert Run(steps + [a]) == Apply(s, a);
  }

  lemma ReachableInv(s: State)
    requires Reachable(s)
    ensures Inv(s)
  {
    var steps :| Run(steps) == s;
    RunKeeps(steps);
  }

  /** A run of the broadcast leads from s to t. */
  ghost predicate Leads(s: State, t: State) {
    exists steps :: Go(s, steps) == t
  }

  lemma LeadsStep(s: State, t: State, a: Step)
    requires Leads(s, t)
    ensures Leads(s, Apply(t, a))
  {
    hide Apply;
    var steps :| Go(s, steps) == t;
    GoStep(s, steps, a);
  }

  lemma LeadsNowhere(s: State)
    ensures Leads(s, s)
  {
    assert Go(s, []) == s;
  }

  lemma LeadsOn(s: State, t: State, u: State)
    requires Leads(s, t) && Leads(t, u)
    ensures Leads(s, u)
  {
    var a :| Go(s, a) == t;
    var b :| Go(t, b) == u;
    GoOn(s, a, b);
  }

  /** A step of the holder that sends nothing. */
  lemma Moves(s0: State, s: State, a: Step)
    requires Leads(s0, s) && Reachable(s) && Enabled(s, a) && (a.LockAll? || a.LockOne? || a.PassOver? || a.Unlock?)
    ensures var t := Apply(s, a);
            && Leads(s0, t) && Reachable(t) && t.slots == s.slots && t.conns == s.conns
            && t.log == (if a.LockAll? then s.log + [a.m] else s.log)
            && t.holder == match a
                           case LockAll(m) => ToAll(m, 0, 0)
                           case LockOne(i, m) => ToOne(m, i, 0)
                           case PassOver => Advance(s)
                           case _ => Nobody
  {
    LeadsStep(s0, s, a);
    ReachableStep(s, a);
    hide Leads, Reachable;
  }

  /** After a call of psc_sendmsg that has sent k bytes of the frame. */
  function AfterServe(s: State, k: nat, ok: bool): State {
    var t := if k > 0 then Apply(s, SendSome(k)) else s;
    if ok then t else Apply(t, SendFails)
  }

  lemma ServeIsSteps(s: State, k: nat, ok: bool)
    requires Reachable(s)
    ensures Leads(s, AfterServe(s, k, ok)) && Reachable(AfterServe(s, k, ok))
  {
    hide Apply, Reachable, Leads;
    var t := if k > 0 then Apply(s, SendSome(k)) else s;
    LeadsNowhere(s);
    if k > 0 {
      LeadsStep(s, s, SendSome(k));
      ReachableStep(s, SendSome(k));
    }
    LeadsStep(s, t, SendFails);
    ReachableStep(t, SendFails);
  }

  lemma ServeEffect(s: State, i: nat, m: Message, k: nat, ok: bool)
    requires Reachable(s) && IsLive(s, i) && s.slots[i].conn < |s.conns| && Sendable(m)
    requires s.holder != Nobody && s.holder.m == m && s.holder.at == i && s.holder.off == 0
    requires k <= |Frame(m)| && (ok <==> k == |Frame(m)|)
    ensures var t, c := AfterServe(s, k, ok), s.slots[i].conn;
            && Leads(s, t) && Reachable(t)
            && t.log == s.log && t.holder == Advance(s) && |t.conns| == |s.conns|
            && t.slots == s.slots[i := Used(c, ok)]
            && t.conns[c].wire == s.conns[c].wire + Frame(m)[..k]
            && (forall d :: 0 <= d < |s.conns| && d != c ==> t.conns[d] == s.conns[d])
  {
    ServeIsSteps(s, k, ok);
    FrameLong(m);
    assert Frame(m)[0..k] == Frame(m)[..k];
    hide Frame, Reachable, Leads;
  }

  /** What one attempt to send `m` leaves of a slot with socket `was`: the whole frame on its stream,
      or a strict prefix of it and no socket. */
  ghost predicate Served(m: Message, was: Socket, now: Socket?, before: seq<byte>, after: seq<byte>)
    requires Sendable(m)
  {
    && before <= after <= before + Frame(m)
    && (now == was || now == null)
    && (now == was <==> after == before + Frame(m))
  }

  /** The slots of the clients array: which are used, and their sockets, null standing for the -1
      after a send error. `state` is where the broadcast is, and `socks` the socket of each
      connection there has ever been. */
  class Server {
    const used: array<bool>
    const sock: array<Socket?>
    ghost var state: State
    ghost var socks: seq<Socket>

    /** The arrays show the slots, the sockets the bytes of the broadcast's connections. */
    ghost predicate Shows()
      reads this, used, sock, socks
    {
      && used.Length == sock.Length == 4 == |state.slots| && |socks| == |state.conns|
      && (forall c :: 0 <= c < |socks| ==> socks[c].sent == state.conns[c].wire)
      && (forall c, d :: 0 <= c < d < |socks| ==> socks[c] != socks[d])
      && (forall i :: 0 <= i < 4 ==> used[i] == state.slots[i].Used?)
      && (forall i :: 0 <= i < 4 && used[i] ==>
            state.slots[i].conn < |socks| && sock[i] == if state.slots[i].open then socks[state.slots[i].conn] else null)
    }

    ghost predicate Valid()
      reads this, used, sock, socks
    {
      Shows() && state.holder.Nobody? && Reachable(state)
    }

    /** This slot is served by psc_send. */
    ghost predicate Live(i: nat)
      requires i < used.Length == sock.Length
      reads this, used, sock
    {
      used[i] && sock[i] != null
    }

    constructor ()
      ensures Valid() && fresh(used) && fresh(sock) && state == Start() && socks == []
      ensures forall i :: 0 <= i < 4 ==> !used[i]
    {
      used := new bool[4](_ => false);
      sock := new Socket?[4](_ => null);
      state, socks := Start(), [];
      new;
      assert Run([]) == Start();
    }

    /** psc_client_alloc and the assignment of the new socket: the lowest unused slot, or none. */
    method Alloc(client: Socket) returns (slot: int)
      requires Valid() && client !in socks && client.sent == []
      modifies this, used, sock
      ensures Valid()
      ensures state == Apply(old(state), Accept)
      ensures slot == -1 ==> (forall i :: 0 <= i < 4 ==> old(used[i]))
                             && used[..] == old(used[..]) && sock[..] == old(sock[..]) && socks == old(socks)
      ensures slot != -1 ==>
                && 0 <= slot < 4 && !old(used[slot]) && (forall i :: 0 <= i < slot ==> old(used[i]))
                && used[..] == old(used[..])[slot := true] && sock[..] == old(sock[..])[slot := client]
                && socks == old(socks) + [client]
    {
      ReachableStep(state, Accept);
      for i := 0 to 4
        invariant forall j :: 0 <= j < i ==> used[j]
        invariant used[..] == old(used[..]) && sock[..] == old(sock[..])
        invariant state == old(state) && socks == old(socks) && Valid()
        invariant FirstUnused(state.slots, i) == FirstUnused(state.slots, 0)
      {
        if used[i] {
          continue;
        }
        used[i] := true;
        sock[i] := client;
        state := Apply(state, Accept);
        socks := socks + [client];
        return i;
      }
      slot := -1;
    }

    /** psc_client_free. */
    method Free(slot: nat)
      requires Valid() && slot < 4
      modifies this, used, sock
      ensures Valid()
      ensures state == Apply(old(state), Release(slot)) && socks == old(socks)
      ensures used[..] == old(used[..])[slot := false] && sock[..] == old(sock[..])[slot := null]
    {
      ReachableStep(state, Release(slot));
      used[slot] := false;
      sock[slot] := null;
      state := Apply(state, Release(slot));
    }
  
    /** The sockets of the live slots. */
    ghost function Open(): set<Socket>
      requires used.Length == sock.Length
      reads this, used, sock
    {
      set i | 0 <= i < used.Length && Live(i) :: sock[i]
    }

    /** The socket of one slot. */
    ghost function At(i: nat): set<Socket>
      requires i < used.Length == sock.Length
      reads this, used, sock
    {
      if Live(i) then {sock[i]} else {}
    }

    /** The holder of the mutex is about to send to slot i. */
    ghost predicate Serving(i: nat, m: Message)
      reads this
    {
      state.holder != Nobody && state.holder.m == m && state.holder.at == i && state.holder.off == 0
    }

    /** psc_sendmsg on a slot's socket, with what psc_send and psc_send_one do on an error. */
    method Serve(i: nat, m: Message)
      requires Shows() && Reachable(state) && Sendable(m) && i < 4 && Live(i) && Serving(i, m)
      modifies this`state, sock, At(i)`sent
      ensures Shows() && Reachable(state) && Leads(old(state), state)
      ensures state.holder == Advance(old(state)) && state.log == old(state.log)
      ensures Served(m, old(sock[i]), sock[i], old(sock[i].sent), old(sock[i]).sent)
      ensures forall j :: 0 <= j < 4 && j != i ==> sock[j] == old(sock[j])
    {
      ghost var before, was := sock[i].sent, sock[i];
      ReachableInv(state);
      FrameLong(m);
      var status := SendMsg(sock[i], m);
      ghost var k := |was.sent| - |before|;
      assert was.sent == before + Frame(m)[..k];
      hide Frame, Inv, Apply, Reachable, Leads;
      ServeEffect(state, i, m, k, status.Ok?);
      if !status.Ok? {
        sock[i] := null;
      }
      state := AfterServe(state, k, status.Ok?);
    }
  
    /** The holder of the mutex moves on without sending. */
    ghost method Move(from: State, a: Step)
      requires Shows() && Leads(from, state) && Reachable(state)
      requires Enabled(state, a) && (a.LockAll? || a.LockOne? || a.PassOver? || a.Unlock?)
      modifies this`state
      ensures Shows() && Leads(from, state) && Reachable(state)
      ensures state.slots == old(state.slots) && state.log == if a.LockAll? then old(state.log) + [a.m] else old(state.log)
      ensures state.holder == match a
                              case LockAll(m) => ToAll(m, 0, 0)
                              case LockOne(i, m) => ToOne(m, i, 0)
                              case PassOver => Advance(old(state))
                              case _ => Nobody
    {
      hide Leads, Reachable;
      Moves(from, state, a);
      hide Apply, Enabled;
      state := Apply(state, a);
    }

    /** Live slots have different sockets. */
    lemma LiveDistinct()
      requires Shows() && Reachable(state)
      ensures forall i, j :: 0 <= i < j < 4 && Live(i) && Live(j) ==> sock[i] != sock[j]
    {
      ReachableInv(state);
    }

    lemma NothingDue()
      requires Shows() && state.holder != Nobody && state.holder.at == 4
      ensures Enabled(state, Unlock)
    {
    }

    /** What psc_send and psc_send_one do at slot i: nothing if it is not live. */
    method ServeSlot(i: nat, m: Message)
      requires Shows() && Reachable(state) && Sendable(m) && i < 4 && Serving(i, m)
      modifies this`state, sock, At(i)`sent
      ensures Shows() && Reachable(state) && Leads(old(state), state)
      ensures state.holder == Advance(old(state)) && state.log == old(state.log)
      ensures if old(Live(i)) then Served(m, old(sock[i]), sock[i], old(sock[i].sent), old(sock[i]).sent)
              else sock[i] == old(sock[i])
      ensures forall j :: 0 <= j < 4 && j != i ==> sock[j] == old(sock[j])
    {
      if used[i] && sock[i] != null {
        Serve(i, m);
      } else {
        hide Apply, Reachable, Leads;
        LeadsNowhere(state);
        Move(state, PassOver);
      }
    }

    /** The loop of psc_send. */
    method ServeAll(m: Message)
      requires Shows() && Reachable(state) && Sendable(m) && Serving(0, m) && state.holder.ToAll?
      modifies this`state, sock, Open()`sent
      ensures Shows() && Reachable(state) && Leads(old(state), state)
      ensures state.holder == ToAll(m, 4, 0) && state.log == old(state.log)
      ensures forall i :: 0 <= i < 4 ==>
                if old(Live(i)) then Served(m, old(sock[i]), sock[i], old(sock[i].sent), old(sock[i]).sent)
                else sock[i] == old(sock[i])
    {
      LiveDistinct();
      assert used.Length == sock.Length == 4;
      LeadsNowhere(state);
      hide Apply, Frame, Reachable, Leads, Shows, Served, Enabled;
      for idx := 0 to 4
        invariant Shows() && Reachable(state) && Leads(old(state), state)
        invariant state.holder == ToAll(m, idx, 0) && state.log == old(state.log)
        invariant forall j :: 0 <= j < idx ==>
                    if old(Live(j)) then Served(m, old(sock[j]), sock[j], old(sock[j].sent), old(sock[j]).sent)
                    else sock[j] == old(sock[j])
        invariant forall j :: idx <= j < 4 ==> sock[j] == old(sock[j])
        invariant forall j :: idx <= j < 4 && old(Live(j)) ==> old(sock[j]).sent == old(sock[j].sent)
      {
        assert Live(idx) ==> sock[idx] in old(Open());
        ghost var before := state;
        ServeSlot(idx, m);
        LeadsOn(old(state), before, state);
      }
    }

    /** psc_send: every live slot is served exactly once, nothing else is touched. */
    method Send(m: Message)
      requires Valid() && Sendable(m)
      modifies this`state, sock, Open()`sent
      ensures Valid()
      ensures Leads(old(state), state) && state.log == old(state.log) + [m]
      ensures forall i :: 0 <= i < 4 ==>
                if old(Live(i)) then Served(m, old(sock[i]), sock[i], old(sock[i].sent), old(sock[i]).sent)
                else sock[i] == old(sock[i])
    {
      hide Apply, Frame, Reachable, Leads, Served;
      LeadsNowhere(state);
      Move(state, LockAll(m));
      ghost var before := state;
      ServeAll(m);
      LeadsOn(old(state), before, state);
      NothingDue();
      Move(old(state), Unlock);
    }

    /** psc_send_one. */
    method SendOne(i: nat, m: Message)
      requires Valid() && Sendable(m) && i < 4 && used[i]
      modifies this`state, sock, At(i)`sent
      ensures Valid()
      ensures Leads(old(state), state) && state.log == old(state.log)
      ensures if old(Live(i)) then Served(m, old(sock[i]), sock[i], old(sock[i].sent), old(sock[i]).sent)
              else sock[i] == old(sock[i])
      ensures forall j :: 0 <= j < 4 && j != i ==> sock[j] == old(sock[j])
    {
      hide Apply, Frame, Reachable, Leads;
      LeadsNowhere(state);
      Move(state, LockOne(i, m));
      ghost var before := state;
      ServeSlot(i, m);
      LeadsOn(old(state), before, state);
      Move(old(state), Unlock);
    }
  }

  /** So what holds of every interleaving holds of the sockets: between any two calls each connection
      there has ever been has got whole frames and at most one cut off, and the sockets of live slots
      have got whole frames only. */
  lemma SocketsAreFrames(server: Server)
    requires server.Valid()
    ensures forall c :: 0 <= c < |server.socks| ==>
              StreamOk(server.state.log, server.state.conns[c]) && server.socks[c].sent == server.state.conns[c].wire
    ensures forall i :: 0 <= i < 4 && server.Live(i) ==> WholeFrames(server.sock[i].sent)
  {
    hide Run, StreamOk;
    var s := server.state;
    FramesIn(s);
    forall i | 0 <= i < 4 && server.Live(i)
      ensures WholeFrames(server.sock[i].sent)
    {
      var c := s.slots[i].conn;
      assert IsLive(s, i) && server.sock[i] == server.socks[c];
      WholeStream(s.log, s.conns[c]);
    }
  }

  /** Frames of messages, one after the other. */
  ghost predicate WholeFrames(wire: seq<byte>) {
    exists ms :: AllSendable(ms) && wire == FrameAll(ms)
  }

  lemma FramesIn(s: State)
    requires Reachable(s) && s.holder.Nobody?
    ensures forall c :: 0 <= c < |s.conns| ==> StreamOk(s.log, s.conns[c])
    ensures forall i :: 0 <= i < |s.slots| && IsLive(s, i) ==>
              s.slots[i].conn < |s.conns| && s.conns[s.slots[i].conn].tail == []
  {
    var steps :| Run(steps) == s;
    StreamsAreFrames(steps);
    hide Run, StreamOk;
    forall c | 0 <= c < |s.conns|
      ensures StreamOk(s.log, s.conns[c])
    {
      assert s.conns[c] in s.conns;
    }
  }

  lemma WholeStream(log: seq<Message>, c: Conn)
    requires StreamOk(log, c) && c.tail == []
    ensures WholeFrames(c.wire)
  {
    var ms := Bodies(log, c.items);
    assert FrameAll(ms) + [] == FrameAll(ms);
  }
}
