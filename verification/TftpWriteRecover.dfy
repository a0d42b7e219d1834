/** A TFTP write after losses: an ACK that is lost is sent again for the repeated block, and every
    reachable state, however many datagrams were lost and however often the server gave up, has a
    continuation in which the writer finishes. */
module TftpWriteRecover {
  import opened Words
  import opened Tftp
  import opened TftpSession
  import opened TftpNetwork
  import opened TftpWrite

  /** The run goes on from `y`. */
  function Continue(c: Config, y: Sys, steps: seq<Step>): Sys
    decreases |steps|
  {
    if steps == [] then y else Continue(c, Apply(c, y, steps[0]), steps[1..])
  }

  lemma {:induction false} ExecContinues(c: Config, steps: seq<Step>, more: seq<Step>)
    ensures Exec(c, steps + more) == Continue(c, Exec(c, steps), more)
    decreases |more|
  {
    hide Apply;
    if more == [] {
      assert steps + more == steps;
    } else {
      ExecAppend(c, steps, more[0]);
      ExecContinues(c, steps + [more[0]], more[1..]);
      assert steps + [more[0]] + more[1..] == steps + more;
    }
  }

  lemma {:induction false} ContinueOn(c: Config, y: Sys, a: seq<Step>, b: seq<Step>)
    ensures Continue(c, y, a + b) == Continue(c, Continue(c, y, a), b)
    decreases |a|
  {
    hide Apply;
    if a == [] {
      assert a + b == b;
    } else {
      assert (a + b)[1..] == a[1..] + b;
      ContinueOn(c, Apply(c, y, a[0]), a[1..], b);
    }
  }

  lemma ContinueOne(c: Config, y: Sys, a: Step)
    ensures Continue(c, y, [a]) == Apply(c, y, a)
  {
    hide Apply;
    assert Continue(c, y, [a]) == Continue(c, Apply(c, y, a), []);
  }

  /** The request and every block sent so far can be delivered again, and no block is stored that
      was not sent. */
  ghost predicate Kept(c: Config, y: Sys) {
    && Request(true, c.request) in y.toServer
    && (forall k :: 1 <= k <= y.writer.waiting ==> DataFor(c, k) in y.toServer)
    && y.stored <= y.writer.waiting
  }

  lemma KeptStep(c: Config, y: Sys, step: Step)
    requires Bounded(c) && Inv(c, y) && Kept(c, y)
    ensures Kept(c, Apply(c, y, step))
  {
    hide Recv, Tick, Overwrite, SessionInv, WriteChain, Flatten, Opens;
    if Enabled(c, y, step) && step.ToServer? && Accepts(y.server, step.d) {
      DueBlock(c, y, step.d);
    }
  }

  lemma {:induction false} ExecKept(c: Config, steps: seq<Step>)
    requires Bounded(c)
    ensures Kept(c, Exec(c, steps))
  {
    if steps != [] {
      hide Apply, Kept;
      ExecKept(c, steps[..|steps| - 1]);
      ExecInv(c, steps[..|steps| - 1]);
      KeptStep(c, Exec(c, steps[..|steps| - 1]), steps[|steps| - 1]);
    }
  }

  ghost predicate Good(c: Config, y: Sys) {
    Inv(c, y) && Kept(c, y)
  }

  lemma GoodStep(c: Config, y: Sys, step: Step)
    requires Bounded(c) && Good(c, y)
    ensures Good(c, Apply(c, y, step))
  {
    hide Apply, Inv, Kept;
    StepKeepsInv(c, y, step);
    KeptStep(c, y, step);
  }

  // ---- a lost ACK ----

  /** The block stored last arrives again: its ACK goes out again and nothing else moves. */
  lemma RepeatedBlock(c: Config, y: Sys, chain: seq<seq<byte>>, env: Env)
    requires Bounded(c) && Good(c, y) && y.server.open && y.blocks >= 1
    requires env.sendAlloc && Flatten(chain) == BlockAt(c.data, y.blocks)
    ensures var y' := Apply(c, y, ToServer(DataFor(c, y.blocks), chain, env));
            && y'.toWriter == y.toWriter + {Ack(Num(y.blocks))}
            && y'.server.open
            && y'.server.disk == y.server.disk && y'.server.pos == y.server.pos && y'.server.blknum == y.server.blknum
            && y' == y.(server := y'.server, toWriter := y'.toWriter)
  {
    hide Overwrite, WriteChain, BlockAt;
    assert DataFor(c, y.blocks) in y.toServer;
    OutgoingOne(c.addr, c.port, Sent(c.addr, c.port, Ack(Num(y.blocks))));
    assert Flatten(chain)[..0] == [];
    assert y.written + [] == y.written;
  }

  /** In every reachable state with an open session that has stored a block: the DATA stored last can
      be delivered again, and then, cut over pbufs in any way, it makes the server send its ACK again
      and leaves the file, the position and the block number as they are. */
  lemma LostAckIsRepeated(c: Config, steps: seq<Step>, chain: seq<seq<byte>>, env: Env)
    requires Bounded(c) && env.sendAlloc
    requires var y := Exec(c, steps);
             y.server.open && y.blocks >= 1 && Flatten(chain) == BlockAt(c.data, y.blocks)
    ensures var y := Exec(c, steps);
            var y' := Exec(c, steps + [ToServer(DataFor(c, y.blocks), chain, env)]);
            && Enabled(c, y, ToServer(DataFor(c, y.blocks), chain, env))
            && y'.toWriter == y.toWriter + {Ack(Num(y.blocks))} && y'.server.open
            && y'.server.disk == y.server.disk && y'.server.pos == y.server.pos && y'.server.blknum == y.server.blknum
            && y' == y.(server := y'.server, toWriter := y'.toWriter)
  {
    ExecInv(c, steps);
    ExecKept(c, steps);
    hide Apply, Exec, Inv, BlockAt;
    RepeatedBlock(c, Exec(c, steps), chain, env);
    ExecAppend(c, steps, ToServer(DataFor(c, Exec(c, steps).blocks), chain, env));
  }

  // ---- recovery ----

  /** DATA and ACKs only: the session is neither opened again nor timed out. */
  predicate SameSession(steps: seq<Step>) {
    forall a <- steps :: a.ToWriter? || (a.ToServer? && a.d.Data?)
  }

  function Deliver(c: Config, k: nat): Step {
    ToServer(DataFor(c, k), [BlockAt(c.data, k)], GOOD)
  }

  lemma WholeBlock(b: seq<byte>)
    ensures Flatten([b]) == b && WriteChain([b], [], 0) == (|b|, true) && [b][0..] == [b]
  {
    assert Flatten([b]) == [b][0] + Flatten([b][1..]);
    assert WriteChain([b], [], 1) == (0, true);
  }

  /** The next block is stored and acknowledged. */
  lemma NextBlock(c: Config, y: Sys)
    requires Bounded(c) && Good(c, y) && y.server.open && y.blocks < y.writer.waiting
    ensures var k := y.blocks + 1; var y' := Apply(c, y, Deliver(c, k));
            && Ack(Num(k)) in y'.toWriter && y'.writer == y.writer && y'.blocks == k
            && (k < Blocks(c.data) ==> y'.server.open)
  {
    var k, d := y.blocks + 1, DataFor(c, y.blocks + 1);
    assert d in y.toServer && y.server.blknum == k;
    BlockFacts(c.data, k);
    WholeBlock(BlockAt(c.data, k));
    OutgoingOne(c.addr, c.port, Sent(c.addr, c.port, Ack(Num(k))));
    hide Overwrite, WriteChain, BlockAt, Flatten, SessionInv;
  }

  /** The ACK the writer waits for arrives. */
  lemma AckArrives(c: Config, y: Sys)
    requires Ack(Num(y.writer.waiting)) in y.toWriter && !y.writer.done
    ensures var w, y' := y.writer.waiting, Apply(c, y, ToWriter(Ack(Num(y.writer.waiting))));
            && y'.server == y.server && y'.blocks == y.blocks
            && (w == Blocks(c.data) ==> y'.writer.done)
            && (w < Blocks(c.data) ==> y'.writer == Writer(w + 1, false))
  {
  }

  lemma Before(c: Config, y: Sys, a: Step, rest: seq<Step>) returns (more: seq<Step>)
    requires Continue(c, Apply(c, y, a), rest).writer.done
    ensures more == [a] + rest && Continue(c, y, more).writer.done
    ensures SameSession(rest) && (a.ToWriter? || (a.ToServer? && a.d.Data?)) ==> SameSession(more)
  {
    hide Apply;
    more := [a] + rest;
    assert more[1..] == rest;
  }

  /** With a block outstanding at an open session, DATA and ACKs lead to the end. */
  lemma {:induction false} FinishesOpen(c: Config, y: Sys) returns (more: seq<Step>)
    requires Bounded(c) && Good(c, y) && y.server.open && y.blocks < y.writer.waiting && !y.writer.done
    ensures Continue(c, y, more).writer.done && SameSession(more)
    decreases Blocks(c.data) - y.writer.waiting, y.writer.waiting - y.blocks
  {
    hide Apply, Inv, Kept, Continue, SameSession;
    InRange(c, y);
    var k, a := y.blocks + 1, Deliver(c, y.blocks + 1);
    var y1 := Apply(c, y, a);
    NextBlock(c, y);
    GoodStep(c, y, a);
    var rest;
    if k < y.writer.waiting {
      rest := FinishesOpen(c, y1);
    } else {
      rest := FinishesAcked(c, y1);
    }
    more := Before(c, y, a, rest);
  }

  lemma InRange(c: Config, y: Sys)
    requires Good(c, y)
    ensures y.writer.waiting <= Blocks(c.data) && y.blocks <= y.writer.waiting
    ensures y.server.open ==> y.blocks < Blocks(c.data)
  {
  }

  lemma {:induction false} FinishesAcked(c: Config, y: Sys) returns (more: seq<Step>)
    requires Bounded(c) && Good(c, y) && !y.writer.done
    requires Ack(Num(y.writer.waiting)) in y.toWriter && y.blocks == y.writer.waiting
    requires y.writer.waiting < Blocks(c.data) ==> y.server.open
    ensures Continue(c, y, more).writer.done && SameSession(more)
    decreases Blocks(c.data) - y.writer.waiting, 0
  {
    hide Apply, Inv, Kept, Continue, SameSession;
    InRange(c, y);
    var a := ToWriter(Ack(Num(y.writer.waiting)));
    AckArrives(c, y);
    GoodStep(c, y, a);
    var rest := [];
    if y.writer.waiting < Blocks(c.data) {
      rest := FinishesOpen(c, Apply(c, y, a));
    } else {
      Ended(c, Apply(c, y, a));
    }
    more := Before(c, y, a, rest);
  }

  lemma Ended(c: Config, y: Sys)
    ensures Continue(c, y, []) == y && SameSession([])
  {
  }

  /** Once the writer is past the request, an open session finishes without being opened again. */
  lemma FinishesInSession(c: Config, y: Sys) returns (more: seq<Step>)
    requires Bounded(c) && Good(c, y) && y.server.open && y.writer.waiting >= 1 && !y.writer.done
    ensures Continue(c, y, more).writer.done && SameSession(more)
  {
    InRange(c, y);
    if y.blocks < y.writer.waiting {
      more := FinishesOpen(c, y);
    } else {
      hide Apply, Inv, Kept, Continue, SameSession;
      var a := Deliver(c, y.blocks);
      WholeBlock(BlockAt(c.data, y.blocks));
      RepeatedBlock(c, y, [BlockAt(c.data, y.blocks)], GOOD);
      GoodStep(c, y, a);
      var rest := FinishesAcked(c, Apply(c, y, a));
      more := Before(c, y, a, rest);
    }
  }

  /** The request arrives at a closed server. */
  lemma Reopens(c: Config, y: Sys)
    requires Bounded(c) && Good(c, y) && !y.server.open
    ensures var y' := Apply(c, y, ToServer(Request(true, c.request), [], GOOD));
            y'.server.open && y'.blocks == 0 && y'.writer == y.writer && Ack(Num(0)) in y'.toWriter
  {
    var name :| WellFormedRequest(c.request, name, OCTET);
    ParseRequestExact(c.request, name, OCTET);
    OutgoingOne(c.addr, c.port, Sent(c.addr, c.port, Ack(0)));
    hide Overwrite, WriteChain, ParseRequest, Flatten;
  }

  lemma FinishesClosed(c: Config, y: Sys) returns (more: seq<Step>)
    requires Bounded(c) && Good(c, y) && !y.server.open && !y.writer.done
    ensures Continue(c, y, more).writer.done
  {
    hide Apply, Inv, Kept, Continue, SameSession;
    var a := ToServer(Request(true, c.request), [], GOOD);
    Reopens(c, y);
    GoodStep(c, y, a);
    var rest;
    if y.writer.waiting >= 1 {
      rest := FinishesInSession(c, Apply(c, y, a));
    } else {
      rest := FinishesAcked(c, Apply(c, y, a));
    }
    more := Before(c, y, a, rest);
  }

  /** An open write session that hears nothing times out. */
  lemma TimerPasses(c: Config, y: Sys)
    requires Bounded(c) && Good(c, y) && y.server.open
    ensures var s, y' := y.server, Apply(c, y, Timer(GOOD));
            && y'.writer == y.writer
            && s.timer - s.lastPkt <= 15
            && (y'.server.open ==> y'.server.timer == s.timer + 1 && y'.server.lastPkt == s.lastPkt)
  {
    hide Overwrite;
  }

  lemma {:induction false} FinishesAfterTimeout(c: Config, y: Sys) returns (more: seq<Step>)
    requires Bounded(c) && Good(c, y) && !y.writer.done
    ensures Continue(c, y, more).writer.done
    decreases if y.server.open then Max(17 - (y.server.timer - y.server.lastPkt), 1) else 0
  {
    hide Apply, Inv, Kept, Continue, SameSession;
    if y.server.open {
      TimerPasses(c, y);
      GoodStep(c, y, Timer(GOOD));
      var rest := FinishesAfterTimeout(c, Apply(c, y, Timer(GOOD)));
      more := Before(c, y, Timer(GOOD), rest);
    } else {
      more := FinishesClosed(c, y);
    }
  }

  /** Whatever was lost, and however often the server gave up: every reachable state has a
      continuation after which the writer has finished and all its data is in the file. An open
      session whose writer is past the request finishes without a timeout or another request. */
  lemma Recovers(c: Config, steps: seq<Step>) returns (more: seq<Step>)
    requires Bounded(c)
    ensures var y := Exec(c, steps + more);
            y.writer.done && c.data <= y.server.disk
    ensures var y := Exec(c, steps);
            y.server.open && y.writer.waiting >= 1 ==> SameSession(more)
  {
    hide Apply, Exec, Inv, Kept, Continue;
    var y := Exec(c, steps);
    ExecInv(c, steps);
    ExecKept(c, steps);
    if y.writer.done {
      more := [];
      Ended(c, y);
    } else if y.server.open && y.writer.waiting >= 1 {
      more := FinishesInSession(c, y);
    } else {
      more := FinishesAfterTimeout(c, y);
    }
    ExecContinues(c, steps, more);
    ExecInv(c, steps + more);
    InvIsSafe(c, Exec(c, steps + more));
    WholeFile(c, Exec(c, steps + more));
  }

  lemma WholeFile(c: Config, y: Sys)
    requires Safe(c, y) && y.writer.done
    ensures c.data <= y.server.disk
  {
  }
}
