/** A TFTP read after losses: every reachable state, whatever was lost and however often the server gave
    up, has a continuation after which the reader has the whole file. */
module TftpReadRecover {
  import opened Words
  import opened Tftp
  import opened TftpSession
  import opened TftpNetwork
  import opened TftpRead

  /** The run goes on from `y`. */
  function Continue(c: Config, y: Sys, steps: seq<Step>): Sys
    decreases |steps|
  {
    if steps == [] then y else Continue(c, Apply(c, y, steps[0]), steps[1..])
  }

  lemma {:induction false} ExecContinues(c: Config, steps: seq<Step>, more: seq<Step>)
    ensures Exec(c, steps + more) == Continue(c, Exec(c, steps), more)
    decreases |more|
  {
    hide Apply;
    if more == [] {
      assert steps + more == steps;
    } else {
      ExecAppend(c, steps, more[0]);
      ExecContinues(c, steps + [more[0]], more[1..]);
      assert steps + [more[0]] + more[1..] == steps + more;
    }
  }

  /** The request and every ACK sent so far can be delivered again. */
  ghost predicate Kept(c: Config, y: Sys) {
    && Request(false, c.request) in y.toServer
    && (forall k :: 1 <= k <= y.reader.count ==> Ack(Num(k)) in y.toServer)
  }

  lemma KeptStep(c: Config, y: Sys, step: Step)
    requires Kept(c, y)
    ensures Kept(c, Apply(c, y, step))
  {
    hide Recv, Tick, Opens, LastBlockClose, Outgoing;
  }

  ghost predicate Good(c: Config, y: Sys) {
    Inv(c, y) && Kept(c, y)
  }

  lemma {:induction false} ExecGood(c: Config, steps: seq<Step>)
    requires Bounded(c)
    ensures Good(c, Exec(c, steps))
  {
    ExecInv(c, steps);
    hide Inv;
    if steps != [] {
      hide Apply, Kept;
      ExecGood(c, steps[..|steps| - 1]);
      KeptStep(c, Exec(c, steps[..|steps| - 1]), steps[|steps| - 1]);
    }
  }

  lemma GoodStep(c: Config, y: Sys, step: Step)
    requires Bounded(c) && Good(c, y)
    ensures Good(c, Apply(c, y, step))
  {
    hide Apply, Inv, Kept;
    StepKeepsInv(c, y, step);
    KeptStep(c, y, step);
  }

  /** The server is at block b and its DATA can be delivered. */
  ghost predicate At(c: Config, y: Sys, b: nat) {
    && Good(c, y) && 1 <= b <= Blocks(c.file)
    && y.server.open && y.server.blknum == Num(b) && y.server.retained.Some?
    && DataFor(c, b) in y.toReader
  }

  /** An ACK the reader has sent before moves the server on. */
  lemma OldAck(c: Config, y: Sys, b: nat)
    requires Bounded(c) && !c.single && At(c, y, b) && b <= y.reader.count < Blocks(c.file)
    ensures var y' := Apply(c, y, ToServer(Ack(Num(b)), GOOD));
            At(c, y', b + 1) && y'.reader == y.reader
  {
    GoodStep(c, y, ToServer(Ack(Num(b)), GOOD));
    assert Index(y.server.blknum) == b;
    BlockFacts(c.file, b);
    AckAdvances(c, y, b, b + 1);
    hide Inv, Kept, Apply;
  }

  /** The reader takes the block it waits for. */
  lemma DueData(c: Config, y: Sys, b: nat)
    requires Bounded(c) && At(c, y, b) && b == y.reader.count + 1 && !y.reader.done
    ensures var y' := Apply(c, y, ToReader(DataFor(c, b)));
            && Good(c, y') && y'.reader.count == b
            && (b == Blocks(c.file) ==> y'.reader.done)
            && (b < Blocks(c.file) ==> !y'.reader.done && At(c, y', b))
  {
    GoodStep(c, y, ToReader(DataFor(c, b)));
    BlockFacts(c.file, b);
    hide BlockAt, FirstBlocks, SessionInv;
  }

  lemma Before(c: Config, y: Sys, a: Step, rest: seq<Step>) returns (more: seq<Step>)
    requires Continue(c, Apply(c, y, a), rest).reader.done
    ensures Continue(c, y, more).reader.done
  {
    hide Apply;
    more := [a] + rest;
    assert more[1..] == rest;
  }

  lemma Counts(c: Config, y: Sys)
    requires Good(c, y)
    ensures y.reader.count <= Blocks(c.file) && (y.reader.done <==> y.reader.count == Blocks(c.file))
  {
  }

  lemma {:induction false} FinishesOpen(c: Config, y: Sys, b: nat) returns (more: seq<Step>)
    requires Bounded(c) && !c.single && At(c, y, b) && b <= y.reader.count + 1 && !y.reader.done
    ensures Continue(c, y, more).reader.done
    decreases Blocks(c.file) - y.reader.count, Blocks(c.file) - b
  {
    Counts(c, y);
    hide Apply, Good, Continue;
    var a, rest := ToReader(DataFor(c, b)), [];
    if b <= y.reader.count {
      a := ToServer(Ack(Num(b)), GOOD);
      OldAck(c, y, b);
      rest := FinishesOpen(c, Apply(c, y, a), b + 1);
    } else {
      DueData(c, y, b);
      if b < Blocks(c.file) {
        rest := FinishesOpen(c, Apply(c, y, a), b);
      } else {
        Ended(c, Apply(c, y, a));
      }
    }
    more := Before(c, y, a, rest);
  }

  lemma Ended(c: Config, y: Sys)
    ensures Continue(c, y, []) == y
  {
  }

  /** The request arrives at a closed server. */
  lemma Reopens(c: Config, y: Sys)
    requires Bounded(c) && !c.single && Good(c, y) && !y.server.open
    ensures var y' := Apply(c, y, ToServer(Request(false, c.request), GOOD));
            At(c, y', 1) && y'.reader == y.reader
  {
    GoodStep(c, y, ToServer(Request(false, c.request), GOOD));
    var name :| WellFormedRequest(c.request, name, OCTET);
    ParseRequestExact(c.request, name, OCTET);
    BlockFacts(c.file, 1);
    OutgoingOne(c.addr, c.port, Sent(c.addr, c.port, DataFor(c, 1)));
    hide ParseRequest, Good;
  }

  /** An open session that hears nothing closes in the end. */
  lemma TimerPasses(c: Config, y: Sys)
    requires Bounded(c) && Good(c, y) && y.server.open
    ensures var s, y' := y.server, Apply(c, y, Timer(GOOD));
            && y'.reader == y.reader && s.timer - s.lastPkt <= 15
            && (y'.server.open ==> y'.server.timer == s.timer + 1 && y'.server.lastPkt == s.lastPkt)
  {
    hide ResendData;
  }

  lemma {:induction false} FinishesAfterTimeout(c: Config, y: Sys) returns (more: seq<Step>)
    requires Bounded(c) && !c.single && Good(c, y) && !y.reader.done
    ensures Continue(c, y, more).reader.done
    decreases if y.server.open then Max(17 - (y.server.timer - y.server.lastPkt), 1) else 0
  {
    hide Apply, Good, At, Continue;
    var a, rest := Timer(GOOD), [];
    if y.server.open {
      TimerPasses(c, y);
      GoodStep(c, y, a);
      rest := FinishesAfterTimeout(c, Apply(c, y, a));
    } else {
      a := ToServer(Request(false, c.request), GOOD);
      Reopens(c, y);
      rest := FinishesOpen(c, Apply(c, y, a), 1);
    }
    more := Before(c, y, a, rest);
  }

  lemma WholeFile(c: Config, y: Sys)
    requires Inv(c, y) && y.reader.done
    ensures y.reader.got == c.file
  {
    BlockFacts(c.file, Blocks(c.file));
  }

  /** Whatever was lost: within the bounds, and if the file may be asked for again, every reachable
      state has a continuation after which the reader has the whole file. */
  lemma Recovers(c: Config, steps: seq<Step>) returns (more: seq<Step>)
    requires Bounded(c) && !c.single
    ensures var y := Exec(c, steps + more);
            y.reader.done && y.reader.got == c.file
  {
    ExecGood(c, steps);
    hide Apply, Exec, Good, Continue;
    more := [];
    if Exec(c, steps).reader.done {
      Ended(c, Exec(c, steps));
    } else {
      more := FinishesAfterTimeout(c, Exec(c, steps));
    }
    ExecContinues(c, steps, more);
    ExecInv(c, steps + more);
    WholeFile(c, Exec(c, steps + more));
  }
}
