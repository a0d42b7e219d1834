/** What accepting a client and sending a message come to, in every reachable state of the broadcast
    with a free mutex: the slot that is taken, and the frame that each live connection gets. */
module BroadcastRuns {
  import opened Words
  import opened PscMsg
  import opened Broadcast

  /** The run goes on from `s`. */
  function Go(s: State, steps: seq<Step>): State {
    if steps == [] then s else Apply(Go(s, steps[..|steps| - 1]), steps[|steps| - 1])
  }

  lemma GoStep(s: State, steps: seq<Step>, a: Step)
    ensures Go(s, steps + [a]) == Apply(Go(s, steps), a)
  {
    assert (steps + [a])[..|steps|] == steps;
  }

  lemma {:induction false} GoOn(s: State, a: seq<Step>, b: seq<Step>)
    ensures Go(s, a + b) == Go(Go(s, a), b)
  {
    hide Apply;
    if b == [] {
      assert a + b == a;
    } else {
      var n := |b| - 1;
      GoOn(s, a, b[..n]);
      assert a + b == (a + b[..n]) + [b[n]];
      GoStep(s, a + b[..n], b[n]);
    }
  }

  lemma {:induction false} RunGoes(a: seq<Step>, b: seq<Step>)
    ensures Run(a + b) == Go(Run(a), b)
  {
    hide Apply;
    if b == [] {
      assert a + b == a;
    } else {
      var n := |b| - 1;
      RunGoes(a, b[..n]);
      assert (a + b)[..|a + b| - 1] == a + b[..n];
    }
  }

  // ---- accepting ----

  /** With the mutex free, the lowest of the four slots that is not used becomes live with a new
      connection, which has been sent nothing and starts at the broadcast to come; with all four
      used nothing changes. */
  lemma Admits(steps: seq<Step>, i: nat)
    requires Run(steps).holder.Nobody?
    ensures var s, s' := Run(steps), Run(steps + [Accept]);
            && |s.slots| == 4
            && ((forall j :: 0 <= j < 4 ==> s.slots[j].Used?) ==> s' == s)
            && (i < 4 && s.slots[i].Unused? && (forall j :: 0 <= j < i ==> s.slots[j].Used?) ==>
                  && |s'.slots| == 4 && s'.slots[i] == Used(|s.conns|, true)
                  && (forall j :: 0 <= j < 4 && j != i ==> s'.slots[j] == s.slots[j])
                  && |s'.conns| == |s.conns| + 1 && s'.conns[..|s.conns|] == s.conns
                  && s'.conns[|s.conns|] == Conn([], [], |s.log|, |s.log|, [])
                  && s'.log == s.log && s'.holder == Nobody)
  {
    RunKeeps(steps);
    assert (steps + [Accept])[..|steps|] == steps;
    assert Run(steps + [Accept]) == Apply(Run(steps), Accept);
    hide StreamOk, Run;
    var s := Run(steps);
    var r := FirstUnused(s.slots, 0);
    if i < 4 && s.slots[i].Unused? && r.Some? && (forall j :: 0 <= j < i ==> s.slots[j].Used?) {
      FirstIsLowest(s.slots, 0, i);
    }
  }

  lemma {:induction false} FirstIsLowest(slots: seq<Slot>, i: nat, k: nat)
    requires i <= k < |slots| && slots[k].Unused? && forall j :: i <= j < k ==> slots[j].Used?
    ensures FirstUnused(slots, i) == Some(k)
    decreases k - i
  {
    if i < k {
      FirstIsLowest(slots, i + 1, k);
    }
  }

  // ---- sending ----

  /** The connection of live slot i has got the frame since `s`, unless the slot is not live. */
  ghost predicate Got(s: State, t: State, i: nat, m: Message)
    requires Sendable(m) && i < |s.slots|
  {
    IsLive(s, i) ==>
      var c := s.slots[i].conn;
      c < |s.conns| == |t.conns| && t.conns[c].wire == s.conns[c].wire + Frame(m)
  }

  /** The connection of no live slot below n. */
  predicate Apart(s: State, c: nat, n: nat) {
    forall i :: 0 <= i < n && IsLive(s, i) ==> s.slots[i].conn != c
  }

  /** The slots below n have been served by whole frames and nothing else has happened. */
  ghost predicate ServedTo(s: State, t: State, m: Message, n: nat)
    requires Sendable(m)
  {
    && Inv(t) && t.holder == ToAll(m, n, 0)
    && n <= 4 == |s.slots| && t.slots == s.slots && |t.conns| == |s.conns| && t.log == s.log + [m]
    && (forall i :: 0 <= i < n ==> Got(s, t, i, m))
    && (forall c :: 0 <= c < |s.conns| && Apart(s, c, n) ==> t.conns[c] == s.conns[c])
  }

  /** What serves slot n whole. */
  function ServeStep(s: State, n: nat, m: Message): Step
    requires Sendable(m)
  {
    if IsLive(s, n) then SendSome(|Frame(m)|) else PassOver
  }

  lemma WholeFrame(t: State, m: Message, n: nat)
    requires Sendable(m) && Inv(t) && t.holder == ToAll(m, n, 0) && IsLive(t, n)
    ensures var u, c := Apply(t, SendSome(|Frame(m)|)), t.slots[n].conn;
            && Inv(u) && u.holder == ToAll(m, n + 1, 0) && u.slots == t.slots && u.log == t.log
            && c < |t.conns| == |u.conns| && u.conns[c].wire == t.conns[c].wire + Frame(m)
            && (forall d :: 0 <= d < |t.conns| && d != c ==> u.conns[d] == t.conns[d])
  {
    FrameLong(m);
    assert Frame(m)[0..|Frame(m)|] == Frame(m);
    assert Enabled(t, SendSome(|Frame(m)|));
    SendKeeps(t, |Frame(m)|);
    hide StreamOk, LiveOk, HolderOk, Frame, Inv;
  }

  lemma DistinctConns(s: State, i: nat, j: nat)
    requires Inv(s) && IsLive(s, i) && IsLive(s, j) && i != j
    ensures s.slots[i].conn != s.slots[j].conn
  {
    hide StreamOk, LiveOk, HolderOk;
  }

  lemma SlotServed(s: State, t: State, m: Message, n: nat)
    requires Sendable(m) && Inv(s) && ServedTo(s, t, m, n) && n < 4
    ensures ServedTo(s, Apply(t, ServeStep(s, n, m)), m, n + 1)
  {
    var u := Apply(t, ServeStep(s, n, m));
    if IsLive(s, n) {
      WholeFrame(t, m, n);
      forall i | 0 <= i < n && IsLive(s, i)
        ensures s.slots[i].conn != s.slots[n].conn
      {
        DistinctConns(s, i, n);
      }
      assert Apart(s, s.slots[n].conn, n);
    } else {
      assert Enabled(t, PassOver);
      LockKeeps(t, PassOver);
      assert u == t.(holder := ToAll(m, n + 1, 0));
    }
    hide Inv, Apply, Frame;
    forall i | 0 <= i < n + 1
      ensures Got(s, u, i, m)
    {
      assert i < n ==> Got(s, t, i, m);
    }
    forall c | 0 <= c < |s.conns| && Apart(s, c, n + 1)
      ensures u.conns[c] == s.conns[c]
    {
      assert Apart(s, c, n);
    }
  }

  /** The steps of a psc_send in which every socket takes its whole frame at once. */
  function SendAllSteps(s: State, m: Message): seq<Step>
    requires Sendable(m)
  {
    [LockAll(m), ServeStep(s, 0, m), ServeStep(s, 1, m), ServeStep(s, 2, m), ServeStep(s, 3, m), Unlock]
  }

  lemma Locked(s: State, m: Message)
    requires Sendable(m) && Inv(s) && s.holder.Nobody?
    ensures ServedTo(s, Apply(s, LockAll(m)), m, 0)
  {
    LockKeeps(s, LockAll(m));
    hide StreamOk, LiveOk, HolderOk, Frame;
  }

  lemma GoThree(s: State, a: Step, b: Step, c: Step)
    ensures Go(s, [a, b, c]) == Apply(Apply(Apply(s, a), b), c)
  {
    hide Apply;
    GoStep(s, [], a);
    GoStep(s, [a], b);
    GoStep(s, [a, b], c);
    assert [] + [a] == [a] && [a] + [b] == [a, b] && [a, b] + [c] == [a, b, c];
  }

  lemma GoSix(s: State, a: Step, b: Step, c: Step, d: Step, e: Step, f: Step)
    ensures Go(s, [a, b, c, d, e, f]) == Apply(Apply(Apply(Apply(Apply(Apply(s, a), b), c), d), e), f)
  {
    hide Apply, Go;
    assert [a, b, c] + [d, e, f] == [a, b, c, d, e, f];
    GoOn(s, [a, b, c], [d, e, f]);
    GoThree(s, a, b, c);
    GoThree(Go(s, [a, b, c]), d, e, f);
  }

  /** A broadcast can always be carried to its end: from every reachable state with a free mutex
      some run of psc_send frees it again with the whole frame added to each live connection, no
      other connection touched, no slot changed and the message in the log. */
  lemma BroadcastCompletes(steps: seq<Step>, m: Message) returns (more: seq<Step>)
    requires Run(steps).holder.Nobody? && Sendable(m)
    ensures var s, t := Run(steps), Run(steps + more);
            && t.holder.Nobody? && t.slots == s.slots && t.log == s.log + [m] && |t.conns| == |s.conns|
            && (forall i :: 0 <= i < |s.slots| && IsLive(s, i) ==> s.slots[i].conn < |s.conns|)
            && (forall i :: 0 <= i < |s.slots| && IsLive(s, i) ==>
                  t.conns[s.slots[i].conn].wire == s.conns[s.slots[i].conn].wire + Frame(m))
            && (forall c :: 0 <= c < |s.conns| && (forall i :: 0 <= i < |s.slots| && IsLive(s, i) ==> s.slots[i].conn != c) ==>
                  t.conns[c] == s.conns[c])
  {
    var s := Run(steps);
    RunKeeps(steps);
    StreamsAreFrames(steps);
    hide Run, Inv, Apply, ServeStep, StreamOk, Frame;
    more := SendAllSteps(s, m);
    RunGoes(steps, more);
    GoSix(s, LockAll(m), ServeStep(s, 0, m), ServeStep(s, 1, m), ServeStep(s, 2, m), ServeStep(s, 3, m), Unlock);
    Locked(s, m);
    var t0 := Apply(s, LockAll(m));
    SlotServed(s, t0, m, 0);
    var t1 := Apply(t0, ServeStep(s, 0, m));
    SlotServed(s, t1, m, 1);
    var t2 := Apply(t1, ServeStep(s, 1, m));
    SlotServed(s, t2, m, 2);
    var t3 := Apply(t2, ServeStep(s, 2, m));
    SlotServed(s, t3, m, 3);
    var t4 := Apply(t3, ServeStep(s, 3, m));
    Unlocked(t4);
    forall i | 0 <= i < |s.slots| && IsLive(s, i)
      ensures t4.conns[s.slots[i].conn].wire == s.conns[s.slots[i].conn].wire + Frame(m)
    {
      assert Got(s, t4, i, m);
    }
    forall c | 0 <= c < |s.conns| && (forall i :: 0 <= i < |s.slots| && IsLive(s, i) ==> s.slots[i].conn != c)
      ensures t4.conns[c] == s.conns[c]
    {
      assert Apart(s, c, 4);
    }
  }

  lemma Unlocked(t: State)
    requires t.holder != Nobody && t.holder.at >= |t.slots|
    ensures Apply(t, Unlock) == t.(holder := Nobody)
  {
  }

  /** So can a message to one slot: its connection alone gets the whole frame, if it is live. */
  lemma SendOneCompletes(steps: seq<Step>, k: nat, m: Message) returns (more: seq<Step>)
    requires Run(steps).holder.Nobody? && Sendable(m) && k < |Run(steps).slots| && Run(steps).slots[k].Used?
    ensures var s, t := Run(steps), Run(steps + more);
            && t.holder.Nobody? && t.slots == s.slots && t.log == s.log && |t.conns| == |s.conns|
            && s.slots[k].conn < |s.conns|
            && (IsLive(s, k) ==> t.conns[s.slots[k].conn].wire == s.conns[s.slots[k].conn].wire + Frame(m))
            && (forall c :: 0 <= c < |s.conns| && !(IsLive(s, k) && c == s.slots[k].conn) ==> t.conns[c] == s.conns[c])
  {
    var s := Run(steps);
    RunKeeps(steps);
    hide Run, StreamOk;
    more := [LockOne(k, m), ServeStep(s, k, m), Unlock];
    RunGoes(steps, more);
    GoThree(s, more[0], more[1], more[2]);
    OneServed(s, k, m);
  }

  lemma OneServed(s: State, k: nat, m: Message)
    requires Inv(s) && s.holder.Nobody? && Sendable(m) && k < |s.slots| && s.slots[k].Used?
    ensures var t := Apply(Apply(Apply(s, LockOne(k, m)), ServeStep(s, k, m)), Unlock);
            && t.holder.Nobody? && t.slots == s.slots && t.log == s.log && |t.conns| == |s.conns|
            && (IsLive(s, k) ==> t.conns[s.slots[k].conn].wire == s.conns[s.slots[k].conn].wire + Frame(m))
            && (forall c :: 0 <= c < |s.conns| && !(IsLive(s, k) && c == s.slots[k].conn) ==> t.conns[c] == s.conns[c])
  {
    FrameLong(m);
    assert Frame(m)[0..|Frame(m)|] == Frame(m);
    hide StreamOk, Frame, LiveOk;
  }
}
