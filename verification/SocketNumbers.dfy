/** The socket numbers of listener.c. A failed send closes a client's socket at once, and the client's
    own thread closes the same number again when it ends. Between the two the number is free, and
    accept may give it to somebody else. */
module SocketNumbers {
  import opened Words

  /** A slot of the clients array: C->sock, none standing for -1, and the `sock` that the client's
      thread keeps for itself. */
  datatype Slot = Unused | Used(sock: Option<nat>, own: nat)

  /** The numbers that are open, the slots, and the numbers that threads have still to close after
      they have released their slot. */
  datatype State = State(open: set<nat>, slots: seq<Slot>, ending: multiset<nat>)

  datatype Step =
    | Accept(n: nat, slot: nat)   // accept returns n, psc_client_alloc the slot
    | SendError(slot: nat)        // psc_send or psc_send_one closes the socket
    | Leave(slot: nat)            // psc_client_free
    | Close(n: nat)               // the close that follows it

  predicate Live(s: State, i: nat) {
    i < |s.slots| && s.slots[i].Used? && s.slots[i].sock.Some?
  }

  predicate Enabled(s: State, step: Step) {
    match step
    case Accept(n, i) => n !in s.open && i < |s.slots| && s.slots[i].Unused?
    case SendError(i) => Live(s, i)
    case Leave(i) => i < |s.slots| && s.slots[i].Used?
    case Close(n) => n in s.ending
  }

  function Apply(s: State, step: Step): State {
    if !Enabled(s, step) then s
    else match step
      case Accept(n, i) => s.(open := s.open + {n}, slots := s.slots[i := Used(Some(n), n)])
      case SendError(i) => s.(open := s.open - {s.slots[i].sock.value}, slots := s.slots[i := s.slots[i].(sock := None)])
      case Leave(i) => s.(slots := s.slots[i := Unused], ending := s.ending + multiset{s.slots[i].own})
      case Close(n) => s.(open := s.open - {n}, ending := s.ending - multiset{n})
  }

  function Start(clients: nat): State {
    State({}, seq(clients, _ => Unused), multiset{})
  }

  function Run(clients: nat, steps: seq<Step>): State {
    if steps == [] then Start(clients) else Apply(Run(clients, steps[..|steps| - 1]), steps[|steps| - 1])
  }

  /** Live clients have open sockets of their own. */
  ghost predicate Sound(s: State) {
    && (forall i :: 0 <= i < |s.slots| && Live(s, i) ==> s.slots[i].sock.value in s.open)
    && (forall i, j :: 0 <= i < j < |s.slots| && Live(s, i) && Live(s, j) ==> s.slots[i].sock != s.slots[j].sock)
  }

  /** A thread on its way out closes a number that a live client has by now. */
  ghost predicate Hits(s: State, step: Step) {
    step.Close? && Enabled(s, step) && exists i :: 0 <= i < |s.slots| && Live(s, i) && s.slots[i].sock == Some(step.n)
  }

  lemma SoundStep(s: State, step: Step)
    requires Sound(s)
    ensures Sound(Apply(s, step)) <==> !Hits(s, step)
  {
    var s' := Apply(s, step);
    if Hits(s, step) {
      var i :| 0 <= i < |s.slots| && Live(s, i) && s.slots[i].sock == Some(step.n);
      assert Live(s', i) && s'.slots[i].sock.value !in s'.open;
    } else {
      forall i | 0 <= i < |s'.slots| && Live(s', i)
        ensures s'.slots[i].sock.value in s'.open
      {
        if s'.slots[i] == s.slots[i] {
          assert Live(s, i);
        }
      }
      forall i, j | 0 <= i < j < |s'.slots| && Live(s', i) && Live(s', j)
        ensures s'.slots[i].sock != s'.slots[j].sock
      {
        assert s'.slots[i] == s.slots[i] ==> Live(s, i);
        assert s'.slots[j] == s.slots[j] ==> Live(s, j);
      }
    }
  }

  ghost predicate AlwaysSound(clients: nat, steps: seq<Step>) {
    forall k :: 0 <= k <= |steps| ==> Sound(Run(clients, steps[..k]))
  }

  ghost predicate NeverHits(clients: nat, steps: seq<Step>) {
    forall k :: 0 <= k < |steps| ==> !Hits(Run(clients, steps[..k]), steps[k])
  }

  lemma RunStep(clients: nat, steps: seq<Step>, k: nat)
    requires k < |steps|
    ensures Run(clients, steps[..k + 1]) == Apply(Run(clients, steps[..k]), steps[k])
  {
    assert steps[..k + 1][..k] == steps[..k];
  }

  lemma {:induction false} SoundSoFar(clients: nat, steps: seq<Step>, k: nat)
    requires k <= |steps| && NeverHits(clients, steps)
    ensures Sound(Run(clients, steps[..k]))
  {
    if k > 0 {
      hide Apply, Hits, Sound;
      SoundSoFar(clients, steps, k - 1);
      RunStep(clients, steps, k - 1);
      SoundStep(Run(clients, steps[..k - 1]), steps[k - 1]);
    }
  }

  /** In every run, live clients have open sockets of their own all along if and only if no late
      close ever hits the number of a live client. */
  lemma NumbersExact(clients: nat, steps: seq<Step>)
    ensures AlwaysSound(clients, steps) <==> NeverHits(clients, steps)
  {
    hide Run, Apply, Hits, Sound;
    if NeverHits(clients, steps) {
      forall k | 0 <= k <= |steps|
        ensures Sound(Run(clients, steps[..k]))
      {
        SoundSoFar(clients, steps, k);
      }
    } else if AlwaysSound(clients, steps) {
      var k :| 0 <= k < |steps| && Hits(Run(clients, steps[..k]), steps[k]);
      assert Sound(Run(clients, steps[..k])) && Sound(Run(clients, steps[..k + 1]));
      RunStep(clients, steps, k);
      SoundStep(Run(clients, steps[..k]), steps[k]);
    }
  }

  // ---- when that cannot happen ----

  /** A number that some thread will close, now or later, and that is no live client's own. */
  ghost predicate Owed(s: State, n: nat) {
    n in s.ending || exists i :: 0 <= i < |s.slots| && s.slots[i].Used? && s.slots[i].sock.None? && s.slots[i].own == n
  }

  /** A live client's number is owed to nobody else, and is its own. */
  ghost predicate Fresh(s: State) {
    && Sound(s)
    && (forall i :: 0 <= i < |s.slots| && Live(s, i) ==> s.slots[i].own == s.slots[i].sock.value && !Owed(s, s.slots[i].own))
  }

  lemma FreshStep(s: State, step: Step)
    requires Fresh(s) && (step.Accept? ==> !Owed(s, step.n))
    ensures Fresh(Apply(s, step)) && !Hits(s, step)
  {
    assert !Hits(s, step);
    SoundStep(s, step);
    hide Sound, Hits;
    var s' := Apply(s, step);
    assert Distinct(s) by { SoundIsDistinct(s); }
    forall i | 0 <= i < |s'.slots| && Live(s', i)
      ensures s'.slots[i].own == s'.slots[i].sock.value && !Owed(s', s'.slots[i].own)
    {
      if s'.slots[i] == s.slots[i] {
        assert Live(s, i) && !Owed(s, s.slots[i].own);
      }
    }
  }

  ghost predicate Distinct(s: State) {
    forall i, j :: 0 <= i < j < |s.slots| && Live(s, i) && Live(s, j) ==> s.slots[i].sock != s.slots[j].sock
  }

  lemma SoundIsDistinct(s: State)
    requires Sound(s)
    ensures Distinct(s)
  {
  }

  /** accept gives out no number that a thread has still to close. */
  ghost predicate NoReuse(clients: nat, steps: seq<Step>) {
    forall k :: 0 <= k < |steps| && steps[k].Accept? ==> !Owed(Run(clients, steps[..k]), steps[k].n)
  }

  lemma {:induction false} FreshSoFar(clients: nat, steps: seq<Step>, k: nat)
    requires k <= |steps| && NoReuse(clients, steps)
    ensures Fresh(Run(clients, steps[..k]))
  {
    if k > 0 {
      hide Apply, Owed, Fresh;
      FreshSoFar(clients, steps, k - 1);
      RunStep(clients, steps, k - 1);
      FreshStep(Run(clients, steps[..k - 1]), steps[k - 1]);
    }
  }

  /** Then it cannot. */
  lemma NoReuseIsSound(clients: nat, steps: seq<Step>)
    requires NoReuse(clients, steps)
    ensures NeverHits(clients, steps) && AlwaysSound(clients, steps)
  {
    hide Run, Apply, Hits, Owed, Fresh, AlwaysSound;
    forall k | 0 <= k < |steps|
      ensures !Hits(Run(clients, steps[..k]), steps[k])
    {
      FreshSoFar(clients, steps, k);
      FreshStep(Run(clients, steps[..k]), steps[k]);
    }
    NumbersExact(clients, steps);
  }

  /** The first two slots, and the numbers. */
  ghost predicate Scene(s: State, open: set<nat>, first: Slot, second: Slot, ending: multiset<nat>) {
    |s.slots| >= 2 && s.open == open && s.slots[0] == first && s.slots[1] == second && s.ending == ending
  }

  lemma AcceptFirst(s: State, n: nat, second: Slot, ending: multiset<nat>)
    requires Scene(s, {}, Unused, second, ending)
    ensures Scene(Apply(s, Accept(n, 0)), {n}, Used(Some(n), n), second, ending)
  {
  }

  lemma FailFirst(s: State, n: nat)
    requires Scene(s, {n}, Used(Some(n), n), Unused, multiset{})
    ensures Scene(Apply(s, SendError(0)), {}, Used(None, n), Unused, multiset{})
  {
  }

  lemma AcceptSecond(s: State, n: nat)
    requires Scene(s, {}, Used(None, n), Unused, multiset{})
    ensures Scene(Apply(s, Accept(n, 1)), {n}, Used(None, n), Used(Some(n), n), multiset{})
  {
  }

  lemma LeaveFirst(s: State, n: nat)
    requires Scene(s, {n}, Used(None, n), Used(Some(n), n), multiset{})
    ensures Scene(Apply(s, Leave(0)), {n}, Unused, Used(Some(n), n), multiset{n})
  {
  }

  lemma CloseLate(s: State, n: nat)
    requires Scene(s, {n}, Unused, Used(Some(n), n), multiset{n})
    ensures Scene(Apply(s, Close(n)), {}, Unused, Used(Some(n), n), multiset{})
  {
  }

  /** When it does, two live clients can end up with one number: a send to the first client fails,
      its number goes to a second client, the first client's thread closes it, and a third client
      gets it while the second still holds it. */
  lemma TwoClientsShareNumber(clients: nat, n: nat)
    requires clients >= 2
    ensures var s := Run(clients, [Accept(n, 0), SendError(0), Accept(n, 1), Leave(0), Close(n), Accept(n, 0)]);
            Live(s, 0) && Live(s, 1) && s.slots[0].sock == s.slots[1].sock == Some(n)
  {
    hide *;
    var s0 := Start(clients);
    StartScene(clients);
    AcceptFirst(s0, n, Unused, multiset{});
    var s1 := Apply(s0, Accept(n, 0));
    FailFirst(s1, n);
    var s2 := Apply(s1, SendError(0));
    AcceptSecond(s2, n);
    var s3 := Apply(s2, Accept(n, 1));
    LeaveFirst(s3, n);
    var s4 := Apply(s3, Leave(0));
    CloseLate(s4, n);
    var s5 := Apply(s4, Close(n));
    AcceptFirst(s5, n, Used(Some(n), n), multiset{});
    RunSix(clients, Accept(n, 0), SendError(0), Accept(n, 1), Leave(0), Close(n), Accept(n, 0));
    InScene(Apply(s5, Accept(n, 0)), n);
  }

  lemma StartScene(clients: nat)
    requires clients >= 2
    ensures Scene(Start(clients), {}, Unused, Unused, multiset{})
  {
  }

  lemma RunSix(clients: nat, a: Step, b: Step, c: Step, d: Step, e: Step, f: Step)
    ensures Run(clients, [a, b, c, d, e, f]) == Apply(Apply(Apply(Apply(Apply(Apply(Start(clients), a), b), c), d), e), f)
  {
    hide Apply;
    RunOne(clients, [], a);
    RunOne(clients, [a], b);
    RunOne(clients, [a, b], c);
    RunOne(clients, [a, b, c], d);
    RunOne(clients, [a, b, c, d], e);
    RunOne(clients, [a, b, c, d, e], f);
    assert Run(clients, []) == Start(clients);
    hide Run;
    assert [] + [a] == [a] && [a] + [b] == [a, b] && [a, b] + [c] == [a, b, c] && [a, b, c] + [d] == [a, b, c, d];
    assert [a, b, c, d] + [e] == [a, b, c, d, e] && [a, b, c, d, e] + [f] == [a, b, c, d, e, f];
  }

  lemma RunOne(clients: nat, steps: seq<Step>, step: Step)
    ensures Run(clients, steps + [step]) == Apply(Run(clients, steps), step)
  {
    assert (steps + [step])[..|steps|] == steps;
  }

  lemma InScene(s: State, n: nat)
    requires Scene(s, {n}, Used(Some(n), n), Used(Some(n), n), multiset{})
    ensures Live(s, 0) && Live(s, 1) && s.slots[0].sock == s.slots[1].sock == Some(n)
  {
  }
}
