/** Once the nonce sequence is in doubt, sending stops until everything in flight has
    drained. The drain always ends: every step of a sender already past the gate brings
    it nearer its return, and nobody else gets past the gate. */
module Drain {
  import opened Wrappers
  import opened Errors
  import opened SendProtocol
  import Pipeline
  import L = NonceLedger

  /** The most steps a sender past the gate can still take. */
  function Remaining(p: Phase): nat {
    match p
    case AtGate => 0
    case Counting => 8
    case CountRead(_, _) => 7
    case Simulating => 6
    case Ready(_) => 5
    case Holding(_) => 4
    case Signed(_, _) => 3
    case Accepted(_, _) => 2
    case Refused(_, _) => 1
    case Awaiting(_, _, _) => 1
    case Done(_) => 0
  }

  function TotalRemaining(senders: seq<Phase>): nat {
    if senders == [] then 0 else Remaining(senders[0]) + TotalRemaining(senders[1..])
  }

  /** In doubt, and not yet drained. */
  predicate Draining(s: System) {
    s.ledger.pipe.desynced && !s.ledger.pipe.CanResync()
  }

  /** The step belongs to a sender past the gate. */
  predicate Works(s: System, e: Event)
    requires Enabled(s, e)
  {
    e.By? && !s.senders[e.i].AtGate?
  }

  function WorkIn(s: System, run: seq<Event>): nat
    requires Runs(s, run)
    decreases |run|
  {
    if run == [] then 0
    else (if Works(s, run[0]) then 1 else 0) + WorkIn(Apply(s, run[0]), run[1..])
  }

  lemma {:induction false} ReplaceOne(senders: seq<Phase>, i: nat, p: Phase)
    requires i < |senders|
    ensures TotalRemaining(senders[i := p]) == TotalRemaining(senders) - Remaining(senders[i]) + Remaining(p)
  {
    if i == 0 {
      assert senders[0 := p][1..] == senders[1..];
    } else {
      ReplaceOne(senders[1..], i - 1, p);
      assert senders[i := p][1..] == senders[1..][i - 1 := p];
    }
  }

  lemma {:induction false} AddOne(senders: seq<Phase>, p: Phase)
    ensures TotalRemaining(senders + [p]) == TotalRemaining(senders) + Remaining(p)
  {
    if senders != [] {
      AddOne(senders[1..], p);
      assert (senders + [p])[1..] == senders[1..] + [p];
    } else {
      assert senders + [p] == [p];
    }
  }

  lemma {:induction false} ActingUsesUpAStep(pipe: Pipeline.Pipe, gen: nat, at: Phase, act: Act)
    requires CanAct(at, act)
    requires pipe.desynced && !pipe.CanResync()
    ensures at.AtGate? ==> PhaseAfter(pipe, gen, at, act) == Done(Err(Transaction(NonceDesynced(|pipe.inFlight|))))
    ensures !at.AtGate? ==> Remaining(PhaseAfter(pipe, gen, at, act)) < Remaining(at)
  {
  }

  /** While draining: no sender passes the gate, every working step shortens what is
      left, no other step lengthens it, and the flag stays up. */
  lemma {:induction false} DrainingShortens(s: System, e: Event)
    requires Draining(s) && Enabled(s, e)
    ensures var s' := Apply(s, e);
      && s'.ledger.pipe.desynced
      && (e.By? && s.senders[e.i].AtGate? ==>
            s'.senders[e.i] == Done(Err(Transaction(NonceDesynced(|s.ledger.pipe.inFlight|)))))
      && TotalRemaining(s'.senders) + (if Works(s, e) then 1 else 0) <= TotalRemaining(s.senders)
  {
    match e
    case Spawn => AddOne(s.senders, AtGate);
    case Settle(_, _) =>
    case By(i, act) =>
      ActingUsesUpAStep(s.ledger.pipe, s.gen, s.senders[i], act);
      ReplaceOne(s.senders, i, PhaseAfter(s.ledger.pipe, s.gen, s.senders[i], act));
  }

  ghost predicate DrainsAt(s: System, run: seq<Event>, k: nat)
    requires k <= |run|
  {
    Runs(s, run[..k]) && Final(s, run[..k]).ledger.pipe.desynced && Final(s, run[..k]).ledger.pipe.CanResync()
  }

  /** The drain is over within as many working steps as were left when it began: no
      run of more, however its senders interleave and however many new ones call
      `send`, avoids a state in which the next send may resync. */
  lemma {:induction false} DrainEnds(s: System, run: seq<Event>)
    requires Draining(s) && Runs(s, run)
    requires WorkIn(s, run) > TotalRemaining(s.senders)
    ensures exists k :: 0 <= k <= |run| && DrainsAt(s, run, k)
    decreases |run|
  {
    var next := Apply(s, run[0]);
    DrainingShortens(s, run[0]);
    if next.ledger.pipe.CanResync() {
      assert run[..1] == [run[0]] && run[..1][1..] == [];
      assert Final(s, run[..1]) == next;
      assert DrainsAt(s, run, 1);
    } else {
      DrainEnds(next, run[1..]);
      var k :| 0 <= k <= |run[1..]| && DrainsAt(next, run[1..], k);
      assert run[..k + 1][1..] == run[1..][..k];
      assert DrainsAt(s, run, k + 1);
    }
  }

  /** The answer that every await can always give. */
  function AnAct(at: Phase): Act
    requires !at.Done?
  {
    match at
    case AtGate => PassGate
    case Counting => CountErr
    case CountRead(_, _) => Adopt
    case Simulating => SimulateErr(InvalidConfig)
    case Ready(_) => PrepareTx(L.REQUEST, None)
    case Holding(_) => SignErr
    case Signed(_, _) => BroadcastErr
    case Accepted(_, _) => Record(0)
    case Refused(_, _) => GiveUp
    case Awaiting(_, _, _) => ReceiptErr
  }

  ghost predicate CanWork(senders: seq<Phase>, i: nat) {
    i < |senders| && !senders[i].AtGate? && !senders[i].Done? && CanAct(senders[i], AnAct(senders[i]))
  }

  lemma {:induction false} SomeHolderCanWork(tickets: set<nat>, hashes: set<TxHash>, senders: seq<Phase>)
    requires TicketsOwned(tickets, senders) && FlightsOwned(hashes, senders)
    requires tickets != {} || hashes != {}
    ensures exists i: nat :: CanWork(senders, i)
  {
    if tickets != {} {
      var n :| n in tickets;
      var i :| 0 <= i < |senders| && Owns(senders[i], n);
      assert CanWork(senders, i);
    } else {
      var h :| h in hashes;
      var i :| 0 <= i < |senders| && Awaits(senders[i], h);
      assert CanWork(senders, i);
    }
  }

  /** Nothing is stuck: while draining, some sender past the gate has a step to take. */
  lemma {:induction false} DrainingCanWork(s: System)
    requires Valid(s) && Draining(s)
    ensures exists i: nat :: CanWork(s.senders, i)
  {
    var hashes := s.ledger.pipe.inFlight.Keys;
    assert |hashes| == |s.ledger.pipe.inFlight|;
    SomeHolderCanWork(s.ledger.tickets, hashes, s.senders);
  }

  lemma {:induction false} OneWorkingStep(s: System) returns (e: Event)
    requires Valid(s) && Draining(s)
    ensures Enabled(s, e) && Valid(Apply(s, e)) && Apply(s, e).ledger.pipe.desynced
    ensures TotalRemaining(Apply(s, e).senders) < TotalRemaining(s.senders)
  {
    DrainingCanWork(s);
    var i: nat :| CanWork(s.senders, i);
    e := By(i, AnAct(s.senders[i]));
    DrainingShortens(s, e);
    StepKeepsValid(s, e);
  }

  /** From any draining state, letting the senders return reaches a drained one in at
      most the steps that were left. */
  lemma {:induction false} DrainCanEnd(s: System) returns (run: seq<Event>)
    requires Valid(s) && Draining(s)
    ensures Runs(s, run) && |run| <= TotalRemaining(s.senders)
    ensures Final(s, run).ledger.pipe.desynced && Final(s, run).ledger.pipe.CanResync()
    decreases TotalRemaining(s.senders)
  {
    var e := OneWorkingStep(s);
    run := [];
    if !Apply(s, e).ledger.pipe.CanResync() {
      run := DrainCanEnd(Apply(s, e));
    }
    Prepend(s, e, run);
    run := [e] + run;
  }

  /** A sender at the gate of a drained sequence reads the chain's count and adopts it. */
  lemma {:induction false} TheGateRepairs(s: System, i: nat, count: nat) returns (run: seq<Event>)
    requires s.ledger.pipe.desynced && s.ledger.pipe.CanResync()
    requires i < |s.senders| && s.senders[i].AtGate?
    ensures Runs(s, run) && |run| == 3
    ensures Final(s, run).ledger == L.Do(s.ledger, L.Resync(count))
  {
    var s1 := Apply(s, By(i, PassGate));
    assert s1.ledger == s.ledger && s1.senders[i] == Counting;
    var s2 := Apply(s1, By(i, CountOk(count)));
    assert s2.ledger == s.ledger && s2.senders[i] == CountRead(count, s1.gen);
    run := [By(i, Adopt)];
    Prepend(s2, By(i, Adopt), []);
    Prepend(s1, By(i, CountOk(count)), run);
    run := [By(i, CountOk(count))] + run;
    Prepend(s, By(i, PassGate), run);
    run := [By(i, PassGate)] + run;
  }

  /** And a drained sequence is repaired by the next send, to whatever the chain counts. */
  lemma {:induction false} TheNextSendRepairs(s: System, count: nat) returns (run: seq<Event>)
    requires s.ledger.pipe.desynced && s.ledger.pipe.CanResync()
    ensures Runs(s, run) && |run| == 4
    ensures var l := Final(s, run).ledger;
            !l.pipe.desynced && l.pipe.nonces.next == l.base == count
  {
    run := TheGateRepairs(Apply(s, Spawn), |s.senders|, count);
    Prepend(s, Spawn, run);
    run := [Spawn] + run;
  }
}
