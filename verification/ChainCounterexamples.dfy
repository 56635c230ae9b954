/** Three runs that show the conditions of the chain theorems are needed. */
module ChainCounterexamples {
  import opened Wrappers
  import opened Errors
  import opened Nonce
  import opened SendProtocol
  import opened ChainAgreement
  import opened NonceReuse
  import L = NonceLedger

  const EMPTY: System := Start(0, 16, {})

  /** Reached by a run that keeps the rules. */
  ghost predicate Reached(s: System, rules: set<Rule>) {
    exists run :: ReachedBy(s, rules, run)
  }

  ghost predicate ReachedBy(s: System, rules: set<Rule>, run: seq<Event>) {
    Runs(EMPTY, run) && Kept(rules, EMPTY, run) && Final(EMPTY, run) == s
  }

  lemma {:induction false} Append(rules: set<Rule>, s: System, run: seq<Event>, e: Event)
    requires Runs(s, run) && Kept(rules, s, run)
    requires Enabled(Final(s, run), e) && KeepsAll(rules, Final(s, run), e)
    ensures Runs(s, run + [e]) && Kept(rules, s, run + [e])
    ensures Final(s, run + [e]) == Apply(Final(s, run), e)
    decreases |run|
  {
    if run == [] {
      assert run + [e] == [e] && [e][1..] == [];
    } else {
      Append(rules, Apply(s, run[0]), run[1..], e);
      assert (run + [e])[1..] == run[1..] + [e];
    }
  }

  lemma {:induction false} Reach(s: System, rules: set<Rule>, e: Event)
    requires Reached(s, rules) && Enabled(s, e) && KeepsAll(rules, s, e)
    ensures Reached(Apply(s, e), rules)
  {
    var run :| ReachedBy(s, rules, run);
    Append(rules, EMPTY, run, e);
    assert ReachedBy(Apply(s, e), rules, run + [e]);
  }

  // ── The steps the runs are made of ─────────────────────────────────────

  /** All of a system that the steps below speak of. */
  ghost predicate Is(s: System, ledger: L.Ledger, senders: seq<Phase>, held: set<nat>, doubtful: set<nat>) {
    s.ledger == ledger && s.senders == senders && s.held == held && s.doubtful == doubtful
  }

  lemma {:induction false} Arrives(s: System, rules: set<Rule>) returns (s': System)
    requires Reached(s, rules)
    ensures Reached(s', rules) && Is(s', s.ledger, s.senders + [AtGate], s.held, s.doubtful)
  {
    Reach(s, rules, Spawn);
    s' := Apply(s, Spawn);
  }

  lemma {:induction false} Decides(s: System, rules: set<Rule>, n: nat, landed: bool) returns (s': System)
    requires Reached(s, rules) && n in s.doubtful
    ensures Reached(s', rules)
    ensures Is(s', s.ledger, s.senders, if landed then s.held + {n} else s.held - {n}, s.doubtful - {n})
  {
    Reach(s, rules, Settle(n, landed));
    s' := Apply(s, Settle(n, landed));
  }

  /** Any step that neither reads a count nor adopts one keeps every rule. */
  lemma {:induction false} Moves(s: System, rules: set<Rule>, i: nat, act: Act) returns (s': System)
    requires Reached(s, rules) && i < |s.senders|
    requires CanAct(s.senders[i], act) && !act.CountOk? && !act.Adopt?
    ensures Reached(s', rules)
    ensures Is(s', LedgerAfter(s.ledger, s.senders[i], act),
               s.senders[i := PhaseAfter(s.ledger.pipe, s.gen, s.senders[i], act)],
               HeldAfter(s.held, s.senders[i], act), DoubtAfter(s.doubtful, s.senders[i], act))
  {
    Reach(s, rules, By(i, act));
    s' := ApplyAct(s, i, act);
  }

  lemma {:induction false} PassesAnOpenGate(s: System, rules: set<Rule>, i: nat) returns (s': System)
    requires Reached(s, rules) && i < |s.senders| && s.senders[i].AtGate? && !s.ledger.pipe.desynced
    ensures Reached(s', rules)
    ensures Is(s', s.ledger, s.senders[i := Simulating], s.held, s.doubtful)
  {
    s' := Moves(s, rules, i, PassGate);
  }

  lemma {:induction false} StartsCounting(s: System, rules: set<Rule>, i: nat) returns (s': System)
    requires Reached(s, rules) && i < |s.senders| && s.senders[i].AtGate?
    requires s.ledger.pipe.desynced && s.ledger.pipe.CanResync()
    ensures Reached(s', rules)
    ensures Is(s', s.ledger, s.senders[i := Counting], s.held, s.doubtful)
  {
    s' := Moves(s, rules, i, PassGate);
  }

  lemma {:induction false} ReadsTheCount(s: System, rules: set<Rule>, i: nat, count: nat)
    returns (s': System)
    requires Reached(s, rules) && i < |s.senders| && s.senders[i].Counting?
    requires IsCount(s.held, count) && s.doubtful == {}
    ensures Reached(s', rules) && s'.gen == s.gen
    ensures Is(s', s.ledger, s.senders[i := CountRead(count, s.gen)], s.held, s.doubtful)
  {
    Reach(s, rules, By(i, CountOk(count)));
    s' := ApplyAct(s, i, CountOk(count));
  }

  lemma {:induction false} AdoptsTheCount(s: System, rules: set<Rule>, i: nat) returns (s': System)
    requires Reached(s, rules) && i < |s.senders| && s.senders[i].CountRead?
    requires s.ledger.pipe.desynced && s.ledger.pipe.CanResync()
    requires KeepsAll(rules, s, By(i, Adopt))
    ensures Reached(s', rules)
    ensures Is(s', L.Do(s.ledger, L.Resync(s.senders[i].count)), s.senders[i := Simulating], s.held, s.doubtful)
  {
    Reach(s, rules, By(i, Adopt));
    s' := ApplyAct(s, i, Adopt);
  }

  /** A ticket for the next nonce. */
  lemma {:induction false} TakesATicket(s: System, rules: set<Rule>, i: nat) returns (s': System)
    requires Reached(s, rules) && i < |s.senders| && s.senders[i].Simulating? && Open(s)
    ensures Reached(s', rules)
    ensures Is(s', L.Do(s.ledger, L.Prepare(L.REQUEST, Some(L.FEES))),
               s.senders[i := Holding(TicketFor(s.ledger.pipe.nonces.next))], s.held, s.doubtful)
  {
    var ready := Moves(s, rules, i, SimulateOk(1));
    assert ready.ledger == s.ledger && ready.senders[i] == Ready(1);
    s' := Moves(ready, rules, i, PrepareTx(L.REQUEST, Some(L.FEES)));
    assert s'.senders == s.senders[i := Holding(TicketFor(s.ledger.pipe.nonces.next))];
  }

  lemma {:induction false} Signs(s: System, rules: set<Rule>, i: nat) returns (s': System)
    requires Reached(s, rules) && i < |s.senders| && s.senders[i].Holding?
    ensures var prepared := s.senders[i].prepared;
            Reached(s', rules)
            && Is(s', s.ledger, s.senders[i := Signed(prepared, TxHash(prepared.nonce, 0))], s.held, s.doubtful)
  {
    s' := Moves(s, rules, i, SignOk(0));
  }

  lemma {:induction false} FailsToSign(s: System, rules: set<Rule>, i: nat) returns (s': System)
    requires Reached(s, rules) && i < |s.senders| && s.senders[i].Holding?
    ensures Reached(s', rules)
    ensures Is(s', L.Do(s.ledger, L.Abandon(s.senders[i].prepared.nonce)),
               s.senders[i := Fails(SigningFailed)], s.held, s.doubtful)
  {
    s' := Moves(s, rules, i, SignErr);
  }

  lemma {:induction false} FailsToBroadcast(s: System, rules: set<Rule>, i: nat) returns (s': System)
    requires Reached(s, rules) && i < |s.senders| && s.senders[i].Signed?
    ensures var n := s.senders[i].prepared.nonce;
            Reached(s', rules)
            && Is(s', L.Do(s.ledger, L.BroadcastFail(n)), s.senders[i := Fails(BroadcastFailed(s.senders[i].hash))],
                  s.held, s.doubtful + {n})
  {
    var refused := Moves(s, rules, i, BroadcastErr);
    assert refused.senders[i] == Refused(s.senders[i].prepared, s.senders[i].hash);
    s' := Moves(refused, rules, i, GiveUp);
    assert s'.senders == s.senders[i := Fails(BroadcastFailed(s.senders[i].hash))];
  }

  lemma {:induction false} Broadcasts(s: System, rules: set<Rule>, i: nat) returns (s': System)
    requires Reached(s, rules) && i < |s.senders| && s.senders[i].Signed?
    ensures Reached(s', rules)
    ensures Is(s', s.ledger, s.senders[i := Accepted(s.senders[i].prepared, s.senders[i].hash)],
               s.held + {s.senders[i].prepared.nonce}, s.doubtful)
  {
    s' := Moves(s, rules, i, BroadcastOk);
  }

  /** Its receipt never comes. */
  lemma {:induction false} TimesOut(s: System, rules: set<Rule>, i: nat) returns (s': System)
    requires Reached(s, rules) && i < |s.senders| && s.senders[i].Accepted?
    ensures var at := s.senders[i];
            Reached(s', rules)
            && Is(s', L.Do(L.Do(s.ledger, L.Record(at.hash, at.prepared, 0)), L.TimeOut(at.hash)),
                  s.senders[i := Fails(ReceiptTimeout(at.hash))], s.held, s.doubtful + {at.prepared.nonce})
  {
    var at := s.senders[i];
    var recorded := Moves(s, rules, i, Record(0));
    assert recorded.senders[i] == Awaiting(at.prepared.nonce, at.hash, at.prepared.gasLimit);
    s' := Moves(recorded, rules, i, ReceiptErr);
    assert s'.senders == s.senders[i := Fails(ReceiptTimeout(at.hash))];
  }

  // ── The ledgers the runs pass ──────────────────────────────────────────

  /** Nothing is in flight, and these tickets are out. */
  ghost predicate Holds(l: L.Ledger, next: nat, desynced: bool, tickets: set<nat>) {
    && l.pipe.nonces == Nonces(next, map[]) && l.pipe.inFlight == map[] && l.pipe.maxInFlight == 16
    && l.pipe.desynced == desynced && l.tickets == tickets && l.pipe.preparing == |tickets|
  }

  lemma {:induction false} Preparing(l: L.Ledger, next: nat, tickets: set<nat>)
    requires Holds(l, next, false, tickets) && next !in tickets
    ensures Holds(L.Do(l, L.Prepare(L.REQUEST, Some(L.FEES))), next + 1, false, tickets + {next})
  {
  }

  lemma {:induction false} FailingToBroadcast(l: L.Ledger, next: nat, desynced: bool, n: nat)
    requires Holds(l, next, desynced, {n})
    ensures Holds(L.Do(l, L.BroadcastFail(n)), next, true, {})
  {
  }

  lemma {:induction false} Resyncing(l: L.Ledger, next: nat, count: nat)
    requires Holds(l, next, true, {})
    ensures Holds(L.Do(l, L.Resync(count)), count, false, {})
  {
  }

  lemma {:induction false} AbandoningTheFirst(l: L.Ledger)
    requires Holds(l, 2, false, {0, 1})
    ensures Holds(L.Do(l, L.Abandon(0)), 2, true, {1})
  {
    assert {0, 1} - {0} == {1};
  }

  lemma {:induction false} TimingOut(l: L.Ledger, h: TxHash)
    requires Holds(l, 1, false, {0})
    ensures Holds(L.Do(L.Do(l, L.Record(h, TicketFor(0), 0)), L.TimeOut(h)), 1, true, {})
  {
    var recorded := L.Do(l, L.Record(h, TicketFor(0), 0));
    assert recorded.pipe.inFlight[h].nonce == 0;
    assert recorded.pipe.inFlight - {h} == map[];
    assert recorded.pipe.nonces.pending - {0} == map[];
  }

  // ── A queued transaction ───────────────────────────────────────────────

  const ALL_BUT_QUEUED: set<Rule> := {Faithful, Current, Present, Sound}

  lemma {:induction false} TwoTickets() returns (s: System)
    ensures Reached(s, ALL_BUT_QUEUED) && Holds(s.ledger, 2, false, {0, 1})
    ensures s.senders == [Holding(TicketFor(0)), Holding(TicketFor(1))] && s.held == {} && s.doubtful == {}
  {
    assert ReachedBy(EMPTY, ALL_BUT_QUEUED, []);
    s := Arrives(EMPTY, ALL_BUT_QUEUED);
    s := PassesAnOpenGate(s, ALL_BUT_QUEUED, 0);
    Preparing(s.ledger, 0, {});
    s := TakesATicket(s, ALL_BUT_QUEUED, 0);
    assert Holds(s.ledger, 1, false, {0}) && s.senders == [Holding(TicketFor(0))];
    s := Arrives(s, ALL_BUT_QUEUED);
    s := PassesAnOpenGate(s, ALL_BUT_QUEUED, 1);
    Preparing(s.ledger, 1, {0});
    s := TakesATicket(s, ALL_BUT_QUEUED, 1);
    assert {0} + {1} == {0, 1};
  }

  /** Two sends hold 0 and 1. The first fails to sign, which leaves a hole; the
      broadcast of the second reports failure, but the transaction is queued. */
  lemma {:induction false} ATransactionIsQueued() returns (s: System)
    ensures Reached(s, ALL_BUT_QUEUED) && Holds(s.ledger, 2, true, {})
    ensures s.held == {1} && s.doubtful == {}
  {
    s := TwoTickets();
    AbandoningTheFirst(s.ledger);
    s := FailsToSign(s, ALL_BUT_QUEUED, 0);
    s := Signs(s, ALL_BUT_QUEUED, 1);
    FailingToBroadcast(s.ledger, 2, true, 1);
    s := FailsToBroadcast(s, ALL_BUT_QUEUED, 1);
    s := Decides(s, ALL_BUT_QUEUED, 1, true);
  }

  /** A new send finds the flag up and the pipeline drained, and repairs it. */
  lemma {:induction false} ASendRepairs(s: System, next: nat, count: nat) returns (s': System)
    requires Reached(s, ALL_BUT_QUEUED) && Holds(s.ledger, next, true, {})
    requires IsCount(s.held, count) && s.doubtful == {}
    ensures Reached(s', ALL_BUT_QUEUED) && Holds(s'.ledger, count, false, {}) && s'.held == s.held
  {
    var i := |s.senders|;
    s' := Arrives(s, ALL_BUT_QUEUED);
    s' := StartsCounting(s', ALL_BUT_QUEUED, i);
    s' := ReadsTheCount(s', ALL_BUT_QUEUED, i, count);
    Resyncing(s'.ledger, next, count);
    s' := AdoptsTheCount(s', ALL_BUT_QUEUED, i);
  }

  /** The run keeps the rules and hands a held nonce out. */
  ghost predicate ShowsReuse(rules: set<Rule>, run: seq<Event>) {
    Runs(EMPTY, run) && Kept(rules, EMPTY, run) && !NeverReuses(EMPTY, run)
  }

  /** With a faithful chain and every adoption current and sound, the count the chain
      gives is 0, below the queued 1; and 1 is handed out again. The pending count does
      not step past a transaction that waits behind a gap. */
  lemma {:induction false} AQueuedTransactionIsReused()
    ensures exists run :: ShowsReuse(ALL_BUT_QUEUED, run)
  {
    var s := ATransactionIsQueued();
    s := ASendRepairs(s, 2, 0);
    var before :| ReachedBy(s, ALL_BUT_QUEUED, before);
    var after := WhatIsQueuedIsReused(s, 1);
    FewerRules(EVERY_RULE, ALL_BUT_QUEUED, s, after);
    Join(ALL_BUT_QUEUED, EMPTY, before, after);
    assert ShowsReuse(ALL_BUT_QUEUED, before + after);
  }

  // ── A send that counts while another works ─────────────────────────────

  const PRESENT: set<Rule> := {Faithful, Present, Unqueued}

  /** A first send has failed and left a doubt; the transaction is gone. A second is
      past the gate, counting. */
  lemma {:induction false} ASendIsCounting() returns (s: System)
    ensures Reached(s, PRESENT) && Holds(s.ledger, 1, true, {})
    ensures s.held == {} && s.doubtful == {} && |s.senders| == 2 && s.senders[1] == Counting
  {
    assert ReachedBy(EMPTY, PRESENT, []);
    s := Arrives(EMPTY, PRESENT);
    s := PassesAnOpenGate(s, PRESENT, 0);
    Preparing(s.ledger, 0, {});
    s := TakesATicket(s, PRESENT, 0);
    s := Signs(s, PRESENT, 0);
    FailingToBroadcast(s.ledger, 1, false, 0);
    s := FailsToBroadcast(s, PRESENT, 0);
    s := Decides(s, PRESENT, 0, false);
    s := Arrives(s, PRESENT);
    s := StartsCounting(s, PRESENT, 1);
  }

  /** A third adopts the count 0 meanwhile. */
  lemma {:induction false} AnotherSendAdopts(s: System) returns (s': System)
    requires Reached(s, PRESENT) && Holds(s.ledger, 1, true, {})
    requires s.held == {} && s.doubtful == {} && |s.senders| == 2
    ensures Reached(s', PRESENT) && Holds(s'.ledger, 0, false, {})
    ensures s'.held == {} && s'.doubtful == {} && s'.senders == s.senders + [Simulating]
  {
    s' := Arrives(s, PRESENT);
    s' := StartsCounting(s', PRESENT, 2);
    s' := ReadsTheCount(s', PRESENT, 2, 0);
    Resyncing(s'.ledger, 1, 0);
    s' := AdoptsTheCount(s', PRESENT, 2);
  }

  /** And signs for nonce 0. */
  lemma {:induction false} AnotherSendRepairs(s: System) returns (s': System)
    requires Reached(s, PRESENT) && Holds(s.ledger, 1, true, {})
    requires s.held == {} && s.doubtful == {} && |s.senders| == 2
    ensures Reached(s', PRESENT) && Holds(s'.ledger, 1, false, {0})
    ensures s'.held == {} && s'.doubtful == {}
    ensures s'.senders == s.senders + [Signed(TicketFor(0), TxHash(0, 0))]
  {
    s' := AnotherSendAdopts(s);
    Preparing(s'.ledger, 0, {});
    s' := TakesATicket(s', PRESENT, 2);
    s' := Signs(s', PRESENT, 2);
  }

  // ── A stale count over a hole ──────────────────────────────────────────

  /** The third's broadcast succeeds; the second reads the count, 1; the third's receipt
      never comes, and the chain drops the transaction. */
  lemma {:induction false} TheCountGoesStale(s: System) returns (s': System)
    requires Reached(s, PRESENT) && Holds(s.ledger, 1, false, {0})
    requires s.held == {} && s.doubtful == {} && |s.senders| == 3
    requires s.senders[1] == Counting && s.senders[2] == Signed(TicketFor(0), TxHash(0, 0))
    ensures Reached(s', PRESENT) && Holds(s'.ledger, 1, true, {})
    ensures s'.held == {} && s'.doubtful == {} && |s'.senders| == 3
    ensures s'.senders[1].CountRead? && s'.senders[1].count == 1
  {
    s' := Broadcasts(s, PRESENT, 2);
    s' := ReadsTheCount(s', PRESENT, 1, 1);
    TimingOut(s'.ledger, TxHash(0, 0));
    s' := TimesOut(s', PRESENT, 2);
    s' := Decides(s', PRESENT, 0, false);
  }

  /** The flag is down, the counter is past `n`, and neither the chain nor a sender has it. */
  ghost predicate HidesAHole(s: System, n: nat) {
    && !s.ledger.pipe.desynced && n < s.ledger.pipe.nonces.next
    && n !in s.held && n !in s.doubtful && n !in s.ledger.tickets && s.ledger.pipe.inFlight == map[]
  }

  /** The re-check before the adoption asks whether the flag is up and the pipeline
      drained, not whether the count is still current: it adopts 1, the flag goes
      down, and no one holds nonce 0, which the chain is waiting for. */
  lemma {:induction false} AStaleCountHidesAHole()
    ensures exists run :: Runs(EMPTY, run) && Kept({Faithful, Unqueued}, EMPTY, run)
                          && HidesAHole(Final(EMPTY, run), 0)
  {
    var s := ASendIsCounting();
    s := AnotherSendRepairs(s);
    s := TheCountGoesStale(s);
    var before :| ReachedBy(s, PRESENT, before);
    FewerRules(PRESENT, {Faithful, Unqueued}, EMPTY, before);
    assert ReachedBy(s, {Faithful, Unqueued}, before);
    Resyncing(s.ledger, 1, 1);
    s := AdoptsTheCount(s, {Faithful, Unqueued}, 1);
    var run :| ReachedBy(s, {Faithful, Unqueued}, run);
  }

  // ── A stale count over a doubt ─────────────────────────────────────────

  /** The second has read its count, 0, when the third adopts the same, signs for nonce 0
      and fails to broadcast. The second adopts its old count, which is also the one the
      chain would give now; nothing is queued. The flag goes down with nonce 0 in doubt. */
  lemma {:induction false} ADoubtIsForgotten() returns (s: System)
    ensures Reached(s, PRESENT) && Holds(s.ledger, 0, false, {}) && s.doubtful == {0}
  {
    s := ASendIsCounting();
    s := ReadsTheCount(s, PRESENT, 1, 0);
    s := AnotherSendRepairs(s);
    FailingToBroadcast(s.ledger, 1, false, 0);
    s := FailsToBroadcast(s, PRESENT, 2);
    Resyncing(s.ledger, 1, 0);
    s := AdoptsTheCount(s, PRESENT, 1);
  }

  /** Then it lands, and 0 is handed out again. That a count is right at the moment it is
      adopted is not enough. */
  lemma {:induction false} AStaleCountForgetsADoubt()
    ensures exists run :: ShowsReuse(PRESENT, run)
  {
    var s := ADoubtIsForgotten();
    var before :| ReachedBy(s, PRESENT, before);
    var after := WhatIsInDoubtIsReused(s, 0);
    FewerRules(EVERY_RULE, PRESENT, s, after);
    Join(PRESENT, EMPTY, before, after);
    assert ShowsReuse(PRESENT, before + after);
  }
}
