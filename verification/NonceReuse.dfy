/** Whether a nonce the chain holds is ever handed out again. It is not, as long as no
    adopted count leaves a transaction, held or in doubt, at or past it; and that
    condition is exact. Nothing else is assumed of the chain. */
module NonceReuse {
  import opened Wrappers
  import opened Pipeline
  import opened SendProtocol
  import opened ChainAgreement
  import L = NonceLedger

  /** The step hands out a nonce the chain already holds. */
  predicate Reuses(s: System, e: Event)
    requires Enabled(s, e)
  {
    e.By? && e.act.PrepareTx? && PhaseAfter(s.ledger.pipe, s.gen, s.senders[e.i], e.act).Holding?
    && s.ledger.pipe.nonces.next in s.held
  }

  predicate NeverReuses(s: System, run: seq<Event>)
    requires Runs(s, run)
    decreases |run|
  {
    run == [] || (!Reuses(s, run[0]) && NeverReuses(Apply(s, run[0]), run[1..]))
  }

  // ── Sufficient ─────────────────────────────────────────────────────────

  /** What the chain holds or may yet hold. */
  function Taken(s: System): set<nat> {
    s.held + s.doubtful
  }

  predicate StillNew(p: Phase, taken: set<nat>) {
    p.Holding? || p.Signed? ==> p.prepared.nonce !in taken
  }

  predicate AllBelow(taken: set<nat>, next: nat) {
    forall n :: n in taken ==> n < next
  }

  /** Nothing at or past the counter is taken, nor anything not yet broadcast. */
  ghost predicate NothingAhead(s: System) {
    && AllBelow(Taken(s), s.ledger.pipe.nonces.next)
    && (forall i :: 0 <= i < |s.senders| ==> StillNew(s.senders[i], Taken(s)))
  }

  function TakenAfter(held: set<nat>, doubtful: set<nat>, at: Phase, act: Act): set<nat>
    requires CanAct(at, act)
  {
    HeldAfter(held, at, act) + DoubtAfter(doubtful, at, act)
  }

  lemma {:induction false} CounterStaysAhead(l: L.Ledger, at: Phase, act: Act, held: set<nat>, doubtful: set<nat>)
    requires L.Exclusive(l) && CanAct(at, act) && SenderFits(l, at) && !act.Adopt?
    requires at.Awaiting? ==> at.nonce in L.Flying(l)
    requires StillNew(at, held + doubtful) && AllBelow(held + doubtful, l.pipe.nonces.next)
    ensures AllBelow(TakenAfter(held, doubtful, at, act), LedgerAfter(l, at, act).pipe.nonces.next)
  {
    CountersMove(l, at, act);
  }

  lemma {:induction false} ItsOwnNonceStaysNew(pipe: Pipe, gen: nat, at: Phase, act: Act,
                                               held: set<nat>, doubtful: set<nat>)
    requires CanAct(at, act) && StillNew(at, held + doubtful) && pipe.nonces.next !in held + doubtful
    ensures StillNew(PhaseAfter(pipe, gen, at, act), TakenAfter(held, doubtful, at, act))
  {
    if act.PrepareTx? {
      var p := PhaseAfter(pipe, gen, at, act);
      assert p.Holding? ==> p.prepared.nonce == pipe.nonces.next;
    }
  }

  lemma {:induction false} OthersStayNew(l: L.Ledger, at: Phase, act: Act, other: Phase,
                                         held: set<nat>, doubtful: set<nat>)
    requires CanAct(at, act) && StillNew(other, held + doubtful)
    requires SenderFits(l, other) && (at.Awaiting? ==> at.nonce in L.Flying(l))
    requires HasTicket(at) && HasTicket(other) ==> at.prepared.nonce != other.prepared.nonce
    ensures StillNew(other, TakenAfter(held, doubtful, at, act))
  {
  }

  lemma {:induction false} ActKeepsCounterAhead(s: System, i: nat, act: Act)
    requires Valid(s) && NothingAhead(s) && Enabled(s, By(i, act)) && !Adopts(s, By(i, act))
    ensures var s' := ApplyAct(s, i, act);
            AllBelow(Taken(s'), s'.ledger.pipe.nonces.next)
  {
    assert StillNew(s.senders[i], Taken(s));
    if act.Adopt? {
      assert Taken(ApplyAct(s, i, act)) == Taken(s);
    } else {
      SendersFit(s, i);
      CounterStaysAhead(s.ledger, s.senders[i], act, s.held, s.doubtful);
    }
  }

  lemma {:induction false} ActKeepsSenderNew(s: System, i: nat, act: Act, j: nat)
    requires Valid(s) && NothingAhead(s) && Enabled(s, By(i, act)) && j < |s.senders|
    ensures StillNew(ApplyAct(s, i, act).senders[j], Taken(ApplyAct(s, i, act)))
  {
    assert StillNew(s.senders[j], Taken(s));
    if j == i {
      ItsOwnNonceStaysNew(s.ledger.pipe, s.gen, s.senders[i], act, s.held, s.doubtful);
    } else {
      SendersFit(s, i);
      SendersFit(s, j);
      OthersStayNew(s.ledger, s.senders[i], act, s.senders[j], s.held, s.doubtful);
    }
  }

  lemma {:induction false} AdoptionKeepsNothingAhead(s: System, i: nat)
    requires Valid(s) && Enabled(s, By(i, Adopt)) && Adopts(s, By(i, Adopt))
    requires CountIsClear(s, s.senders[i].count)
    ensures NothingAhead(ApplyAct(s, i, Adopt))
  {
    forall j | 0 <= j < |s.senders|
      ensures StillNew(ApplyAct(s, i, Adopt).senders[j], Taken(ApplyAct(s, i, Adopt)))
    {
      AdoptionKeepsOutOfDoubt(s, i, j);
    }
  }

  lemma {:induction false} ActKeepsNothingAhead(s: System, i: nat, act: Act)
    requires Valid(s) && NothingAhead(s) && Enabled(s, By(i, act)) && Keeps(Clear, s, By(i, act))
    ensures NothingAhead(ApplyAct(s, i, act))
  {
    if Adopts(s, By(i, act)) {
      AdoptionKeepsNothingAhead(s, i);
    } else {
      ActKeepsCounterAhead(s, i, act);
      forall j | 0 <= j < |s.senders|
        ensures StillNew(ApplyAct(s, i, act).senders[j], Taken(ApplyAct(s, i, act)))
      {
        ActKeepsSenderNew(s, i, act, j);
      }
    }
  }

  lemma {:induction false} NothingAheadIsNotReused(s: System, e: Event)
    requires AllBelow(Taken(s), s.ledger.pipe.nonces.next) && Enabled(s, e)
    ensures !Reuses(s, e)
  {
    assert s.ledger.pipe.nonces.next !in Taken(s);
  }

  lemma {:induction false} SettlingKeepsNothingAhead(s: System, n: nat, landed: bool)
    requires NothingAhead(s) && n in s.doubtful
    ensures NothingAhead(Apply(s, Settle(n, landed)))
  {
    var taken := Taken(Apply(s, Settle(n, landed)));
    assert taken <= Taken(s);
    forall j | 0 <= j < |s.senders|
      ensures StillNew(s.senders[j], taken)
    {
      assert StillNew(s.senders[j], Taken(s));
    }
  }

  lemma {:induction false} StepKeepsNothingAhead(s: System, e: Event)
    requires Valid(s) && NothingAhead(s) && Enabled(s, e) && Keeps(Clear, s, e)
    ensures NothingAhead(Apply(s, e)) && !Reuses(s, e)
  {
    NothingAheadIsNotReused(s, e);
    match e
    case Spawn =>
    case Settle(n, landed) => SettlingKeepsNothingAhead(s, n, landed);
    case By(i, act) => ActKeepsNothingAhead(s, i, act);
  }

  /** On every run whose adoptions leave nothing taken at or past the count, whatever the
      chain answers, no nonce the chain holds is handed out again. */
  lemma {:induction false} NoNonceIsHandedOutTwice(s: System, run: seq<Event>)
    requires Valid(s) && NothingAhead(s) && Runs(s, run) && Kept({Clear}, s, run)
    ensures NeverReuses(s, run) && NothingAhead(Final(s, run))
    decreases |run|
  {
    if run != [] {
      assert Keeps(Clear, s, run[0]);
      StepKeepsNothingAhead(s, run[0]);
      StepKeepsValid(s, run[0]);
      NoNonceIsHandedOutTwice(Apply(s, run[0]), run[1..]);
    }
  }

  // ── Building runs ──────────────────────────────────────────────────────

  const EVERY_RULE: set<Rule> := {Faithful, Current, Present, Sound, Unqueued, Clear}

  lemma {:induction false} Prefix(rules: set<Rule>, s: System, e: Event, run: seq<Event>)
    requires Enabled(s, e) && KeepsAll(rules, s, e) && Runs(Apply(s, e), run) && Kept(rules, Apply(s, e), run)
    ensures Runs(s, [e] + run) && Kept(rules, s, [e] + run)
    ensures Final(s, [e] + run) == Final(Apply(s, e), run)
    ensures NeverReuses(s, [e] + run) <==> !Reuses(s, e) && NeverReuses(Apply(s, e), run)
  {
    assert ([e] + run)[1..] == run;
  }

  lemma {:induction false} Join(rules: set<Rule>, s: System, a: seq<Event>, b: seq<Event>)
    requires Runs(s, a) && Kept(rules, s, a)
    requires Runs(Final(s, a), b) && Kept(rules, Final(s, a), b)
    ensures Runs(s, a + b) && Kept(rules, s, a + b) && Final(s, a + b) == Final(Final(s, a), b)
    ensures !NeverReuses(Final(s, a), b) ==> !NeverReuses(s, a + b)
    decreases |a|
  {
    if a == [] {
      assert a + b == b;
    } else {
      var next := Apply(s, a[0]);
      Join(rules, next, a[1..], b);
      Prefix(rules, s, a[0], a[1..] + b);
      assert a + b == [a[0]] + (a[1..] + b);
    }
  }

  function TicketFor(nonce: nat): PreparedTx {
    L.Ticket(nonce)
  }

  /** Whether a sender at the gate can walk straight to a ticket. */
  predicate Open(s: System) {
    !s.ledger.pipe.desynced && |s.ledger.pipe.inFlight| < s.ledger.pipe.maxInFlight
  }

  function WithTicket(s: System, i: nat): System
    requires i < |s.senders|
  {
    var n := s.ledger.pipe.nonces.next;
    s.(ledger := L.Do(s.ledger, L.Prepare(L.REQUEST, Some(L.FEES))),
       senders := s.senders[i := Holding(TicketFor(n))],
       gen := s.gen + 1)
  }

  lemma {:induction false} TakeTicketWhenReady(s: System, i: nat)
    requires Open(s) && i < |s.senders| && s.senders[i] == Ready(1)
    ensures var e := By(i, PrepareTx(L.REQUEST, Some(L.FEES)));
            Enabled(s, e) && Apply(s, e) == WithTicket(s, i)
            && (s.ledger.pipe.nonces.next in s.held ==> Reuses(s, e))
  {
  }

  lemma {:induction false} SimulateAndTakeTicket(s: System, i: nat) returns (run: seq<Event>)
    requires Open(s) && i < |s.senders| && s.senders[i].Simulating?
    ensures Runs(s, run) && Kept(EVERY_RULE, s, run) && Final(s, run) == WithTicket(s, i)
    ensures s.ledger.pipe.nonces.next in s.held ==> !NeverReuses(s, run)
  {
    var s1 := Apply(s, By(i, SimulateOk(1)));
    assert s1 == s.(senders := s.senders[i := Ready(1)]);
    TakeTicketWhenReady(s1, i);
    assert WithTicket(s1, i).senders == WithTicket(s, i).senders;
    Prefix(EVERY_RULE, s1, By(i, PrepareTx(L.REQUEST, Some(L.FEES))), []);
    run := [By(i, PrepareTx(L.REQUEST, Some(L.FEES)))] + [];
    Prefix(EVERY_RULE, s, By(i, SimulateOk(1)), run);
    run := [By(i, SimulateOk(1))] + run;
  }

  /** Another `send`, up to its ticket. */
  lemma {:induction false} SendToTicket(s: System) returns (run: seq<Event>)
    requires Open(s)
    ensures Runs(s, run) && Kept(EVERY_RULE, s, run)
    ensures Final(s, run) == WithTicket(Apply(s, Spawn), |s.senders|)
    ensures s.ledger.pipe.nonces.next in s.held ==> !NeverReuses(s, run)
  {
    var i := |s.senders|;
    var s1 := Apply(s, Spawn);
    assert s1.senders[i] == AtGate;
    var s2 := Apply(s1, By(i, PassGate));
    assert s2 == s1.(senders := s1.senders[i := Simulating]);
    run := SimulateAndTakeTicket(s2, i);
    assert WithTicket(s2, i).senders == WithTicket(s1, i).senders;
    Prefix(EVERY_RULE, s1, By(i, PassGate), run);
    run := [By(i, PassGate)] + run;
    Prefix(EVERY_RULE, s, Spawn, run);
    run := [Spawn] + run;
  }

  // ── Necessary ──────────────────────────────────────────────────────────

  /** A held nonce at or past the counter is handed out again, by as many further sends
      as it takes to reach it. */
  lemma {:induction false} WhatIsQueuedIsReused(s: System, n: nat) returns (run: seq<Event>)
    requires Open(s) && n in s.held && n >= s.ledger.pipe.nonces.next
    ensures Runs(s, run) && Kept(EVERY_RULE, s, run) && !NeverReuses(s, run)
    decreases n - s.ledger.pipe.nonces.next
  {
    run := SendToTicket(s);
    if s.ledger.pipe.nonces.next !in s.held {
      var more := WhatIsQueuedIsReused(Final(s, run), n);
      Join(EVERY_RULE, s, run, more);
      run := run + more;
    }
  }

  /** And so is a doubtful one, when the chain decides that it landed. */
  lemma {:induction false} WhatIsInDoubtIsReused(s: System, n: nat) returns (run: seq<Event>)
    requires Open(s) && n in s.doubtful && n >= s.ledger.pipe.nonces.next
    ensures Runs(s, run) && Kept(EVERY_RULE, s, run) && !NeverReuses(s, run)
  {
    var settled := Apply(s, Settle(n, true));
    run := WhatIsQueuedIsReused(settled, n);
    Prefix(EVERY_RULE, s, Settle(n, true), run);
    run := [Settle(n, true)] + run;
  }

  /** The flag is down and nobody holds a nonce, as an adoption leaves it. */
  ghost predicate Rested(s: System) {
    Valid(s) && !s.ledger.pipe.desynced && s.ledger.pipe.CanResync() && s.ledger.pipe.maxInFlight > 0
  }

  lemma {:induction false} RestedIsNew(s: System)
    requires Rested(s) && CountIsClear(s, s.ledger.pipe.nonces.next)
    ensures NothingAhead(s)
  {
    forall j | 0 <= j < |s.senders|
      ensures StillNew(s.senders[j], Taken(s))
    {
      SendersFit(s, j);
    }
  }

  /** The exact condition: no run whose later adoptions are clear hands out a nonce the
      chain holds, exactly when nothing at or past the counter is held or in doubt. It
      is no weaker to ask it only of runs that keep every other rule as well. */
  lemma {:induction false} ReuseIsExactlyWhatIsAhead(s: System)
    requires Rested(s)
    ensures CountIsClear(s, s.ledger.pipe.nonces.next) <==>
            (forall run :: Runs(s, run) && Kept({Clear}, s, run) ==> NeverReuses(s, run))
    ensures CountIsClear(s, s.ledger.pipe.nonces.next) <==>
            (forall run :: Runs(s, run) && Kept(EVERY_RULE, s, run) ==> NeverReuses(s, run))
  {
    if CountIsClear(s, s.ledger.pipe.nonces.next) {
      RestedIsNew(s);
      forall run | Runs(s, run) && Kept({Clear}, s, run)
        ensures NeverReuses(s, run)
      {
        NoNonceIsHandedOutTwice(s, run);
      }
      forall run | Runs(s, run) && Kept(EVERY_RULE, s, run)
        ensures NeverReuses(s, run)
      {
        FewerRules(EVERY_RULE, {Clear}, s, run);
      }
    } else {
      var n :| (n in s.held || n in s.doubtful) && n >= s.ledger.pipe.nonces.next;
      var run := ATakenNonceIsReused(s, n);
      FewerRules(EVERY_RULE, {Clear}, s, run);
    }
  }

  lemma {:induction false} ATakenNonceIsReused(s: System, n: nat) returns (run: seq<Event>)
    requires Open(s) && n in Taken(s) && n >= s.ledger.pipe.nonces.next
    ensures Runs(s, run) && Kept(EVERY_RULE, s, run) && !NeverReuses(s, run)
  {
    if n in s.held {
      run := WhatIsQueuedIsReused(s, n);
    } else {
      run := WhatIsInDoubtIsReused(s, n);
    }
  }

  lemma {:induction false} FewerRules(rules: set<Rule>, fewer: set<Rule>, s: System, run: seq<Event>)
    requires Kept(rules, s, run) && fewer <= rules
    ensures Kept(fewer, s, run)
    decreases |run|
  {
    if run != [] {
      FewerRules(rules, fewer, Apply(s, run[0]), run[1..]);
    }
  }

  /** So for an adoption: what follows it hands out no nonce the chain holds, exactly when
      nothing at or past the count was held or in doubt. */
  lemma {:induction false} AnAdoptionIsReuseFreeExactlyWhenClear(s: System, i: nat)
    requires Valid(s) && Enabled(s, By(i, Adopt)) && Adopts(s, By(i, Adopt)) && s.ledger.pipe.maxInFlight > 0
    ensures var s' := ApplyAct(s, i, Adopt);
            CountIsClear(s, s.senders[i].count) <==>
            (forall run :: Runs(s', run) && Kept({Clear}, s', run) ==> NeverReuses(s', run))
  {
    var s' := ApplyAct(s, i, Adopt);
    ActKeepsValid(s, i, Adopt);
    ReuseIsExactlyWhatIsAhead(s');
  }
}
