/** Any number of concurrent `send` calls over one pipeline and an unreliable chain,
    as a step system. A step is one hold of the pipeline's mutex, or the answer to one
    await; awaits fall between steps, so any interleaving of the senders is a run. */
module SendProtocol {
  import opened Wrappers
  import opened Errors
  import opened Pipeline
  import L = NonceLedger

  datatype Receipt = Receipt(status: bool, gasUsed: nat)

  /** Where one `send` stands. */
  datatype Phase =
    | AtGate
    | Counting                                  // awaiting the chain's transaction count
    | CountRead(count: nat, asOf: nat)          // read, not adopted; `asOf` dates it
    | Simulating
    | Ready(gasLimit: nat)
    | Holding(prepared: PreparedTx)             // a ticket, not signed
    | Signed(prepared: PreparedTx, hash: TxHash)
    | Accepted(prepared: PreparedTx, hash: TxHash)  // the broadcast returned Ok
    | Refused(prepared: PreparedTx, hash: TxHash)   // the broadcast returned an error
    | Awaiting(nonce: nat, hash: TxHash, gasLimit: nat)  // recorded, awaiting the receipt
    | Done(outcome: Result<Receipt, SendError>)

  /** One step of a sender: the answer to its await, and the block that follows. */
  datatype Act =
    | PassGate
    | CountOk(chainCount: nat)
    | CountErr
    | Adopt
    | SimulateOk(limit: nat)
    | SimulateErr(error: SendError)
    | PrepareTx(request: TxRequest, fees: Option<GasFees>)
    | SignOk(digest: nat)
    | SignErr
    | BroadcastOk
    | BroadcastErr
    | GiveUp
    | Record(nowMs: nat)
    | ReceiptOk(receipt: Receipt, outOfGas: bool)
    | ReceiptErr

  datatype Event =
    | Spawn                               // another call of `send`
    | Settle(nonce: nat, landed: bool)    // the chain decides a doubtful transaction
    | By(i: nat, act: Act)

  datatype System = System(
    ledger: L.Ledger,
    senders: seq<Phase>,
    attempted: map<nat, TxHash>,  // the senders that reached the broadcast, and what they sent
    held: set<nat>,               // the nonces the chain holds, in its mempool or mined
    doubtful: set<nat>,           // broadcast, reported failed or never confirmed, still undecided
    gen: nat)                     // how often the pipeline has changed

  predicate HasTicket(p: Phase) {
    p.Holding? || p.Signed? || p.Accepted? || p.Refused?
  }

  /** The failures of the simulation stage, and of a pinned limit of zero. */
  predicate BeforePrepare(e: SendError) {
    match e
    case Rpc => false
    case InvalidConfig => true
    case Transaction(t) => t.SimulationReverted? || t.SimulationFailed? || t.GasUnavailable?
  }

  predicate CanAct(at: Phase, act: Act) {
    match act
    case PassGate => at.AtGate?
    case CountOk(_) => at.Counting?
    case CountErr => at.Counting?
    case Adopt => at.CountRead?
    case SimulateOk(_) => at.Simulating?
    case SimulateErr(error) => at.Simulating? && BeforePrepare(error)
    case PrepareTx(_, _) => at.Ready?
    case SignOk(_) => at.Holding?
    case SignErr => at.Holding?
    case BroadcastOk => at.Signed?
    case BroadcastErr => at.Signed?
    case GiveUp => at.Refused?
    case Record(_) => at.Accepted?
    case ReceiptOk(_, _) => at.Awaiting?
    case ReceiptErr => at.Awaiting?
  }

  /** What the step does to the pipeline, if it touches it. */
  function OpOf(pipe: Pipe, at: Phase, act: Act): Option<L.Op>
    requires CanAct(at, act)
  {
    match act
    case Adopt => if pipe.desynced && pipe.CanResync() then Some(L.Resync(at.count)) else None
    case PrepareTx(request, fees) => Some(L.Prepare(request.(gasLimit := at.gasLimit), fees))
    case SignErr => Some(L.Abandon(at.prepared.nonce))
    case GiveUp => Some(L.BroadcastFail(at.prepared.nonce))
    case Record(nowMs) => Some(L.Record(at.hash, at.prepared, nowMs))
    case ReceiptOk(_, _) => Some(L.Confirm(at.hash))
    case ReceiptErr => Some(L.TimeOut(at.hash))
    case _ => None
  }

  function LedgerAfter(l: L.Ledger, at: Phase, act: Act): L.Ledger
    requires CanAct(at, act)
  {
    var op := OpOf(l.pipe, at, act);
    if op.Some? then L.Do(l, op.value) else l
  }

  function Fails(e: TransactionError): Phase {
    Done(Err(Transaction(e)))
  }

  function PhaseAfter(pipe: Pipe, gen: nat, at: Phase, act: Act): Phase
    requires CanAct(at, act)
  {
    match act
    case PassGate =>
      if !pipe.desynced then Simulating
      else if !pipe.CanResync() then Fails(NonceDesynced(|pipe.inFlight|))
      else Counting
    case CountOk(count) => CountRead(count, gen)
    case CountErr => Done(Err(Rpc))
    case Adopt => Simulating
    case SimulateOk(limit) => Ready(limit)
    case SimulateErr(error) => Done(Err(error))
    case PrepareTx(request, fees) =>
      var r := pipe.Prepare(request.(gasLimit := at.gasLimit), fees).1;
      if r.Ok? then Holding(r.value) else Fails(r.error)
    case SignOk(digest) => Signed(at.prepared, TxHash(at.prepared.nonce, digest))
    case SignErr => Fails(SigningFailed)
    case BroadcastOk => Accepted(at.prepared, at.hash)
    case BroadcastErr => Refused(at.prepared, at.hash)
    case GiveUp => Fails(BroadcastFailed(at.hash))
    case Record(_) => Awaiting(at.prepared.nonce, at.hash, at.prepared.gasLimit)
    case ReceiptOk(receipt, outOfGas) =>
      if receipt.status then Done(Ok(receipt))
      else if outOfGas then Fails(OutOfGas(at.hash, receipt.gasUsed, at.gasLimit))
      else Fails(Reverted(at.hash))
    case ReceiptErr => Fails(ReceiptTimeout(at.hash))
  }

  /** A successful broadcast is held by the chain. */
  function HeldAfter(held: set<nat>, at: Phase, act: Act): set<nat>
    requires CanAct(at, act)
  {
    match act
    case BroadcastOk => held + {at.prepared.nonce}
    case _ => held
  }

  /** A broadcast that reported failure, and a receipt that never came, leave a doubt. */
  function DoubtAfter(doubtful: set<nat>, at: Phase, act: Act): set<nat>
    requires CanAct(at, act)
  {
    match act
    case BroadcastErr => doubtful + {at.prepared.nonce}
    case ReceiptErr => doubtful + {at.nonce}
    case _ => doubtful
  }

  function AttemptAfter(attempt: Option<TxHash>, at: Phase, act: Act): Option<TxHash>
    requires CanAct(at, act)
  {
    match act
    case BroadcastOk => Some(at.hash)
    case BroadcastErr => Some(at.hash)
    case _ => attempt
  }

  function AttemptOf(attempted: map<nat, TxHash>, i: nat): Option<TxHash> {
    if i in attempted then Some(attempted[i]) else None
  }

  predicate Enabled(s: System, e: Event) {
    match e
    case Spawn => true
    case Settle(nonce, _) => nonce in s.doubtful
    case By(i, act) => i < |s.senders| && CanAct(s.senders[i], act)
  }

  function ApplyAct(s: System, i: nat, act: Act): System
    requires i < |s.senders| && CanAct(s.senders[i], act)
  {
    var at := s.senders[i];
    var ledger := LedgerAfter(s.ledger, at, act);
    var attempt := AttemptAfter(AttemptOf(s.attempted, i), at, act);
    System(
      ledger,
      s.senders[i := PhaseAfter(s.ledger.pipe, s.gen, at, act)],
      if attempt.Some? then s.attempted[i := attempt.value] else s.attempted,
      HeldAfter(s.held, at, act),
      DoubtAfter(s.doubtful, at, act),
      if ledger == s.ledger then s.gen else s.gen + 1)
  }

  function Apply(s: System, e: Event): System
    requires Enabled(s, e)
  {
    match e
    case Spawn => s.(senders := s.senders + [AtGate])
    case Settle(n, landed) =>
      s.(held := if landed then s.held + {n} else s.held - {n}, doubtful := s.doubtful - {n})
    case By(i, act) => ApplyAct(s, i, act)
  }

  predicate Runs(s: System, run: seq<Event>)
    decreases |run|
  {
    run == [] || (Enabled(s, run[0]) && Runs(Apply(s, run[0]), run[1..]))
  }

  function Final(s: System, run: seq<Event>): System
    requires Runs(s, run)
    decreases |run|
  {
    if run == [] then s else Final(Apply(s, run[0]), run[1..])
  }

  lemma {:induction false} RunsSplit(s: System, before: seq<Event>, after: seq<Event>)
    requires Runs(s, before + after)
    ensures Runs(s, before) && Runs(Final(s, before), after)
    ensures Final(Final(s, before), after) == Final(s, before + after)
    decreases |before|
  {
    if before == [] {
      assert before + after == after;
    } else {
      assert (before + after)[1..] == before[1..] + after;
      RunsSplit(Apply(s, before[0]), before[1..], after);
    }
  }

  lemma {:induction false} Prepend(s: System, e: Event, run: seq<Event>)
    requires Enabled(s, e) && Runs(Apply(s, e), run)
    ensures Runs(s, [e] + run) && Final(s, [e] + run) == Final(Apply(s, e), run)
  {
    assert ([e] + run)[1..] == run;
  }

  function Start(count: nat, maxInFlight: nat, held: set<nat>): System {
    System(L.Start(count, maxInFlight), [], map[], held, {}, 0)
  }

  // ── The invariant ──────────────────────────────────────────────────────

  predicate Owns(p: Phase, n: nat) {
    HasTicket(p) && p.prepared.nonce == n
  }

  predicate Awaits(p: Phase, h: TxHash) {
    p.Awaiting? && p.hash == h
  }

  ghost predicate SomeOwner(senders: seq<Phase>, n: nat) {
    exists i :: 0 <= i < |senders| && Owns(senders[i], n)
  }

  ghost predicate SomeAwaits(senders: seq<Phase>, h: TxHash) {
    exists i :: 0 <= i < |senders| && Awaits(senders[i], h)
  }

  /** Every ticket is owned by one live sender, and every live sender's ticket is out. */
  ghost predicate TicketsOwned(tickets: set<nat>, senders: seq<Phase>) {
    && (forall i :: 0 <= i < |senders| && HasTicket(senders[i]) ==> senders[i].prepared.nonce in tickets)
    && (forall i, j :: 0 <= i < j < |senders| && HasTicket(senders[i]) && HasTicket(senders[j]) ==>
          senders[i].prepared.nonce != senders[j].prepared.nonce)
    && (forall n :: n in tickets ==> SomeOwner(senders, n))
  }

  /** Every in-flight hash is awaited by one live sender, and the other way round. */
  ghost predicate FlightsOwned(hashes: set<TxHash>, senders: seq<Phase>) {
    && (forall i :: 0 <= i < |senders| && senders[i].Awaiting? ==> senders[i].hash in hashes)
    && (forall i, j :: 0 <= i < j < |senders| && senders[i].Awaiting? && senders[j].Awaiting? ==>
          senders[i].hash != senders[j].hash)
    && (forall h :: h in hashes ==> SomeAwaits(senders, h))
  }

  /** A hash is the hash of the nonce it travels with. */
  ghost predicate HashesFit(inFlight: map<TxHash, InFlightTx>, senders: seq<Phase>) {
    && (forall h :: h in inFlight ==> inFlight[h].nonce == h.nonce)
    && (forall i :: 0 <= i < |senders| ==> Fits(senders[i]))
  }

  predicate Fits(p: Phase) {
    match p
    case Signed(prepared, h) => h.nonce == prepared.nonce
    case Accepted(prepared, h) => h.nonce == prepared.nonce
    case Refused(prepared, h) => h.nonce == prepared.nonce
    case Awaiting(nonce, h, _) => h.nonce == nonce
    case _ => true
  }

  /** What a sender has said, or must still say, about its broadcast. */
  predicate Honest(p: Phase, attempt: Option<TxHash>) {
    match p
    case Accepted(_, h) => attempt == Some(h)
    case Refused(_, h) => attempt == Some(h)
    case Awaiting(_, h, _) => attempt == Some(h)
    case Done(outcome) => if outcome.Ok? then attempt.Some? else attempt == outcome.error.Hash()
    case _ => attempt == None
  }

  ghost predicate AllHonest(attempted: map<nat, TxHash>, senders: seq<Phase>) {
    && (forall i :: i in attempted ==> i < |senders|)
    && (forall i :: 0 <= i < |senders| ==> Honest(senders[i], AttemptOf(attempted, i)))
  }

  ghost predicate Valid(s: System) {
    && L.Valid(s.ledger)
    && L.NoSilentHole(s.ledger)
    && TicketsOwned(s.ledger.tickets, s.senders)
    && FlightsOwned(s.ledger.pipe.inFlight.Keys, s.senders)
    && HashesFit(s.ledger.pipe.inFlight, s.senders)
    && AllHonest(s.attempted, s.senders)
  }

  // ── One sender's step, on its own ──────────────────────────────────────

  /** What a step does to the tickets is what it does to its own sender's ticket. */
  lemma {:induction false} TicketsMove(l: L.Ledger, gen: nat, at: Phase, act: Act)
    requires CanAct(at, act)
    ensures var p, tickets := PhaseAfter(l.pipe, gen, at, act), LedgerAfter(l, at, act).tickets;
      && (!HasTicket(at) && !HasTicket(p) ==> tickets == l.tickets)
      && (HasTicket(at) && HasTicket(p) ==> tickets == l.tickets && p.prepared.nonce == at.prepared.nonce)
      && (!HasTicket(at) && HasTicket(p) ==>
            p.prepared.nonce == l.pipe.nonces.next && tickets == l.tickets + {p.prepared.nonce})
      && (HasTicket(at) && !HasTicket(p) ==> tickets == l.tickets - {at.prepared.nonce})
  {
  }

  /** And the same for what is in flight. */
  lemma {:induction false} FlightsMove(l: L.Ledger, gen: nat, at: Phase, act: Act)
    requires CanAct(at, act)
    requires at.Awaiting? ==> at.hash in l.pipe.inFlight
    ensures var p, hashes := PhaseAfter(l.pipe, gen, at, act), LedgerAfter(l, at, act).pipe.inFlight.Keys;
      && (!at.Awaiting? && !p.Awaiting? ==> hashes == l.pipe.inFlight.Keys)
      && !(at.Awaiting? && p.Awaiting?)
      && (p.Awaiting? ==> at.Accepted? && p.hash == at.hash && hashes == l.pipe.inFlight.Keys + {p.hash})
      && (at.Awaiting? ==> hashes == l.pipe.inFlight.Keys - {at.hash})
  {
    match act
    case Record(nowMs) =>
      assert LedgerAfter(l, at, act).pipe == l.pipe.RecordSubmission(at.hash, at.prepared, nowMs);
    case ReceiptOk(_, _) =>
      assert LedgerAfter(l, at, act).pipe == l.pipe.Resolve(at.hash);
    case ReceiptErr =>
      assert LedgerAfter(l, at, act).pipe == l.pipe.Resolve(at.hash).MarkDesynced();
    case _ =>
      assert LedgerAfter(l, at, act).pipe.inFlight == l.pipe.inFlight;
  }

  lemma {:induction false} HonestyMoves(pipe: Pipe, gen: nat, at: Phase, act: Act, attempt: Option<TxHash>)
    requires CanAct(at, act) && Honest(at, attempt) && Fits(at)
    ensures Honest(PhaseAfter(pipe, gen, at, act), AttemptAfter(attempt, at, act))
    ensures Fits(PhaseAfter(pipe, gen, at, act))
  {
  }

  lemma {:induction false} HashesStayFit(l: L.Ledger, at: Phase, act: Act)
    requires CanAct(at, act) && Fits(at)
    requires forall h :: h in l.pipe.inFlight ==> l.pipe.inFlight[h].nonce == h.nonce
    ensures var l' := LedgerAfter(l, at, act);
            forall h :: h in l'.pipe.inFlight ==> l'.pipe.inFlight[h].nonce == h.nonce
  {
  }

  // ── Ownership under one sender's move ──────────────────────────────────

  lemma {:induction false} SendersMove(senders: seq<Phase>, i: nat, p: Phase)
    requires i < |senders|
    ensures forall n :: Owns(p, n) || (SomeOwner(senders, n) && !Owns(senders[i], n)) ==>
              SomeOwner(senders[i := p], n)
    ensures forall h :: Awaits(p, h) || (SomeAwaits(senders, h) && !Awaits(senders[i], h)) ==>
              SomeAwaits(senders[i := p], h)
  {
    var after := senders[i := p];
    assert after[i] == p;
    forall n | SomeOwner(senders, n) && !Owns(senders[i], n)
      ensures SomeOwner(after, n)
    {
      var j :| 0 <= j < |senders| && Owns(senders[j], n);
      assert after[j] == senders[j];
    }
    forall h | SomeAwaits(senders, h) && !Awaits(senders[i], h)
      ensures SomeAwaits(after, h)
    {
      var j :| 0 <= j < |senders| && Awaits(senders[j], h);
      assert after[j] == senders[j];
    }
  }

  lemma {:induction false} TicketsStayOwned(tickets: set<nat>, senders: seq<Phase>, i: nat, p: Phase)
    requires i < |senders| && TicketsOwned(tickets, senders)
    ensures !HasTicket(senders[i]) && !HasTicket(p) ==> TicketsOwned(tickets, senders[i := p])
    ensures HasTicket(senders[i]) && HasTicket(p) && p.prepared.nonce == senders[i].prepared.nonce ==>
              TicketsOwned(tickets, senders[i := p])
    ensures !HasTicket(senders[i]) && HasTicket(p) && p.prepared.nonce !in tickets ==>
              TicketsOwned(tickets + {p.prepared.nonce}, senders[i := p])
    ensures HasTicket(senders[i]) && !HasTicket(p) ==>
              TicketsOwned(tickets - {senders[i].prepared.nonce}, senders[i := p])
  {
    SendersMove(senders, i, p);
    if HasTicket(p) {
      assert SomeOwner(senders[i := p], p.prepared.nonce) by {
        assert Owns(p, p.prepared.nonce);
      }
    }
  }

  lemma {:induction false} FlightsStayOwned(hashes: set<TxHash>, senders: seq<Phase>, i: nat, p: Phase)
    requires i < |senders| && FlightsOwned(hashes, senders)
    ensures !senders[i].Awaiting? && !p.Awaiting? ==> FlightsOwned(hashes, senders[i := p])
    ensures !senders[i].Awaiting? && p.Awaiting? && p.hash !in hashes ==>
              FlightsOwned(hashes + {p.hash}, senders[i := p])
    ensures senders[i].Awaiting? && !p.Awaiting? ==>
              FlightsOwned(hashes - {senders[i].hash}, senders[i := p])
  {
    SendersMove(senders, i, p);
    if p.Awaiting? {
      assert SomeAwaits(senders[i := p], p.hash) by {
        assert Awaits(p, p.hash);
      }
    }
  }

  lemma {:induction false} ANewSenderOwnsNothing(tickets: set<nat>, hashes: set<TxHash>, senders: seq<Phase>)
    requires TicketsOwned(tickets, senders) && FlightsOwned(hashes, senders)
    ensures TicketsOwned(tickets, senders + [AtGate]) && FlightsOwned(hashes, senders + [AtGate])
  {
    var after := senders + [AtGate];
    forall n | n in tickets
      ensures SomeOwner(after, n)
    {
      var j :| 0 <= j < |senders| && Owns(senders[j], n);
      assert after[j] == senders[j];
    }
    forall h | h in hashes
      ensures SomeAwaits(after, h)
    {
      var j :| 0 <= j < |senders| && Awaits(senders[j], h);
      assert after[j] == senders[j];
    }
  }

  // ── Every step keeps the invariant ─────────────────────────────────────

  /** The hash a sender is about to record is new: it determines the nonce, and the
      nonce is this sender's ticket, so nothing in flight has it. */
  lemma {:induction false} TheHashIsFresh(s: System, i: nat)
    requires Valid(s) && i < |s.senders| && s.senders[i].Accepted?
    ensures s.senders[i].hash !in s.ledger.pipe.inFlight
  {
    assert Fits(s.senders[i]);
    forall h | h in s.ledger.pipe.inFlight
      ensures h != s.senders[i].hash
    {
      assert h.nonce in L.Flying(s.ledger);
    }
  }

  /** What the invariant says of one sender against the ledger. */
  ghost predicate SenderFits(l: L.Ledger, at: Phase) {
    && Fits(at)
    && (HasTicket(at) ==> at.prepared.nonce in l.tickets && at.prepared.nonce !in L.Flying(l))
    && (at.Accepted? ==> at.hash !in l.pipe.inFlight)
    && (at.Awaiting? ==> at.hash in l.pipe.inFlight && l.pipe.inFlight[at.hash].nonce == at.nonce)
  }

  lemma {:induction false} SendersFit(s: System, i: nat)
    requires Valid(s) && i < |s.senders|
    ensures SenderFits(s.ledger, s.senders[i])
    ensures s.senders[i].Awaiting? ==> s.senders[i].nonce in L.Flying(s.ledger)
  {
    assert Fits(s.senders[i]);
    if s.senders[i].Accepted? {
      TheHashIsFresh(s, i);
    }
  }

  lemma {:induction false} OneSenderIsLegal(l: L.Ledger, at: Phase, act: Act)
    requires CanAct(at, act) && SenderFits(l, at)
    ensures var op := OpOf(l.pipe, at, act);
            op.Some? ==> L.Legal(l, op.value) && !op.value.Fail?
  {
  }

  /** `send` keeps the pipeline's terms: it consumes its own ticket once, records a
      hash nothing in flight has, and adopts a count only when nothing holds a nonce. */
  lemma {:induction false} SendIsLegal(s: System, i: nat, act: Act)
    requires Valid(s) && Enabled(s, By(i, act))
    ensures var op := OpOf(s.ledger.pipe, s.senders[i], act);
            op.Some? ==> L.Legal(s.ledger, op.value) && !op.value.Fail?
  {
    assert SenderFits(s.ledger, s.senders[i]) by {
      SendersFit(s, i);
    }
    OneSenderIsLegal(s.ledger, s.senders[i], act);
  }

  lemma {:induction false} LegalKeepsLedger(l: L.Ledger, op: Option<L.Op>)
    requires L.Valid(l) && L.NoSilentHole(l)
    requires op.Some? ==> L.Legal(l, op.value) && !op.value.Fail?
    ensures op.Some? ==> L.Valid(L.Do(l, op.value)) && L.NoSilentHole(L.Do(l, op.value))
  {
    if op.Some? {
      L.StepKeepsValid(l, op.value);
      L.StepKeepsNoSilentHole(l, op.value);
    }
  }

  lemma {:induction false} ActKeepsLedger(s: System, i: nat, act: Act)
    requires Valid(s) && Enabled(s, By(i, act))
    ensures var l := LedgerAfter(s.ledger, s.senders[i], act);
            L.Valid(l) && L.NoSilentHole(l)
  {
    SendIsLegal(s, i, act);
    LegalKeepsLedger(s.ledger, OpOf(s.ledger.pipe, s.senders[i], act));
  }

  lemma {:induction false} ActKeepsOwnership(s: System, i: nat, act: Act)
    requires Valid(s) && Enabled(s, By(i, act))
    ensures var l := LedgerAfter(s.ledger, s.senders[i], act);
            var senders := s.senders[i := PhaseAfter(s.ledger.pipe, s.gen, s.senders[i], act)];
            TicketsOwned(l.tickets, senders) && FlightsOwned(l.pipe.inFlight.Keys, senders)
  {
    var at, p := s.senders[i], PhaseAfter(s.ledger.pipe, s.gen, s.senders[i], act);
    TicketsMove(s.ledger, s.gen, at, act);
    TicketsStayOwned(s.ledger.tickets, s.senders, i, p);
    FlightsMove(s.ledger, s.gen, at, act);
    FlightsStayOwned(s.ledger.pipe.inFlight.Keys, s.senders, i, p);
    if at.Accepted? {
      TheHashIsFresh(s, i);
    }
  }

  lemma {:induction false} ActKeepsHonesty(s: System, i: nat, act: Act)
    requires Valid(s) && Enabled(s, By(i, act))
    ensures AllHonest(ApplyAct(s, i, act).attempted, ApplyAct(s, i, act).senders)
    ensures forall j :: 0 <= j < |s.senders| ==> Fits(ApplyAct(s, i, act).senders[j])
  {
    var s' := ApplyAct(s, i, act);
    HonestyMoves(s.ledger.pipe, s.gen, s.senders[i], act, AttemptOf(s.attempted, i));
    forall j | 0 <= j < |s.senders|
      ensures Honest(s'.senders[j], AttemptOf(s'.attempted, j)) && Fits(s'.senders[j])
    {
      assert j != i ==> s'.senders[j] == s.senders[j] && AttemptOf(s'.attempted, j) == AttemptOf(s.attempted, j);
    }
  }

  lemma {:induction false} ActKeepsValid(s: System, i: nat, act: Act)
    requires Valid(s) && Enabled(s, By(i, act))
    ensures Valid(ApplyAct(s, i, act))
  {
    ActKeepsLedger(s, i, act);
    ActKeepsOwnership(s, i, act);
    HashesStayFit(s.ledger, s.senders[i], act);
    ActKeepsHonesty(s, i, act);
  }

  lemma {:induction false} SpawnKeepsValid(s: System)
    requires Valid(s)
    ensures Valid(Apply(s, Spawn))
  {
    ANewSenderOwnsNothing(s.ledger.tickets, s.ledger.pipe.inFlight.Keys, s.senders);
    ANewSenderFits(s.ledger.pipe.inFlight, s.senders);
    ANewSenderIsHonest(s.attempted, s.senders);
  }

  lemma {:induction false} ANewSenderFits(inFlight: map<TxHash, InFlightTx>, senders: seq<Phase>)
    requires HashesFit(inFlight, senders)
    ensures HashesFit(inFlight, senders + [AtGate])
  {
  }

  lemma {:induction false} ANewSenderIsHonest(attempted: map<nat, TxHash>, senders: seq<Phase>)
    requires AllHonest(attempted, senders)
    ensures AllHonest(attempted, senders + [AtGate])
  {
  }

  lemma {:induction false} StepKeepsValid(s: System, e: Event)
    requires Valid(s) && Enabled(s, e)
    ensures Valid(Apply(s, e))
  {
    match e
    case Spawn => SpawnKeepsValid(s);
    case Settle(_, _) =>
    case By(i, act) => ActKeepsValid(s, i, act);
  }

  lemma {:induction false} StartIsValid(count: nat, maxInFlight: nat, held: set<nat>)
    ensures Valid(Start(count, maxInFlight, held))
  {
    L.StartIsValid(count, maxInFlight);
  }

  /** On every interleaving of any number of sends, whatever the chain answers. */
  lemma {:induction false} EveryRunIsValid(s: System, run: seq<Event>)
    requires Valid(s) && Runs(s, run)
    ensures Valid(Final(s, run))
    decreases |run|
  {
    if run != [] {
      StepKeepsValid(s, run[0]);
      EveryRunIsValid(Apply(s, run[0]), run[1..]);
    }
  }
}
