/** What one call of `send` returns and what it leaves, by its answers and by the pipeline
    it found. */
module SendOutcomes {
  import opened Wrappers
  import opened Errors
  import opened Pipeline
  import opened SendProtocol
  import opened SendScript
  import L = NonceLedger

  type Outcome = Result<Receipt, SendError>

  // ── What a send returns ────────────────────────────────────────────────

  function Failure(error: TransactionError): Outcome {
    Err(Transaction(error))
  }

  /** The limit a send goes out with: the pinned one, or the estimate. */
  function LimitOf(call: Call): nat
    requires call.answers.simulation.Ok?
  {
    if call.pinned.Some? then call.pinned.value else call.answers.simulation.value
  }

  /** Of a transaction that was broadcast: the receipt of the poll that decided, or why it
      is none. */
  ghost predicate IsReceiptOutcome(hash: TxHash, limit: nat, polls: nat -> Poll, outcome: Outcome) {
    exists k: nat :: Decides(polls, k) && outcome == ReceiptOutcome(hash, limit, polls(k).receipt)
  }

  function ReceiptOutcome(hash: TxHash, limit: nat, receipt: Option<Receipt>): Outcome {
    match receipt
    case None => Failure(ReceiptTimeout(hash))
    case Some(r) =>
      if r.status then Ok(r)
      else if limit > 0 && r.gasUsed * 100 >= limit * 95 then Failure(OutOfGas(hash, r.gasUsed, limit))
      else Failure(Reverted(hash))
  }

  /** Of a send with a ticket for `nonce`. */
  ghost predicate IsTicketOutcome(nonce: nat, limit: nat, a: Answers, outcome: Outcome) {
    if a.signature.None? then outcome == Failure(SigningFailed)
    else if !a.accepted then outcome == Failure(BroadcastFailed(TxHash(nonce, a.signature.value)))
    else IsReceiptOutcome(TxHash(nonce, a.signature.value), limit, a.polls, outcome)
  }

  /** Of a send past the gate, when the next nonce is `nonce` and `inFlight` of
      `maxInFlight` transactions are in flight. */
  ghost predicate IsOpenOutcome(nonce: nat, inFlight: nat, maxInFlight: nat, call: Call, outcome: Outcome) {
    var a := call.answers;
    if call.pinned == Some(0) then outcome == Err(InvalidConfig)
    else if a.simulation.Err? then outcome == Failure(a.simulation.error)
    else if inFlight >= maxInFlight then outcome == Failure(TooManyInFlight(inFlight, maxInFlight))
    else if a.fees.None? then outcome == Failure(GasUnavailable)
    else IsTicketOutcome(nonce, LimitOf(call), a, outcome)
  }

  /** Whether the gate is shut: the flag is up, and something holds a nonce. */
  predicate IsShut(pipe: Pipe) {
    pipe.desynced && (pipe.inFlight != map[] || pipe.preparing != 0)
  }

  /** The next nonce of a send past the gate: the counter, or the count that repairs it. */
  function NonceOf(pipe: Pipe, call: Call): nat {
    if pipe.desynced && call.answers.count.Some? then call.answers.count.value else pipe.nonces.next
  }

  /** Of a whole send over the pipeline it finds. */
  ghost predicate IsOutcome(pipe: Pipe, call: Call, outcome: Outcome) {
    if IsShut(pipe) then outcome == Failure(NonceDesynced(|pipe.inFlight|))
    else if pipe.desynced && call.answers.count.None? then outcome == Err(Rpc)
    else IsOpenOutcome(NonceOf(pipe, call), |pipe.inFlight|, pipe.maxInFlight, call, outcome)
  }

  // ── What a send leaves ─────────────────────────────────────────────────

  /** Whether the outcome says that the nonce was spent, or may be. */
  predicate Spent(outcome: Outcome) {
    outcome.Ok? || outcome.error.Hash().Some?
  }

  /** What is in flight, pending and being prepared is as it was. A send that was turned
      away changed nothing at all; any other moved the counter past the nonce exactly when
      it is spent, and left the flag up exactly when what became of it is not known. */
  ghost predicate Leaves(pipe: Pipe, call: Call, outcome: Outcome, after: Pipe) {
    && after.maxInFlight == pipe.maxInFlight && after.inFlight == pipe.inFlight
    && after.nonces.pending == pipe.nonces.pending && after.preparing == pipe.preparing
    && if IsShut(pipe) || (pipe.desynced && call.answers.count.None?) then after == pipe
       else
         && after.nonces.next == NonceOf(pipe, call) + (if Spent(outcome) then 1 else 0)
         && (after.desynced <==> outcome.Err? && outcome.error.IsUnconfirmed())
  }

  // ── From step to step ──────────────────────────────────────────────────

  /** The outcome the send is bound for, and the pipeline it will leave. */
  function OutcomeAt(s: System, i: nat, call: Call): Outcome
    requires i < |s.senders| && call.Plausible()
  {
    ScriptsRun(s, i, call);
    End(s, i, call).senders[i].outcome
  }

  function PipeAt(s: System, i: nat, call: Call): Pipe
    requires i < |s.senders| && call.Plausible()
  {
    End(s, i, call).ledger.pipe
  }

  lemma {:induction false} OneStepCloser(s: System, i: nat, call: Call) returns (s': System)
    requires i < |s.senders| && call.Plausible() && !s.senders[i].Done?
    ensures var act := NextAct(s.senders[i], call);
            && CanAct(s.senders[i], act) && i < |s'.senders|
            && s'.senders[i] == PhaseAfter(s.ledger.pipe, s.gen, s.senders[i], act)
            && s'.ledger == LedgerAfter(s.ledger, s.senders[i], act)
    ensures OutcomeAt(s', i, call) == OutcomeAt(s, i, call) && PipeAt(s', i, call) == PipeAt(s, i, call)
  {
    var gen;
    s', gen := Go(s, i, call, s.ledger, s.senders[i], End(s, i, call));
  }

  lemma {:induction false} WhenDone(s: System, i: nat, call: Call)
    requires i < |s.senders| && call.Plausible() && s.senders[i].Done?
    ensures OutcomeAt(s, i, call) == s.senders[i].outcome && PipeAt(s, i, call) == s.ledger.pipe
  {
    HasArrived(s, i, call, s.ledger, s.senders[i], End(s, i, call));
  }

  /** A pipeline with a ticket out for its next nonce. */
  function Ticketed(pipe: Pipe): Pipe {
    pipe.(nonces := pipe.nonces.(next := pipe.nonces.next + 1), preparing := pipe.preparing + 1)
  }

  /** The nonce was spent; whether the flag is up is `desynced`. */
  function SpentPipe(pipe: Pipe, desynced: bool): Pipe {
    pipe.(nonces := pipe.nonces.(next := pipe.nonces.next + 1), desynced := desynced)
  }

  /** The next nonce of the pipeline is nobody's. */
  ghost predicate IsFree(pipe: Pipe) {
    pipe.nonces.next !in pipe.nonces.pending && forall h :: h in pipe.inFlight ==> h.nonce != pipe.nonces.next
  }

  lemma {:induction false} FromTheReceipt(s: System, i: nat, call: Call, pipe: Pipe, hash: TxHash, limit: nat)
    requires i < |s.senders| && call.Plausible()
    requires IsFree(pipe) && hash.nonce == pipe.nonces.next
    requires s.senders[i] == Awaiting(hash.nonce, hash, limit)
    requires s.ledger.pipe.maxInFlight == pipe.maxInFlight && s.ledger.pipe.desynced == pipe.desynced
    requires s.ledger.pipe.preparing == pipe.preparing && s.ledger.pipe.nonces.next == pipe.nonces.next + 1
    requires hash in s.ledger.pipe.inFlight && s.ledger.pipe.inFlight[hash].nonce == hash.nonce
    requires s.ledger.pipe.inFlight - {hash} == pipe.inFlight
    requires s.ledger.pipe.nonces.pending - {hash.nonce} == pipe.nonces.pending
    ensures IsReceiptOutcome(hash, limit, call.answers.polls, OutcomeAt(s, i, call))
    ensures var outcome := OutcomeAt(s, i, call);
            PipeAt(s, i, call) == SpentPipe(pipe, pipe.desynced || (outcome.Err? && outcome.error.IsUnconfirmed()))
  {
    var k := FirstDecision(call.answers.polls, 0);
    var receipt := call.answers.polls(k).receipt;
    var done := OneStepCloser(s, i, call);
    if receipt.Some? {
      OutOfGasIsNinetyFivePercent(receipt.value.gasUsed, limit);
    }
    WhenDone(done, i, call);
    assert OutcomeAt(s, i, call) == ReceiptOutcome(hash, limit, receipt);
  }

  lemma {:induction false} RecordingIsUndone(pipe: Pipe, prepared: PreparedTx, hash: TxHash, nowMs: nat)
    requires IsFree(pipe) && prepared.nonce == pipe.nonces.next && hash.nonce == prepared.nonce
    ensures var recorded := Ticketed(pipe).RecordSubmission(hash, prepared, nowMs);
      && recorded.maxInFlight == pipe.maxInFlight && recorded.desynced == pipe.desynced
      && recorded.preparing == pipe.preparing && recorded.nonces.next == pipe.nonces.next + 1
      && hash in recorded.inFlight && recorded.inFlight[hash].nonce == hash.nonce
      && recorded.inFlight - {hash} == pipe.inFlight
      && recorded.nonces.pending - {hash.nonce} == pipe.nonces.pending
  {
  }

  lemma {:induction false} FromTheBroadcast(s: System, i: nat, call: Call, pipe: Pipe, prepared: PreparedTx,
                                            hash: TxHash)
    requires i < |s.senders| && call.Plausible()
    requires IsFree(pipe) && prepared.nonce == pipe.nonces.next && hash.nonce == prepared.nonce
    requires s.senders[i] == Signed(prepared, hash) && s.ledger.pipe == Ticketed(pipe)
    ensures var outcome := OutcomeAt(s, i, call);
            if call.answers.accepted then IsReceiptOutcome(hash, prepared.gasLimit, call.answers.polls, outcome)
            else outcome == Failure(BroadcastFailed(hash))
    ensures var outcome := OutcomeAt(s, i, call);
            PipeAt(s, i, call) == SpentPipe(pipe, pipe.desynced || (outcome.Err? && outcome.error.IsUnconfirmed()))
  {
    var sent := OneStepCloser(s, i, call);
    var next := OneStepCloser(sent, i, call);
    if call.answers.accepted {
      RecordingIsUndone(pipe, prepared, hash, call.nowMs);
      FromTheReceipt(next, i, call, pipe, hash, prepared.gasLimit);
    } else {
      WhenDone(next, i, call);
    }
  }

  lemma {:induction false} FromTheTicket(s: System, i: nat, call: Call, pipe: Pipe, prepared: PreparedTx)
    requires i < |s.senders| && call.Plausible()
    requires IsFree(pipe) && prepared.nonce == pipe.nonces.next
    requires s.senders[i] == Holding(prepared) && s.ledger.pipe == Ticketed(pipe)
    ensures IsTicketOutcome(prepared.nonce, prepared.gasLimit, call.answers, OutcomeAt(s, i, call))
    ensures var outcome := OutcomeAt(s, i, call);
            PipeAt(s, i, call)
            == if call.answers.signature.None? then pipe
               else SpentPipe(pipe, pipe.desynced || (outcome.Err? && outcome.error.IsUnconfirmed()))
  {
    var signed := OneStepCloser(s, i, call);
    if call.answers.signature.None? {
      WhenDone(signed, i, call);
      assert pipe.nonces.pending - {prepared.nonce} == pipe.nonces.pending;
      assert signed.ledger.pipe == Ticketed(pipe).AbandonPrepared(prepared.nonce);
    } else {
      FromTheBroadcast(signed, i, call, pipe, prepared, TxHash(prepared.nonce, call.answers.signature.value));
    }
  }

  /** Whether a send past the gate gets as far as a signature. */
  predicate GetsToSign(pipe: Pipe, call: Call) {
    && call.pinned != Some(0) && call.answers.simulation.Ok?
    && |pipe.inFlight| < pipe.maxInFlight && call.answers.fees.Some? && call.answers.signature.Some?
  }

  lemma {:induction false} PastTheGate(s: System, i: nat, call: Call)
    requires i < |s.senders| && call.Plausible() && s.senders[i].Simulating? && IsFree(s.ledger.pipe)
    ensures var pipe := s.ledger.pipe;
            IsOpenOutcome(pipe.nonces.next, |pipe.inFlight|, pipe.maxInFlight, call, OutcomeAt(s, i, call))
    ensures var pipe, outcome := s.ledger.pipe, OutcomeAt(s, i, call);
            PipeAt(s, i, call)
            == if GetsToSign(pipe, call)
               then SpentPipe(pipe, pipe.desynced || (outcome.Err? && outcome.error.IsUnconfirmed()))
               else pipe
  {
    var simulated := OneStepCloser(s, i, call);
    if simulated.senders[i].Done? {
      WhenDone(simulated, i, call);
    } else {
      assert simulated.senders[i] == Ready(LimitOf(call));
      var prepared := OneStepCloser(simulated, i, call);
      if prepared.senders[i].Done? {
        WhenDone(prepared, i, call);
      } else {
        var pipe := s.ledger.pipe;
        assert prepared.ledger.pipe == Ticketed(pipe);
        FromTheTicket(prepared, i, call, pipe, prepared.senders[i].prepared);
      }
    }
  }

  /** A nonce is spent, or may be, exactly when the send signed; and an outcome of a send
      that did not is never unconfirmed. */
  lemma {:induction false} SpentExactlyWhenSigned(pipe: Pipe, nonce: nat, call: Call, outcome: Outcome)
    requires call.Plausible()
    requires IsOpenOutcome(nonce, |pipe.inFlight|, pipe.maxInFlight, call, outcome)
    ensures Spent(outcome) <==> GetsToSign(pipe, call)
    ensures outcome.Err? && outcome.error.IsUnconfirmed() ==> GetsToSign(pipe, call)
  {
  }

  lemma {:induction false} NextIsFree(s: System)
    requires Valid(s)
    ensures IsFree(s.ledger.pipe)
  {
    forall h | h in s.ledger.pipe.inFlight
      ensures h.nonce != s.ledger.pipe.nonces.next
    {
      assert h.nonce in L.Flying(s.ledger);
    }
    assert s.ledger.pipe.nonces.next !in L.Flying(s.ledger);
  }

  lemma {:induction false} NothingPendingWhenDrained(s: System)
    requires Valid(s) && s.ledger.pipe.inFlight == map[]
    ensures s.ledger.pipe.nonces.pending == map[]
  {
    L.InverseMapsHaveOneSize(s.ledger.pipe);
  }

  /** The sender is where a send past the gate starts, over the pipeline as the gate left
      it: as it was, or with the chain's count adopted. */
  lemma {:induction false} ThroughTheGate(s: System, i: nat, call: Call) returns (s': System)
    requires Valid(s) && i < |s.senders| && call.Plausible() && s.senders[i].AtGate?
    requires !IsShut(s.ledger.pipe) && (s.ledger.pipe.desynced ==> call.answers.count.Some?)
    ensures i < |s'.senders| && s'.senders[i].Simulating? && IsFree(s'.ledger.pipe)
    ensures s'.ledger.pipe == s.ledger.pipe.(desynced := false,
                                             nonces := s.ledger.pipe.nonces.(next := NonceOf(s.ledger.pipe, call)))
    ensures OutcomeAt(s', i, call) == OutcomeAt(s, i, call) && PipeAt(s', i, call) == PipeAt(s, i, call)
  {
    NextIsFree(s);
    s' := OneStepCloser(s, i, call);
    if s.ledger.pipe.desynced {
      NothingPendingWhenDrained(s);
      s' := OneStepCloser(s', i, call);
      s' := OneStepCloser(s', i, call);
    }
  }

  /** What a send returns and leaves, when nothing comes between its steps: the outcome its
      answers and the pipeline it found decide, and a pipeline with nothing of its own. */
  lemma {:induction false} WhatASendReturnsAndLeaves(s: System, i: nat, call: Call)
    requires Valid(s) && i < |s.senders| && call.Plausible() && s.senders[i].AtGate?
    ensures IsOutcome(s.ledger.pipe, call, OutcomeAt(s, i, call))
    ensures Leaves(s.ledger.pipe, call, OutcomeAt(s, i, call), PipeAt(s, i, call))
  {
    var pipe := s.ledger.pipe;
    if IsShut(pipe) || (pipe.desynced && call.answers.count.None?) {
      TurnedAway(s, i, call);
    } else {
      var open := ThroughTheGate(s, i, call);
      PastTheGate(open, i, call);
      SpentExactlyWhenSigned(open.ledger.pipe, NonceOf(pipe, call), call, OutcomeAt(s, i, call));
    }
  }

  lemma {:induction false} TurnedAway(s: System, i: nat, call: Call)
    requires i < |s.senders| && call.Plausible() && s.senders[i].AtGate?
    requires IsShut(s.ledger.pipe) || (s.ledger.pipe.desynced && call.answers.count.None?)
    ensures OutcomeAt(s, i, call)
            == if IsShut(s.ledger.pipe) then Failure(NonceDesynced(|s.ledger.pipe.inFlight|)) else Err(Rpc)
    ensures PipeAt(s, i, call) == s.ledger.pipe
  {
    assert |s.ledger.pipe.inFlight| == 0 <==> s.ledger.pipe.inFlight == map[];
    var gated := OneStepCloser(s, i, call);
    if gated.senders[i].Done? {
      WhenDone(gated, i, call);
    } else {
      var counted := OneStepCloser(gated, i, call);
      WhenDone(counted, i, call);
    }
  }

  lemma {:induction false} FailedSignatures(pipe: Pipe, call: Call, outcome: Outcome, after: Pipe)
    requires call.Plausible() && IsOutcome(pipe, call, outcome) && Leaves(pipe, call, outcome, after)
    requires outcome == Failure(SigningFailed)
    ensures after == pipe.(desynced := false, nonces := pipe.nonces.(next := NonceOf(pipe, call)))
  {
  }

  /** In particular a send that fails to sign leaves the pipeline as it found it, or as
      the count it adopted repaired it. */
  lemma {:induction false} AFailedSignatureCostsNothing(s: System, i: nat, call: Call)
    requires Valid(s) && i < |s.senders| && call.Plausible() && s.senders[i].AtGate?
    requires OutcomeAt(s, i, call) == Failure(SigningFailed)
    ensures var pipe := s.ledger.pipe;
            PipeAt(s, i, call)
            == pipe.(desynced := false, nonces := pipe.nonces.(next := NonceOf(pipe, call)))
  {
    WhatASendReturnsAndLeaves(s, i, call);
    FailedSignatures(s.ledger.pipe, call, OutcomeAt(s, i, call), PipeAt(s, i, call));
  }

  lemma {:induction false} SucceedsExactlyWhen(pipe: Pipe, call: Call, outcome: Outcome, k: nat)
    requires call.Plausible() && IsOutcome(pipe, call, outcome) && Decides(call.answers.polls, k)
    ensures var receipt := call.answers.polls(k).receipt;
            outcome.Ok?
            <==> && (pipe.desynced ==> !IsShut(pipe) && call.answers.count.Some?)
                 && GetsToSign(pipe, call) && call.answers.accepted
                 && receipt.Some? && receipt.value.status
    ensures outcome.Ok? ==> Some(outcome.value) == call.answers.polls(k).receipt
  {
    forall j: nat | Decides(call.answers.polls, j)
      ensures j == k
    {
      OnePollDecides(call.answers.polls, j, k);
    }
  }

  /** And a send succeeds exactly when the gate is open, or can be repaired and the count is
      read; the limit is not zero and the simulation passed; the limit of transactions and
      the fees allow a ticket; it was signed and broadcast; and the poll that decided had
      the receipt of a transaction that succeeded. */
  lemma {:induction false} ASendSucceedsExactlyWhen(s: System, i: nat, call: Call, k: nat)
    requires Valid(s) && i < |s.senders| && call.Plausible() && s.senders[i].AtGate?
    requires Decides(call.answers.polls, k)
    ensures var pipe, receipt := s.ledger.pipe, call.answers.polls(k).receipt;
            OutcomeAt(s, i, call).Ok?
            <==> && (pipe.desynced ==> !IsShut(pipe) && call.answers.count.Some?)
                 && GetsToSign(pipe, call) && call.answers.accepted
                 && receipt.Some? && receipt.value.status
    ensures OutcomeAt(s, i, call).Ok? ==> Some(OutcomeAt(s, i, call).value) == call.answers.polls(k).receipt
  {
    WhatASendReturnsAndLeaves(s, i, call);
    SucceedsExactlyWhen(s.ledger.pipe, call, OutcomeAt(s, i, call), k);
  }
}
