/** What a send asked for is what it holds, and what the pipeline tracks for it, whatever
    other sends do in between. */
module SendTickets {
  import opened Wrappers
  import opened Errors
  import opened Nonce
  import opened Pipeline
  import opened SendProtocol
  import opened SendGuarantees
  import L = NonceLedger

  // ── From `prepare` to the broadcast ────────────────────────────────────

  /** The request with the limit the send resolved. */
  function Resolved(request: TxRequest, limit: nat): TxRequest {
    TxRequest(request.to, request.calldata, request.value, limit, request.urgency)
  }

  /** Past `prepare`: a ticket for that request, limit and fees, or a submission with that
      limit, or returned. */
  predicate HoldsFor(p: Phase, request: TxRequest, limit: nat, fees: GasFees) {
    if HasTicket(p) then
      && p.prepared.request == Resolved(request, limit)
      && p.prepared.gasLimit == limit && p.prepared.gasFees == fees
    else if p.Awaiting? then p.gasLimit == limit
    else p.Done?
  }

  lemma {:induction false} PreparingGivesWhatWasAsked(pipe: Pipe, gen: nat, limit: nat, request: TxRequest,
                                                      fees: GasFees)
    ensures HoldsFor(PhaseAfter(pipe, gen, Ready(limit), PrepareTx(request, Some(fees))), request, limit, fees)
  {
  }

  lemma {:induction false} MovingKeepsWhatWasAsked(pipe: Pipe, gen: nat, at: Phase, act: Act,
                                                   request: TxRequest, limit: nat, fees: GasFees)
    requires CanAct(at, act) && HoldsFor(at, request, limit, fees)
    ensures HoldsFor(PhaseAfter(pipe, gen, at, act), request, limit, fees)
  {
  }

  lemma {:induction false} RunsKeepWhatWasAsked(s: System, run: seq<Event>, i: nat,
                                                request: TxRequest, limit: nat, fees: GasFees)
    requires Runs(s, run) && i < |s.senders| && HoldsFor(s.senders[i], request, limit, fees)
    ensures i < |Final(s, run).senders| && HoldsFor(Final(s, run).senders[i], request, limit, fees)
    decreases |run|
  {
    if run != [] {
      if run[0].By? && run[0].i == i {
        MovingKeepsWhatWasAsked(s.ledger.pipe, s.gen, s.senders[i], run[0].act, request, limit, fees);
      }
      RunsKeepWhatWasAsked(Apply(s, run[0]), run[1..], i, request, limit, fees);
    }
  }

  /** From the step that prepares on, over any run: the ticket is for the request that was
      given, with the limit the send had resolved and the fees of that moment. */
  lemma {:induction false} TicketsHoldWhatWasAsked(s: System, run: seq<Event>, i: nat, request: TxRequest,
                                                   fees: GasFees)
    requires i < |s.senders| && s.senders[i].Ready?
    requires Runs(Apply(s, By(i, PrepareTx(request, Some(fees)))), run)
    ensures var f := Final(Apply(s, By(i, PrepareTx(request, Some(fees)))), run);
            i < |f.senders| && HoldsFor(f.senders[i], request, s.senders[i].gasLimit, fees)
  {
    var next := Apply(s, By(i, PrepareTx(request, Some(fees))));
    PreparingGivesWhatWasAsked(s.ledger.pipe, s.gen, s.senders[i].gasLimit, request, fees);
    RunsKeepWhatWasAsked(next, run, i, request, s.senders[i].gasLimit, fees);
  }

  // ── From the record to the receipt ─────────────────────────────────────

  /** The pipeline tracks the transaction under its hash and under its nonce. */
  predicate Tracks(l: L.Ledger, prepared: PreparedTx, hash: TxHash, nowMs: nat) {
    && hash in l.pipe.inFlight
    && l.pipe.inFlight[hash] == InFlightTx(prepared.nonce, hash, prepared.request, nowMs, prepared.gasFees)
    && prepared.nonce in l.pipe.nonces.pending
    && l.pipe.nonces.pending[prepared.nonce] == PendingTx(hash, prepared.nonce, nowMs)
  }

  /** Awaiting the receipt of a tracked transaction, or returned. */
  predicate IsTracked(s: System, i: nat, prepared: PreparedTx, hash: TxHash, nowMs: nat) {
    && i < |s.senders|
    && (s.senders[i].Done?
        || (s.senders[i] == Awaiting(prepared.nonce, hash, prepared.gasLimit)
            && Tracks(s.ledger, prepared, hash, nowMs)))
  }

  lemma {:induction false} RecordingTracks(l: L.Ledger, prepared: PreparedTx, hash: TxHash, nowMs: nat)
    ensures Tracks(LedgerAfter(l, Accepted(prepared, hash), Record(nowMs)), prepared, hash, nowMs)
  {
  }

  /** Another sender's step leaves the entry as it is: its own ticket and hash are others. */
  lemma {:induction false} OthersKeepTheEntry(l: L.Ledger, at: Phase, act: Act,
                                              prepared: PreparedTx, hash: TxHash, nowMs: nat)
    requires CanAct(at, act) && SenderFits(l, at) && Tracks(l, prepared, hash, nowMs)
    requires at.Awaiting? ==> at.hash != hash && at.nonce != prepared.nonce
    ensures Tracks(LedgerAfter(l, at, act), prepared, hash, nowMs)
  {
    assert prepared.nonce in L.Flying(l);
    if act.Adopt? {
      assert l.pipe.inFlight != map[];
    }
  }

  lemma {:induction false} AnotherStepKeepsTracks(s: System, j: nat, act: Act, i: nat,
                                                  prepared: PreparedTx, hash: TxHash, nowMs: nat)
    requires Valid(s) && Enabled(s, By(j, act)) && i < |s.senders| && i != j
    requires s.senders[i] == Awaiting(prepared.nonce, hash, prepared.gasLimit)
    requires Tracks(s.ledger, prepared, hash, nowMs)
    ensures Tracks(ApplyAct(s, j, act).ledger, prepared, hash, nowMs)
  {
    SendersFit(s, j);
    if s.senders[j].Awaiting? {
      AwaitersDiffer(s, i, j);
    }
    OthersKeepTheEntry(s.ledger, s.senders[j], act, prepared, hash, nowMs);
  }

  lemma {:induction false} AReceiptEnds(pipe: Pipe, gen: nat, at: Phase, act: Act)
    requires CanAct(at, act) && at.Awaiting?
    ensures PhaseAfter(pipe, gen, at, act).Done?
  {
  }

  lemma {:induction false} StepKeepsTracked(s: System, e: Event, i: nat, prepared: PreparedTx, hash: TxHash, nowMs: nat)
    requires Valid(s) && Enabled(s, e) && IsTracked(s, i, prepared, hash, nowMs)
    ensures IsTracked(Apply(s, e), i, prepared, hash, nowMs)
  {
    match e
    case Spawn =>
    case Settle(_, _) =>
    case By(j, act) =>
      if j == i {
        AReceiptEnds(s.ledger.pipe, s.gen, s.senders[i], act);
      } else if s.senders[i].Awaiting? {
        AnotherStepKeepsTracks(s, j, act, i, prepared, hash, nowMs);
      }
  }

  lemma {:induction false} AwaitersDiffer(s: System, i: nat, j: nat)
    requires Valid(s) && i < |s.senders| && j < |s.senders| && i != j
    requires s.senders[i].Awaiting? && s.senders[j].Awaiting?
    ensures s.senders[i].hash != s.senders[j].hash && s.senders[i].nonce != s.senders[j].nonce
  {
    SendersFit(s, i);
    SendersFit(s, j);
    assert FlightsOwned(s.ledger.pipe.inFlight.Keys, s.senders);
    L.NoncesInFlightAreDistinct(s.ledger, s.senders[i].hash, s.senders[j].hash);
  }

  lemma {:induction false} RunsKeepTracked(s: System, run: seq<Event>, i: nat,
                                           prepared: PreparedTx, hash: TxHash, nowMs: nat)
    requires Valid(s) && Runs(s, run) && IsTracked(s, i, prepared, hash, nowMs)
    ensures IsTracked(Final(s, run), i, prepared, hash, nowMs)
    decreases |run|
  {
    if run != [] {
      StepKeepsTracked(s, run[0], i, prepared, hash, nowMs);
      StepKeepsValid(s, run[0]);
      RunsKeepTracked(Apply(s, run[0]), run[1..], i, prepared, hash, nowMs);
    }
  }

  /** From the step that records on, over any run until the send returns: its entry, by hash
      and by nonce, is of the ticket it held and of the time it was recorded. */
  lemma {:induction false} EntriesHoldWhatWasSent(s: System, run: seq<Event>, i: nat, nowMs: nat)
    requires Valid(s) && i < |s.senders| && s.senders[i].Accepted?
    requires Runs(Apply(s, By(i, Record(nowMs))), run)
    ensures IsTracked(Final(Apply(s, By(i, Record(nowMs))), run), i, s.senders[i].prepared, s.senders[i].hash, nowMs)
  {
    var next := Apply(s, By(i, Record(nowMs)));
    RecordingTracks(s.ledger, s.senders[i].prepared, s.senders[i].hash, nowMs);
    assert IsTracked(next, i, s.senders[i].prepared, s.senders[i].hash, nowMs);
    StepKeepsValid(s, By(i, Record(nowMs)));
    RunsKeepTracked(next, run, i, s.senders[i].prepared, s.senders[i].hash, nowMs);
  }

  /** The two joined: from `prepare` to the receipt, what is in flight under a send's hash
      is the request it was called with, at the limit it resolved and the fees it got. */
  lemma {:induction false} WhatIsInFlightIsWhatWasAsked(s: System, before: seq<Event>, after: seq<Event>, i: nat,
                                                        request: TxRequest, fees: GasFees, nowMs: nat)
    requires Valid(s) && i < |s.senders| && s.senders[i].Ready?
    requires Runs(Apply(s, By(i, PrepareTx(request, Some(fees)))), before)
    requires var sent := Final(Apply(s, By(i, PrepareTx(request, Some(fees)))), before);
             i < |sent.senders| && sent.senders[i].Accepted? && Runs(Apply(sent, By(i, Record(nowMs))), after)
    ensures var sent := Final(Apply(s, By(i, PrepareTx(request, Some(fees)))), before);
            var f := Final(Apply(sent, By(i, Record(nowMs))), after);
            var hash := sent.senders[i].hash;
            && i < |f.senders|
            && (!f.senders[i].Done? ==>
                  && f.senders[i].Awaiting? && f.senders[i].hash == hash && hash in f.ledger.pipe.inFlight
                  && f.ledger.pipe.inFlight[hash].request == Resolved(request, s.senders[i].gasLimit)
                  && f.ledger.pipe.inFlight[hash].gasFees == fees
                  && f.ledger.pipe.inFlight[hash].submittedAtMs == nowMs)
  {
    var prepared := Apply(s, By(i, PrepareTx(request, Some(fees))));
    StepKeepsValid(s, By(i, PrepareTx(request, Some(fees))));
    EveryRunIsValid(prepared, before);
    TicketsHoldWhatWasAsked(s, before, i, request, fees);
    EntriesHoldWhatWasSent(Final(prepared, before), after, i, nowMs);
  }
}
