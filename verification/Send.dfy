/** `send` on the pipeline object: every await is answered by the arguments. */
module Send {
  import opened Wrappers
  import opened Errors
  import opened Pipeline
  import opened SendProtocol
  import opened SendScript
  import opened SendOutcomes

  /** Returns the receipt of the poll that decides, even a late one, or the timeout of
      this very hash; after at most sixteen polls. */
  method WaitForReceipt(txHash: TxHash, polls: nat -> Poll)
    returns (r: Result<Receipt, TransactionError>, k: nat)
    ensures Decides(polls, k) && k <= 15
    ensures r == match polls(k).receipt
                 case Some(receipt) => Ok(receipt)
                 case None => Err(ReceiptTimeout(txHash))
  {
    k := 0;
    var clock := 0;
    while true
      invariant clock + polls(k).tookMs == AnsweredAt(polls, k)
      invariant 2_000 * k <= clock < 32_000
      invariant forall j :: 0 <= j < k ==> WaitsOn(polls, j)
      decreases 32_000 - clock
    {
      var poll := polls(k);
      clock := clock + poll.tookMs;
      assert clock == AnsweredAt(polls, k);
      if poll.receipt.Some? {
        return Ok(poll.receipt.value), k;
      }
      if clock >= RECEIPT_TIMEOUT_MS {
        return Err(ReceiptTimeout(txHash)), k;
      }
      clock := clock + RECEIPT_POLL_INTERVAL_MS;
      k := k + 1;
    }
  }

  // ── The whole send ─────────────────────────────────────────────────────

  /** The pipeline object and the outcome are those of the script's end. */
  ghost predicate EndsAs(end: System, i: nat, pipe: Pipe, outcome: Result<Receipt, SendError>) {
    i < |end.senders| && end.ledger.pipe == pipe && end.senders[i] == Done(outcome)
  }

  /** The whole send, over whatever other sends have left in the pipeline: it returns what
      its answers and the pipeline decide, and leaves nothing of its own in it. */
  method Send(pipeline: TxPipeline, call: Call, ghost s: System, ghost i: nat)
    returns (outcome: Result<Receipt, SendError>)
    requires call.Plausible() && i < |s.senders| && s.senders[i].AtGate?
    requires s.ledger.pipe == pipeline.Model()
    modifies pipeline, pipeline.nonceMgr
    ensures IsOutcome(old(pipeline.Model()), call, outcome)
    ensures Valid(s) ==> Leaves(old(pipeline.Model()), call, outcome, pipeline.Model())
    ensures EndsAs(End(s, i, call), i, pipeline.Model(), outcome)
  {
    if Valid(s) {
      WhatASendReturnsAndLeaves(s, i, call);
    }
    outcome := FromTheGate(pipeline, call, s, i);
  }

  /** The gate, and the count that repairs the sequence. */
  method FromTheGate(pipeline: TxPipeline, call: Call, ghost s: System, ghost i: nat)
    returns (outcome: Result<Receipt, SendError>)
    requires call.Plausible() && i < |s.senders| && s.senders[i].AtGate?
    requires s.ledger.pipe == pipeline.Model()
    modifies pipeline, pipeline.nonceMgr
    ensures IsOutcome(old(pipeline.Model()), call, outcome)
    ensures EndsAs(End(s, i, call), i, pipeline.Model(), outcome)
  {
    ghost var end := End(s, i, call);
    ghost var now, gen := Go(s, i, call, s.ledger, AtGate, end);

    var needsResync := false;
    var desynced := pipeline.IsDesynced();
    if desynced {
      var canResync := pipeline.CanResync();
      if !canResync {
        var inFlight := pipeline.InFlightCount();
        HasArrived(now, i, call, now.ledger, now.senders[i], end);
        return Err(Transaction(NonceDesynced(inFlight)));
      }
      needsResync := true;
    }
    if needsResync {
      now, gen := Go(now, i, call, now.ledger, Counting, end);
      if call.answers.count.None? {
        HasArrived(now, i, call, now.ledger, now.senders[i], end);
        return Err(Rpc);
      }
      var count := call.answers.count.value;
      now, gen := Go(now, i, call, now.ledger, now.senders[i], end);
      desynced := pipeline.IsDesynced();
      var canResync := pipeline.CanResync();
      if desynced && canResync {
        pipeline.ResyncNonce(count);
      }
    }
    outcome := SimulateAndPrepare(pipeline, call, now, i, end);
  }

  /** Past the gate: simulate and prepare. */
  method SimulateAndPrepare(pipeline: TxPipeline, call: Call, ghost s: System, ghost i: nat, ghost end: System)
    returns (outcome: Result<Receipt, SendError>)
    requires Bound(s, i, call, s.ledger, Simulating, end) && s.ledger.pipe == pipeline.Model()
    modifies pipeline, pipeline.nonceMgr
    ensures var pipe := old(pipeline.Model());
            IsOpenOutcome(pipe.nonces.next, |pipe.inFlight|, pipe.maxInFlight, call, outcome)
    ensures EndsAs(end, i, pipeline.Model(), outcome)
  {
    var a := call.answers;
    ghost var now, gen := Go(s, i, call, s.ledger, Simulating, end);
    if call.pinned == Some(0) {
      HasArrived(now, i, call, now.ledger, now.senders[i], end);
      return Err(InvalidConfig);
    }
    if a.simulation.Err? {
      HasArrived(now, i, call, now.ledger, now.senders[i], end);
      return Err(Transaction(a.simulation.error));
    }
    var limit := if call.pinned.Some? then call.pinned.value else a.simulation.value;
    now, gen := Go(now, i, call, now.ledger, Ready(limit), end);
    var prepared := pipeline.Prepare(call.request.(gasLimit := limit), a.fees);
    if prepared.Err? {
      HasArrived(now, i, call, now.ledger, now.senders[i], end);
      return Err(Transaction(prepared.error));
    }
    outcome := Submit(pipeline, prepared.value, call, now, i, end);
  }

  /** From the ticket on: sign, broadcast, record. */
  method Submit(pipeline: TxPipeline, prepared: PreparedTx, call: Call, ghost s: System, ghost i: nat,
                ghost end: System)
    returns (outcome: Result<Receipt, SendError>)
    requires Bound(s, i, call, s.ledger, Holding(prepared), end) && s.ledger.pipe == pipeline.Model()
    modifies pipeline, pipeline.nonceMgr
    ensures IsTicketOutcome(prepared.nonce, prepared.gasLimit, call.answers, outcome)
    ensures EndsAs(end, i, pipeline.Model(), outcome)
  {
    var a := call.answers;
    ghost var now, gen := Go(s, i, call, s.ledger, Holding(prepared), end);
    if a.signature.None? {
      pipeline.AbandonPrepared(prepared.nonce);
      HasArrived(now, i, call, now.ledger, now.senders[i], end);
      return Err(Transaction(SigningFailed));
    }
    var txHash := TxHash(prepared.nonce, a.signature.value);
    now, gen := Go(now, i, call, now.ledger, Signed(prepared, txHash), end);
    if !a.accepted {
      pipeline.MarkDesyncedPrepared();
      now, gen := Go(now, i, call, now.ledger, Refused(prepared, txHash), end);
      HasArrived(now, i, call, now.ledger, now.senders[i], end);
      return Err(Transaction(BroadcastFailed(txHash)));
    }
    now, gen := Go(now, i, call, now.ledger, Accepted(prepared, txHash), end);
    pipeline.RecordSubmission(txHash, prepared, call.nowMs);
    outcome := Await(pipeline, txHash, prepared, call, now, i, end);
  }

  /** From the recorded submission on: the receipt, and what it says. */
  method Await(pipeline: TxPipeline, txHash: TxHash, prepared: PreparedTx, call: Call,
               ghost s: System, ghost i: nat, ghost end: System)
    returns (outcome: Result<Receipt, SendError>)
    requires Bound(s, i, call, s.ledger, Awaiting(prepared.nonce, txHash, prepared.gasLimit), end)
    requires s.ledger.pipe == pipeline.Model()
    modifies pipeline, pipeline.nonceMgr
    ensures IsReceiptOutcome(txHash, prepared.gasLimit, call.answers.polls, outcome)
    ensures EndsAs(end, i, pipeline.Model(), outcome)
  {
    ghost var now, gen := Go(s, i, call, s.ledger, s.senders[i], end);
    HasArrived(now, i, call, now.ledger, now.senders[i], end);
    var polled, k := WaitForReceipt(txHash, call.answers.polls);
    OnePollDecides(call.answers.polls, k, FirstDecision(call.answers.polls, 0));
    pipeline.Resolve(txHash);
    if polled.Err? {
      pipeline.MarkDesynced();
      return Err(Transaction(polled.error));
    }
    var receipt := polled.value;
    OutOfGasIsNinetyFivePercent(receipt.gasUsed, prepared.gasLimit);
    if !receipt.status && IsOutOfGas(receipt.gasUsed, prepared.gasLimit) {
      return Err(Transaction(OutOfGas(txHash, receipt.gasUsed, prepared.gasLimit)));
    }
    if !receipt.status {
      return Err(Transaction(Reverted(txHash)));
    }
    outcome := Ok(receipt);
  }
}
