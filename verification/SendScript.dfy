/** One call of `send`, uninterrupted beside any number of other sends: the steps that the
    answers of its awaits spell. They are a run of the step system, so what holds of
    every run holds of the call. */
module SendScript {
  import opened Wrappers
  import opened Errors
  import opened Pipeline
  import opened SendProtocol
  import opened Drain
  import L = NonceLedger

  // ── Waiting for the receipt ────────────────────────────────────────────

  const RECEIPT_TIMEOUT_MS: nat := 30_000
  const RECEIPT_POLL_INTERVAL_MS: nat := 2_000

  /** One answer to a receipt poll, and how long it took. */
  datatype Poll = Poll(receipt: Option<Receipt>, tookMs: nat)

  /** When poll `k` is answered, in milliseconds from the start. */
  function AnsweredAt(polls: nat -> Poll, k: nat): nat {
    if k == 0 then polls(0).tookMs
    else AnsweredAt(polls, k - 1) + RECEIPT_POLL_INTERVAL_MS + polls(k).tookMs
  }

  /** Poll `k` is the one that ends the wait: no earlier one had a receipt or came at
      or after the deadline. */
  ghost predicate Decides(polls: nat -> Poll, k: nat) {
    && (polls(k).receipt.Some? || AnsweredAt(polls, k) >= RECEIPT_TIMEOUT_MS)
    && forall j :: 0 <= j < k ==> WaitsOn(polls, j)
  }

  predicate WaitsOn(polls: nat -> Poll, j: nat) {
    polls(j).receipt.None? && AnsweredAt(polls, j) < RECEIPT_TIMEOUT_MS
  }

  // ── The poll that decides ──────────────────────────────────────────────

  lemma {:induction false} PollsTakeTime(polls: nat -> Poll, k: nat)
    ensures AnsweredAt(polls, k) >= RECEIPT_POLL_INTERVAL_MS * k
    decreases k
  {
    if k > 0 {
      PollsTakeTime(polls, k - 1);
    }
  }

  function FirstDecision(polls: nat -> Poll, from: nat): (k: nat)
    requires forall j :: 0 <= j < from ==> WaitsOn(polls, j)
    ensures Decides(polls, k)
    decreases 16 - from
  {
    PollsTakeTime(polls, from);
    if WaitsOn(polls, from) then FirstDecision(polls, from + 1) else from
  }

  lemma {:induction false} OnePollDecides(polls: nat -> Poll, j: nat, k: nat)
    requires Decides(polls, j) && Decides(polls, k)
    ensures j == k
  {
    assert !WaitsOn(polls, j) && !WaitsOn(polls, k);
  }

  // ── What a call's awaits are answered ──────────────────────────────────

  /** The answers of one send's awaits; those it does not reach are not looked at. */
  datatype Answers = Answers(
    count: Option<nat>,                             // None: the count could not be read
    simulation: Result<nat, TransactionError>,      // the limit, or why not
    fees: Option<GasFees>,
    signature: Option<nat>,                         // None: signing failed
    accepted: bool,                                 // whether the broadcast returned Ok
    polls: nat -> Poll)

  /** A call of `send`: its request, the gas limit it pins if it does, the clock. */
  datatype Call = Call(request: TxRequest, pinned: Option<nat>, nowMs: nat, answers: Answers) {
    predicate Plausible() {
      answers.simulation.Err? ==> BeforePrepare(Transaction(answers.simulation.error))
    }
  }

  /** The share of the limit at or past which a reverted receipt means out of gas. */
  const OUT_OF_GAS_RATIO: real := 0.95

  predicate IsOutOfGas(gasUsed: nat, gasLimit: nat) {
    gasLimit > 0 && gasUsed as real >= gasLimit as real * OUT_OF_GAS_RATIO
  }

  lemma {:induction false} OutOfGasIsNinetyFivePercent(gasUsed: nat, gasLimit: nat)
    ensures IsOutOfGas(gasUsed, gasLimit) <==> gasLimit > 0 && gasUsed * 100 >= gasLimit * 95
  {
    assert gasLimit as real * OUT_OF_GAS_RATIO * 100.0 == (gasLimit * 95) as real;
  }

  /** The step the answers spell, where the send stands. */
  function NextAct(at: Phase, call: Call): Act
    requires !at.Done?
  {
    var a := call.answers;
    match at
    case AtGate => PassGate
    case Counting => if a.count.Some? then CountOk(a.count.value) else CountErr
    case CountRead(_, _) => Adopt
    case Simulating =>
      if call.pinned == Some(0) then SimulateErr(InvalidConfig)
      else if a.simulation.Err? then SimulateErr(Transaction(a.simulation.error))
      else SimulateOk(if call.pinned.Some? then call.pinned.value else a.simulation.value)
    case Ready(_) => PrepareTx(call.request, a.fees)
    case Holding(_) => if a.signature.Some? then SignOk(a.signature.value) else SignErr
    case Signed(_, _) => if a.accepted then BroadcastOk else BroadcastErr
    case Accepted(_, _) => Record(call.nowMs)
    case Refused(_, _) => GiveUp
    case Awaiting(_, _, gasLimit) =>
      match a.polls(FirstDecision(a.polls, 0)).receipt
      case Some(receipt) => ReceiptOk(receipt, IsOutOfGas(receipt.gasUsed, gasLimit))
      case None => ReceiptErr
  }

  function StepsLeft(p: Phase): nat {
    if p.AtGate? then 9 else Remaining(p)
  }

  lemma {:induction false} TheAnswersAreActs(pipe: Pipe, gen: nat, at: Phase, call: Call)
    requires !at.Done? && call.Plausible()
    ensures CanAct(at, NextAct(at, call))
    ensures StepsLeft(PhaseAfter(pipe, gen, at, NextAct(at, call))) < StepsLeft(at)
  {
  }

  /** The steps of sender `i` alone, from where it stands to its return. */
  function Script(s: System, i: nat, call: Call): seq<Event>
    requires i < |s.senders| && call.Plausible()
    decreases StepsLeft(s.senders[i])
  {
    if s.senders[i].Done? then []
    else
      TheAnswersAreActs(s.ledger.pipe, s.gen, s.senders[i], call);
      var e := By(i, NextAct(s.senders[i], call));
      [e] + Script(Apply(s, e), i, call)
  }

  lemma {:induction false} ScriptsRun(s: System, i: nat, call: Call)
    requires i < |s.senders| && call.Plausible()
    ensures Runs(s, Script(s, i, call))
    ensures |Final(s, Script(s, i, call)).senders| == |s.senders|
    ensures Final(s, Script(s, i, call)).senders[i].Done?
    decreases StepsLeft(s.senders[i])
  {
    if !s.senders[i].Done? {
      TheAnswersAreActs(s.ledger.pipe, s.gen, s.senders[i], call);
      var e := By(i, NextAct(s.senders[i], call));
      ScriptsRun(Apply(s, e), i, call);
      Prepend(s, e, Script(Apply(s, e), i, call));
    }
  }

  /** Where the send leaves the system when it returns. */
  function End(s: System, i: nat, call: Call): System
    requires i < |s.senders| && call.Plausible()
  {
    ScriptsRun(s, i, call);
    Final(s, Script(s, i, call))
  }

  /** So a send keeps every invariant of the runs, whatever other sends have done. */
  lemma {:induction false} SendKeepsValid(s: System, i: nat, call: Call)
    requires Valid(s) && i < |s.senders| && call.Plausible()
    ensures Valid(End(s, i, call))
  {
    ScriptsRun(s, i, call);
    EveryRunIsValid(s, Script(s, i, call));
  }

  /** Sender `i` of `s` is at `p` over the ledger `l`, and is bound for `end`. */
  ghost predicate Bound(s: System, i: nat, call: Call, l: L.Ledger, p: Phase, end: System) {
    && call.Plausible() && i < |s.senders|
    && s.ledger == l && s.senders[i] == p && End(s, i, call) == end
  }

  lemma {:induction false} Go(s: System, i: nat, call: Call, l: L.Ledger, p: Phase, end: System)
    returns (s': System, gen: nat)
    requires Bound(s, i, call, l, p, end) && !p.Done?
    ensures gen == s.gen && CanAct(p, NextAct(p, call))
    ensures var act := NextAct(p, call);
            Bound(s', i, call, LedgerAfter(l, p, act), PhaseAfter(l.pipe, gen, p, act), end)
  {
    TheAnswersAreActs(s.ledger.pipe, s.gen, p, call);
    var e := By(i, NextAct(p, call));
    s', gen := Apply(s, e), s.gen;
    ScriptsRun(s', i, call);
    Prepend(s, e, Script(s', i, call));
  }

  lemma {:induction false} HasArrived(s: System, i: nat, call: Call, l: L.Ledger, p: Phase, end: System)
    requires Bound(s, i, call, l, p, end) && p.Done?
    ensures end == s
  {
  }
}
