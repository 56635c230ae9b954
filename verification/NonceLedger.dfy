/** Where every nonce is. The ledger is the pipeline's value beside the history that
    the pipeline itself does not keep: the tickets that are out, the count last
    adopted from the chain, the nonces confirmed since, and the largest number of
    tickets ever out at once. One operation is one hold of the mutex. */
module NonceLedger {
  import opened Wrappers
  import opened Errors
  import opened Nonce
  import opened Pipeline

  datatype Ledger = Ledger(
    pipe: Pipe,
    tickets: set<nat>,    // prepared, and neither recorded nor given back
    base: nat,            // the constructor's count, or the last one adopted
    confirmed: set<nat>,  // broadcast successfully and resolved, since `base`
    peak: nat)            // the largest `preparing` so far

  datatype Op =
    | Prepare(request: TxRequest, fees: Option<GasFees>)
    | Record(txHash: TxHash, prepared: PreparedTx, nowMs: nat)
    | Confirm(txHash: TxHash)
    | TimeOut(txHash: TxHash)
    | Abandon(nonce: nat)
    | BroadcastFail(nonce: nat)
    | Flag
    | Resync(count: nat)
    | Fail(txHash: TxHash)

  function Start(count: nat, maxInFlight: nat): Ledger {
    Ledger(Pipe(Nonces(count, map[]), maxInFlight, map[], false, 0), {}, count, {}, 0)
  }

  /** What the pipeline asks of its owner: a ticket is consumed once, a hash is
      recorded once, and a count is adopted only when nothing holds a nonce. */
  predicate Legal(l: Ledger, op: Op) {
    match op
    case Record(h, prepared, _) => prepared.nonce in l.tickets && h !in l.pipe.inFlight
    case Abandon(nonce) => nonce in l.tickets
    case BroadcastFail(nonce) => nonce in l.tickets
    case Resync(_) => l.pipe.CanResync()
    case _ => true
  }

  function Max(a: int, b: nat): nat {
    if a > b then a else b
  }

  function Do(l: Ledger, op: Op): Ledger {
    match op
    case Prepare(request, fees) =>
      var (pipe, r) := l.pipe.Prepare(request, fees);
      if r.Ok? then
        l.(pipe := pipe, tickets := l.tickets + {r.value.nonce}, peak := Max(pipe.preparing, l.peak))
      else l
    case Record(h, prepared, nowMs) =>
      l.(pipe := l.pipe.RecordSubmission(h, prepared, nowMs), tickets := l.tickets - {prepared.nonce})
    case Confirm(h) =>
      l.(pipe := l.pipe.Resolve(h),
         confirmed := if h in l.pipe.inFlight then l.confirmed + {l.pipe.inFlight[h].nonce} else l.confirmed)
    case TimeOut(h) =>
      l.(pipe := l.pipe.Resolve(h).MarkDesynced())
    case Abandon(nonce) =>
      l.(pipe := l.pipe.AbandonPrepared(nonce), tickets := l.tickets - {nonce})
    case BroadcastFail(nonce) =>
      l.(pipe := l.pipe.MarkDesyncedPrepared(), tickets := l.tickets - {nonce})
    case Flag =>
      l.(pipe := l.pipe.MarkDesynced())
    case Resync(count) =>
      l.(pipe := l.pipe.ResyncNonce(count), base := count, confirmed := {})
    case Fail(h) =>
      l.(pipe := l.pipe.Fail(h))
  }

  predicate Runs(l: Ledger, ops: seq<Op>)
    decreases |ops|
  {
    ops == [] || (Legal(l, ops[0]) && Runs(Do(l, ops[0]), ops[1..]))
  }

  function Final(l: Ledger, ops: seq<Op>): Ledger
    requires Runs(l, ops)
    decreases |ops|
  {
    if ops == [] then l else Final(Do(l, ops[0]), ops[1..])
  }

  // ── The invariant ──────────────────────────────────────────────────────

  /** `pending` by nonce and `inFlight` by hash are inverse maps. */
  ghost predicate Mirror(pending: map<nat, PendingTx>, inFlight: map<TxHash, InFlightTx>) {
    && (forall h :: h in inFlight ==>
          inFlight[h].txHash == h && inFlight[h].nonce in pending && pending[inFlight[h].nonce].txHash == h)
    && (forall n :: n in pending ==>
          pending[n].nonce == n && pending[n].txHash in inFlight && inFlight[pending[n].txHash].nonce == n)
  }

  ghost predicate Inverse(p: Pipe) {
    Mirror(p.nonces.pending, p.inFlight)
  }

  /** The nonces of what is in flight. */
  function Flying(l: Ledger): set<nat> {
    l.pipe.nonces.pending.Keys
  }

  /** Tickets, nonces in flight and confirmed nonces are three disjoint sets, all of
      them between the base and the counter. */
  ghost predicate Apart(base: nat, next: nat, tickets: set<nat>, flying: set<nat>, confirmed: set<nat>) {
    && base <= next
    && (forall n :: n in tickets ==> base <= n < next && n !in flying && n !in confirmed)
    && (forall n :: n in flying ==> base <= n < next && n !in confirmed)
    && (forall n :: n in confirmed ==> base <= n < next)
  }

  ghost predicate Exclusive(l: Ledger) {
    Apart(l.base, l.pipe.nonces.next, l.tickets, Flying(l), l.confirmed)
  }

  ghost predicate Bounded(l: Ledger) {
    && l.pipe.preparing <= l.peak
    && (l.peak == 0 ==> |l.pipe.inFlight| == 0)
    && (l.peak > 0 ==> |l.pipe.inFlight| + l.pipe.preparing <= l.pipe.maxInFlight - 1 + l.peak)
  }

  ghost predicate Valid(l: Ledger) {
    && Inverse(l.pipe)
    && Exclusive(l)
    && l.pipe.preparing == |l.tickets|
    && Bounded(l)
  }

  /** No nonce since the base is unaccounted for: unless the flag is up, each is
      held, in flight, or confirmed. */
  ghost predicate NoSilentHole(l: Ledger) {
    !l.pipe.desynced ==> Covered(l.base, l.pipe.nonces.next, l.tickets, Flying(l), l.confirmed)
  }

  ghost predicate Covered(base: nat, next: nat, tickets: set<nat>, flying: set<nat>, confirmed: set<nat>) {
    forall n :: base <= n < next ==> n in tickets || n in flying || n in confirmed
  }

  lemma {:induction false} MirrorDrops(pending: map<nat, PendingTx>, inFlight: map<TxHash, InFlightTx>, h: TxHash)
    requires Mirror(pending, inFlight) && h in inFlight
    ensures Mirror(pending - {inFlight[h].nonce}, inFlight - {h})
  {
  }

  lemma {:induction false} MirrorGains(pending: map<nat, PendingTx>, inFlight: map<TxHash, InFlightTx>, p: PendingTx,
                                       f: InFlightTx)
    requires Mirror(pending, inFlight)
    requires p.nonce == f.nonce && p.nonce !in pending
    requires p.txHash == f.txHash && f.txHash !in inFlight
    ensures Mirror(pending[p.nonce := p], inFlight[f.txHash := f])
  {
    var pending', inFlight' := pending[p.nonce := p], inFlight[f.txHash := f];
    forall n | n in pending'
      ensures pending'[n].nonce == n && pending'[n].txHash in inFlight' && inFlight'[pending'[n].txHash].nonce == n
    {
      assert n == p.nonce || n in pending;
    }
    forall h | h in inFlight'
      ensures inFlight'[h].txHash == h && inFlight'[h].nonce in pending' && pending'[inFlight'[h].nonce].txHash == h
    {
      assert h == f.txHash || h in inFlight;
    }
  }

  lemma {:induction false} ResolveKeepsInverse(p: Pipe, h: TxHash)
    requires Inverse(p) && h in p.inFlight
    ensures Inverse(p.Resolve(h)) && Inverse(p.Fail(h))
    ensures p.Fail(h).nonces.pending == p.Resolve(h).nonces.pending
    ensures p.Resolve(h).nonces.pending.Keys == p.nonces.pending.Keys - {p.inFlight[h].nonce}
    ensures |p.Resolve(h).inFlight| == |p.inFlight| - 1 == |p.Fail(h).inFlight|
  {
    MirrorDrops(p.nonces.pending, p.inFlight, h);
    assert p.inFlight.Keys == (p.inFlight - {h}).Keys + {h};
  }

  lemma {:induction false} RecordGrowsBothMaps(p: Pipe, h: TxHash, prepared: PreparedTx, nowMs: nat)
    requires h !in p.inFlight
    ensures p.RecordSubmission(h, prepared, nowMs).nonces.pending.Keys
            == p.nonces.pending.Keys + {prepared.nonce}
    ensures |p.RecordSubmission(h, prepared, nowMs).inFlight| == |p.inFlight| + 1
  {
    assert p.RecordSubmission(h, prepared, nowMs).inFlight.Keys == p.inFlight.Keys + {h};
  }

  lemma {:induction false} RecordKeepsInverse(p: Pipe, h: TxHash, prepared: PreparedTx, nowMs: nat)
    requires Inverse(p)
    requires h !in p.inFlight && prepared.nonce !in p.nonces.pending
    ensures Inverse(p.RecordSubmission(h, prepared, nowMs))
  {
    MirrorGains(p.nonces.pending, p.inFlight, PendingTx(h, prepared.nonce, nowMs),
                InFlightTx(prepared.nonce, h, prepared.request, nowMs, prepared.gasFees));
  }

  lemma {:induction false} ReleaseDropsNothing(p: Pipe, nonce: nat)
    requires nonce !in p.nonces.pending
    ensures p.nonces.Release(nonce).pending == p.nonces.pending
  {
  }

  /** The moves of one nonce that keep the three sets apart. */
  lemma {:induction false} MovesKeepApart(base: nat, next: nat, tickets: set<nat>, flying: set<nat>,
                                          confirmed: set<nat>, n: nat)
    requires Apart(base, next, tickets, flying, confirmed)
    ensures Apart(base, next + 1, tickets + {next}, flying, confirmed)
    ensures n in tickets ==> Apart(base, next, tickets - {n}, flying, confirmed)
    ensures n in tickets ==> Apart(base, next, tickets - {n}, flying + {n}, confirmed)
    ensures n in tickets && next == n + 1 ==> Apart(base, n, tickets - {n}, flying, confirmed)
    ensures n in flying ==> Apart(base, next, tickets, flying - {n}, confirmed)
    ensures n in flying ==> Apart(base, next, tickets, flying - {n}, confirmed + {n})
    ensures n in flying && next == n + 1 ==> Apart(base, n, tickets, flying - {n}, confirmed)
  {
  }

  lemma {:induction false} PrepareKeepsValid(l: Ledger, request: TxRequest, fees: Option<GasFees>)
    requires Valid(l)
    ensures Valid(Do(l, Prepare(request, fees)))
  {
    if l.pipe.CanPrepare(fees) {
      var l' := Do(l, Prepare(request, fees));
      MovesKeepApart(l.base, l.pipe.nonces.next, l.tickets, Flying(l), l.confirmed, 0);
      assert l'.tickets == l.tickets + {l.pipe.nonces.next};
      assert l'.pipe.nonces.pending == l.pipe.nonces.pending;
    }
  }

  lemma {:induction false} RecordKeepsValid(l: Ledger, h: TxHash, prepared: PreparedTx, nowMs: nat)
    requires Valid(l) && Legal(l, Record(h, prepared, nowMs))
    ensures Valid(Do(l, Record(h, prepared, nowMs)))
  {
    var l' := Do(l, Record(h, prepared, nowMs));
    assert prepared.nonce in l.tickets && prepared.nonce !in Flying(l);
    assert Inverse(l'.pipe) by {
      RecordKeepsInverse(l.pipe, h, prepared, nowMs);
    }
    assert Exclusive(l') by {
      RecordGrowsBothMaps(l.pipe, h, prepared, nowMs);
      MovesKeepApart(l.base, l.pipe.nonces.next, l.tickets, Flying(l), l.confirmed, prepared.nonce);
    }
    assert l'.pipe.preparing == |l'.tickets|;
    assert Bounded(l') by {
      RecordGrowsBothMaps(l.pipe, h, prepared, nowMs);
    }
  }

  lemma {:induction false} ResolveKeepsValid(l: Ledger, h: TxHash)
    requires Valid(l)
    ensures Valid(Do(l, Confirm(h))) && Valid(Do(l, TimeOut(h)))
  {
    if h in l.pipe.inFlight {
      ResolveKeepsInverse(l.pipe, h);
      MovesKeepApart(l.base, l.pipe.nonces.next, l.tickets, Flying(l), l.confirmed, l.pipe.inFlight[h].nonce);
    }
  }

  lemma {:induction false} FailKeepsValid(l: Ledger, h: TxHash)
    requires Valid(l)
    ensures Valid(Do(l, Fail(h)))
  {
    if h in l.pipe.inFlight {
      ResolveKeepsInverse(l.pipe, h);
      MovesKeepApart(l.base, l.pipe.nonces.next, l.tickets, Flying(l), l.confirmed, l.pipe.inFlight[h].nonce);
    }
  }

  lemma {:induction false} AbandonKeepsValid(l: Ledger, nonce: nat)
    requires Valid(l) && nonce in l.tickets
    ensures Valid(Do(l, Abandon(nonce)))
  {
    var l' := Do(l, Abandon(nonce));
    assert nonce !in Flying(l);
    ReleaseDropsNothing(l.pipe, nonce);
    assert Inverse(l'.pipe);
    assert Exclusive(l') by {
      MovesKeepApart(l.base, l.pipe.nonces.next, l.tickets, Flying(l), l.confirmed, nonce);
    }
    assert l'.pipe.preparing == |l'.tickets| && Bounded(l');
  }

  /** Every legal operation keeps the whole invariant, `fail` included. */
  lemma {:induction false} StepKeepsValid(l: Ledger, op: Op)
    requires Valid(l) && Legal(l, op)
    ensures Valid(Do(l, op))
  {
    match op
    case Prepare(request, fees) => PrepareKeepsValid(l, request, fees);
    case Record(h, prepared, nowMs) => RecordKeepsValid(l, h, prepared, nowMs);
    case Confirm(h) => ResolveKeepsValid(l, h);
    case TimeOut(h) => ResolveKeepsValid(l, h);
    case Abandon(nonce) => AbandonKeepsValid(l, nonce);
    case BroadcastFail(nonce) =>
      MovesKeepApart(l.base, l.pipe.nonces.next, l.tickets, Flying(l), l.confirmed, nonce);
    case Flag =>
      assert Do(l, op) == l.(pipe := l.pipe.MarkDesynced());
    case Resync(_) =>
      assert l.tickets == {};
    case Fail(h) => FailKeepsValid(l, h);
  }

  /** In every state any run reaches: no two holders share a nonce, the two maps
      mirror each other, the tickets are counted right, the bound holds. */
  lemma {:induction false} EveryRunIsValid(l: Ledger, ops: seq<Op>)
    requires Valid(l) && Runs(l, ops)
    ensures Valid(Final(l, ops))
    decreases |ops|
  {
    if ops != [] {
      StepKeepsValid(l, ops[0]);
      EveryRunIsValid(Do(l, ops[0]), ops[1..]);
    }
  }

  lemma {:induction false} StartIsValid(count: nat, maxInFlight: nat)
    ensures Valid(Start(count, maxInFlight)) && NoSilentHole(Start(count, maxInFlight))
  {
  }

  // ── What the invariant says ────────────────────────────────────────────

  lemma {:induction false} InverseMapsHaveOneSize(p: Pipe)
    requires Inverse(p)
    ensures |p.nonces.pending| == |p.inFlight|
    decreases |p.inFlight|
  {
    if p.inFlight == map[] {
      assert p.nonces.pending == map[];
    } else {
      var h :| h in p.inFlight;
      ResolveKeepsInverse(p, h);
      InverseMapsHaveOneSize(p.Resolve(h));
      var n := p.inFlight[h].nonce;
      assert p.nonces.pending.Keys == (p.nonces.pending - {n}).Keys + {n};
    }
  }

  /** Distinct transactions in flight carry distinct nonces, none of them a ticket's. */
  lemma {:induction false} NoncesInFlightAreDistinct(l: Ledger, g: TxHash, h: TxHash)
    requires Valid(l) && g in l.pipe.inFlight && h in l.pipe.inFlight
    ensures l.pipe.inFlight[g].nonce == l.pipe.inFlight[h].nonce <==> g == h
    ensures l.pipe.inFlight[g].nonce !in l.tickets
    ensures l.base <= l.pipe.inFlight[g].nonce < l.pipe.nonces.next
  {
    assert l.pipe.inFlight[g].nonce in Flying(l);
  }

  lemma {:induction false} IntervalSize(lo: nat, hi: nat, s: set<nat>)
    requires lo <= hi
    requires forall n :: n in s <==> lo <= n < hi
    ensures |s| == hi - lo
    decreases hi - lo
  {
    if lo == hi {
      assert s == {};
    } else {
      IntervalSize(lo, hi - 1, s - {hi - 1});
    }
  }

  /** Conservation: while the flag is down, the distance from the base to the counter
      is exactly the tickets out, plus what is in flight, plus what was confirmed. */
  lemma {:induction false} NothingIsLost(l: Ledger)
    requires Valid(l) && NoSilentHole(l) && !l.pipe.desynced
    ensures l.pipe.nonces.next - l.base == l.pipe.preparing + |l.pipe.inFlight| + |l.confirmed|
  {
    IntervalSize(l.base, l.pipe.nonces.next, l.tickets + Flying(l) + l.confirmed);
    InverseMapsHaveOneSize(l.pipe);
    assert |l.pipe.nonces.pending| == |Flying(l)|;
  }

  // ── No silent hole ─────────────────────────────────────────────────────

  /** The moves of one nonce that leave nothing uncovered. */
  lemma {:induction false} MovesKeepCovered(base: nat, next: nat, tickets: set<nat>, flying: set<nat>,
                                            confirmed: set<nat>, n: nat)
    requires Covered(base, next, tickets, flying, confirmed)
    ensures Covered(base, next + 1, tickets + {next}, flying, confirmed)
    ensures Covered(base, next, tickets - {n}, flying + {n}, confirmed)
    ensures Covered(base, next, tickets, flying - {n}, confirmed + {n})
    ensures next == n + 1 ==> Covered(base, n, tickets - {n}, flying, confirmed)
  {
  }

  lemma {:induction false} StepKeepsNoSilentHole(l: Ledger, op: Op)
    requires Valid(l) && NoSilentHole(l) && Legal(l, op) && !op.Fail?
    ensures NoSilentHole(Do(l, op))
  {
    if !l.pipe.desynced {
      match op
      case Prepare(request, fees) =>
        MovesKeepCovered(l.base, l.pipe.nonces.next, l.tickets, Flying(l), l.confirmed, 0);
      case Record(h, prepared, nowMs) =>
        MovesKeepCovered(l.base, l.pipe.nonces.next, l.tickets, Flying(l), l.confirmed, prepared.nonce);
        RecordGrowsBothMaps(l.pipe, h, prepared, nowMs);
      case Confirm(h) =>
        if h in l.pipe.inFlight {
          MovesKeepCovered(l.base, l.pipe.nonces.next, l.tickets, Flying(l), l.confirmed, l.pipe.inFlight[h].nonce);
          ResolveKeepsInverse(l.pipe, h);
        }
      case Abandon(nonce) =>
        MovesKeepCovered(l.base, l.pipe.nonces.next, l.tickets, Flying(l), l.confirmed, nonce);
        ReleaseDropsNothing(l.pipe, nonce);
      case _ =>
    }
  }

  lemma {:induction false} NoRunHidesAHole(l: Ledger, ops: seq<Op>)
    requires Valid(l) && NoSilentHole(l) && Runs(l, ops)
    requires forall i :: 0 <= i < |ops| ==> !ops[i].Fail?
    ensures NoSilentHole(Final(l, ops))
    decreases |ops|
  {
    if ops != [] {
      StepKeepsValid(l, ops[0]);
      StepKeepsNoSilentHole(l, ops[0]);
      NoRunHidesAHole(Do(l, ops[0]), ops[1..]);
    }
  }

  /** `fail` drops the answer of the rewind. It keeps the promise exactly when there
      was no promise to keep, nothing to fail, or a rewind that could take. */
  lemma {:induction false} FailHidesAHoleExactlyWhenTheRewindIsBlocked(l: Ledger, h: TxHash)
    requires Valid(l) && NoSilentHole(l)
    ensures NoSilentHole(Do(l, Fail(h))) <==>
              l.pipe.desynced || h !in l.pipe.inFlight
              || l.pipe.inFlight[h].nonce + 1 == l.pipe.nonces.next
  {
    if h in l.pipe.inFlight {
      ResolveKeepsInverse(l.pipe, h);
      assert l.pipe.inFlight[h].nonce in Flying(l);
    }
  }

  /** Only a resync puts the flag down: with the flag up at the start of a run and
      down at its end, a count was adopted in between. */
  lemma {:induction false} ARepairIsAResync(l: Ledger, ops: seq<Op>)
    requires Runs(l, ops) && l.pipe.desynced && !Final(l, ops).pipe.desynced
    ensures exists i :: 0 <= i < |ops| && ops[i].Resync?
    decreases |ops|
  {
    if Do(l, ops[0]).pipe.desynced {
      ARepairIsAResync(Do(l, ops[0]), ops[1..]);
      var i :| 0 <= i < |ops[1..]| && ops[1..][i].Resync?;
      assert ops[i + 1].Resync?;
    }
  }

  // ── The in-flight bound is exact ───────────────────────────────────────

  lemma {:induction false} Append(l: Ledger, ops: seq<Op>, op: Op)
    requires Runs(l, ops) && Legal(Final(l, ops), op)
    ensures Runs(l, ops + [op]) && Final(l, ops + [op]) == Do(Final(l, ops), op)
    decreases |ops|
  {
    if ops == [] {
      assert (ops + [op])[1..] == [];
    } else {
      Append(Do(l, ops[0]), ops[1..], op);
      assert (ops + [op])[1..] == ops[1..] + [op];
    }
  }

  /** At most `maxInFlight - 1 + peak`; so at most `maxInFlight` when no two sends
      were ever between `prepare` and `record_submission` together. */
  lemma {:induction false} InFlightBound(l: Ledger, ops: seq<Op>)
    requires Valid(l) && Runs(l, ops)
    ensures Final(l, ops).peak > 0 ==>
              |Final(l, ops).pipe.inFlight| <= Final(l, ops).pipe.maxInFlight - 1 + Final(l, ops).peak
    ensures Final(l, ops).peak <= 1 ==> |Final(l, ops).pipe.inFlight| <= Final(l, ops).pipe.maxInFlight
  {
    EveryRunIsValid(l, ops);
  }

  const REQUEST: TxRequest := TxRequest(0, [], 0, 1, Normal)
  const FEES: GasFees := GasFees(0, 0, 0)

  function Ticket(nonce: nat): PreparedTx {
    PreparedTx(nonce, 1, FEES, REQUEST)
  }

  /** The state after `flown` submissions and with the next `held` nonces prepared. */
  ghost predicate Loaded(l: Ledger, maxInFlight: nat, flown: nat, held: nat, peak: nat) {
    && Valid(l) && NoSilentHole(l) && !l.pipe.desynced
    && l.pipe.maxInFlight == maxInFlight && |l.pipe.inFlight| == flown && l.peak == peak
    && l.pipe.nonces.next == flown + held
    && (forall n :: n in l.tickets <==> flown <= n < flown + held)
    && (forall h :: h in l.pipe.inFlight ==> h.nonce < flown)
  }

  lemma {:induction false} LoadOne(l: Ledger, maxInFlight: nat, flown: nat, held: nat, peak: nat)
    requires Loaded(l, maxInFlight, flown, held, peak) && flown < maxInFlight
    ensures var op := Prepare(REQUEST, Some(FEES));
            Legal(l, op) && Loaded(Do(l, op), maxInFlight, flown, held + 1, Max(held + 1, peak))
  {
    var op := Prepare(REQUEST, Some(FEES));
    StepKeepsValid(l, op);
    StepKeepsNoSilentHole(l, op);
    IntervalSize(flown, flown + held, l.tickets);
  }

  lemma {:induction false} FlyOne(l: Ledger, maxInFlight: nat, flown: nat, held: nat, peak: nat)
    requires Loaded(l, maxInFlight, flown, held, peak) && held > 0
    ensures var op := Record(TxHash(flown, 0), Ticket(flown), 0);
            Legal(l, op) && Loaded(Do(l, op), maxInFlight, flown + 1, held - 1, peak)
  {
    var op := Record(TxHash(flown, 0), Ticket(flown), 0);
    StepKeepsValid(l, op);
    StepKeepsNoSilentHole(l, op);
    RecordGrowsBothMaps(l.pipe, TxHash(flown, 0), Ticket(flown), 0);
  }

  ghost predicate Reaches(maxInFlight: nat, ops: seq<Op>, flown: nat, held: nat, peak: nat) {
    Runs(Start(0, maxInFlight), ops)
    && Loaded(Final(Start(0, maxInFlight), ops), maxInFlight, flown, held, peak)
  }

  lemma {:induction false} ReachTheStart(maxInFlight: nat) returns (ops: seq<Op>)
    ensures Reaches(maxInFlight, ops, 0, 0, 0)
  {
    ops := [];
    StartIsValid(0, maxInFlight);
  }

  lemma {:induction false} ReachByPreparing(maxInFlight: nat, before: seq<Op>, flown: nat, held: nat, peak: nat)
    returns (ops: seq<Op>)
    requires Reaches(maxInFlight, before, flown, held, peak) && flown < maxInFlight
    ensures Reaches(maxInFlight, ops, flown, held + 1, Max(held + 1, peak))
  {
    ops := before + [Prepare(REQUEST, Some(FEES))];
    LoadOne(Final(Start(0, maxInFlight), before), maxInFlight, flown, held, peak);
    Append(Start(0, maxInFlight), before, Prepare(REQUEST, Some(FEES)));
  }

  lemma {:induction false} ReachByRecording(maxInFlight: nat, before: seq<Op>, flown: nat, held: nat, peak: nat)
    returns (ops: seq<Op>)
    requires Reaches(maxInFlight, before, flown, held, peak) && held > 0
    ensures Reaches(maxInFlight, ops, flown + 1, held - 1, peak)
  {
    ops := before + [Record(TxHash(flown, 0), Ticket(flown), 0)];
    FlyOne(Final(Start(0, maxInFlight), before), maxInFlight, flown, held, peak);
    Append(Start(0, maxInFlight), before, Record(TxHash(flown, 0), Ticket(flown), 0));
  }

  /** The schedule: one at a time up to one below the limit, then `held` tickets
      before any of them is recorded. */
  lemma {:induction false} LoadUpTo(maxInFlight: nat, flown: nat, held: nat) returns (ops: seq<Op>)
    requires flown < maxInFlight
    ensures Reaches(maxInFlight, ops, flown, held, if flown == 0 then held else Max(held, 1))
    decreases flown, held
  {
    if held > 0 {
      ops := LoadUpTo(maxInFlight, flown, held - 1);
      ops := ReachByPreparing(maxInFlight, ops, flown, held - 1, if flown == 0 then held - 1 else Max(held - 1, 1));
    } else if flown > 0 {
      ops := LoadUpTo(maxInFlight, flown - 1, 1);
      ops := ReachByRecording(maxInFlight, ops, flown - 1, 1, 1);
    } else {
      ops := ReachTheStart(maxInFlight);
    }
  }

  lemma {:induction false} FlyAll(maxInFlight: nat, ops: seq<Op>, flown: nat, held: nat, peak: nat)
    returns (more: seq<Op>)
    requires Reaches(maxInFlight, ops, flown, held, peak)
    ensures Reaches(maxInFlight, more, flown + held, 0, peak)
    decreases held
  {
    more := ops;
    if held > 0 {
      more := ReachByRecording(maxInFlight, ops, flown, held, peak);
      more := FlyAll(maxInFlight, more, flown + 1, held - 1, peak);
    }
  }

  /** The bound is reached: `maxInFlight` alone is not a bound on what is in flight,
      as soon as two sends prepare together. */
  lemma {:induction false} InFlightBoundIsReached(maxInFlight: nat, p: nat)
    requires maxInFlight > 0 && p > 0
    ensures exists ops :: Runs(Start(0, maxInFlight), ops)
                          && Final(Start(0, maxInFlight), ops).peak == p
                          && |Final(Start(0, maxInFlight), ops).pipe.inFlight| == maxInFlight - 1 + p
  {
    var ops := LoadUpTo(maxInFlight, maxInFlight - 1, p);
    var more := FlyAll(maxInFlight, ops, maxInFlight - 1, p, p);
    assert Reaches(maxInFlight, more, maxInFlight - 1 + p, 0, p);
  }

  lemma {:induction false} OneFlyingOneHeld(maxInFlight: nat) returns (ops: seq<Op>)
    requires maxInFlight > 1
    ensures Reaches(maxInFlight, ops, 1, 1, 1)
  {
    ops := ReachTheStart(maxInFlight);
    ops := ReachByPreparing(maxInFlight, ops, 0, 0, 0);
    ops := ReachByRecording(maxInFlight, ops, 0, 1, 1);
    ops := ReachByPreparing(maxInFlight, ops, 1, 0, 1);
  }

  /** The run that shows what `fail` can do: one transaction is in flight and another is
      being prepared when the first is failed. Its nonce is nobody's, and the flag is
      down. */
  lemma {:induction false} AFailHidesAHole(maxInFlight: nat) returns (ops: seq<Op>, h: TxHash)
    requires maxInFlight > 1
    ensures Runs(Start(0, maxInFlight), ops) && Runs(Start(0, maxInFlight), ops + [Fail(h)])
    ensures NoSilentHole(Final(Start(0, maxInFlight), ops))
    ensures !NoSilentHole(Final(Start(0, maxInFlight), ops + [Fail(h)]))
  {
    ops := OneFlyingOneHeld(maxInFlight);
    h := OneOfThoseInFlight(Final(Start(0, maxInFlight), ops), maxInFlight);
    Append(Start(0, maxInFlight), ops, Fail(h));
  }

  lemma {:induction false} OneOfThoseInFlight(l: Ledger, maxInFlight: nat) returns (h: TxHash)
    requires Loaded(l, maxInFlight, 1, 1, 1)
    ensures !NoSilentHole(Do(l, Fail(h)))
  {
    assert l.pipe.inFlight != map[];
    h :| h in l.pipe.inFlight;
    NoncesInFlightAreDistinct(l, h, h);
    FailHidesAHoleExactlyWhenTheRewindIsBlocked(l, h);
  }
}
