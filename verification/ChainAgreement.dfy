/** The local sequence against the chain's. Assumed of the chain: a successful
    broadcast is held, a broadcast or a receipt that failed leaves a doubt until the
    chain decides it, and only this client sends from the address. Agreement then rests
    on the adoptions alone, and the condition on them is exact. */
module ChainAgreement {
  import opened Pipeline
  import opened SendProtocol
  import L = NonceLedger

  /** `eth_getTransactionCount` with the pending tag: transactions queued behind a gap
      are not counted. */
  ghost predicate IsCount(held: set<nat>, count: nat) {
    (forall n :: 0 <= n < count ==> n in held) && count !in held
  }

  /** Every transaction still in doubt belongs to a send that has not returned. */
  ghost predicate Settled(s: System) {
    forall n :: n in s.doubtful ==> n in s.ledger.tickets
  }

  predicate Adopts(s: System, e: Event)
    requires Enabled(s, e)
  {
    e.By? && e.act.Adopt? && s.ledger.pipe.desynced && s.ledger.pipe.CanResync()
  }

  /** No doubt is open, and the chain holds every nonce below the count: the count does
      not exceed the one it would give now. */
  ghost predicate CountIsSound(s: System, count: nat) {
    s.doubtful == {} && forall n :: 0 <= n < count ==> n in s.held
  }

  /** Nothing the chain holds, or may yet hold, is at or past the count. */
  ghost predicate CountIsClear(s: System, count: nat) {
    forall n :: n in s.held || n in s.doubtful ==> n < count
  }

  /** What a run may be asked to keep, of the chain or of the schedule. */
  datatype Rule =
    | Faithful   // a count that is read is the chain's, and every returned send's doubt is decided by then
    | Current    // a count that is adopted is as young as the pipeline
    | Present    // a count that is adopted is the one the chain would give now
    | Sound      // ... does not exceed it, and no doubt is open
    | Unqueued   // ... has nothing held at or past it
    | Clear      // ... has nothing held or in doubt at or past it

  ghost predicate Keeps(rule: Rule, s: System, e: Event)
    requires Enabled(s, e)
  {
    match rule
    case Faithful => e.By? && e.act.CountOk? ==> IsCount(s.held, e.act.chainCount) && Settled(s)
    case Current => Adopts(s, e) ==> s.senders[e.i].asOf == s.gen
    case Present => Adopts(s, e) ==> IsCount(s.held, s.senders[e.i].count)
    case Sound => Adopts(s, e) ==> CountIsSound(s, s.senders[e.i].count)
    case Unqueued => Adopts(s, e) ==> forall n :: n in s.held ==> n < s.senders[e.i].count
    case Clear => Adopts(s, e) ==> CountIsClear(s, s.senders[e.i].count)
  }

  ghost predicate KeepsAll(rules: set<Rule>, s: System, e: Event)
    requires Enabled(s, e)
  {
    forall rule :: rule in rules ==> Keeps(rule, s, e)
  }

  /** A run on which every step keeps the rules. */
  ghost predicate Kept(rules: set<Rule>, s: System, run: seq<Event>)
    decreases |run|
  {
    run == []
    || (Enabled(s, run[0]) && KeepsAll(rules, s, run[0]) && Kept(rules, Apply(s, run[0]), run[1..]))
  }

  lemma {:induction false} KeptRuns(rules: set<Rule>, s: System, run: seq<Event>)
    requires Kept(rules, s, run)
    ensures Runs(s, run)
    decreases |run|
  {
    if run != [] {
      KeptRuns(rules, Apply(s, run[0]), run[1..]);
    }
  }

  lemma {:induction false} EveryRunIsKept(s: System, run: seq<Event>)
    requires Runs(s, run)
    ensures Kept({}, s, run)
    decreases |run|
  {
    if run != [] {
      EveryRunIsKept(Apply(s, run[0]), run[1..]);
    }
  }

  // ── The agreement invariant ────────────────────────────────────────────

  /** Doubt is about nonces handed out since the base, that nothing else accounts for. */
  ghost predicate DoubtIsApart(l: L.Ledger, doubtful: set<nat>) {
    forall n :: n in doubtful ==> l.base <= n < l.pipe.nonces.next && n !in L.Flying(l) && n !in l.confirmed
  }

  /** The chain holds what is below the base, in flight, or confirmed. */
  ghost predicate ChainHolds(l: L.Ledger, held: set<nat>) {
    && (forall n :: 0 <= n < l.base ==> n in held)
    && (forall n :: n in L.Flying(l) || n in l.confirmed ==> n in held)
  }

  predicate NotInDoubt(p: Phase, held: set<nat>, doubtful: set<nat>) {
    && (p.Holding? || p.Signed? || p.Accepted? ==> p.prepared.nonce !in doubtful)
    && (p.Accepted? ==> p.prepared.nonce in held)
  }

  /** The chain, the doubt and the senders fit the ledger. */
  ghost predicate ChainFits(s: System) {
    && DoubtIsApart(s.ledger, s.doubtful)
    && ChainHolds(s.ledger, s.held)
    && (forall i :: 0 <= i < |s.senders| ==> NotInDoubt(s.senders[i], s.held, s.doubtful))
  }

  ghost predicate Agree(s: System) {
    Valid(s) && ChainFits(s)
  }

  /** What a step other than an adoption does to the nonces in flight and confirmed. */
  function FlyingAfter(flying: set<nat>, at: Phase, act: Act): set<nat>
    requires CanAct(at, act)
  {
    match act
    case Record(_) => flying + {at.prepared.nonce}
    case ReceiptOk(_, _) => flying - {at.nonce}
    case ReceiptErr => flying - {at.nonce}
    case _ => flying
  }

  function ConfirmedAfter(confirmed: set<nat>, at: Phase, act: Act): set<nat>
    requires CanAct(at, act)
  {
    match act
    case ReceiptOk(_, _) => confirmed + {at.nonce}
    case _ => confirmed
  }

  lemma {:induction false} ReceiptsLand(l: L.Ledger, at: Phase, act: Act)
    requires CanAct(at, act) && (act.ReceiptOk? || act.ReceiptErr?)
    requires at.hash in l.pipe.inFlight && l.pipe.inFlight[at.hash].nonce == at.nonce
    ensures L.Flying(LedgerAfter(l, at, act)) == L.Flying(l) - {at.nonce}
  {
    assert LedgerAfter(l, at, act).pipe.nonces == l.pipe.Resolve(at.hash).nonces;
  }

  lemma {:induction false} RecordsFly(l: L.Ledger, at: Phase, nowMs: nat)
    requires CanAct(at, Record(nowMs))
    ensures L.Flying(LedgerAfter(l, at, Record(nowMs))) == L.Flying(l) + {at.prepared.nonce}
  {
    assert LedgerAfter(l, at, Record(nowMs)).pipe.nonces == l.pipe.nonces.Track(at.prepared.nonce, at.hash, nowMs);
  }

  lemma {:induction false} OthersDoNotFly(l: L.Ledger, at: Phase, act: Act)
    requires CanAct(at, act) && !act.Adopt? && !act.Record? && !act.ReceiptOk? && !act.ReceiptErr?
    requires HasTicket(at) ==> at.prepared.nonce !in L.Flying(l)
    ensures L.Flying(LedgerAfter(l, at, act)) == L.Flying(l)
  {
    if act.SignErr? {
      assert LedgerAfter(l, at, act).pipe.nonces == l.pipe.nonces.Release(at.prepared.nonce);
    } else {
      assert LedgerAfter(l, at, act).pipe.nonces.pending == l.pipe.nonces.pending;
    }
  }

  lemma {:induction false} FlyingMoves(l: L.Ledger, at: Phase, act: Act)
    requires CanAct(at, act) && SenderFits(l, at) && !act.Adopt?
    ensures L.Flying(LedgerAfter(l, at, act)) == FlyingAfter(L.Flying(l), at, act)
  {
    if act.Record? {
      RecordsFly(l, at, act.nowMs);
    } else if act.ReceiptOk? || act.ReceiptErr? {
      ReceiptsLand(l, at, act);
    } else {
      OthersDoNotFly(l, at, act);
    }
  }

  lemma {:induction false} CountersMove(l: L.Ledger, at: Phase, act: Act)
    requires CanAct(at, act) && !act.Adopt?
    requires at.Awaiting? ==> at.hash in l.pipe.inFlight && l.pipe.inFlight[at.hash].nonce == at.nonce
    ensures var l' := LedgerAfter(l, at, act);
      && l'.base == l.base
      && l'.confirmed == ConfirmedAfter(l.confirmed, at, act)
      && (!act.SignErr? ==> l'.pipe.nonces.next >= l.pipe.nonces.next)
      && (act.SignErr? ==> l'.pipe.nonces.next == at.prepared.nonce || l'.pipe.nonces.next == l.pipe.nonces.next)
      && (act.SignErr? && l'.pipe.nonces.next != l.pipe.nonces.next ==> l.pipe.nonces.next == at.prepared.nonce + 1)
  {
  }

  /** The doubt and the chain's holdings, after a step other than an adoption. */
  lemma {:induction false} ActKeepsTheChain(l: L.Ledger, at: Phase, act: Act, held: set<nat>, doubtful: set<nat>)
    requires L.Inverse(l.pipe) && L.Exclusive(l)
    requires CanAct(at, act) && SenderFits(l, at) && !act.Adopt?
    requires at.Awaiting? ==> at.nonce in L.Flying(l)
    requires DoubtIsApart(l, doubtful) && ChainHolds(l, held) && NotInDoubt(at, held, doubtful)
    ensures DoubtIsApart(LedgerAfter(l, at, act), DoubtAfter(doubtful, at, act))
    ensures ChainHolds(LedgerAfter(l, at, act), HeldAfter(held, at, act))
  {
    FlyingMoves(l, at, act);
    CountersMove(l, at, act);
  }

  lemma {:induction false} ActKeepsItsOwnDoubt(l: L.Ledger, gen: nat, at: Phase, act: Act, held: set<nat>,
                                               doubtful: set<nat>)
    requires CanAct(at, act) && DoubtIsApart(l, doubtful) && NotInDoubt(at, held, doubtful)
    ensures NotInDoubt(PhaseAfter(l.pipe, gen, at, act), HeldAfter(held, at, act), DoubtAfter(doubtful, at, act))
  {
    if act.PrepareTx? {
      var p := PhaseAfter(l.pipe, gen, at, act);
      assert p.Holding? ==> p.prepared.nonce == l.pipe.nonces.next;
    }
  }

  lemma {:induction false} ActKeepsOthersDoubt(l: L.Ledger, at: Phase, act: Act, other: Phase, held: set<nat>,
                                               doubtful: set<nat>)
    requires CanAct(at, act) && NotInDoubt(other, held, doubtful)
    requires SenderFits(l, other) && (at.Awaiting? ==> at.nonce in L.Flying(l))
    requires HasTicket(at) && HasTicket(other) ==> at.prepared.nonce != other.prepared.nonce
    ensures NotInDoubt(other, HeldAfter(held, at, act), DoubtAfter(doubtful, at, act))
  {
  }

  /** A step over a drained pipeline cannot be a broadcast or a receipt: those need a
      ticket or an entry. */
  lemma {:induction false} DrainedMeansQuiet(s: System, i: nat, act: Act)
    requires Valid(s) && Enabled(s, By(i, act)) && s.ledger.pipe.CanResync()
    ensures HeldAfter(s.held, s.senders[i], act) == s.held
    ensures DoubtAfter(s.doubtful, s.senders[i], act) == s.doubtful
    ensures s.ledger.tickets == {}
  {
    SendersFit(s, i);
    assert s.ledger.tickets == {};
    assert L.Flying(s.ledger) == {} by {
      L.InverseMapsHaveOneSize(s.ledger.pipe);
    }
  }

  lemma {:induction false} AdoptionKeepsOutOfDoubt(s: System, i: nat, j: nat)
    requires Valid(s) && Enabled(s, By(i, Adopt)) && Adopts(s, By(i, Adopt)) && j < |s.senders|
    ensures !HasTicket(ApplyAct(s, i, Adopt).senders[j])
  {
    DrainedMeansQuiet(s, i, Adopt);
    SendersFit(s, j);
  }

  // ── Every step keeps agreement ─────────────────────────────────────────

  lemma {:induction false} SoundAdoptionFits(s: System, i: nat)
    requires Valid(s) && Enabled(s, By(i, Adopt)) && Adopts(s, By(i, Adopt))
    requires CountIsSound(s, s.senders[i].count)
    ensures ChainFits(ApplyAct(s, i, Adopt))
  {
    var s' := ApplyAct(s, i, Adopt);
    forall j | 0 <= j < |s'.senders|
      ensures NotInDoubt(s'.senders[j], s'.held, s'.doubtful)
    {
      AdoptionKeepsOutOfDoubt(s, i, j);
    }
  }

  lemma {:induction false} UnsoundAdoptionDoesNotFit(s: System, i: nat)
    requires Enabled(s, By(i, Adopt)) && Adopts(s, By(i, Adopt))
    requires !CountIsSound(s, s.senders[i].count)
    ensures !ChainFits(ApplyAct(s, i, Adopt))
  {
    var s' := ApplyAct(s, i, Adopt);
    if s.doubtful != {} {
      assert !DoubtIsApart(s'.ledger, s'.doubtful);
    } else {
      assert !ChainHolds(s'.ledger, s'.held);
    }
  }

  lemma {:induction false} SoundUpToThePresentCount(s: System, count: nat, now: nat)
    requires IsCount(s.held, now)
    ensures CountIsSound(s, count) <==> s.doubtful == {} && count <= now
  {
  }

  /** The exact condition. The re-check before the adoption asks whether the flag is up
      and the pipeline drained; the sequence it leaves agrees with the chain exactly when
      no doubt is open and the count does not exceed the one the chain would give now. */
  lemma {:induction false} AnAdoptionAgreesExactlyWhenSound(s: System, i: nat, now: nat)
    requires Valid(s) && Enabled(s, By(i, Adopt)) && Adopts(s, By(i, Adopt))
    requires IsCount(s.held, now)
    ensures Agree(ApplyAct(s, i, Adopt)) <==> s.doubtful == {} && s.senders[i].count <= now
  {
    SoundUpToThePresentCount(s, s.senders[i].count, now);
    if CountIsSound(s, s.senders[i].count) {
      ActKeepsValid(s, i, Adopt);
      SoundAdoptionFits(s, i);
    } else {
      UnsoundAdoptionDoesNotFit(s, i);
    }
  }

  lemma {:induction false} ActKeepsSenders(s: System, i: nat, act: Act, j: nat)
    requires Agree(s) && Enabled(s, By(i, act)) && j < |s.senders|
    ensures var s' := ApplyAct(s, i, act);
            NotInDoubt(s'.senders[j], s'.held, s'.doubtful)
  {
    if j == i {
      ActKeepsItsOwnDoubt(s.ledger, s.gen, s.senders[i], act, s.held, s.doubtful);
    } else {
      SendersFit(s, i);
      SendersFit(s, j);
      ActKeepsOthersDoubt(s.ledger, s.senders[i], act, s.senders[j], s.held, s.doubtful);
    }
  }

  lemma {:induction false} ActKeepsChain(s: System, i: nat, act: Act)
    requires Agree(s) && Enabled(s, By(i, act)) && !Adopts(s, By(i, act))
    ensures var s' := ApplyAct(s, i, act);
            DoubtIsApart(s'.ledger, s'.doubtful) && ChainHolds(s'.ledger, s'.held)
  {
    if !act.Adopt? {
      SendersFit(s, i);
      ActKeepsTheChain(s.ledger, s.senders[i], act, s.held, s.doubtful);
    }
  }

  lemma {:induction false} ActKeepsFit(s: System, i: nat, act: Act)
    requires Agree(s) && Enabled(s, By(i, act)) && Keeps(Sound, s, By(i, act))
    ensures ChainFits(ApplyAct(s, i, act))
  {
    if Adopts(s, By(i, act)) {
      SoundAdoptionFits(s, i);
    } else {
      var s' := ApplyAct(s, i, act);
      ActKeepsChain(s, i, act);
      forall j | 0 <= j < |s'.senders|
        ensures NotInDoubt(s'.senders[j], s'.held, s'.doubtful)
      {
        ActKeepsSenders(s, i, act, j);
      }
    }
  }

  lemma {:induction false} SettlingKeepsFit(s: System, n: nat, landed: bool)
    requires ChainFits(s) && n in s.doubtful
    ensures ChainFits(Apply(s, Settle(n, landed)))
  {
  }

  lemma {:induction false} SpawningKeepsFit(s: System)
    requires ChainFits(s)
    ensures ChainFits(Apply(s, Spawn))
  {
  }

  lemma {:induction false} StepKeepsFit(s: System, e: Event)
    requires Agree(s) && Enabled(s, e) && Keeps(Sound, s, e)
    ensures ChainFits(Apply(s, e))
  {
    match e
    case Spawn => SpawningKeepsFit(s);
    case Settle(n, landed) => SettlingKeepsFit(s, n, landed);
    case By(i, act) => ActKeepsFit(s, i, act);
  }

  lemma {:induction false} StepKeepsAgree(s: System, e: Event)
    requires Agree(s) && Enabled(s, e) && Keeps(Sound, s, e)
    ensures Agree(Apply(s, e))
  {
    StepKeepsValid(s, e);
    StepKeepsFit(s, e);
  }

  /** On every run whose adoptions are sound, whatever counts are read and dropped. */
  lemma {:induction false} EveryRunAgrees(rules: set<Rule>, s: System, run: seq<Event>)
    requires Agree(s) && Runs(s, run) && Kept(rules, s, run) && Sound in rules
    ensures Agree(Final(s, run))
    decreases |run|
  {
    if run != [] {
      assert Keeps(Sound, s, run[0]);
      StepKeepsAgree(s, run[0]);
      EveryRunAgrees(rules, Apply(s, run[0]), run[1..]);
    }
  }

  lemma {:induction false} StartAgrees(count: nat, maxInFlight: nat, held: set<nat>)
    requires IsCount(held, count)
    ensures Agree(Start(count, maxInFlight, held)) && CountsStand(Start(count, maxInFlight, held))
  {
    StartIsValid(count, maxInFlight, held);
  }

  /** Chain agreement: while the flag is down, the chain holds every nonce below the
      counter, except those a sender holds a ticket for; and those that are in flight
      or confirmed it holds whatever the flag. */
  lemma {:induction false} TheChainHoldsTheSequence(rules: set<Rule>, s: System, run: seq<Event>)
    requires Agree(s) && Runs(s, run) && Kept(rules, s, run) && Sound in rules
    ensures var f := Final(s, run);
      && (forall i :: 0 <= i < |f.senders| && f.senders[i].Awaiting? ==> f.senders[i].nonce in f.held)
      && (!f.ledger.pipe.desynced ==>
            forall n :: 0 <= n < f.ledger.pipe.nonces.next ==> n in f.held || n in f.ledger.tickets)
  {
    EveryRunAgrees(rules, s, run);
    var f := Final(s, run);
    forall i | 0 <= i < |f.senders| && f.senders[i].Awaiting?
      ensures f.senders[i].nonce in f.held
    {
      SendersFit(f, i);
    }
  }

  // ── A schedule that makes every adoption sound ─────────────────────────

  /** A count that is still current, over a drained pipeline, is the chain's count. */
  ghost predicate CountStands(p: Phase, gen: nat, drained: bool, held: set<nat>, doubtful: set<nat>) {
    p.CountRead? ==>
      (p.asOf <= gen && (p.asOf == gen && drained ==> doubtful == {} && IsCount(held, p.count)))
  }

  ghost predicate CountsStand(s: System) {
    forall i :: 0 <= i < |s.senders| ==>
      CountStands(s.senders[i], s.gen, s.ledger.pipe.CanResync(), s.held, s.doubtful)
  }

  lemma {:induction false} CountsKeepStanding(s: System, i: nat, act: Act, p: Phase)
    requires Valid(s) && Enabled(s, By(i, act))
    requires CountStands(p, s.gen, s.ledger.pipe.CanResync(), s.held, s.doubtful)
    ensures var s' := ApplyAct(s, i, act);
            CountStands(p, s'.gen, s'.ledger.pipe.CanResync(), s'.held, s'.doubtful)
  {
    if s.ledger.pipe.CanResync() {
      DrainedMeansQuiet(s, i, act);
    }
  }

  lemma {:induction false} ANewCountStands(s: System, i: nat, count: nat)
    requires Valid(s) && Enabled(s, By(i, CountOk(count))) && Keeps(Faithful, s, By(i, CountOk(count)))
    ensures CountStands(CountRead(count, s.gen), s.gen, s.ledger.pipe.CanResync(), s.held, s.doubtful)
  {
    if s.ledger.pipe.CanResync() {
      DrainedMeansQuiet(s, i, CountOk(count));
    }
  }

  lemma {:induction false} OnlyACountIsRead(pipe: Pipe, gen: nat, at: Phase, act: Act)
    requires CanAct(at, act)
    ensures PhaseAfter(pipe, gen, at, act).CountRead? <==> act.CountOk?
  {
  }

  lemma {:induction false} ActKeepsItsOwnCount(s: System, i: nat, act: Act)
    requires Valid(s) && Enabled(s, By(i, act))
    ensures var s' := ApplyAct(s, i, act);
            Keeps(Faithful, s, By(i, act)) ==>
              CountStands(s'.senders[i], s'.gen, s'.ledger.pipe.CanResync(), s'.held, s'.doubtful)
  {
    OnlyACountIsRead(s.ledger.pipe, s.gen, s.senders[i], act);
    if act.CountOk? && Keeps(Faithful, s, By(i, act)) {
      ANewCountStands(s, i, act.chainCount);
    }
  }

  lemma {:induction false} ActKeepsCounts(s: System, i: nat, act: Act)
    requires Valid(s) && CountsStand(s) && Enabled(s, By(i, act)) && Keeps(Faithful, s, By(i, act))
    ensures CountsStand(ApplyAct(s, i, act))
  {
    var s' := ApplyAct(s, i, act);
    forall j | 0 <= j < |s'.senders|
      ensures CountStands(s'.senders[j], s'.gen, s'.ledger.pipe.CanResync(), s'.held, s'.doubtful)
    {
      if j != i {
        CountsKeepStanding(s, i, act, s.senders[j]);
      } else {
        ActKeepsItsOwnCount(s, i, act);
      }
    }
  }

  lemma {:induction false} StepKeepsCounts(s: System, e: Event)
    requires Valid(s) && CountsStand(s) && Enabled(s, e) && Keeps(Faithful, s, e)
    ensures CountsStand(Apply(s, e))
  {
    match e
    case Spawn =>
    case Settle(_, _) =>
    case By(i, act) => ActKeepsCounts(s, i, act);
  }

  /** A count no older than the pipeline is the chain's own when it is adopted. */
  lemma {:induction false} ACurrentAdoptionIsSound(s: System, i: nat)
    requires Valid(s) && CountsStand(s) && Enabled(s, By(i, Adopt))
    requires Adopts(s, By(i, Adopt)) && Keeps(Current, s, By(i, Adopt))
    ensures Keeps(Sound, s, By(i, Adopt))
    ensures IsCount(ApplyAct(s, i, Adopt).held, ApplyAct(s, i, Adopt).ledger.base)
  {
    assert CountStands(s.senders[i], s.gen, s.ledger.pipe.CanResync(), s.held, s.doubtful);
  }

  lemma {:induction false} ACurrentStepIsSound(s: System, e: Event)
    requires Valid(s) && CountsStand(s) && Enabled(s, e) && Keeps(Current, s, e)
    ensures Keeps(Sound, s, e)
  {
    if Adopts(s, e) {
      ACurrentAdoptionIsSound(s, e.i);
    }
  }

  /** So with a faithful chain and no change of the pipeline between a count's read and
      its adoption, every adoption is sound. */
  lemma {:induction false} CurrentRunsAreSound(rules: set<Rule>, s: System, run: seq<Event>)
    requires Valid(s) && CountsStand(s)
    requires Faithful in rules && Current in rules && Kept(rules, s, run)
    ensures Kept(rules + {Sound}, s, run)
    decreases |run|
  {
    if run != [] {
      assert Keeps(Faithful, s, run[0]) && Keeps(Current, s, run[0]);
      ACurrentStepIsSound(s, run[0]);
      StepKeepsValid(s, run[0]);
      StepKeepsCounts(s, run[0]);
      CurrentRunsAreSound(rules, Apply(s, run[0]), run[1..]);
    }
  }
}
