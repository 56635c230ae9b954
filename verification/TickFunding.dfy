/** Each band tick's two funding words, by proof or slot by slot. */
module TickFunding {
  import opened Wrappers
  import opened Rows
  import opened FeeGrowth

  datatype Funding = Funding(opp: Word, divSqrtPOpp: Word)

  /** A storage slot of the market contract. */
  datatype FundingSlot = Opp(tick: Tick) | DivSqrtPOpp(tick: Tick)

  /** One tick's read: its words, or the transport failure its positions share. */
  type TickRead = Result<Funding, nat>

  datatype ProofEntry = ProofEntry(key: FundingSlot, value: Word)

  datatype ProofError = MethodNotFound | OtherFailure

  /** The failure made up for a tick the proof leaves out. */
  const MISSING_SLOTS: nat := 0

  /** The endpoint: whether it is thought to serve proofs, what it answers to the proof
      request and to each slot's own read, and which of a tick's two reads fails first
      when both do. */
  datatype Endpoint = Endpoint(
    supportsProof: bool,
    proof: seq<FundingSlot> -> Result<seq<ProofEntry>, ProofError>,
    storageAt: FundingSlot -> Result<Word, nat>,
    divFailsFirst: Tick -> bool)

  /** Collecting the entries: a later entry of a key replaces an earlier one. */
  function Values(entries: seq<ProofEntry>): map<FundingSlot, Word> {
    if entries == [] then map[]
    else Values(entries[..|entries| - 1])[entries[|entries| - 1].key := entries[|entries| - 1].value]
  }

  function Keys(ticks: seq<Tick>): seq<FundingSlot> {
    FlatMap(ticks, tick => [Opp(tick), DivSqrtPOpp(tick)])
  }

  function FromProof(values: map<FundingSlot, Word>, tick: Tick): TickRead {
    if Opp(tick) in values && DivSqrtPOpp(tick) in values then
      Ok(Funding(values[Opp(tick)], values[DivSqrtPOpp(tick)]))
    else Err(MISSING_SLOTS)
  }

  function FromStorage(endpoint: Endpoint, tick: Tick): TickRead {
    match (endpoint.storageAt(Opp(tick)), endpoint.storageAt(DivSqrtPOpp(tick)))
    case (Ok(opp), Ok(div)) => Ok(Funding(opp, div))
    case (Ok(_), Err(e)) => Err(e)
    case (Err(e), Ok(_)) => Err(e)
    case (Err(e), Err(f)) => Err(if endpoint.divFailsFirst(tick) then f else e)
  }

  /** What one tick's read is. */
  function ReadOf(endpoint: Endpoint, proof: Result<seq<ProofEntry>, ProofError>, tick: Tick): TickRead {
    if endpoint.supportsProof && proof.Ok? then FromProof(Values(proof.value), tick)
    else FromStorage(endpoint, tick)
  }

  /** Exactly the ticks asked for are answered, each from its own two slots; and only
      the statement that the method does not exist is remembered. */
  method ReadTickFunding(endpoint: Endpoint, ticks: seq<Tick>)
    returns (funding: map<Tick, TickRead>, supportsProof: bool)
    ensures forall t :: t in funding <==> t in ticks
    ensures forall t :: t in ticks ==> funding[t] == ReadOf(endpoint, endpoint.proof(Keys(ticks)), t)
    ensures supportsProof <==> endpoint.supportsProof && endpoint.proof(Keys(ticks)) != Err(MethodNotFound)
  {
    funding := map[];
    supportsProof := endpoint.supportsProof;
    if supportsProof {
      match endpoint.proof(Keys(ticks))
      case Ok(entries) =>
        var values := Values(entries);
        for k := 0 to |ticks|
          invariant forall t :: t in funding <==> t in ticks[..k]
          invariant forall t :: t in funding ==> funding[t] == FromProof(values, t)
        {
          var tick := ticks[k];
          if Opp(tick) in values && DivSqrtPOpp(tick) in values {
            funding := funding[tick := Ok(Funding(values[Opp(tick)], values[DivSqrtPOpp(tick)]))];
          } else {
            funding := funding[tick := Err(MISSING_SLOTS)];
          }
        }
        return;
      case Err(MethodNotFound) =>
        supportsProof := false;
      case Err(OtherFailure) =>
    }
    for k := 0 to |ticks|
      invariant forall t :: t in funding <==> t in ticks[..k]
      invariant forall t :: t in funding ==> funding[t] == FromStorage(endpoint, t)
    {
      funding := funding[ticks[k] := FromStorage(endpoint, ticks[k])];
    }
  }

  // ── Both paths read the same storage ───────────────────────────────────

  /** Where an answer repeats a key, its last entry stands. */
  lemma {:induction false} LastEntriesStand(entries: seq<ProofEntry>, k: nat)
    requires k < |entries| && forall j :: k < j < |entries| ==> entries[j].key != entries[k].key
    ensures entries[k].key in Values(entries) && Values(entries)[entries[k].key] == entries[k].value
    decreases |entries|
  {
    if k < |entries| - 1 {
      LastEntriesStand(entries[..|entries| - 1], k);
    }
  }

  lemma {:induction false} TruthfulValues(entries: seq<ProofEntry>, storage: FundingSlot -> Word)
    requires forall k :: 0 <= k < |entries| ==> entries[k].value == storage(entries[k].key)
    ensures forall key :: key in Values(entries) <==> Present(entries, key)
    ensures forall key :: key in Values(entries) ==> Values(entries)[key] == storage(key)
    decreases |entries|
  {
    if entries != [] {
      var front := entries[..|entries| - 1];
      TruthfulValues(front, storage);
      assert entries == front + [entries[|entries| - 1]];
    }
  }

  predicate Present(entries: seq<ProofEntry>, key: FundingSlot) {
    exists k :: 0 <= k < |entries| && entries[k].key == key
  }

  /** With truthful answers, a tick is read as its two stored words whichever path is
      taken, exactly when the path answered for both of its own slots; what is missing
      for another tick does not matter. */
  lemma {:induction false} EitherPathReadsTheSlots(endpoint: Endpoint, proof: Result<seq<ProofEntry>, ProofError>,
                                                   storage: FundingSlot -> Word, tick: Tick)
    requires proof.Ok? ==> forall k :: 0 <= k < |proof.value| ==> proof.value[k].value == storage(proof.value[k].key)
    requires forall slot :: endpoint.storageAt(slot).Ok? ==> endpoint.storageAt(slot).value == storage(slot)
    ensures ReadOf(endpoint, proof, tick).Ok?
            <==> if endpoint.supportsProof && proof.Ok?
                 then Present(proof.value, Opp(tick)) && Present(proof.value, DivSqrtPOpp(tick))
                 else endpoint.storageAt(Opp(tick)).Ok? && endpoint.storageAt(DivSqrtPOpp(tick)).Ok?
    ensures ReadOf(endpoint, proof, tick).Ok? ==>
              ReadOf(endpoint, proof, tick).value == Funding(storage(Opp(tick)), storage(DivSqrtPOpp(tick)))
  {
    if proof.Ok? {
      TruthfulValues(proof.value, storage);
    }
  }

  /** A tick that is not read fails with a failure of its own: of one of its two slots, or
      of a proof that left one of them out. */
  lemma {:induction false} AFailureIsTheTicksOwn(endpoint: Endpoint, proof: Result<seq<ProofEntry>, ProofError>,
                                                 tick: Tick)
    requires ReadOf(endpoint, proof, tick).Err?
    ensures var cause := ReadOf(endpoint, proof, tick).error;
            if endpoint.supportsProof && proof.Ok? then cause == MISSING_SLOTS
            else endpoint.storageAt(Opp(tick)) == Err(cause) || endpoint.storageAt(DivSqrtPOpp(tick)) == Err(cause)
  {
  }

  // ── A truthful endpoint ────────────────────────────────────────────────

  lemma {:induction false} BothSlotsAreAsked(ticks: seq<Tick>, tick: Tick)
    requires tick in ticks
    ensures Opp(tick) in Keys(ticks) && DivSqrtPOpp(tick) in Keys(ticks)
    decreases |ticks|
  {
    if tick != ticks[0] {
      BothSlotsAreAsked(ticks[1..], tick);
    }
  }

  /** What it answers is stored, and an accepted proof answers all that was asked. */
  ghost predicate Truthful(endpoint: Endpoint, storage: FundingSlot -> Word) {
    && (forall slot :: endpoint.storageAt(slot) == Ok(storage(slot)))
    && forall keys :: endpoint.proof(keys).Ok? ==> ProofIsTrue(endpoint.proof(keys).value, keys, storage)
  }

  ghost predicate ProofIsTrue(entries: seq<ProofEntry>, keys: seq<FundingSlot>, storage: FundingSlot -> Word) {
    && (forall k :: 0 <= k < |entries| ==> entries[k].value == storage(entries[k].key))
    && (forall key :: key in keys ==> Present(entries, key))
  }

  function StoredFunding(storage: FundingSlot -> Word): Tick -> TickRead {
    tick => Ok(Funding(storage(Opp(tick)), storage(DivSqrtPOpp(tick))))
  }

  /** It gives every tick asked for its two stored words, whether it serves proofs, does
      not, or fails them. */
  lemma {:induction false} ATruthfulEndpointReadsTheStorage(endpoint: Endpoint, storage: FundingSlot -> Word,
                                                            ticks: seq<Tick>, tick: Tick)
    requires Truthful(endpoint, storage) && tick in ticks
    ensures ReadOf(endpoint, endpoint.proof(Keys(ticks)), tick) == StoredFunding(storage)(tick)
  {
    var proof := endpoint.proof(Keys(ticks));
    BothSlotsAreAsked(ticks, tick);
    assert proof.Ok? ==> ProofIsTrue(proof.value, Keys(ticks), storage);
    EitherPathReadsTheSlots(endpoint, proof, storage, tick);
  }
}
