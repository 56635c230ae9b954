/** The transaction pipeline: the owned nonce sequence, what is in flight, and the
    flag that says the sequence is in doubt. The client keeps it behind a mutex, so
    each method here runs alone. */
module Pipeline {
  import opened Wrappers
  import opened Errors
  import opened Nonce

  datatype Urgency = Low | Normal | High | Critical

  datatype TxRequest =
    TxRequest(to: nat, calldata: seq<bv8>, value: nat, gasLimit: nat, urgency: Urgency)

  datatype GasFees = GasFees(baseFee: nat, maxPriorityFee: nat, maxFee: nat)

  datatype PreparedTx = PreparedTx(nonce: nat, gasLimit: nat, gasFees: GasFees, request: TxRequest)

  datatype InFlightTx =
    InFlightTx(nonce: nat, txHash: TxHash, request: TxRequest, submittedAtMs: nat, gasFees: GasFees)

  /** The pipeline's abstract value. `preparing` is an `int` so that a decrement
      below zero would show. */
  datatype Pipe = Pipe(
    nonces: Nonces,
    maxInFlight: nat,
    inFlight: map<TxHash, InFlightTx>,
    desynced: bool,
    preparing: int)
  {
    /** Whether `prepare` hands out a ticket, given the fee cache's answer. */
    predicate CanPrepare(fees: Option<GasFees>) {
      |inFlight| < maxInFlight && fees.Some?
    }

    function Prepare(request: TxRequest, fees: Option<GasFees>): (Pipe, Result<PreparedTx, TransactionError>)
    {
      if |inFlight| >= maxInFlight then
        (this, Err(TooManyInFlight(|inFlight|, maxInFlight)))
      else if fees.None? then
        (this, Err(GasUnavailable))
      else
        (this.(nonces := nonces.(next := nonces.next + 1), preparing := preparing + 1),
         Ok(PreparedTx(nonces.next, request.gasLimit, fees.value, request)))
    }

    function RecordSubmission(txHash: TxHash, prepared: PreparedTx, nowMs: nat): Pipe {
      this.(preparing := preparing - 1,
            nonces := nonces.Track(prepared.nonce, txHash, nowMs),
            inFlight := inFlight[txHash :=
              InFlightTx(prepared.nonce, txHash, prepared.request, nowMs, prepared.gasFees)])
    }

    function Resolve(txHash: TxHash): Pipe {
      if txHash in inFlight then
        this.(inFlight := inFlight - {txHash}, nonces := nonces.Confirm(inFlight[txHash].nonce))
      else this
    }

    function Fail(txHash: TxHash): Pipe {
      if txHash in inFlight then
        this.(inFlight := inFlight - {txHash}, nonces := nonces.Release(inFlight[txHash].nonce))
      else this
    }

    /** A rewind that something blocked leaves a hole, so it raises the flag. */
    function AbandonPrepared(nonce: nat): Pipe {
      this.(preparing := preparing - 1,
            nonces := nonces.Release(nonce),
            desynced := desynced || nonces.next != nonce + 1)
    }

    function MarkDesyncedPrepared(): Pipe {
      this.(preparing := preparing - 1, desynced := true)
    }

    function MarkDesynced(): Pipe {
      this.(desynced := true)
    }

    predicate CanResync() {
      |inFlight| == 0 && preparing == 0
    }

    function ResyncNonce(onChainNonce: nat): Pipe {
      this.(nonces := Nonces(onChainNonce, map[]), desynced := false)
    }
  }

  class TxPipeline {
    const nonceMgr: NonceManager
    const maxInFlight: nat
    var inFlight: map<TxHash, InFlightTx>
    var desynced: bool
    var preparing: int

    ghost function Model(): Pipe
      reads this, nonceMgr
    {
      Pipe(nonceMgr.Model(), maxInFlight, inFlight, desynced, preparing)
    }

    constructor (startingNonce: nat, maxInFlight: nat)
      ensures fresh(nonceMgr)
      ensures Model() == Pipe(Nonces(startingNonce, map[]), maxInFlight, map[], false, 0)
    {
      this.nonceMgr := new NonceManager(startingNonce);
      this.maxInFlight := maxInFlight;
      this.inFlight := map[];
      this.desynced := false;
      this.preparing := 0;
    }

    method Prepare(request: TxRequest, fees: Option<GasFees>)
      returns (r: Result<PreparedTx, TransactionError>)
      modifies this, nonceMgr
      ensures (Model(), r) == old(Model()).Prepare(request, fees)
      ensures r.Ok? <==> old(Model()).CanPrepare(fees)
      ensures r.Ok? ==> nonceMgr.next == old(nonceMgr.next) + 1 && preparing == old(preparing) + 1
      ensures r.Ok? ==> r.value.nonce == old(nonceMgr.next) && r.value.request == request
      ensures r.Ok? ==> r.value.gasLimit == request.gasLimit && fees == Some(r.value.gasFees)
      ensures r.Err? ==> Model() == old(Model())
      ensures r.Err? ==> r.error == if |inFlight| >= maxInFlight then TooManyInFlight(|inFlight|, maxInFlight)
                                    else GasUnavailable
    {
      if |inFlight| >= maxInFlight {
        return Err(TooManyInFlight(|inFlight|, maxInFlight));
      }
      if fees.None? {
        return Err(GasUnavailable);
      }
      var nonce := nonceMgr.Acquire();
      preparing := preparing + 1;
      r := Ok(PreparedTx(nonce, request.gasLimit, fees.value, request));
    }

    method RecordSubmission(txHash: TxHash, prepared: PreparedTx, nowMs: nat)
      modifies this, nonceMgr
      ensures Model() == old(Model()).RecordSubmission(txHash, prepared, nowMs)
      ensures inFlight == old(inFlight)[txHash :=
                InFlightTx(prepared.nonce, txHash, prepared.request, nowMs, prepared.gasFees)]
      ensures nonceMgr.pending == old(nonceMgr.pending)[prepared.nonce := PendingTx(txHash, prepared.nonce, nowMs)]
      ensures nonceMgr.next == old(nonceMgr.next) && preparing == old(preparing) - 1
    {
      preparing := preparing - 1;
      nonceMgr.Track(prepared.nonce, txHash, nowMs);
      inFlight := inFlight[txHash :=
        InFlightTx(prepared.nonce, txHash, prepared.request, nowMs, prepared.gasFees)];
    }

    method Resolve(txHash: TxHash)
      modifies this, nonceMgr
      ensures Model() == old(Model()).Resolve(txHash)
      ensures nonceMgr.next == old(nonceMgr.next)
    {
      if txHash in inFlight {
        var tx := inFlight[txHash];
        inFlight := inFlight - {txHash};
        var _ := nonceMgr.Confirm(tx.nonce);
      }
    }

    /** Ignores whether the rewind took, so a blocked one raises no flag. */
    method Fail(txHash: TxHash)
      modifies this, nonceMgr
      ensures Model() == old(Model()).Fail(txHash)
      ensures desynced == old(desynced)
    {
      if txHash in inFlight {
        var tx := inFlight[txHash];
        inFlight := inFlight - {txHash};
        var _ := nonceMgr.Release(tx.nonce);
      }
    }

    method AbandonPrepared(nonce: nat)
      modifies this, nonceMgr
      ensures Model() == old(Model()).AbandonPrepared(nonce)
      ensures old(nonceMgr.next) == nonce + 1 ==> nonceMgr.next == nonce && desynced == old(desynced)
      ensures old(nonceMgr.next) != nonce + 1 ==> nonceMgr.next == old(nonceMgr.next) && desynced
    {
      preparing := preparing - 1;
      var rewound := nonceMgr.Release(nonce);
      if !rewound {
        desynced := true;
      }
    }

    method MarkDesyncedPrepared()
      modifies this
      ensures Model() == old(Model()).MarkDesyncedPrepared()
    {
      preparing := preparing - 1;
      desynced := true;
    }

    method MarkDesynced()
      modifies this
      ensures Model() == old(Model()).MarkDesynced()
    {
      desynced := true;
    }

    method IsDesynced() returns (r: bool)
      ensures r == Model().desynced
    {
      r := desynced;
    }

    method CanResync() returns (r: bool)
      ensures r == Model().CanResync()
    {
      r := inFlight == map[] && preparing == 0;
      assert |inFlight| == 0 <==> inFlight == map[];
    }

    method ResyncNonce(onChainNonce: nat)
      modifies this, nonceMgr
      ensures Model() == old(Model()).ResyncNonce(onChainNonce)
    {
      nonceMgr.Resync(onChainNonce);
      desynced := false;
    }

    method InFlightCount() returns (count: nat)
      ensures count == |Model().inFlight|
    {
      count := |inFlight|;
    }
  }
}
