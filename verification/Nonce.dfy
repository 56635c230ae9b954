/** The nonce manager: the counter the client owns, and the nonces it is tracking. */
module Nonce {
  import opened Wrappers
  import opened Errors

  datatype PendingTx = PendingTx(txHash: TxHash, nonce: nat, submittedAtMs: nat)

  /** The manager's abstract value. */
  datatype Nonces = Nonces(next: nat, pending: map<nat, PendingTx>)
  {
    function Track(nonce: nat, txHash: TxHash, nowMs: nat): Nonces {
      this.(pending := pending[nonce := PendingTx(txHash, nonce, nowMs)])
    }

    function Confirm(nonce: nat): Nonces {
      this.(pending := pending - {nonce})
    }

    /** Rewinds only when `nonce` is still the latest acquisition. */
    function Release(nonce: nat): Nonces {
      Nonces(if next == nonce + 1 then nonce else next, pending - {nonce})
    }
  }

  class NonceManager {
    var next: nat
    var pending: map<nat, PendingTx>

    ghost function Model(): Nonces
      reads this
    {
      Nonces(next, pending)
    }

    constructor (onChainNonce: nat)
      ensures Model() == Nonces(onChainNonce, map[])
    {
      next := onChainNonce;
      pending := map[];
    }

    method Acquire() returns (nonce: nat)
      modifies this
      ensures nonce == old(next)
      ensures Model() == old(Model()).(next := nonce + 1)
    {
      nonce := next;
      next := next + 1;
    }

    method Track(nonce: nat, txHash: TxHash, submittedAtMs: nat)
      modifies this
      ensures Model() == old(Model()).Track(nonce, txHash, submittedAtMs)
    {
      pending := pending[nonce := PendingTx(txHash, nonce, submittedAtMs)];
    }

    method Confirm(nonce: nat) returns (tx: Option<PendingTx>)
      modifies this
      ensures Model() == old(Model()).Confirm(nonce)
      ensures tx == if nonce in old(pending) then Some(old(pending)[nonce]) else None
    {
      tx := if nonce in pending then Some(pending[nonce]) else None;
      pending := pending - {nonce};
    }

    /** `rewound` says whether the compare-and-exchange took. */
    method Release(nonce: nat) returns (rewound: bool)
      modifies this
      ensures Model() == old(Model()).Release(nonce)
      ensures rewound <==> old(next) == nonce + 1
      ensures rewound <==> next != old(next)
    {
      pending := pending - {nonce};
      rewound := next == nonce + 1;
      if rewound {
        next := nonce;
      }
    }

    method Resync(onChainNonce: nat)
      modifies this
      ensures Model() == Nonces(onChainNonce, map[])
    {
      next := onChainNonce;
      pending := map[];
    }

    method PendingCount() returns (count: nat)
      ensures count == |Model().pending|
    {
      count := |pending|;
    }
  }
}
