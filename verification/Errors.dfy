/** What a send can fail with, and the two questions a caller asks of the failure. */
module Errors {
  import opened Wrappers

  /** The hash of a signed transaction. The signed bytes contain the nonce and a
      collision-free hash determines them, so a hash determines its nonce. */
  datatype TxHash = TxHash(nonce: nat, digest: nat)

  datatype TransactionError =
    | SimulationReverted(selector: nat)
    | SimulationFailed
    | GasUnavailable
    | Reverted(hash: TxHash)
    | OutOfGas(hash: TxHash, gasUsed: nat, gasLimit: nat)
    | TakerNotClosed(hash: TxHash, posId: nat)
    | ReceiptTimeout(hash: TxHash)
    | BroadcastFailed(hash: TxHash)
    | SigningFailed
    | TooManyInFlight(count: nat, max: nat)
    | NonceDesynced(inFlight: nat)
  {
    /** Broadcast, and not confirmed either way. */
    predicate IsUnconfirmed() {
      BroadcastFailed? || ReceiptTimeout?
    }

    /** The hash of the signed transaction, for every failure from the broadcast on. */
    function Hash(): Option<TxHash> {
      match this
      case BroadcastFailed(h) => Some(h)
      case ReceiptTimeout(h) => Some(h)
      case Reverted(h) => Some(h)
      case OutOfGas(h, _, _) => Some(h)
      case TakerNotClosed(h, _) => Some(h)
      case _ => None
    }
  }

  /** The error type of `send`: a transaction error, or a failure of the layers beside it. */
  datatype SendError = Rpc | InvalidConfig | Transaction(error: TransactionError)
  {
    predicate IsUnconfirmed() {
      Transaction? && error.IsUnconfirmed()
    }

    function Hash(): Option<TxHash> {
      if Transaction? then error.Hash() else None
    }
  }
}
