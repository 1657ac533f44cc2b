/** Small shared types: optional values and the outcome of an operation that can throw. */
module Prelude {

  datatype Option<+T> = None | Some(value: T)

  /** Every error the modelled code can raise, one constructor per `throw` or rejected statement. */
  datatype Failure =
    | DuplicateTxid        // "duplicate txid in block"
    | CoinbaseMissing      // "first transaction must be coinbase"
    | CoinbaseMisplaced    // "coinbase transaction must be first"
    | InitNotInBlock       // "configured INIT is not in the activation block"
    | ValidatorThrew       // the validator refuses its context ("active carrier keys must be sorted and distinct")
    | UnusableVerdict      // a verdict the reducer cannot read (an undefined record or marker)
    | ObjectExists         // "object already exists"
    | NotActive            // "predecessor object is not active"
    | WrongPredecessor     // "predecessor outpoint does not match current state"
    | BadSequence          // "sequence must increase by exactly one"
    | DuplicateKey         // a primary or unique key rejects an INSERT
    | ColumnTooNarrow      // "Data too long for column", "Out of range value for column"
    | ForeignKey           // a foreign key rejects an INSERT
    | TipChanged           // "canonical tip changed before rollback lock"
    | AncestorMismatch     // "configured reorg ancestor does not match canonical storage"
    | UnsafeHeights        // "reorg heights must be safe integers"
    | CrossesInit          // "reorg ancestor crosses the configured INIT boundary"
    | AncestorNotBelowTip  // "reorg ancestor must be below the old tip"
    | RpcFailed            // a node call was rejected
    | StoreFailed          // the database lost or refused a whole transaction
    | BadCursor            // "invalid cursor", "cursor does not belong to the indexed block"
    | StateDiffers         // "catalog SQL state differs from signed agreement"
    | SnapshotChanged      // "catalog snapshot changed; restart pagination"
    | PageInconsistent     // "catalog page is inconsistent"
    | NothingIndexed       // "checkpoint unavailable"
    | BadProgram           // "carrier witness program must be 32-byte lowercase hex"

  datatype Result<+T> = Ok(value: T) | Err(error: Failure) {
    predicate IsFailure() {
      Err?
    }

    function PropagateFailure<U>(): Result<U>
      requires Err?
    {
      Err(error)
    }

    function Extract(): T
      requires Ok?
    {
      value
    }
  }

  function Lookup<K, V>(m: map<K, V>, k: K): Option<V> {
    if k in m then Some(m[k]) else None
  }
}
