/** Bitcoin blocks and transactions as the node serves them, and what consensus promises about them. */
module Bitcoin {
  import opened Prelude

  newtype Byte = b: int | 0 <= b < 256
  type Bytes = seq<Byte>

  const U32_MAX: nat := 0xffff_ffff

  // A 32-byte hash in display hex is the number its 64 digits write.
  type Txid = nat
  type Hash = nat

  /** `txid:vout`, the display form the indexer uses as a map key. */
  datatype Outpoint = Outpoint(txid: Txid, vout: nat)

  /**
   * An input without `txid` and `vout` (a coinbase input) has no outpoint. The node reports with an input
   * the height at which the output it spends was confirmed, which may differ from fork to fork.
   */
  datatype Input = Input(outpoint: Option<Outpoint>, coinbase: bool, witnessStack: seq<Bytes>,
                         prevoutHeight: Option<nat>)

  datatype Output = Output(n: nat, script: Bytes)

  datatype Tx = Tx(txid: Txid, wtxid: Txid, version: int, locktime: nat,
                   inputs: seq<Input>, outputs: seq<Output>)

  datatype Block = Block(hash: Hash, previousHash: Option<Hash>, height: nat, time: nat, txs: seq<Tx>)

  predicate HasTxid(block: Block, txid: Txid) {
    exists i :: 0 <= i < |block.txs| && block.txs[i].txid == txid
  }

  ghost function Txids(block: Block): set<Txid> {
    set i | 0 <= i < |block.txs| :: block.txs[i].txid
  }

  predicate IsCoinbase(tx: Tx) {
    exists i :: 0 <= i < |tx.inputs| && tx.inputs[i].coinbase
  }

  predicate Spends(inputs: seq<Input>, outpoint: Outpoint) {
    exists i :: 0 <= i < |inputs| && inputs[i].outpoint == Some(outpoint)
  }

  /** The public key that the witness of a native P2WPKH input reveals. */
  function Revealed(tx: Tx, index: nat): Bytes {
    if index < |tx.inputs| && |tx.inputs[index].witnessStack| > 1 then tx.inputs[index].witnessStack[1] else []
  }

  /** A transaction never spends one output twice. */
  ghost predicate DistinctInputs(tx: Tx) {
    forall i, j :: 0 <= i < j < |tx.inputs| && tx.inputs[i].outpoint.Some? ==>
      tx.inputs[i].outpoint != tx.inputs[j].outpoint
  }

  ghost predicate DistinctTxids(txs: seq<Tx>) {
    forall i, j :: 0 <= i < j < |txs| ==> txs[i].txid != txs[j].txid
  }

  /** The coinbase transaction is the first one and only the first one. */
  ghost predicate CoinbaseFirst(txs: seq<Tx>) {
    forall i :: 0 <= i < |txs| ==> (IsCoinbase(txs[i]) <==> i == 0)
  }

  /** Inputs, and the numbers of outputs, fit 32 bits. */
  ghost predicate IsSized(tx: Tx) {
    |tx.inputs| <= U32_MAX && forall i :: 0 <= i < |tx.outputs| ==> tx.outputs[i].n <= U32_MAX
  }

  ghost predicate AreSized(txs: seq<Tx>) {
    |txs| <= U32_MAX && forall i :: 0 <= i < |txs| ==> IsSized(txs[i])
  }

  ghost predicate WellFormed(block: Block) {
    && DistinctTxids(block.txs) && AreSized(block.txs)
    && CoinbaseFirst(block.txs)
    && forall i :: 0 <= i < |block.txs| ==> DistinctInputs(block.txs[i])
  }

  ghost predicate Linked(chain: seq<Block>) {
    forall i :: 0 < i < |chain| ==> chain[i].previousHash == Some(chain[i - 1].hash)
  }

  /** Each block is well formed and heights count up by one. */
  ghost predicate Sound(chain: seq<Block>) {
    && (forall i :: 0 <= i < |chain| ==> WellFormed(chain[i]))
    && (forall i :: 0 <= i < |chain| ==> chain[i].height == chain[0].height + i)
  }

  /** No block hash and no txid occurs twice in a sound chain. */
  ghost predicate Coherent(chain: seq<Block>) {
    && Sound(chain)
    && (forall i, j :: 0 <= i < j < |chain| ==> chain[i].hash != chain[j].hash)
    && (forall i, j :: 0 <= i < j < |chain| ==> Txids(chain[i]) !! Txids(chain[j]))
  }
}
