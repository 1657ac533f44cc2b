/** Transaction order inside one block (src/protocol/block-ordering.ts). */
module BlockOrdering {
  import opened Prelude
  import opened Bitcoin

  datatype OrderedTransaction = OrderedTransaction(txIndex: nat, transaction: Tx)

  function WithIndex(txs: seq<Tx>): (r: seq<OrderedTransaction>) {
    seq(|txs|, i requires 0 <= i < |txs| => OrderedTransaction(i, txs[i]))
  }

  /** The first check that transaction `i` fails after the ones before it, in the order they are made. */
  function Fault(txs: seq<Tx>, i: nat): (r: Option<Failure>)
    requires i < |txs|
  {
    if exists j :: 0 <= j < i && txs[j].txid == txs[i].txid then Some(DuplicateTxid)
    else if i == 0 && !IsCoinbase(txs[i]) then Some(CoinbaseMissing)
    else if i > 0 && IsCoinbase(txs[i]) then Some(CoinbaseMisplaced)
    else None
  }

  /**
   * Accepts exactly the blocks with distinct txids and the coinbase first; otherwise reports the
   * fault of the earliest faulty transaction.
   */
  method OrderedBlockTransactions(block: Block) returns (r: Result<seq<OrderedTransaction>>)
    ensures r.Ok? <==> DistinctTxids(block.txs) && CoinbaseFirst(block.txs)
    ensures r.Ok? ==> r.value == WithIndex(block.txs)
    ensures r.Err? ==> exists i :: 0 <= i < |block.txs| && Fault(block.txs, i) == Some(r.error)
                         && forall j :: 0 <= j < i ==> Fault(block.txs, j) == None
  {
    var seen: set<Txid> := {};
    var ordered := [];
    for i := 0 to |block.txs|
      invariant ordered == WithIndex(block.txs)[..i]
      invariant seen == set j | 0 <= j < i :: block.txs[j].txid
      invariant DistinctTxids(block.txs[..i]) && CoinbaseFirst(block.txs[..i])
      invariant forall j :: 0 <= j < i ==> Fault(block.txs, j) == None
    {
      var tx := block.txs[i];
      if tx.txid in seen {
        assert Fault(block.txs, i) == Some(DuplicateTxid);
        return Err(DuplicateTxid);
      }
      seen := seen + {tx.txid};
      if i == 0 && !IsCoinbase(tx) {
        assert Fault(block.txs, i) == Some(CoinbaseMissing);
        return Err(CoinbaseMissing);
      }
      if i > 0 && IsCoinbase(tx) {
        assert Fault(block.txs, i) == Some(CoinbaseMisplaced);
        return Err(CoinbaseMisplaced);
      }
      ordered := ordered + [OrderedTransaction(i, tx)];
    }
    assert block.txs[..|block.txs|] == block.txs;
    return Ok(ordered);
  }
}
