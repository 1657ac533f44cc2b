/** Reducing one block never throws: the activation block and every later one. */
module Activation {
  import opened Prelude
  import opened Bitcoin
  import opened Tandem
  import opened Reducer
  import opened Schema
  import opened Invariants
  import opened History
  import opened Transactions
  import opened Blocks

  /** What a reduced block owes to the tables, objects and transactions it was reduced from. */
  ghost predicate Reduces(p: Protocol, base: Tables, pre: Objects, block: Block, r: ReducedBlock, seen: set<Txid>) {
    && r.height == block.height && r.hash == block.hash && r.previousHash == block.previousHash
    && r.transactions == TxRows(block.txs, r.events, |block.txs|)
    && Inv(p, base, pre, block.height, r.work, seen + Txids(block))
    && Traces(pre, r.work.objects, r.events)
    && InOrder(r.events, block.txs, |block.txs|)
  }

  /** A failed INIT leaves no object; a valid one opens at least the lead later. */
  ghost predicate ActivationOk(p: Protocol, a: InitActivation, objects: Objects) {
    && a.txid == p.binding.initTxid
    && (a.valid ==> a.openHeight.Some? && a.closeHeight.Some? && a.openHeight.value >= a.height + INIT_LEAD)
    && (!a.valid ==> objects == map[])
  }

  lemma TxidsAreAll(block: Block)
    ensures TxidsBefore(block.txs, |block.txs|) == Txids(block)
  {
  }

  lemma {:induction false} OrderGrows(rows: seq<EventRecord>, txs: seq<Tx>, n: nat, m: nat)
    requires n <= m <= |txs| && InOrder(rows, txs, n)
    ensures InOrder(rows, txs, m)
  {
  }

  /** A block after the activation block. */
  lemma LaterBlockReduces(p: Protocol, base: Tables, pre: Objects, activation: InitActivation, root: Hash, block: Block,
                          seen: set<Txid>)
    requires Lawful(p) && WellFormed(block) && Txids(block) !! seen
    requires p.binding.initTxid !in Txids(block)
    requires Inv(p, base, pre, block.height, StartOf(pre), seen)
    requires ActivationOk(p, activation, pre)
    ensures Reduce(p, Some(activation), root, pre, block).Ok?
    ensures
      var r := Reduce(p, Some(activation), root, pre, block).value;
      && Reduces(p, base, pre, block, r, seen)
      && r.activation == activation && !r.initConfirmed
      && ActivationOk(p, activation, r.work.objects)
      && (!activation.valid ==> r.events == [])
  {
    hide Inv, Traces, InOrder, ClassifyAll, TxRows, StartOf;
    StartObjects(pre);
    TxidsAreAll(block);
    assert forall i :: 0 <= i < |block.txs| ==> block.txs[i].txid in Txids(block);
    if activation.valid {
      var window := Window(activation.height, activation.openHeight.value, activation.closeHeight.value);
      BlockProcessed(p, window, base, pre, StartOf(pre), block.txs, block.height, |block.txs|, seen);
      var all := ClassifyAll(p, window, StartOf(pre), block.txs, block.height, |block.txs|).value;
      assert [] + all.events == all.events;
    } else {
      InvSees(p, base, pre, block.height, StartOf(pre), seen, seen + Txids(block));
      TracesNothing(pre);
      NoRowsInOrder(block.txs);
    }
  }

  lemma StartObjects(objects: Objects)
    ensures StartOf(objects).objects == objects
  {
  }

  lemma NoRowsInOrder(txs: seq<Tx>)
    ensures InOrder([], txs, |txs|)
  {
  }

  /** The INIT classified on its own: no state change, at most one row, valid only with the lead. */
  lemma InitClassified(p: Protocol, base: Tables, block: Block, seen: set<Txid>, at: nat)
    requires Lawful(p) && WellFormed(block) && Txids(block) !! seen
    requires Inv(p, base, map[], block.height, StartOf(map[]), seen)
    requires at < |block.txs| && block.txs[at].txid == p.binding.initTxid
    ensures
      var window := InitWindow(block.height, InitHeights(p, block.txs[at]));
      var done := Classify(p, window, StartOf(map[]), block.txs[at], at, block.height);
      && done.Ok? && done.value.work == StartOf(map[]) && |done.value.events| <= 1
      && InOrder(done.value.events, block.txs, |block.txs|)
      && Traces(map[], map[], done.value.events)
      && (done.value.events != [] && done.value.events[0].validity.ValidOperation? ==>
            done.value.events[0].eventType == INIT && InitHeights(p, block.txs[at]).Some? &&
            window.openHeight >= block.height + INIT_LEAD)
  {
    hide Inv, Traces, InitHeights, Classify, StartOf, RemainingCandidates, RowsOf, RowsTell, VerdictOf,
      ContextOf;
    var tx := block.txs[at];
    var window := InitWindow(block.height, InitHeights(p, tx));
    StartObjects(map[]);
    ClassifyKeepsInv(p, window, base, map[], StartOf(map[]), tx, at, block.height, seen);
    EarlyTransactionIdles(p, window, StartOf(map[]), tx, at, block.height);
    var done := Classify(p, window, StartOf(map[]), tx, at, block.height).value;
    var verdict := VerdictOf(p, Evidence(tx, block.height), ContextOf(p, window, StartOf(map[]), tx));
    var s := Scope(p, window, tx, at, block.height, verdict);
    assert InOrder([], block.txs, at);
    RowsFit(s, done.events);
    RowsExtendOrder(s, [], done.events, block.txs, at);
    assert [] + done.events == done.events;
    OrderGrows(done.events, block.txs, at + 1, |block.txs|);
  }

  /** The block that confirms the configured INIT. */
  lemma ActivationBlockReduces(p: Protocol, base: Tables, root: Hash, block: Block, seen: set<Txid>)
    requires Lawful(p) && WellFormed(block) && Txids(block) !! seen
    requires HasTxid(block, p.binding.initTxid)
    requires Inv(p, base, map[], block.height, StartOf(map[]), seen)
    ensures Reduce(p, None, root, map[], block).Ok?
    ensures
      var r := Reduce(p, None, root, map[], block).value;
      && Reduces(p, base, map[], block, r, seen)
      && r.initConfirmed && r.activation.height == block.height && r.activation.blockHash == block.hash
      && ActivationOk(p, r.activation, r.work.objects)
      && r.work.objects == map[]
  {
    hide Inv, Traces, InitHeights, Classify, StartOf, InOrder, ClassifyAll, TxRows;
    var at := InitPosition(block.txs, p.binding.initTxid, 0).value;
    var heights := InitHeights(p, block.txs[at]);
    var window := InitWindow(block.height, heights);
    StartObjects(map[]);
    TxidsAreAll(block);
    assert forall i :: 0 <= i < |block.txs| ==> block.txs[i].txid in Txids(block);
    InitClassified(p, base, block, seen, at);
    var progress := Classify(p, window, StartOf(map[]), block.txs[at], at, block.height).value;
    if ActivationOf(p, block, heights, progress.events).valid {
      BlockProcessed(p, window, base, map[], StartOf(map[]), block.txs, block.height, |block.txs|, seen);
      EarlyBlockIdles(p, window, StartOf(map[]), block.txs, block.height, |block.txs|);
      var all := ClassifyAll(p, window, StartOf(map[]), block.txs, block.height, |block.txs|).value;
      assert [] + all.events == all.events;
    } else {
      InvSees(p, base, map[], block.height, StartOf(map[]), seen, seen + Txids(block));
    }
  }

  /**
   * Classified twice, the configured INIT changes nothing and is recorded once: the block's events hold
   * its one row, and no other row of the block is of its transaction.
   */
  lemma InitRecordedOnce(p: Protocol, base: Tables, root: Hash, block: Block, seen: set<Txid>) returns (from: nat)
    requires Lawful(p) && WellFormed(block) && Txids(block) !! seen
    requires HasTxid(block, p.binding.initTxid)
    requires Inv(p, base, map[], block.height, StartOf(map[]), seen)
    requires Reduce(p, None, root, map[], block).Ok?
    ensures
      var r := Reduce(p, None, root, map[], block).value;
      && r.work == StartOf(map[])
      && (r.activation.valid ==>
            && from < |r.events|
            && r.events[from].txid == p.binding.initTxid
            && r.events[from].eventType == INIT && r.events[from].validity.ValidOperation?
            && r.events[from].reason == r.activation.reason
            && forall i :: 0 <= i < |r.events| && i != from ==> r.events[i].txid != p.binding.initTxid)
  {
    hide Inv, Traces, InitHeights, Classify, StartOf, InOrder, ClassifyAll, TxRows;
    var at := InitPosition(block.txs, p.binding.initTxid, 0).value;
    var heights := InitHeights(p, block.txs[at]);
    var window := InitWindow(block.height, heights);
    StartObjects(map[]);
    assert forall i :: 0 <= i < |block.txs| ==> block.txs[i].txid in Txids(block);
    ActivationBlockReduces(p, base, root, block, seen);
    InitClassified(p, base, block, seen, at);
    var progress := Classify(p, window, StartOf(map[]), block.txs[at], at, block.height).value;
    from := 0;
    if ActivationOf(p, block, heights, progress.events).valid {
      BlockProcessed(p, window, base, map[], StartOf(map[]), block.txs, block.height, |block.txs|, seen);
      EarlyBlockIdles(p, window, StartOf(map[]), block.txs, block.height, |block.txs|);
      from := InitClassifiedAgain(p, window, StartOf(map[]), block.txs, block.height, |block.txs|, at);
      var all := ClassifyAll(p, window, StartOf(map[]), block.txs, block.height, |block.txs|).value;
      assert [] + all.events == all.events;
      ClassifiedRowsPlaced(p, window, StartOf(map[]), block.txs[at], at, block.height);
      assert all.events[from..from + 1][0] == all.events[from];
      OtherRowsAreOthers(all.events, block.txs, at, from);
    }
  }

  lemma OtherRowsAreOthers(all: seq<EventRecord>, txs: seq<Tx>, at: nat, from: nat)
    requires at < |txs| && DistinctTxids(txs) && InOrder(all, txs, |txs|)
    requires forall i :: 0 <= i < |all| && i != from ==> all[i].txIndex != at
    ensures forall i :: 0 <= i < |all| && i != from ==> all[i].txid != txs[at].txid
    ensures from < |all| && all[from].txIndex == at ==> all[from].txid == txs[at].txid
  {
  }
}
