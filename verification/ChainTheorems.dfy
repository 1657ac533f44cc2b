/** The main results about `reduceBlock` over every block of every chain. */
module ChainTheorems {
  import opened Prelude
  import opened Bitcoin
  import opened StateEngine
  import opened Tandem
  import opened Reducer
  import opened Moves
  import opened Invariants
  import opened History
  import opened Blocks
  import opened Activation
  import opened Chain
  import WorkingStates

  /** All event rows of a chain, block after block. */
  ghost function ChainEvents(p: Protocol, chain: seq<Block>): seq<EventRecord> {
    if chain == [] then []
    else
      var front := chain[..|chain| - 1];
      ChainEvents(p, front) +
      match ReduceNext(p, CanonOf(p, front), chain[|chain| - 1]) case Ok(r) => r.events case Err(_) => []
  }

  lemma BlockTraces(p: Protocol, chain: seq<Block>, block: Block)
    requires Lawful(p) && ValidChain(p, chain + [block])
    ensures ReduceNext(p, CanonOf(p, chain), block).Ok?
    ensures
      var r := ReduceNext(p, CanonOf(p, chain), block).value;
      && Traces(CanonOf(p, chain).objects, CanonOf(p, chain + [block]).objects, r.events)
      && CanonOf(p, chain + [block]).objects == r.work.objects
      && InOrder(r.events, block.txs, |block.txs|)
  {
    hide CanonOf, CanonOk, Reduce, Inv, InOrder, Traces, ActivationOk, ValidChain, TxRows;
    ReplayExtends(p, chain, block);
    ChainReplays(p, chain);
    BlockReduces(p, chain, block, CanonOf(p, chain));
  }

  /** From any point of a chain on, the later event rows trace the objects. */
  lemma {:induction false} ChainTraces(p: Protocol, chain: seq<Block>, n: nat) returns (rows: seq<EventRecord>)
    requires Lawful(p) && ValidChain(p, chain) && n <= |chain|
    ensures ChainEvents(p, chain) == ChainEvents(p, chain[..n]) + rows
    ensures Traces(CanonOf(p, chain[..n]).objects, CanonOf(p, chain).objects, rows)
  {
    hide CanonOf, ReduceNext, ValidChain, Traces, InOrder;
    if n == |chain| {
      assert chain[..n] == chain;
      rows := [];
      TracesNothing(CanonOf(p, chain).objects);
    } else {
      var front, last := chain[..|chain| - 1], chain[|chain| - 1];
      assert front + [last] == chain && front[..n] == chain[..n];
      ValidPrefix(p, chain, |chain| - 1);
      rows := ChainTraces(p, front, n);
      BlockTraces(p, front, last);
      var more := ReduceNext(p, CanonOf(p, front), last).value.events;
      TracesCompose(CanonOf(p, chain[..n]).objects, CanonOf(p, front).objects, CanonOf(p, chain).objects, rows, more);
      rows := rows + more;
    }
  }

  /**
   * Refinement: over a whole chain, the reference machine takes every recorded transition in order,
   * never refuses one, and ends with the same objects as the block engine.
   */
  lemma EngineRefinesReference(p: Protocol, chain: seq<Block>)
    requires Lawful(p) && ValidChain(p, chain)
    ensures Run(map[], Transitions(ChainEvents(p, chain))) == Ok(View(CanonOf(p, chain).objects))
  {
    hide CanonOf, ValidChain, ReduceNext;
    var rows := ChainTraces(p, chain, 0);
    assert chain[..0] == [];
    assert rows == ChainEvents(p, chain);
    GenesisIsEmpty(p);
  }

  lemma GenesisIsEmpty(p: Protocol)
    ensures CanonOf(p, []).objects == map[] && View(map[]) == map[]
  {
  }

  /** A terminal status is never left by appending blocks. */
  lemma TerminalPersists(p: Protocol, chain: seq<Block>, n: nat, k: Key)
    requires Lawful(p) && ValidChain(p, chain) && n <= |chain|
    requires k in CanonOf(p, chain[..n]).objects && !CanonOf(p, chain[..n]).objects[k].status.Active?
    ensures k in CanonOf(p, chain).objects
    ensures CanonOf(p, chain).objects[k] == CanonOf(p, chain[..n]).objects[k]
  {
    hide CanonOf, ValidChain, ReduceNext, Run;
    var _ := ChainTraces(p, chain, n);
  }

  /** Replaying the undo map over the objects after a block. */
  function ApplyUndo(objects: Objects, undo: map<Key, Option<ObjectRecord>>): Objects {
    map k | k in objects && !(k in undo && undo[k].None?) ::
      if k in undo && undo[k].Some? then undo[k].value else objects[k]
  }

  /**
   * However often a block touches an object, its undo map takes the objects after the block back to
   * the objects before it, and an object outside the map is unchanged.
   */
  lemma UndoIsExact(p: Protocol, chain: seq<Block>, block: Block)
    requires Lawful(p) && ValidChain(p, chain + [block])
    ensures ReduceNext(p, CanonOf(p, chain), block).Ok?
    ensures
      var r := ReduceNext(p, CanonOf(p, chain), block).value;
      && ApplyUndo(r.work.objects, r.work.undo) == CanonOf(p, chain).objects
      && forall k :: k !in r.work.undo ==> Lookup(r.work.objects, k) == Lookup(CanonOf(p, chain).objects, k)
  {
    hide CanonOf, CanonOk, Reduce, Inv, InOrder, Traces, ActivationOk, ValidChain, TxRows;
    ReplayExtends(p, chain, block);
    ChainReplays(p, chain);
    var c := CanonOf(p, chain);
    BlockReduces(p, chain, block, c);
    var r := ReduceNext(p, c, block).value;
    InvParts(p, c.tables, c.objects, block.height, r.work, ChainTxids(chain) + Txids(block));
    UndoApplies(c.objects, r.work);
  }

  lemma UndoApplies(pre: Objects, w: Work)
    requires UndoOk(pre, w) && IdentityOk(pre, w.objects)
    ensures ApplyUndo(w.objects, w.undo) == pre
    ensures forall k :: k !in w.undo ==> Lookup(w.objects, k) == Lookup(pre, k)
  {
    forall k
      ensures Lookup(ApplyUndo(w.objects, w.undo), k) == Lookup(pre, k)
    {
      if k !in w.undo {
        assert Lookup(w.objects, k) == Lookup(pre, k);
      }
    }
    var undone := ApplyUndo(w.objects, w.undo);
    assert forall k :: k in undone <==> Lookup(undone, k).Some?;
    assert forall k :: k in pre <==> Lookup(pre, k).Some?;
    assert forall k :: k in pre ==> Lookup(undone, k) == Some(pre[k]);
  }

  /**
   * After every transaction of a block the outpoint index is exactly the map from the current outpoints
   * of active objects to their keys.
   */
  lemma IndexIsExact(p: Protocol, chain: seq<Block>, block: Block, n: nat)
    requires Lawful(p) && ValidChain(p, chain + [block]) && chain != [] && n <= |block.txs|
    requires CanonOf(p, chain).activation.Some? && CanonOf(p, chain).activation.value.valid
    requires CanonOf(p, chain).activation.value.openHeight.Some? && CanonOf(p, chain).activation.value.closeHeight.Some?
    ensures
      var a := CanonOf(p, chain).activation.value;
      var window := Window(a.height, a.openHeight.value, a.closeHeight.value);
      var done := ClassifyAll(p, window, StartOf(CanonOf(p, chain).objects), block.txs, block.height, n);
      && done.Ok?
      && done.value.work.activeByOutpoint == IndexOf(done.value.work.objects)
      && WorkingStates.DistinctActive(done.value.work.objects)
  {
    hide CanonOf, AllBelow, StatesOk, ChaptersOk, ObjectsOk, Inv, Traces, InOrder, InitSafe, ClassifyAll, StartOf,
      Coherent;
    assert (chain + [block])[..|chain|] == chain;
    ValidPrefix(p, chain + [block], |chain|);
    ChainReplays(p, chain);
    var c := CanonOf(p, chain);
    NextBlockIsNew(p, chain, block, c);
    AllBelowGrows(c.tables, NextHeight(chain), block.height);
    StartKeepsInv(p, c.tables, c.objects, block.height, ChainTxids(chain));
    var a := c.activation.value;
    var window := Window(a.height, a.openHeight.value, a.closeHeight.value);
    assert forall i :: 0 <= i < |block.txs| ==> block.txs[i].txid in Txids(block);
    NoInitIsSafe(p, window, block, StartOf(c.objects).objects);
    BlockProcessed(p, window, c.tables, c.objects, StartOf(c.objects), block.txs, block.height, n, ChainTxids(chain));
    var done := ClassifyAll(p, window, StartOf(c.objects), block.txs, block.height, n).value;
    var seen := ChainTxids(chain) + TxidsBefore(block.txs, n);
    InvParts(p, c.tables, c.objects, block.height, done.work, seen);
    ExactIndexIsBuilt(p, done.work.objects, done.work.activeByOutpoint, seen);
    ExactIndexIsInjective(done.work.objects, done.work.activeByOutpoint);
  }

  lemma NoInitIsSafe(p: Protocol, window: Window, block: Block, objects: Objects)
    requires p.binding.initTxid !in Txids(block)
    ensures InitSafe(p, window, block.txs, block.height, objects)
  {
    assert forall i :: 0 <= i < |block.txs| ==> block.txs[i].txid in Txids(block);
  }

  lemma ExactIndexIsInjective(objects: Objects, index: map<Outpoint, Key>)
    requires IndexOk(objects, index)
    ensures WorkingStates.DistinctActive(objects)
  {
  }

  /**
   * tandem_init has its row exactly when a block is stored, and it is the activation the sync loop
   * carries. After a failed INIT no object exists and no later block yields an event.
   */
  lemma ActivationOverRuns(p: Protocol, chain: seq<Block>, block: Block)
    requires Lawful(p) && ValidChain(p, chain + [block])
    ensures TablesOf(p, chain).init.Some? <==> TablesOf(p, chain).blocks != map[]
    ensures TablesOf(p, chain).init == CanonOf(p, chain).activation
    ensures ReduceNext(p, CanonOf(p, chain), block).Ok?
    ensures
      var r := ReduceNext(p, CanonOf(p, chain), block).value;
      && (TablesOf(p, chain).init.Some? ==> Some(r.activation) == TablesOf(p, chain).init)
      && (r.initConfirmed <==> TablesOf(p, chain).init.None?)
      && (!r.activation.valid ==> r.work.objects == map[] && (chain != [] ==> r.events == []))
  {
    hide CanonOf, Reduce, Inv, InOrder, Traces, ValidChain, TxRows, ObjectsOk, StatesOk, ChaptersOk, AllBelow, Reduces;
    ReplayExtends(p, chain, block);
    ChainReplays(p, chain);
    BlockReduces(p, chain, block, CanonOf(p, chain));
    if chain != [] {
      assert chain[0].height in TablesOf(p, chain).blocks;
    }
  }
}
