/**
 * Batches and rollbacks over whole chains: appending extends the replayed chain, rolling back cuts it,
 * and the objects can be read back from the tables.
 */
module Runs {
  import opened Prelude
  import opened Bitcoin
  import opened StateEngine
  import opened Tandem
  import opened Reducer
  import opened Schema
  import opened Written
  import opened Invariants
  import opened Chain
  import opened Reorg
  import opened WorkingStates
  import opened IndexerStores

  // ----- appending a batch --------------------------------------------------------------------

  /** The reduced blocks the sync loop hands to the store for these blocks. */
  ghost predicate ReducedFrom(p: Protocol, chain: seq<Block>, blocks: seq<Block>, batch: seq<ReducedBlock>) {
    && |batch| == |blocks|
    && forall i :: 0 <= i < |blocks| ==> ReduceNext(p, CanonOf(p, chain + blocks[..i]), blocks[i]) == Ok(batch[i])
  }

  predicate BatchFits(batch: seq<ReducedBlock>, n: nat)
    requires n <= |batch|
  {
    forall i :: 0 <= i < n ==> FitsColumns(batch[i])
  }

  /**
   * A batch of any length is accepted as a whole, and leaves the tables of the longer chain, exactly when the
   * rows of each of its blocks fit their columns.
   */
  lemma {:induction false} BatchExtendsChain(p: Protocol, chain: seq<Block>, blocks: seq<Block>,
                                             batch: seq<ReducedBlock>, n: nat)
    requires Lawful(p) && ValidChain(p, chain + blocks)
    requires ReducedFrom(p, chain, blocks, batch)
    requires n <= |blocks|
    ensures WriteBlocks(TablesOf(p, chain), batch, n) ==
            if BatchFits(batch, n) then Ok(TablesOf(p, chain + blocks[..n])) else Err(ColumnTooNarrow)
    ensures Accepted(p, chain + blocks[..n]) <==> Accepted(p, chain) && BatchFits(batch, n)
  {
    hide TablesOf, CanonOf, ReduceNext, WriteBlock, ValidChain, AfterBlock, Accepted, FitsColumns;
    if n == 0 {
      assert chain + blocks[..0] == chain;
    } else {
      BatchExtendsChain(p, chain, blocks, batch, n - 1);
      var before := chain + blocks[..n - 1];
      assert (chain + blocks)[..|chain| + n] == before + [blocks[n - 1]] == chain + blocks[..n];
      ValidPrefix(p, chain + blocks, |chain| + n);
      ReplayExtends(p, before, blocks[n - 1]);
      AcceptedGrows(p, before, blocks[n - 1]);
      assert BatchFits(batch, n) <==> BatchFits(batch, n - 1) && FitsColumns(batch[n - 1]);
    }
  }

  // ----- rolling back -------------------------------------------------------------------------

  /** Rolling back the top `n` heights, highest first, gives the tables of the chain without its last `n` blocks. */
  lemma {:induction false} RollbackCutsChain(p: Protocol, chain: seq<Block>, heights: seq<nat>, n: nat)
    requires Lawful(p) && ValidChain(p, chain)
    requires n <= |heights| && n <= |chain|
    requires forall i :: 0 <= i < n ==> heights[i] == chain[|chain| - 1 - i].height
    ensures RollbackHeights(TablesOf(p, chain), heights, n) == TablesOf(p, chain[..|chain| - n])
  {
    hide TablesOf, RollbackHeight, ValidChain;
    if n == 0 {
      assert chain[..|chain|] == chain;
    } else {
      RollbackCutsChain(p, chain, heights, n - 1);
      var longer, k := chain[..|chain| - (n - 1)], |chain| - n;
      assert longer == chain[..k] + [chain[k]];
      ValidPrefix(p, chain, |chain| - (n - 1));
      RollbackDropsLastBlock(p, chain[..k], chain[k]);
    }
  }

  /**
   * A rollback of the top `n` blocks keeps the row of tandem_init exactly when a block is left; a plan down
   * to one below the INIT height, which the boundary checks allow, deletes it.
   */
  lemma InitSurvivesExactly(p: Protocol, chain: seq<Block>, heights: seq<nat>, n: nat)
    requires Lawful(p) && ValidChain(p, chain)
    requires n <= |heights| && n <= |chain|
    requires forall i :: 0 <= i < n ==> heights[i] == chain[|chain| - 1 - i].height
    ensures RollbackHeights(TablesOf(p, chain), heights, n).init.Some? <==> n < |chain|
  {
    hide CanonOf, ObjectsOk, StatesOk, ChaptersOk, AllBelow, BlocksMatch, EventsMatch, RootMatches, RollbackHeights;
    RollbackCutsChain(p, chain, heights, n);
    var kept := chain[..|chain| - n];
    ValidPrefix(p, chain, |chain| - n);
    ChainReplays(p, kept);
  }

  /**
   * Appending any batch and rolling back to the old tip restores every table, row for row, whatever
   * the batch holds.
   */
  lemma RollbackUndoesBatch(p: Protocol, chain: seq<Block>, blocks: seq<Block>, batch: seq<ReducedBlock>,
                            heights: seq<nat>, after: Tables)
    requires Lawful(p) && ValidChain(p, chain + blocks) && blocks != []
    requires ReducedFrom(p, chain, blocks, batch)
    requires WriteBlocks(TablesOf(p, chain), batch, |batch|) == Ok(after)
    requires heights == Descending(blocks[|blocks| - 1].height, blocks[|blocks| - 1].height - |blocks|)
    ensures RollbackHeights(after, heights, |heights|) == TablesOf(p, chain)
  {
    hide TablesOf, RollbackHeights, WriteBlocks, ReducedFrom, ValidChain, Lawful, Accepted;
    var all := chain + blocks;
    ValidHeights(p, all);
    BatchLength(p, chain, blocks, batch);
    BatchExtendsChain(p, chain, blocks, batch, |blocks|);
    assert chain + blocks[..|blocks|] == all;
    assert all[|all| - 1] == blocks[|blocks| - 1];
    RollbackCutsChain(p, all, heights, |blocks|);
    assert all[..|chain|] == chain;
  }

  lemma ValidHeights(p: Protocol, chain: seq<Block>)
    requires ValidChain(p, chain)
    ensures forall i :: 0 <= i < |chain| ==> chain[i].height == chain[0].height + i
  {
  }

  lemma BatchLength(p: Protocol, chain: seq<Block>, blocks: seq<Block>, batch: seq<ReducedBlock>)
    requires ReducedFrom(p, chain, blocks, batch)
    ensures |batch| == |blocks|
  {
  }

  // ----- reading the cache back ---------------------------------------------------------------

  /** One row of the object query, with the carrier height joined from tandem_states. */
  function ObjectFromRow(k: Key, row: ObjectRow, states: StateTable): ObjectRecord {
    ObjectRecord(
      k, row.createTxid, row.createHeight, row.founding, row.status, row.stateSequence, row.currentOutpoint,
      if row.currentOutpoint.Some? && row.currentOutpoint.value in states
      then Some(states[row.currentOutpoint.value].createdHeight) else None,
      row.key0, row.key1, row.terminalTxid, row.chapterCount)
  }

  function LoadedObjects(t: Tables): Objects {
    map k | k in t.objects :: ObjectFromRow(k, t.objects[k], t.states)
  }

  /** What `loadObjects` reads is what the sync loop carried, carrier heights included. */
  lemma CacheAgrees(p: Protocol, chain: seq<Block>, c: Canon)
    requires CanonOk(p, chain, c)
    ensures LoadedObjects(c.tables) == c.objects
  {
    forall k | k in c.objects
      ensures ObjectFromRow(k, ObjectRowOf(c.objects[k]), c.tables.states) == c.objects[k]
    {
      assert RecordOk(p, k, c.objects[k], ChainTxids(chain));
    }
  }

  lemma TipIsLast(p: Protocol, chain: seq<Block>, c: Canon, tip: Option<CanonicalTip>)
    requires ValidChain(p, chain) && CanonOk(p, chain, c) && IsTip(c.tables, tip)
    ensures tip.Some? <==> chain != []
    ensures chain != [] ==>
              && tip.value.height == chain[|chain| - 1].height == chain[0].height + |chain| - 1
              && tip.value.hash == chain[|chain| - 1].hash && tip.value.chainedRoot == c.root
  {
    if chain != [] {
      assert chain[|chain| - 1].height in c.tables.blocks;
    }
  }

  lemma ActiveAreDistinct(p: Protocol, chain: seq<Block>, c: Canon)
    requires CanonOk(p, chain, c)
    ensures DistinctActive(c.objects)
  {
    var m := c.tables.states;
    forall j, k, o | j in c.objects && k in c.objects && Carries(c.objects[j], o) && Carries(c.objects[k], o)
      ensures j == k
    {
      assert m[o].objectKey == j && m[o].objectKey == k;
    }
  }

  /** Stored hashes are the chain's own, height by height. */
  lemma StoredHash(p: Protocol, chain: seq<Block>, c: Canon, height: nat)
    requires ValidChain(p, chain) && CanonOk(p, chain, c) && chain != []
    ensures height in c.tables.blocks <==> chain[0].height <= height < chain[0].height + |chain|
    ensures height in c.tables.blocks ==> c.tables.blocks[height].hash == chain[height - chain[0].height].hash
  {
    if chain[0].height <= height < chain[0].height + |chain| {
      assert chain[height - chain[0].height].height == height;
    }
  }
}
