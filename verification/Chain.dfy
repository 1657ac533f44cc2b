/**
 * Whole chains. `Replay` reduces and writes a chain block by block from empty tables; `CanonOk` is
 * what holds of the result for every chain Bitcoin can produce.
 */
module Chain {
  import opened Prelude
  import opened Bitcoin
  import opened StateEngine
  import opened Tandem
  import opened Reducer
  import opened Schema
  import opened Written
  import opened Invariants
  import opened History
  import opened Blocks
  import opened Appending
  import opened RollingBack
  import opened Activation

  /** The canonical state after a chain: what the sync loop carries, and the tables. */
  datatype Canon = Canon(activation: Option<InitActivation>, root: Hash, objects: Objects, tables: Tables)

  function Genesis(p: Protocol): Canon {
    Canon(None, p.initialRoot(p.binding.namespace), map[], EMPTY_TABLES)
  }

  ghost function Extend(p: Protocol, c: Canon, block: Block): Result<Canon> {
    var r :- Reduce(p, c.activation, c.root, c.objects, block);
    Ok(Canon(Some(r.activation), r.chainedRoot, r.work.objects, AfterBlock(c.tables, r)))
  }

  /** What a chain comes to, block by block from empty tables, were every column wide enough. */
  ghost function Derive(p: Protocol, chain: seq<Block>): Result<Canon> {
    if chain == [] then Ok(Genesis(p))
    else
      var before :- Derive(p, chain[..|chain| - 1]);
      Extend(p, before, chain[|chain| - 1])
  }

  /** The canonical state of a chain that reduces; the empty one otherwise. */
  ghost function CanonOf(p: Protocol, chain: seq<Block>): Canon {
    match Derive(p, chain) case Ok(c) => c case Err(_) => Genesis(p)
  }

  ghost function TablesOf(p: Protocol, chain: seq<Block>): Tables {
    CanonOf(p, chain).tables
  }

  /** Reducing the next block from the canonical state. */
  ghost function ReduceNext(p: Protocol, c: Canon, block: Block): Result<ReducedBlock> {
    Reduce(p, c.activation, c.root, c.objects, block)
  }

  /** The rows of the block fit their columns. */
  ghost predicate NextFits(p: Protocol, chain: seq<Block>, block: Block) {
    match ReduceNext(p, CanonOf(p, chain), block) case Ok(r) => FitsColumns(r) case Err(_) => false
  }

  /** The rows of every block of the chain fit their columns. */
  ghost predicate Accepted(p: Protocol, chain: seq<Block>) {
    forall i :: 0 <= i < |chain| ==> NextFits(p, chain[..i], chain[i])
  }

  /** Reducing and writing a chain from empty tables; the first refused row ends it. */
  ghost function Replay(p: Protocol, chain: seq<Block>): Result<Canon> {
    if chain == [] then Ok(Genesis(p))
    else
      var before :- Replay(p, chain[..|chain| - 1]);
      var r :- ReduceNext(p, before, chain[|chain| - 1]);
      var t :- WriteBlock(before.tables, r);
      Ok(Canon(Some(r.activation), r.chainedRoot, r.work.objects, t))
  }

  /** A chain the indexer may meet: it starts with the block that confirms the configured INIT. */
  ghost predicate ValidChain(p: Protocol, chain: seq<Block>) {
    Coherent(chain) && Linked(chain) && (chain != [] ==> HasTxid(chain[0], p.binding.initTxid))
  }

  ghost function ChainTxids(chain: seq<Block>): set<Txid> {
    if chain == [] then {} else ChainTxids(chain[..|chain| - 1]) + Txids(chain[|chain| - 1])
  }

  function NextHeight(chain: seq<Block>): nat {
    if chain == [] then 0 else chain[|chain| - 1].height + 1
  }

  /** Every row lies below this height. */
  ghost predicate AllBelow(t: Tables, height: nat) {
    && Below(t, height)
    && StatesUpTo(t.states, height - 1)
    && ChaptersUpTo(t.chapters, height - 1)
  }

  /** tandem_blocks has exactly one row per block of the chain, under its height and with its hash. */
  ghost predicate BlocksMatch(t: Tables, chain: seq<Block>) {
    && (forall i :: 0 <= i < |chain| ==> chain[i].height in t.blocks && t.blocks[chain[i].height].hash == chain[i].hash)
    && (forall h :: h in t.blocks ==> chain != [] && chain[0].height <= h < chain[0].height + |chain|)
    && t.checkpoints.Keys == t.blocks.Keys
  }

  ghost predicate TransactionsPlaced(m: TransactionTable, seen: set<Txid>, heights: set<nat>) {
    forall x :: x in m ==> x in seen && m[x].blockHeight in heights
  }

  ghost predicate EventsMatch(t: Tables, seen: set<Txid>) {
    && TransactionsPlaced(t.transactions, seen, t.blocks.Keys)
    && (forall e :: e in t.events ==>
          e.height in t.blocks && t.events[e].txid in t.transactions
          && t.transactions[t.events[e].txid].blockHeight == e.height
          && e == PositionOf(e.height, t.events[e])
          && e.txIndex <= U32_MAX && e.eventIndex <= U32_MAX && e.subIndex <= U32_MAX)
  }

  ghost predicate InitMatches(p: Protocol, chain: seq<Block>, c: Canon) {
    && c.tables.init == c.activation
    && (c.activation.Some? <==> chain != [])
    && (chain == [] ==> c.objects == map[])
    && (c.activation.Some? ==>
          c.activation.value.height == chain[0].height && ActivationOk(p, c.activation.value, c.objects))
  }

  /** The root carried to the next block is the one stored with the last. */
  ghost predicate RootMatches(p: Protocol, chain: seq<Block>, c: Canon) {
    if chain == [] then c.root == p.initialRoot(p.binding.namespace)
    else
      var tip := chain[|chain| - 1].height;
      tip in c.tables.blocks && c.tables.blocks[tip].chainedRoot == c.root
  }

  ghost predicate CanonOk(p: Protocol, chain: seq<Block>, c: Canon) {
    && ObjectsOk(p, c.objects, ChainTxids(chain))
    && StatesOk(c.tables.states, c.objects, ChainTxids(chain))
    && ChaptersOk(c.tables.chapters, c.objects, ChainTxids(chain))
    && c.tables.objects == ObjectRows(c.objects)
    && c.tables.carriers == CarriersOf(c.tables.states)
    && AllBelow(c.tables, NextHeight(chain))
    && BlocksMatch(c.tables, chain)
    && EventsMatch(c.tables, ChainTxids(chain))
    && InitMatches(p, chain, c)
    && RootMatches(p, chain, c)
  }

  // ----- from the tables to the next block ----------------------------------------------------

  /** Distinct active objects have distinct carriers, so the index built from the objects is exact. */
  lemma IndexBuiltExactly(p: Protocol, m: StateTable, objects: Objects, seen: set<Txid>)
    requires ObjectsOk(p, objects, seen) && CurrentRows(m, objects)
    ensures IndexOk(objects, IndexOf(objects))
  {
    forall k | k in objects && objects[k].currentOutpoint.Some?
      ensures objects[k].currentOutpoint.value in ActiveOutpoints(objects)
      ensures CarriedBy(objects, objects[k].currentOutpoint.value) == k
    {
      assert RecordOk(p, k, objects[k], seen);
      var o := objects[k].currentOutpoint.value;
      var j := CarriedBy(objects, o);
      assert m[o].objectKey == k;
      assert j in objects && Carries(objects[j], o) && m[o].objectKey == j;
    }
  }

  /** An index that is exact for some objects is the index built from them. */
  lemma ExactIndexIsBuilt(p: Protocol, objects: Objects, index: map<Outpoint, Key>, seen: set<Txid>)
    requires ObjectsOk(p, objects, seen) && IndexOk(objects, index)
    ensures index == IndexOf(objects)
  {
    forall o
      ensures o in index <==> o in IndexOf(objects)
      ensures o in index ==> index[o] == IndexOf(objects)[o]
    {
      if o in index {
        assert RecordOk(p, index[o], objects[index[o]], seen);
        assert o in ActiveOutpoints(objects);
      }
    }
  }

  lemma RowsBelowRollBack(m: StateTable, height: nat)
    requires forall o :: o in m ==>
               m[o].createdHeight < height && (m[o].spent.Some? ==> m[o].spent.value.height < height)
    ensures RolledBackStates(m, height) == m
  {
  }

  lemma StartKeepsInv(p: Protocol, t: Tables, objects: Objects, height: nat, seen: set<Txid>)
    requires ObjectsOk(p, objects, seen) && StatesOk(t.states, objects, seen) && ChaptersOk(t.chapters, objects, seen)
    requires AllBelow(t, height)
    ensures Inv(p, t, objects, height, StartOf(objects), seen)
  {
    hide IndexOf, IndexOk, ObjectsOk, RowsBelong, CurrentRows, UniqueRows, Contiguous, ChaptersOk;
    IndexBuiltExactly(p, t.states, objects, seen);
    RowsBelowRollBack(t.states, height);
    assert DeleteChapters(t.chapters, height) == t.chapters;
  }

  lemma {:induction false} TxidsAccumulate(chain: seq<Block>, block: Block)
    requires forall i :: 0 <= i < |chain| ==> Txids(chain[i]) !! Txids(block)
    ensures Txids(block) !! ChainTxids(chain)
  {
    if chain != [] {
      TxidsAccumulate(chain[..|chain| - 1], block);
    }
  }

  lemma ValidPrefix(p: Protocol, chain: seq<Block>, n: nat)
    requires ValidChain(p, chain) && n <= |chain|
    ensures ValidChain(p, chain[..n])
  {
  }

  /** What the next block of a valid chain brings. */
  lemma NextBlockIsNew(p: Protocol, chain: seq<Block>, block: Block, c: Canon)
    requires ValidChain(p, chain + [block]) && CanonOk(p, chain, c)
    ensures WellFormed(block) && Txids(block) !! ChainTxids(chain)
    ensures NextHeight(chain) <= block.height && NextHeight(chain + [block]) == block.height + 1
    ensures forall h :: h in c.tables.blocks ==> c.tables.blocks[h].hash != block.hash
    ensures chain == [] ==> HasTxid(block, p.binding.initTxid)
    ensures chain != [] ==> p.binding.initTxid !in Txids(block)
    ensures chain != [] ==> block.height == chain[0].height + |chain|
    ensures forall i :: 0 <= i < |block.txs| ==> block.txs[i].txid !in c.tables.transactions
  {
    var all := chain + [block];
    assert all[|chain|] == block;
    assert forall i :: 0 <= i < |chain| ==> all[i] == chain[i];
    TxidsAccumulate(chain, block);
    if chain != [] {
      assert all[0] == chain[0] && all[|chain| - 1] == chain[|chain| - 1];
      var i :| 0 <= i < |chain[0].txs| && chain[0].txs[i].txid == p.binding.initTxid;
      assert chain[0].txs[i].txid in Txids(chain[0]);
      forall h | h in c.tables.blocks
        ensures c.tables.blocks[h].hash != block.hash
      {
        var i := h - chain[0].height;
        assert all[i].hash != all[|chain|].hash;
        assert chain[i].height == h;
      }
    }
    forall i | 0 <= i < |block.txs|
      ensures block.txs[i].txid !in c.tables.transactions
    {
      assert block.txs[i].txid in Txids(block);
    }
  }

  // ----- heights of the rows a block adds -----------------------------------------------------

  ghost predicate StatesUpTo(m: StateTable, height: int) {
    forall o :: o in m ==> m[o].createdHeight <= height && (m[o].spent.Some? ==> m[o].spent.value.height <= height)
  }

  ghost predicate ChaptersUpTo(m: ChapterTable, height: int) {
    forall c :: c in m ==> m[c].blockHeight <= height
  }

  lemma {:induction false} PutStatesHeights(m: StateTable, height: nat, rows: seq<StateRow>, n: nat)
    requires n <= |rows|
    requires StatesUpTo(m, height)
    ensures StatesUpTo(PutStates(m, height, rows, n), height)
  {
    if n > 0 {
      PutStatesHeights(m, height, rows, n - 1);
    }
  }

  lemma {:induction false} SpendStatesHeights(m: StateTable, height: nat, spends: seq<Spend>, n: nat)
    requires n <= |spends|
    requires StatesUpTo(m, height)
    ensures StatesUpTo(SpendStates(m, height, spends, n), height)
  {
    if n > 0 {
      SpendStatesHeights(m, height, spends, n - 1);
    }
  }

  lemma {:induction false} PutChaptersHeights(m: ChapterTable, height: nat, rows: seq<ChapterRow>, n: nat)
    requires n <= |rows|
    requires ChaptersUpTo(m, height)
    ensures ChaptersUpTo(PutChapters(m, height, rows, n), height)
  {
    if n > 0 {
      PutChaptersHeights(m, height, rows, n - 1);
    }
  }

  lemma BlockStaysBelow(t: Tables, r: ReducedBlock, txs: seq<Tx>)
    requires AllBelow(t, r.height)
    requires r.initConfirmed ==> r.activation.height == r.height
    requires InOrder(r.events, txs, |txs|)
    ensures AllBelow(AfterBlock(t, r), r.height + 1)
  {
    hide InOrder, StatesAfter, ChaptersAfter, StatesUpTo, ChaptersUpTo, CarriersOf, ObjectRows, UndoRows, BlockRowOf,
      CheckpointOf;
    EventsInOrder(r.events, txs, r.height);
    PutTransactionsRows(t.transactions, r.height, r.transactions, |r.transactions|);
    PutEventsRows(t.events, r.height, r.events, |r.events|);
    UndoRowsHeight(r.height, r.work, |r.work.touched|);
    StatesAfterBelow(t, r);
  }

  lemma StatesAfterBelow(t: Tables, r: ReducedBlock)
    requires AllBelow(t, r.height)
    ensures StatesUpTo(StatesAfter(t.states, r.height, r.work), r.height)
    ensures ChaptersUpTo(ChaptersAfter(t.chapters, r.height, r.work), r.height)
  {
    assert StatesUpTo(t.states, r.height) && ChaptersUpTo(t.chapters, r.height);
    PutStatesHeights(t.states, r.height, r.work.newStates, |r.work.newStates|);
    SpendStatesHeights(PutStates(t.states, r.height, r.work.newStates, |r.work.newStates|), r.height,
                       r.work.spentOutpoints, |r.work.spentOutpoints|);
    PutChaptersHeights(t.chapters, r.height, r.work.chapters, |r.work.chapters|);
  }

  // ----- one more block -----------------------------------------------------------------------

  lemma AllBelowGrows(t: Tables, a: nat, b: nat)
    requires AllBelow(t, a) && a <= b
    ensures AllBelow(t, b)
  {
  }

  lemma BlockReduces(p: Protocol, chain: seq<Block>, block: Block, c: Canon)
    requires Lawful(p) && ValidChain(p, chain + [block]) && CanonOk(p, chain, c)
    ensures Reduce(p, c.activation, c.root, c.objects, block).Ok?
    ensures
      var r := Reduce(p, c.activation, c.root, c.objects, block).value;
      && Reduces(p, c.tables, c.objects, block, r, ChainTxids(chain))
      && ActivationOk(p, r.activation, r.work.objects)
      && (r.initConfirmed <==> chain == [])
      && (chain == [] ==> r.activation.height == block.height)
      && (chain == [] ==> r.work.objects == map[])
      && (chain != [] ==> Some(r.activation) == c.activation)
      && (chain != [] && !r.activation.valid ==> r.events == [])
  {
    hide Reduce, Inv, Reduces, ObjectsOk, StatesOk, ChaptersOk, AllBelow, StartOf, ActivationOk, WellFormed;
    NextBlockIsNew(p, chain, block, c);
    AllBelowGrows(c.tables, NextHeight(chain), block.height);
    StartKeepsInv(p, c.tables, c.objects, block.height, ChainTxids(chain));
    if chain == [] {
      ActivationBlockReduces(p, c.tables, c.root, block, ChainTxids(chain));
    } else {
      LaterBlockReduces(p, c.tables, c.objects, c.activation.value, c.root, block, ChainTxids(chain));
    }
  }

  lemma BlockContinues(p: Protocol, chain: seq<Block>, block: Block, c: Canon)
    requires Lawful(p) && ValidChain(p, chain + [block]) && CanonOk(p, chain, c)
    requires Reduce(p, c.activation, c.root, c.objects, block).Ok?
    ensures
      var r := Reduce(p, c.activation, c.root, c.objects, block).value;
      && Continues(p, c.tables, c.objects, r, block.txs, ChainTxids(chain) + Txids(block))
      && RowsOwned(c.tables, c.objects)
      && WriteBlock(c.tables, r) == if FitsColumns(r) then Ok(AfterBlock(c.tables, r)) else Err(ColumnTooNarrow)
  {
    hide Reduce, Inv, StartOf, WriteBlock, AfterBlock, StatesAfter, InOrder, Traces, TxRows;
    BlockReduces(p, chain, block, c);
    NextBlockIsNew(p, chain, block, c);
    AllBelowGrows(c.tables, NextHeight(chain), block.height);
    var r := Reduce(p, c.activation, c.root, c.objects, block).value;
    BlockIsAccepted(p, c.tables, c.objects, r, block.txs, ChainTxids(chain) + Txids(block));
  }

  lemma NextBlocksMatch(p: Protocol, chain: seq<Block>, block: Block, c: Canon, r: ReducedBlock)
    requires ValidChain(p, chain + [block]) && CanonOk(p, chain, c)
    requires r.height == block.height && r.hash == block.hash
    ensures BlocksMatch(AfterBlock(c.tables, r), chain + [block])
  {
    hide ObjectsOk, StatesOk, ChaptersOk, AllBelow, StatesAfter, ChaptersAfter, EventsMatch, InitMatches;
    NextBlockIsNew(p, chain, block, c);
    var after, all := AfterBlock(c.tables, r), chain + [block];
    assert all[0] == if chain == [] then block else chain[0];
    forall i | 0 <= i < |all|
      ensures all[i].height in after.blocks && after.blocks[all[i].height].hash == all[i].hash
    {
      if i < |chain| {
        assert all[i] == chain[i] && all[|chain|] == block;
      }
    }
  }

  lemma NextTransactionsMatch(t: Tables, r: ReducedBlock, block: Block, seen: set<Txid>)
    requires EventsMatch(t, seen) && WellFormed(block)
    requires r.height == block.height
    requires r.transactions == TxRows(block.txs, r.events, |block.txs|)
    ensures TransactionsPlaced(PutTransactions(t.transactions, r.height, r.transactions, |r.transactions|),
                               seen + Txids(block), t.blocks.Keys + {r.height})
  {
    hide PutTransactions;
    PutTransactionsRows(t.transactions, r.height, r.transactions, |r.transactions|);
    TxRowsOrdered(block.txs, r.events, |block.txs|);
  }

  lemma NextEventMatches(t: Tables, r: ReducedBlock, block: Block, seen: set<Txid>, e: EventPosition, row: EventRecord)
    requires EventsMatch(t, seen) && WellFormed(block)
    requires r.transactions == TxRows(block.txs, r.events, |block.txs|)
    requires InOrder(r.events, block.txs, |block.txs|)
    requires forall i :: 0 <= i < |block.txs| ==> block.txs[i].txid !in t.transactions
    requires (e in t.events && row == t.events[e]) || (row in r.events && e == PositionOf(r.height, row))
    ensures e.height in t.blocks || e.height == r.height
    ensures
      var m := PutTransactions(t.transactions, r.height, r.transactions, |r.transactions|);
      row.txid in m && m[row.txid].blockHeight == e.height
    ensures e == PositionOf(e.height, row)
    ensures e.txIndex <= U32_MAX && e.eventIndex <= U32_MAX && e.subIndex <= U32_MAX
  {
    if e in t.events && row == t.events[e] {
      OldTransactionStays(t, r, block, row.txid);
    } else {
      var i :| 0 <= i < |r.events| && r.events[i] == row;
      NewEventHasTransaction(t, r, block, i);
    }
  }

  lemma NextEventsMatch(t: Tables, r: ReducedBlock, block: Block, seen: set<Txid>)
    requires EventsMatch(t, seen) && WellFormed(block)
    requires r.height == block.height
    requires r.transactions == TxRows(block.txs, r.events, |block.txs|)
    requires InOrder(r.events, block.txs, |block.txs|)
    requires forall i :: 0 <= i < |block.txs| ==> block.txs[i].txid !in t.transactions
    ensures EventsMatch(AfterBlock(t, r), seen + Txids(block))
  {
    hide StatesAfter, ChaptersAfter, ObjectRows, CarriersOf, UndoRows, BlockRowOf, CheckpointOf, PutTransactions,
      PutEvents,
      InOrder, WellFormed, TxRows, PositionOf;
    var after := AfterBlock(t, r);
    NextTransactionsMatch(t, r, block, seen);
    assert after.blocks.Keys == t.blocks.Keys + {r.height};
    EventsInOrder(r.events, block.txs, r.height);
    PutEventsRows(t.events, r.height, r.events, |r.events|);
    forall e | e in after.events
      ensures e.height in after.blocks && after.events[e].txid in after.transactions
      ensures after.transactions[after.events[e].txid].blockHeight == e.height
      ensures e == PositionOf(e.height, after.events[e])
      ensures e.txIndex <= U32_MAX && e.eventIndex <= U32_MAX && e.subIndex <= U32_MAX
    {
      NextEventMatches(t, r, block, seen, e, after.events[e]);
    }
  }

  lemma OldTransactionStays(t: Tables, r: ReducedBlock, block: Block, x: Txid)
    requires x in t.transactions
    requires r.transactions == TxRows(block.txs, r.events, |block.txs|) && WellFormed(block)
    requires forall i :: 0 <= i < |block.txs| ==> block.txs[i].txid !in t.transactions
    ensures
      var m := PutTransactions(t.transactions, r.height, r.transactions, |r.transactions|);
      x in m && m[x] == t.transactions[x]
  {
    hide PutTransactions;
    PutTransactionsRows(t.transactions, r.height, r.transactions, |r.transactions|);
    TxRowsOrdered(block.txs, r.events, |block.txs|);
  }

  lemma NewEventHasTransaction(t: Tables, r: ReducedBlock, block: Block, i: nat)
    requires i < |r.events| && InOrder(r.events, block.txs, |block.txs|)
    requires r.transactions == TxRows(block.txs, r.events, |block.txs|) && WellFormed(block)
    requires forall i :: 0 <= i < |block.txs| ==> block.txs[i].txid !in t.transactions
    ensures
      var m := PutTransactions(t.transactions, r.height, r.transactions, |r.transactions|);
      r.events[i].txid in m && m[r.events[i].txid].blockHeight == r.height
  {
    hide PutTransactions;
    PutTransactionsRows(t.transactions, r.height, r.transactions, |r.transactions|);
    TxRowsOrdered(block.txs, r.events, |block.txs|);
    assert HasEvent(r.events, block.txs[r.events[i].txIndex].txid);
  }

  /** One more block keeps everything that holds of a replayed chain. */
  lemma ExtendKeepsCanon(p: Protocol, chain: seq<Block>, block: Block, c: Canon)
    requires Lawful(p) && ValidChain(p, chain + [block]) && CanonOk(p, chain, c)
    ensures Extend(p, c, block).Ok?
    ensures CanonOk(p, chain + [block], Extend(p, c, block).value)
  {
    hide Reduce, ObjectsOk, StatesOk, ChaptersOk, StartOf, IndexOk, UndoOk, IdentityOk, PendingStates, PendingChapters,
      StatesAfter, ChaptersAfter, WriteBlock, AllBelow, BlocksMatch, EventsMatch, InOrder, Traces, ActivationOk,
      RowsOwned, WellFormed, Coherent, TxRows, ObjectRows, CarriersOf, UndoRows, PutTransactions, PutEvents;
    BlockReduces(p, chain, block, c);
    BlockContinues(p, chain, block, c);
    NextBlockIsNew(p, chain, block, c);
    var r := Reduce(p, c.activation, c.root, c.objects, block).value;
    assert (chain + [block])[..|chain|] == chain && (chain + [block])[|chain|] == block;
    assert ChainTxids(chain + [block]) == ChainTxids(chain) + Txids(block);
    AllBelowGrows(c.tables, NextHeight(chain), block.height);
    BlockStaysBelow(c.tables, r, block.txs);
    NextBlocksMatch(p, chain, block, c, r);
    NextEventsMatch(c.tables, r, block, ChainTxids(chain));
  }

  /** Every valid chain reduces without an error, and everything in `CanonOk` holds of the result. */
  lemma {:induction false} DeriveSucceeds(p: Protocol, chain: seq<Block>)
    requires Lawful(p) && ValidChain(p, chain)
    ensures Derive(p, chain).Ok? && CanonOk(p, chain, Derive(p, chain).value)
  {
    hide Extend, Coherent, CanonOk;
    if chain == [] {
      EmptyIsOk(p);
    } else {
      var front, last := chain[..|chain| - 1], chain[|chain| - 1];
      assert front + [last] == chain;
      ValidPrefix(p, chain, |chain| - 1);
      DeriveSucceeds(p, front);
      ExtendKeepsCanon(p, front, last, Derive(p, front).value);
    }
  }

  lemma EmptyIsOk(p: Protocol)
    ensures CanonOk(p, [], Genesis(p))
  {
  }

  lemma ChainReplays(p: Protocol, chain: seq<Block>)
    requires Lawful(p) && ValidChain(p, chain)
    ensures Derive(p, chain) == Ok(CanonOf(p, chain)) && CanonOk(p, chain, CanonOf(p, chain))
  {
    hide ValidChain, CanonOk, Derive;
    DeriveSucceeds(p, chain);
  }

  /** The last block of a valid chain reduces; it is written onto the state before it exactly when it fits. */
  lemma ReplayExtends(p: Protocol, chain: seq<Block>, block: Block)
    requires Lawful(p) && ValidChain(p, chain + [block])
    ensures ValidChain(p, chain)
    ensures ReduceNext(p, CanonOf(p, chain), block).Ok?
    ensures
      var r := ReduceNext(p, CanonOf(p, chain), block).value;
      CanonOf(p, chain + [block])
      == Canon(Some(r.activation), r.chainedRoot, r.work.objects, AfterBlock(TablesOf(p, chain), r))
      && WriteBlock(TablesOf(p, chain), r) ==
         if FitsColumns(r) then Ok(TablesOf(p, chain + [block])) else Err(ColumnTooNarrow)
  {
    hide Reduce, AfterBlock, WriteBlock, ValidChain, Continues, RowsOwned, Reduces, CanonOk, CanonOf, Derive,
      ActivationOk, FitsColumns;
    assert (chain + [block])[..|chain|] == chain;
    ValidPrefix(p, chain + [block], |chain|);
    ChainReplays(p, chain);
    var c := CanonOf(p, chain);
    BlockReduces(p, chain, block, c);
    BlockContinues(p, chain, block, c);
    ReplayStep(p, chain, block, c);
  }

  lemma ReplayStep(p: Protocol, chain: seq<Block>, block: Block, c: Canon)
    requires Derive(p, chain) == Ok(c) && ReduceNext(p, c, block).Ok?
    ensures
      var r := ReduceNext(p, c, block).value;
      CanonOf(p, chain + [block]) == Canon(Some(r.activation), r.chainedRoot, r.work.objects, AfterBlock(c.tables, r))
  {
    hide Reduce, AfterBlock, WriteBlock;
    assert (chain + [block])[..|chain|] == chain && (chain + [block])[|chain|] == block;
  }

  /** Every prefix of an accepted chain is accepted, and so is the chain with one more block that fits. */
  lemma AcceptedPrefix(p: Protocol, chain: seq<Block>, n: nat)
    requires Accepted(p, chain) && n <= |chain|
    ensures Accepted(p, chain[..n])
  {
    hide NextFits;
    forall i | 0 <= i < n
      ensures NextFits(p, chain[..n][..i], chain[..n][i])
    {
      assert chain[..n][..i] == chain[..i];
    }
  }

  lemma AcceptedGrows(p: Protocol, chain: seq<Block>, block: Block)
    ensures Accepted(p, chain + [block]) <==> Accepted(p, chain) && NextFits(p, chain, block)
  {
    hide NextFits;
    var all := chain + [block];
    assert all[..|chain|] == chain && all[|chain|] == block;
    if Accepted(p, all) {
      AcceptedPrefix(p, all, |chain|);
    }
    if Accepted(p, chain) && NextFits(p, chain, block) {
      forall i | 0 <= i < |all|
        ensures NextFits(p, all[..i], all[i])
      {
        if i < |chain| {
          assert all[..i] == chain[..i];
        }
      }
    }
  }

  /**
   * A valid chain replays from empty tables exactly when the rows of each of its blocks fit their columns,
   * and then to its canonical state.
   */
  lemma {:induction false} ReplaysExactly(p: Protocol, chain: seq<Block>)
    requires Lawful(p) && ValidChain(p, chain)
    ensures Replay(p, chain) == if Accepted(p, chain) then Ok(CanonOf(p, chain)) else Err(ColumnTooNarrow)
  {
    hide CanonOf, ReduceNext, AfterBlock, WriteBlock, ValidChain, FitsColumns, Lawful;
    if chain == [] {
      NothingReplays(p);
    } else {
      var front, last := chain[..|chain| - 1], chain[|chain| - 1];
      assert front + [last] == chain;
      ReplayExtends(p, front, last);
      ReplaysExactly(p, front);
      AcceptedGrows(p, front, last);
    }
  }

  lemma NothingReplays(p: Protocol)
    ensures CanonOf(p, []) == Genesis(p)
  {
  }

  lemma EventsHaveTransactions(p: Protocol, chain: seq<Block>, c: Canon)
    requires CanonOk(p, chain, c)
    ensures forall e :: e in c.tables.events ==> c.tables.events[e].txid in c.tables.transactions
  {
  }

  /** Rolling back the last block of a chain gives the tables of the chain without it. */
  lemma RollbackDropsLastBlock(p: Protocol, chain: seq<Block>, block: Block)
    requires Lawful(p) && ValidChain(p, chain + [block])
    ensures RollbackHeight(TablesOf(p, chain + [block]), block.height) == TablesOf(p, chain)
  {
    hide CanonOf, Reduce, RollbackHeight, AfterBlock, WriteBlock, ValidChain, Continues, RowsOwned, CanonOk, Reduces;
    ReplayExtends(p, chain, block);
    ChainReplays(p, chain);
    var c := CanonOf(p, chain);
    BlockReduces(p, chain, block, c);
    BlockContinues(p, chain, block, c);
    EventsHaveTransactions(p, chain, c);
    RollbackUndoesBlock(p, c.tables, c.objects, ReduceNext(p, c, block).value, block.txs,
        ChainTxids(chain) + Txids(block));
    ReducedHeight(p, chain, block);
  }

  lemma ReducedHeight(p: Protocol, chain: seq<Block>, block: Block)
    requires Lawful(p) && ValidChain(p, chain + [block])
    ensures ReduceNext(p, CanonOf(p, chain), block).Ok?
    ensures ReduceNext(p, CanonOf(p, chain), block).value.height == block.height
    ensures ReduceNext(p, CanonOf(p, chain), block).value.hash == block.hash
  {
    hide CanonOf, CanonOk, Reduce, Inv, Traces, InOrder, ActivationOk;
    assert (chain + [block])[..|chain|] == chain;
    ValidPrefix(p, chain + [block], |chain|);
    ChainReplays(p, chain);
    BlockReduces(p, chain, block, CanonOf(p, chain));
  }
}
