/**
 * The store (src/indexer/indexer.store.ts): a database transaction works on its own copy of the tables
 * and replaces the stored ones only when every statement was accepted.
 */
module IndexerStores {
  import opened Prelude
  import opened Bitcoin
  import opened Reducer
  import opened Schema
  import opened Reorg

  /** What becomes of a transaction as a whole; a lost one is committed, but its commit is reported as failed. */
  datatype Fate = Commits | Fails | Lost

  datatype CanonicalTip = CanonicalTip(height: nat, hash: Hash, chainedRoot: Hash)

  datatype Journal = Journal(oldTipHash: Hash, ancestorHash: Hash, newTipHash: Hash)

  datatype JournalRow = JournalRow(
    oldTipHeight: nat, ancestorHeight: int, journal: Journal, rolledBackBlocks: nat)

  ghost predicate IsTip(t: Tables, tip: Option<CanonicalTip>) {
    match tip
    case None => t.blocks == map[]
    case Some(tip) =>
      && tip.height in t.blocks && (forall h :: h in t.blocks ==> h <= tip.height)
      && t.blocks[tip.height].hash == tip.hash && t.blocks[tip.height].chainedRoot == tip.chainedRoot
  }

  /** The rollback's two checks under lock; the ancestor's hash is compared only if its row exists. */
  ghost predicate MayRollBack(t: Tables, plan: ReorgPlan, journal: Journal) {
    && plan.oldTipHeight in t.blocks && (forall h :: h in t.blocks ==> h <= plan.oldTipHeight)
    && t.blocks[plan.oldTipHeight].hash == journal.oldTipHash
    && (plan.ancestorHeight in t.blocks ==> t.blocks[plan.ancestorHeight].hash == journal.ancestorHash)
  }

  // Once a statement is refused, the loop it stands in stays refused.

  lemma {:induction false} TransactionErrorStays(t: Tables, height: nat, rows: seq<TxRow>, n: nat, m: nat)
    requires n <= m <= |rows| && WriteTransactions(t, height, rows, n).Err?
    ensures WriteTransactions(t, height, rows, m) == WriteTransactions(t, height, rows, n)
  {
    hide InsertTransaction;
    if n < m {
      TransactionErrorStays(t, height, rows, n, m - 1);
    }
  }

  lemma {:induction false} EventErrorStays(t: Tables, height: nat, rows: seq<EventRecord>, n: nat, m: nat)
    requires n <= m <= |rows| && WriteEvents(t, height, rows, n).Err?
    ensures WriteEvents(t, height, rows, m) == WriteEvents(t, height, rows, n)
  {
    hide InsertEvent;
    if n < m {
      EventErrorStays(t, height, rows, n, m - 1);
    }
  }

  lemma {:induction false} ObjectErrorStays(t: Tables, height: nat, w: Work, n: nat, m: nat)
    requires n <= m <= |w.touched| && WriteObjects(t, height, w, n).Err?
    ensures WriteObjects(t, height, w, m) == WriteObjects(t, height, w, n)
  {
    hide WriteObject;
    if n < m {
      ObjectErrorStays(t, height, w, n, m - 1);
    }
  }

  lemma {:induction false} StateErrorStays(t: Tables, height: nat, rows: seq<StateRow>, n: nat, m: nat)
    requires n <= m <= |rows| && WriteStates(t, height, rows, n).Err?
    ensures WriteStates(t, height, rows, m) == WriteStates(t, height, rows, n)
  {
    hide InsertState, InsertCarrier;
    if n < m {
      StateErrorStays(t, height, rows, n, m - 1);
    }
  }

  lemma {:induction false} ChapterErrorStays(t: Tables, height: nat, rows: seq<ChapterRow>, n: nat, m: nat)
    requires n <= m <= |rows| && WriteChapters(t, height, rows, n).Err?
    ensures WriteChapters(t, height, rows, m) == WriteChapters(t, height, rows, n)
  {
    hide InsertChapter;
    if n < m {
      ChapterErrorStays(t, height, rows, n, m - 1);
    }
  }

  lemma {:induction false} BlockErrorStays(t: Tables, blocks: seq<ReducedBlock>, n: nat, m: nat)
    requires n <= m <= |blocks| && WriteBlocks(t, blocks, n).Err?
    ensures WriteBlocks(t, blocks, m) == WriteBlocks(t, blocks, n)
  {
    hide Schema.WriteBlock;
    if n < m {
      BlockErrorStays(t, blocks, n, m - 1);
    }
  }

  class IndexerStore {
    var db: Tables
    var reorgs: seq<JournalRow>
    /** By number of the transactions begun before it. */
    const fate: nat -> Fate
    var transactions: nat

    constructor (fate: nat -> Fate)
      ensures db == EMPTY_TABLES && reorgs == []
      ensures this.fate == fate && transactions == 0
    {
      db := EMPTY_TABLES;
      reorgs := [];
      this.fate := fate;
      transactions := 0;
    }

    /** From now on every transaction commits, unless a statement is refused. */
    ghost predicate Healthy()
      reads this
    {
      forall n :: transactions <= n ==> fate(n) == Commits
    }

    /** The block row of greatest height. */
    method ReadTip() returns (tip: Option<CanonicalTip>)
      ensures IsTip(db, tip)
    {
      tip := None;
      var keys := db.blocks.Keys;
      while keys != {}
        invariant keys <= db.blocks.Keys
        invariant tip.None? ==> keys == db.blocks.Keys
        invariant tip.Some? ==>
                    && tip.value.height in db.blocks
                    && db.blocks[tip.value.height].hash == tip.value.hash
                    && db.blocks[tip.value.height].chainedRoot == tip.value.chainedRoot
                    && forall h :: h in db.blocks && h !in keys ==> h <= tip.value.height
        decreases keys
      {
        var h :| h in keys;
        if tip.None? || h > tip.value.height {
          tip := Some(CanonicalTip(h, db.blocks[h].hash, db.blocks[h].chainedRoot));
        }
        keys := keys - {h};
      }
    }

    method BlockHash(height: nat) returns (hash: Option<Hash>)
      ensures hash == if height in db.blocks then Some(db.blocks[height].hash) else None
    {
      hash := if height in db.blocks then Some(db.blocks[height].hash) else None;
    }

    /** The parts of one block that touch objects, carriers and chapters. */
    static method WriteObjectRows(start: Tables, height: nat, w: Work) returns (r: Result<Tables>)
      ensures r == var objected := WriteObjects(start, height, w, |w.touched|);
                   if objected.Err? then objected
                   else
                     var stated := WriteStates(objected.value, height, w.newStates, |w.newStates|);
                     if stated.Err? then stated
                     else
                       WriteChapters(WriteSpends(stated.value, height, w.spentOutpoints, |w.spentOutpoints|), height,
                                     w.chapters, |w.chapters|)
    {
      hide WriteObject, InsertState, InsertCarrier, SpendOutpoint, InsertChapter;
      var db := start;
      for i := 0 to |w.touched|
        invariant WriteObjects(start, height, w, i) == Ok(db)
      {
        var next := WriteObject(db, height, w, w.touched[i]);
        if next.Err? {
          ObjectErrorStays(start, height, w, i + 1, |w.touched|);
          return next;
        }
        db := next.value;
      }
      ghost var objected := db;
      for i := 0 to |w.newStates|
        invariant WriteStates(objected, height, w.newStates, i) == Ok(db)
      {
        var next := InsertState(db, height, w.newStates[i]);
        if next.Ok? {
          next := InsertCarrier(next.value, height, w.newStates[i]);
        }
        if next.Err? {
          StateErrorStays(objected, height, w.newStates, i + 1, |w.newStates|);
          return next;
        }
        db := next.value;
      }
      ghost var stated := db;
      for i := 0 to |w.spentOutpoints|
        invariant WriteSpends(stated, height, w.spentOutpoints, i) == db
      {
        db := SpendOutpoint(db, height, w.spentOutpoints[i]);
      }
      ghost var spent := db;
      for i := 0 to |w.chapters|
        invariant WriteChapters(spent, height, w.chapters, i) == Ok(db)
      {
        var next := InsertChapter(db, height, w.chapters[i]);
        if next.Err? {
          ChapterErrorStays(spent, height, w.chapters, i + 1, |w.chapters|);
          return next;
        }
        db := next.value;
      }
      return Ok(db);
    }

    /** One block, statement by statement. */
    static method WriteBlock(start: Tables, block: ReducedBlock) returns (r: Result<Tables>)
      ensures r == Schema.WriteBlock(start, block)
    {
      hide InsertBlock, InsertInit, InsertTransaction, InsertEvent, WriteObjects, WriteStates, WriteSpends,
        WriteChapters,
        InsertCheckpoint;
      var next := InsertBlock(start, block);
      if next.Ok? && block.initConfirmed {
        next := InsertInit(next.value, block.activation);
      }
      if next.Err? {
        return next;
      }
      var db := next.value;
      ghost var activated := db;
      for i := 0 to |block.transactions|
        invariant WriteTransactions(activated, block.height, block.transactions, i) == Ok(db)
      {
        next := InsertTransaction(db, block.height, block.transactions[i]);
        if next.Err? {
          TransactionErrorStays(activated, block.height, block.transactions, i + 1, |block.transactions|);
          return next;
        }
        db := next.value;
      }
      ghost var listed := db;
      for i := 0 to |block.events|
        invariant WriteEvents(listed, block.height, block.events, i) == Ok(db)
      {
        next := InsertEvent(db, block.height, block.events[i]);
        if next.Err? {
          EventErrorStays(listed, block.height, block.events, i + 1, |block.events|);
          return next;
        }
        db := next.value;
      }
      next := WriteObjectRows(db, block.height, block.work);
      if next.Err? {
        return next;
      }
      next := InsertCheckpoint(next.value, block);
      return next;
    }

    /** All the blocks or none of them; a lost commit leaves them stored although it throws. */
    method AppendBlocks(blocks: seq<ReducedBlock>) returns (r: Result<()>)
      modifies this`db, this`transactions
      ensures transactions == old(transactions) + 1
      ensures match WriteBlocks(old(db), blocks, |blocks|)
              case Ok(after) =>
                && r == (if fate(old(transactions)) == Commits then Ok(()) else Err(StoreFailed))
                && db == (if fate(old(transactions)) == Fails then old(db) else after)
              case Err(e) => r == Err(e) && db == old(db)
    {
      hide Schema.WriteBlock;
      transactions := transactions + 1;
      var manager := db;
      for i := 0 to |blocks|
        invariant db == old(db) && transactions == old(transactions) + 1
        invariant WriteBlocks(db, blocks, i) == Ok(manager)
      {
        var next := WriteBlock(manager, blocks[i]);
        if next.Err? {
          BlockErrorStays(db, blocks, i + 1, |blocks|);
          return Err(next.error);
        }
        manager := next.value;
      }
      if fate(transactions - 1) == Fails {
        return Err(StoreFailed);
      }
      db := manager;
      return if fate(transactions - 1) == Lost then Err(StoreFailed) else Ok(());
    }

    /** Replays one height's undo rows, last one first. */
    method RestoreObjects(start: Tables, rows: seq<UndoRow>) returns (manager: Tables)
      ensures manager == Schema.RestoreObjects(start, rows, 0)
    {
      manager := start;
      var i := |rows|;
      while i > 0
        invariant 0 <= i <= |rows|
        invariant manager == Schema.RestoreObjects(start, rows, i)
      {
        i := i - 1;
        manager := RestoreObject(manager, rows[i]);
      }
    }

    /**
     * Rolls back the plan's heights in one transaction and writes the journal row, if the tip and the
     * ancestor are still what the plan was made for; otherwise changes nothing.
     */
    method Rollback(plan: ReorgPlan, journal: Journal) returns (r: Result<()>)
      modifies this
      ensures transactions == old(transactions) + 1
      ensures r.Ok? <==> MayRollBack(old(db), plan, journal) && fate(old(transactions)) == Commits
      ensures MayRollBack(old(db), plan, journal) && fate(old(transactions)) != Fails ==>
                && db == RollbackHeights(old(db), plan.rollbackHeights, |plan.rollbackHeights|)
                && reorgs == old(reorgs) + [JournalRow(plan.oldTipHeight, plan.ancestorHeight, journal,
                                                       |plan.rollbackHeights|)]
      ensures !MayRollBack(old(db), plan, journal) || fate(old(transactions)) == Fails ==>
                db == old(db) && reorgs == old(reorgs)
      ensures MayRollBack(old(db), plan, journal) && r.Err? ==> r.error == StoreFailed
    {
      hide ClearHeight, DeleteBlock, UndoAt, Schema.RestoreObjects;
      transactions := transactions + 1;
      var tip := ReadTip();
      if tip.None? || tip.value.height != plan.oldTipHeight || tip.value.hash != journal.oldTipHash {
        return Err(TipChanged);
      }
      if plan.ancestorHeight >= 0 {
        var ancestor := BlockHash(plan.ancestorHeight);
        if ancestor.Some? && ancestor.value != journal.ancestorHash {
          return Err(AncestorMismatch);
        }
      }
      var manager := db;
      for i := 0 to |plan.rollbackHeights|
        invariant db == old(db) && reorgs == old(reorgs) && transactions == old(transactions) + 1
        invariant manager == RollbackHeights(db, plan.rollbackHeights, i)
      {
        var height := plan.rollbackHeights[i];
        var undo := UndoAt(manager.undo, height);
        manager := ClearHeight(manager, height);
        manager := RestoreObjects(manager, undo);
        manager := DeleteBlock(manager, height);
      }
      if fate(transactions - 1) == Fails {
        return Err(StoreFailed);
      }
      db := manager;
      reorgs := reorgs + [JournalRow(plan.oldTipHeight, plan.ancestorHeight, journal, |plan.rollbackHeights|)];
      return if fate(transactions - 1) == Lost then Err(StoreFailed) else Ok(());
    }
  }
}
