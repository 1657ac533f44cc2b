/**
 * Keys, foreign keys and column widths hold of the tables after every accepted write and every rollback, whatever
 * is written or rolled back and whatever the tables held before.
 */
module Integrity {
  import opened Prelude
  import opened StateEngine
  import opened Reducer
  import opened Schema

  ghost predicate BlocksKeyed(t: Tables) {
    && (forall h, k :: h in t.blocks && k in t.blocks && t.blocks[h].hash == t.blocks[k].hash ==> h == k)
    && (forall h :: h in t.checkpoints ==> h in t.blocks)
    && (t.init.Some? ==> t.init.value.height in t.blocks)
    && (forall i :: 0 <= i < |t.undo| ==> t.undo[i].height in t.blocks)
  }

  predicate SamePlace(r: TransactionRow, s: TransactionRow) {
    r.blockHeight == s.blockHeight && r.txIndex == s.txIndex
  }

  ghost predicate TransactionsKeyed(t: Tables) {
    && (forall x :: x in t.transactions ==>
          t.transactions[x].blockHeight in t.blocks && VersionFits(t.transactions[x].version))
    && (forall x, y :: x in t.transactions && y in t.transactions && SamePlace(t.transactions[x], t.transactions[y]) ==>
          x == y)
  }

  ghost predicate EventsKeyed(t: Tables) {
    forall e :: e in t.events ==>
      && e.height in t.blocks && t.events[e].txid in t.transactions && PayloadFits(t.events[e].markerPayload)
      && e.txIndex == t.events[e].txIndex && e.eventIndex == t.events[e].eventIndex
      && e.subIndex == t.events[e].subIndex
  }

  ghost predicate ObjectsKeyed(objects: ObjectTable) {
    forall k, l :: k in objects && l in objects && objects[k].createTxid == objects[l].createTxid ==> k == l
  }

  predicate SameStep(r: CarrierState, s: CarrierState) {
    r.objectKey == s.objectKey && r.sequence == s.sequence
  }

  ghost predicate StatesKeyed(t: Tables) {
    && (forall o :: o in t.states ==> t.states[o].objectKey in t.objects)
    && (forall o, u :: o in t.states && u in t.states && SameStep(t.states[o], t.states[u]) ==> o == u)
    && (forall o :: o in t.carriers ==> t.carriers[o].objectKey in t.objects)
  }

  ghost predicate ChaptersKeyed(t: Tables) {
    && (forall c :: c in t.chapters ==> c.objectKey in t.objects)
    && (forall c, d :: c in t.chapters && d in t.chapters && t.chapters[c].txid == t.chapters[d].txid ==> c == d)
  }

  /** Every primary, unique and foreign key of the ten tables holds, and every value fits its column. */
  ghost predicate Intact(t: Tables) {
    && BlocksKeyed(t) && TransactionsKeyed(t) && EventsKeyed(t)
    && ObjectsKeyed(t.objects) && StatesKeyed(t) && ChaptersKeyed(t)
  }

  // ----- single statements --------------------------------------------------------------------

  /** Rows of the object, carrier and chapter tables do not depend on the others. */
  lemma ObjectsStay(t: Tables, u: Tables)
    requires ObjectsKeyed(t.objects) && StatesKeyed(t) && ChaptersKeyed(t)
    requires u.objects == t.objects && u.states == t.states && u.carriers == t.carriers && u.chapters == t.chapters
    ensures ObjectsKeyed(u.objects) && StatesKeyed(u) && ChaptersKeyed(u)
  {
  }

  lemma BlockInserted(t: Tables, r: ReducedBlock)
    requires Intact(t) && InsertBlock(t, r).Ok?
    ensures Intact(InsertBlock(t, r).value)
    ensures r.height !in t.blocks
  {
    hide ObjectsKeyed, StatesKeyed, ChaptersKeyed, VersionFits, PayloadFits;
    ObjectsStay(t, InsertBlock(t, r).value);
  }

  lemma InitInserted(t: Tables, init: InitActivation)
    requires Intact(t) && InsertInit(t, init).Ok?
    ensures Intact(InsertInit(t, init).value) && t.init.None?
  {
    hide ObjectsKeyed, StatesKeyed, ChaptersKeyed, VersionFits, PayloadFits;
    ObjectsStay(t, InsertInit(t, init).value);
  }

  lemma TransactionInserted(t: Tables, height: nat, row: TxRow)
    requires Intact(t) && InsertTransaction(t, height, row).Ok?
    ensures Intact(InsertTransaction(t, height, row).value) && row.txid !in t.transactions
  {
    hide ObjectsKeyed, StatesKeyed, ChaptersKeyed, VersionFits, PayloadFits;
    ObjectsStay(t, InsertTransaction(t, height, row).value);
  }

  lemma EventInserted(t: Tables, height: nat, e: EventRecord)
    requires Intact(t) && InsertEvent(t, height, e).Ok?
    ensures Intact(InsertEvent(t, height, e).value) && PositionOf(height, e) !in t.events
  {
    hide ObjectsKeyed, StatesKeyed, ChaptersKeyed, VersionFits, PayloadFits;
    ObjectsStay(t, InsertEvent(t, height, e).value);
  }

  lemma UndoInserted(t: Tables, row: UndoRow)
    requires Intact(t) && InsertUndo(t, row).Ok?
    ensures Intact(InsertUndo(t, row).value)
  {
    hide ObjectsKeyed, StatesKeyed, ChaptersKeyed, VersionFits, PayloadFits;
    ObjectsStay(t, InsertUndo(t, row).value);
  }

  lemma ObjectUpserted(t: Tables, r: ObjectRecord)
    requires Intact(t)
    ensures Intact(t.(objects := UpsertObject(t.objects, r)))
    ensures t.objects.Keys <= UpsertObject(t.objects, r).Keys
  {
    hide BlocksKeyed, TransactionsKeyed, EventsKeyed;
    OthersStay(t, t.(objects := UpsertObject(t.objects, r)));
  }

  /** Rows of the block, transaction and event tables do not depend on the others. */
  lemma OthersStay(t: Tables, u: Tables)
    requires BlocksKeyed(t) && TransactionsKeyed(t) && EventsKeyed(t)
    requires u.blocks == t.blocks && u.checkpoints == t.checkpoints && u.init == t.init && u.undo == t.undo
    requires u.transactions == t.transactions && u.events == t.events
    ensures BlocksKeyed(u) && TransactionsKeyed(u) && EventsKeyed(u)
  {
  }

  lemma StateInserted(t: Tables, height: nat, row: StateRow)
    requires Intact(t) && InsertState(t, height, row).Ok?
    ensures Intact(InsertState(t, height, row).value) && row.outpoint !in t.states
  {
    hide BlocksKeyed, TransactionsKeyed, EventsKeyed, ObjectsKeyed;
    OthersStay(t, InsertState(t, height, row).value);
  }

  lemma CarrierInserted(t: Tables, height: nat, row: StateRow)
    requires Intact(t) && InsertCarrier(t, height, row).Ok?
    ensures Intact(InsertCarrier(t, height, row).value) && row.outpoint !in t.carriers
  {
    hide BlocksKeyed, TransactionsKeyed, EventsKeyed, ObjectsKeyed;
    OthersStay(t, InsertCarrier(t, height, row).value);
  }

  lemma OutpointSpent(t: Tables, height: nat, s: Spend)
    requires Intact(t)
    ensures Intact(SpendOutpoint(t, height, s))
  {
    hide BlocksKeyed, TransactionsKeyed, EventsKeyed, ObjectsKeyed;
    OthersStay(t, SpendOutpoint(t, height, s));
  }

  lemma ChapterInserted(t: Tables, height: nat, row: ChapterRow)
    requires Intact(t) && InsertChapter(t, height, row).Ok?
    ensures Intact(InsertChapter(t, height, row).value)
    ensures ChapterKey(row.objectKey, row.sequence) !in t.chapters
  {
    hide BlocksKeyed, TransactionsKeyed, EventsKeyed, ObjectsKeyed;
    OthersStay(t, InsertChapter(t, height, row).value);
  }

  lemma CheckpointInserted(t: Tables, r: ReducedBlock)
    requires Intact(t) && InsertCheckpoint(t, r).Ok?
    ensures Intact(InsertCheckpoint(t, r).value) && r.height !in t.checkpoints
  {
    hide ObjectsKeyed, StatesKeyed, ChaptersKeyed, VersionFits, PayloadFits;
    ObjectsStay(t, InsertCheckpoint(t, r).value);
  }

  // ----- the loops of a write -----------------------------------------------------------------

  lemma {:induction false} TransactionsKept(t: Tables, height: nat, rows: seq<TxRow>, n: nat)
    requires n <= |rows| && Intact(t) && WriteTransactions(t, height, rows, n).Ok?
    ensures Intact(WriteTransactions(t, height, rows, n).value)
  {
    hide Intact, InsertTransaction;
    if n > 0 {
      TransactionsKept(t, height, rows, n - 1);
      TransactionInserted(WriteTransactions(t, height, rows, n - 1).value, height, rows[n - 1]);
    }
  }

  lemma {:induction false} EventsKept(t: Tables, height: nat, rows: seq<EventRecord>, n: nat)
    requires n <= |rows| && Intact(t) && WriteEvents(t, height, rows, n).Ok?
    ensures Intact(WriteEvents(t, height, rows, n).value)
  {
    hide Intact, InsertEvent;
    if n > 0 {
      EventsKept(t, height, rows, n - 1);
      EventInserted(WriteEvents(t, height, rows, n - 1).value, height, rows[n - 1]);
    }
  }

  lemma {:induction false} ObjectsKept(t: Tables, height: nat, w: Work, n: nat)
    requires n <= |w.touched| && Intact(t) && WriteObjects(t, height, w, n).Ok?
    ensures Intact(WriteObjects(t, height, w, n).value)
  {
    hide Intact, InsertUndo, UpsertObject;
    if n > 0 {
      ObjectsKept(t, height, w, n - 1);
      var before, key := WriteObjects(t, height, w, n - 1).value, w.touched[n - 1];
      var row := UndoRow(height, key, match Lookup(w.undo, key) case Some(prior) => prior case None => None);
      UndoInserted(before, row);
      if key in w.objects {
        ObjectUpserted(InsertUndo(before, row).value, w.objects[key]);
      }
    }
  }

  lemma {:induction false} StatesKept(t: Tables, height: nat, rows: seq<StateRow>, n: nat)
    requires n <= |rows| && Intact(t) && WriteStates(t, height, rows, n).Ok?
    ensures Intact(WriteStates(t, height, rows, n).value)
  {
    hide Intact, InsertState, InsertCarrier;
    if n > 0 {
      StatesKept(t, height, rows, n - 1);
      var before := WriteStates(t, height, rows, n - 1).value;
      StateInserted(before, height, rows[n - 1]);
      CarrierInserted(InsertState(before, height, rows[n - 1]).value, height, rows[n - 1]);
    }
  }

  lemma {:induction false} SpendsKept(t: Tables, height: nat, spends: seq<Spend>, n: nat)
    requires n <= |spends| && Intact(t)
    ensures Intact(WriteSpends(t, height, spends, n))
  {
    hide Intact, SpendOutpoint;
    if n > 0 {
      SpendsKept(t, height, spends, n - 1);
      OutpointSpent(WriteSpends(t, height, spends, n - 1), height, spends[n - 1]);
    }
  }

  lemma {:induction false} ChaptersKept(t: Tables, height: nat, rows: seq<ChapterRow>, n: nat)
    requires n <= |rows| && Intact(t) && WriteChapters(t, height, rows, n).Ok?
    ensures Intact(WriteChapters(t, height, rows, n).value)
  {
    hide Intact, InsertChapter;
    if n > 0 {
      ChaptersKept(t, height, rows, n - 1);
      ChapterInserted(WriteChapters(t, height, rows, n - 1).value, height, rows[n - 1]);
    }
  }

  /** Whatever a reduced block holds, writing it breaks no key and no width, or is refused. */
  lemma WriteKeepsIntact(t: Tables, r: ReducedBlock)
    requires Intact(t) && WriteBlock(t, r).Ok?
    ensures Intact(WriteBlock(t, r).value)
    ensures r.height !in t.blocks && (r.initConfirmed ==> t.init.None?)
  {
    hide Intact, InsertBlock, InsertInit, InsertCheckpoint, WriteTransactions, WriteEvents, WriteObjects, WriteStates,
      WriteSpends, WriteChapters;
    BlockInserted(t, r);
    var started := InsertBlock(t, r).value;
    BlockTableOnly(t, r);
    if r.initConfirmed {
      InitInserted(started, r.activation);
    }
    var activated := if r.initConfirmed then InsertInit(started, r.activation).value else started;
    TransactionsKept(activated, r.height, r.transactions, |r.transactions|);
    var listed := WriteTransactions(activated, r.height, r.transactions, |r.transactions|).value;
    EventsKept(listed, r.height, r.events, |r.events|);
    var logged := WriteEvents(listed, r.height, r.events, |r.events|).value;
    ObjectsKept(logged, r.height, r.work, |r.work.touched|);
    var objected := WriteObjects(logged, r.height, r.work, |r.work.touched|).value;
    StatesKept(objected, r.height, r.work.newStates, |r.work.newStates|);
    var stated := WriteStates(objected, r.height, r.work.newStates, |r.work.newStates|).value;
    SpendsKept(stated, r.height, r.work.spentOutpoints, |r.work.spentOutpoints|);
    var spent := WriteSpends(stated, r.height, r.work.spentOutpoints, |r.work.spentOutpoints|);
    ChaptersKept(spent, r.height, r.work.chapters, |r.work.chapters|);
    CheckpointInserted(WriteChapters(spent, r.height, r.work.chapters, |r.work.chapters|).value, r);
  }

  lemma BlockTableOnly(t: Tables, r: ReducedBlock)
    requires InsertBlock(t, r).Ok?
    ensures InsertBlock(t, r).value.init == t.init
  {
  }

  /** And so is writing a batch. */
  lemma {:induction false} BatchKeepsIntact(t: Tables, blocks: seq<ReducedBlock>, n: nat)
    requires n <= |blocks| && Intact(t) && WriteBlocks(t, blocks, n).Ok?
    ensures Intact(WriteBlocks(t, blocks, n).value)
  {
    hide Intact, WriteBlock;
    if n > 0 {
      BatchKeepsIntact(t, blocks, n - 1);
      WriteKeepsIntact(WriteBlocks(t, blocks, n - 1).value, blocks[n - 1]);
    }
  }

  // ----- rollbacks ----------------------------------------------------------------------------

  lemma HeightCleared(t: Tables, height: nat)
    requires Intact(t)
    ensures Intact(ClearHeight(t, height))
  {
    hide BlocksKeyed, TransactionsKeyed, EventsKeyed, ObjectsKeyed;
    OthersStay(t, ClearHeight(t, height));
  }

  lemma ObjectDeleted(t: Tables, key: Key)
    requires Intact(t)
    ensures Intact(DeleteObject(t, key))
  {
    hide BlocksKeyed, TransactionsKeyed, EventsKeyed;
    OthersStay(t, DeleteObject(t, key));
    StatesCascade(t, key);
  }

  lemma StatesCascade(t: Tables, key: Key)
    requires StatesKeyed(t)
    ensures StatesKeyed(DeleteObject(t, key))
  {
  }

  lemma ObjectOverwritten(t: Tables, prior: ObjectRecord)
    requires Intact(t) && prior.objectKey in t.objects
    ensures Intact(t.(objects := t.objects[prior.objectKey := Overwrite(t.objects[prior.objectKey], prior)]))
  {
    hide BlocksKeyed, TransactionsKeyed, EventsKeyed;
    OthersStay(t, t.(objects := t.objects[prior.objectKey := Overwrite(t.objects[prior.objectKey], prior)]));
  }

  lemma ObjectRestored(t: Tables, row: UndoRow)
    requires Intact(t)
    ensures Intact(RestoreObject(t, row))
  {
    hide Intact, DeleteObject, Overwrite;
    match row.prior
    case None => ObjectDeleted(t, row.objectKey);
    case Some(prior) =>
      if prior.objectKey in t.objects {
        ObjectOverwritten(t, prior);
      }
  }

  lemma {:induction false} ObjectsRestored(t: Tables, rows: seq<UndoRow>, n: nat)
    requires n <= |rows| && Intact(t)
    ensures Intact(RestoreObjects(t, rows, n))
    decreases |rows| - n
  {
    hide Intact, RestoreObject;
    if n < |rows| {
      ObjectsRestored(t, rows, n + 1);
      ObjectRestored(RestoreObjects(t, rows, n + 1), rows[n]);
    }
  }

  lemma {:induction false} UndoExceptParts(undo: seq<UndoRow>, height: nat)
    ensures forall i :: 0 <= i < |UndoExcept(undo, height)| ==>
              UndoExcept(undo, height)[i] in undo && UndoExcept(undo, height)[i].height != height
  {
    if undo != [] {
      UndoExceptParts(undo[..|undo| - 1], height);
    }
  }

  lemma BlockRowsDeleted(t: Tables, height: nat)
    requires BlocksKeyed(t)
    ensures BlocksKeyed(DeleteBlock(t, height)) && height !in DeleteBlock(t, height).blocks
  {
    UndoExceptParts(t.undo, height);
    var undo := UndoExcept(t.undo, height);
    forall i | 0 <= i < |undo|
      ensures undo[i].height in t.blocks && undo[i].height != height
    {
      assert undo[i] in t.undo;
    }
  }

  lemma TransactionRowsDeleted(t: Tables, height: nat)
    requires TransactionsKeyed(t)
    ensures TransactionsKeyed(DeleteBlock(t, height))
  {
    hide VersionFits;
  }

  lemma EventRowsDeleted(t: Tables, height: nat)
    requires EventsKeyed(t)
    ensures EventsKeyed(DeleteBlock(t, height))
  {
    hide PayloadFits;
  }

  lemma BlockDeleted(t: Tables, height: nat)
    requires Intact(t)
    ensures Intact(DeleteBlock(t, height)) && height !in DeleteBlock(t, height).blocks
  {
    hide BlocksKeyed, TransactionsKeyed, EventsKeyed, ObjectsKeyed, StatesKeyed, ChaptersKeyed;
    BlockRowsDeleted(t, height);
    TransactionRowsDeleted(t, height);
    EventRowsDeleted(t, height);
    ObjectsStay(t, DeleteBlock(t, height));
  }

  /** Rolling back any height, stored or not, breaks no key and leaves no row of the height's block. */
  lemma RollbackKeepsIntact(t: Tables, height: nat)
    requires Intact(t)
    ensures Intact(RollbackHeight(t, height)) && height !in RollbackHeight(t, height).blocks
  {
    hide Intact, ClearHeight, RestoreObjects, DeleteBlock, UndoAt;
    HeightCleared(t, height);
    ObjectsRestored(ClearHeight(t, height), UndoAt(t.undo, height), 0);
    BlockDeleted(RestoreObjects(ClearHeight(t, height), UndoAt(t.undo, height), 0), height);
  }

  lemma {:induction false} RollbacksKeepIntact(t: Tables, heights: seq<nat>, n: nat)
    requires n <= |heights| && Intact(t)
    ensures Intact(RollbackHeights(t, heights, n))
  {
    hide Intact, RollbackHeight;
    if n > 0 {
      RollbacksKeepIntact(t, heights, n - 1);
      RollbackKeepsIntact(RollbackHeights(t, heights, n - 1), heights[n - 1]);
    }
  }

  lemma EmptyIsIntact()
    ensures Intact(EMPTY_TABLES)
  {
  }
}
