/**
 * Rolling one block back undoes `writeBlock` exactly, table by table, although it goes another way:
 * by height, by resetting spends, by the undo journal and by foreign-key cascades.
 */
module RollingBack {
  import opened Prelude
  import opened Bitcoin
  import opened StateEngine
  import opened Tandem
  import opened Reducer
  import opened Schema
  import opened Written
  import opened Invariants
  import opened Blocks
  import opened Appending

  /** Every carrier and chapter row belongs to one of these objects. */
  ghost predicate RowsOwned(t: Tables, objects: Objects) {
    && (forall o :: o in t.states ==> t.states[o].objectKey in objects)
    && (forall c :: c in t.chapters ==> c.objectKey in objects)
    && t.carriers == CarriersOf(t.states)
  }

  lemma CarriersRollBack(m: StateTable, height: nat)
    ensures UnspendCarriers(DeleteCarriers(CarriersOf(m), height), height) == CarriersOf(RolledBackStates(m, height))
  {
  }

  // ----- the undo journal ---------------------------------------------------------------------

  lemma {:induction false} UndoRowsHeight(height: nat, w: Work, n: nat)
    requires n <= |w.touched|
    ensures |UndoRows(height, w, n)| == n
    ensures forall i :: 0 <= i < n ==>
              UndoRows(height, w, n)[i]
              == UndoRow(height, w.touched[i], if w.touched[i] in w.undo then w.undo[w.touched[i]] else None)
  {
    if n > 0 {
      UndoRowsHeight(height, w, n - 1);
    }
  }

  lemma {:induction false} UndoOfOtherHeights(undo: seq<UndoRow>, height: nat)
    requires forall i :: 0 <= i < |undo| ==> undo[i].height != height
    ensures UndoAt(undo, height) == [] && UndoExcept(undo, height) == undo
  {
    if undo != [] {
      UndoOfOtherHeights(undo[..|undo| - 1], height);
      assert undo[..|undo| - 1] + [undo[|undo| - 1]] == undo;
    }
  }

  lemma {:induction false} UndoSplits(undo: seq<UndoRow>, rows: seq<UndoRow>, height: nat)
    requires forall i :: 0 <= i < |undo| ==> undo[i].height != height
    requires forall i :: 0 <= i < |rows| ==> rows[i].height == height
    ensures UndoAt(undo + rows, height) == rows
    ensures UndoExcept(undo + rows, height) == undo
  {
    if rows == [] {
      assert undo + rows == undo;
      UndoOfOtherHeights(undo, height);
    } else {
      var all, front, last := undo + rows, rows[..|rows| - 1], rows[|rows| - 1];
      assert all[..|all| - 1] == undo + front && all[|all| - 1] == last;
      UndoSplits(undo, front, height);
      assert front + [last] == rows;
    }
  }

  // ----- objects ------------------------------------------------------------------------------

  /** Deleting an object that owns no row removes no row of another table. */
  lemma CascadeRemovesNothing(t: Tables, objects: Objects, key: Key)
    requires RowsOwned(t, objects) && key !in objects
    ensures DeleteObject(t, key) == t.(objects := t.objects - {key})
  {
    var after := DeleteObject(t, key);
    assert after.states == t.states;
    assert after.carriers == t.carriers;
    assert after.chapters == t.chapters;
  }

  /** tandem_objects once the undo rows from `n` on are replayed. */
  ghost function PartlyRestored(pre: Objects, w: Work, n: nat): ObjectTable
    requires n <= |w.touched|
  {
    map k | k in w.objects && (k in w.touched[n..] ==> k in pre) ::
      ObjectRowOf(if k in w.touched[n..] && k in pre then pre[k] else w.objects[k])
  }

  lemma TailSplits(keys: seq<Key>, n: nat)
    requires n < |keys|
    requires forall i, j :: 0 <= i < j < |keys| ==> keys[i] != keys[j]
    ensures forall k :: k in keys[n..] <==> k == keys[n] || k in keys[n + 1..]
    ensures keys[n] !in keys[n + 1..]
  {
    assert keys[n..] == [keys[n]] + keys[n + 1..];
  }

  lemma RestoredRow(pre: Objects, w: Work, n: nat)
    requires n < |w.touched|
    requires forall k :: k in w.touched[n..] <==> k == w.touched[n] || k in w.touched[n + 1..]
    requires w.touched[n] !in w.touched[n + 1..]
    requires w.touched[n] in pre && w.touched[n] in w.objects
    requires w.objects[w.touched[n]].createTxid == pre[w.touched[n]].createTxid
    requires w.objects[w.touched[n]].createHeight == pre[w.touched[n]].createHeight
    ensures PartlyRestored(pre, w, n + 1)[w.touched[n] := ObjectRowOf(pre[w.touched[n]])] == PartlyRestored(pre, w, n)
    ensures w.touched[n] in PartlyRestored(pre, w, n + 1)
    ensures Overwrite(PartlyRestored(pre, w, n + 1)[w.touched[n]], pre[w.touched[n]]) == ObjectRowOf(pre[w.touched[n]])
  {
  }

  lemma RemovedRow(pre: Objects, w: Work, n: nat)
    requires n < |w.touched|
    requires forall k :: k in w.touched[n..] <==> k == w.touched[n] || k in w.touched[n + 1..]
    requires w.touched[n] !in pre
    ensures PartlyRestored(pre, w, n + 1) - {w.touched[n]} == PartlyRestored(pre, w, n)
  {
    hide ObjectRowOf;
  }

  lemma IdentityAt(pre: Objects, objects: Objects, key: Key)
    requires IdentityOk(pre, objects) && key in pre
    ensures key in objects && objects[key].createTxid == pre[key].createTxid &&
              objects[key].createHeight == pre[key].createHeight
  {
  }

  lemma RestoreStep(p: Protocol, t: Tables, pre: Objects, height: nat, w: Work, n: nat, seen: set<Txid>)
    requires n < |w.touched|
    requires UndoOk(pre, w) && IdentityOk(pre, w.objects) && ObjectsOk(p, pre, seen)
    requires w.touched[n] in w.undo
    requires RowsOwned(t, pre)
    requires t.objects == PartlyRestored(pre, w, n + 1)
    ensures RestoreObject(t, UndoRow(height, w.touched[n], w.undo[w.touched[n]]))
            == t.(objects := PartlyRestored(pre, w, n))
  {
    hide PartlyRestored, IdentityOk, RowsOwned, Overwrite, DeleteObject, ObjectRowOf;
    var key := w.touched[n];
    TailSplits(w.touched, n);
    if key in pre {
      IdentityAt(pre, w.objects, key);
      assert RecordOk(p, key, pre[key], seen);
      RestoredRow(pre, w, n);
    } else {
      CascadeRemovesNothing(t, pre, key);
      RemovedRow(pre, w, n);
    }
  }

  lemma {:induction false} ObjectsRestored(p: Protocol, t: Tables, pre: Objects, height: nat, w: Work, n: nat,
                                           seen: set<Txid>)
    requires n <= |w.touched|
    requires UndoOk(pre, w) && IdentityOk(pre, w.objects) && ObjectsOk(p, pre, seen)
    requires forall i :: 0 <= i < |w.touched| ==> w.touched[i] in w.undo
    requires RowsOwned(t, pre)
    requires t.objects == ObjectRows(w.objects)
    requires |UndoRows(height, w, |w.touched|)| == |w.touched|
    requires forall i :: 0 <= i < |w.touched| ==>
               UndoRows(height, w, |w.touched|)[i] == UndoRow(height, w.touched[i], w.undo[w.touched[i]])
    ensures RestoreObjects(t, UndoRows(height, w, |w.touched|), n) == t.(objects := PartlyRestored(pre, w, n))
    decreases |w.touched| - n
  {
    hide RestoreObject, UndoOk, IdentityOk, ObjectsOk, ObjectRowOf;
    if n == |w.touched| {
      assert PartlyRestored(pre, w, n) == ObjectRows(w.objects);
    } else {
      ObjectsRestored(p, t, pre, height, w, n + 1, seen);
      RestoreStep(p, t.(objects := PartlyRestored(pre, w, n + 1)), pre, height, w, n, seen);
    }
  }

  lemma AllRestored(pre: Objects, w: Work)
    requires UndoOk(pre, w) && IdentityOk(pre, w.objects)
    ensures PartlyRestored(pre, w, 0) == ObjectRows(pre)
  {
    hide ObjectRowOf;
    assert w.touched[0..] == w.touched;
    forall k
      ensures k in PartlyRestored(pre, w, 0) <==> k in pre
      ensures k in pre ==> PartlyRestored(pre, w, 0)[k] == ObjectRowOf(pre[k])
    {
      assert k in w.touched <==> k in w.undo;
      if k !in w.undo {
        assert Lookup(w.objects, k) == Lookup(pre, k);
      }
    }
  }

  // ----- the block row and its cascades -------------------------------------------------------

  lemma BlockDeleted(t: Tables, r: ReducedBlock, after: Tables)
    requires Below(t, r.height)
    requires r.initConfirmed ==> t.init.None? && r.activation.height == r.height
    requires RowsOrdered(r.transactions) && forall i :: 0 <= i < |r.transactions| ==>
              r.transactions[i].txid !in t.transactions
    requires forall i, j :: 0 <= i < j < |r.events| ==>
              PositionOf(r.height, r.events[i]) != PositionOf(r.height, r.events[j])
    requires forall e :: e in t.events ==> t.events[e].txid in t.transactions
    requires after.blocks == t.blocks[r.height := BlockRowOf(r)]
    requires after.checkpoints == t.checkpoints[r.height := CheckpointOf(r)]
    requires after.init == if r.initConfirmed then Some(r.activation) else t.init
    requires after.transactions == PutTransactions(t.transactions, r.height, r.transactions, |r.transactions|)
    requires after.events == PutEvents(t.events, r.height, r.events, |r.events|)
    requires UndoExcept(after.undo, r.height) == t.undo
    ensures
      var d := DeleteBlock(after, r.height);
      && d.blocks == t.blocks && d.checkpoints == t.checkpoints && d.init == t.init
      && d.transactions == t.transactions && d.events == t.events && d.undo == t.undo
  {
    hide PutTransactions, PutEvents, TransactionRowOf, PositionOf, BlockRowOf, CheckpointOf, RowsOrdered, UndoExcept,
      UndoRows;
    PutTransactionsRows(t.transactions, r.height, r.transactions, |r.transactions|);
    PutEventsRows(t.events, r.height, r.events, |r.events|);
    HeaderDeleted(t, r, after);
    TransactionsDeleted(t.transactions, after.transactions, r.height, r.transactions);
    EventsDeleted(t, after, r.height, r.events);
  }

  lemma HeaderDeleted(t: Tables, r: ReducedBlock, after: Tables)
    requires Below(t, r.height)
    requires r.initConfirmed ==> t.init.None? && r.activation.height == r.height
    requires after.blocks == t.blocks[r.height := BlockRowOf(r)]
    requires after.checkpoints == t.checkpoints[r.height := CheckpointOf(r)]
    requires after.init == if r.initConfirmed then Some(r.activation) else t.init
    ensures
      var d := DeleteBlock(after, r.height);
      d.blocks == t.blocks && d.checkpoints == t.checkpoints && d.init == t.init
  {
    assert after.blocks - {r.height} == t.blocks;
    assert after.checkpoints - {r.height} == t.checkpoints;
  }

  lemma TransactionsDeleted(m: TransactionTable, after: TransactionTable, height: nat, rows: seq<TxRow>)
    requires forall x :: x in m ==> m[x].blockHeight < height
    requires forall i :: 0 <= i < |rows| ==> rows[i].txid !in m
    requires forall x :: x in after ==>
               || (x in m && after[x] == m[x])
               || (exists i :: 0 <= i < |rows| && rows[i].txid == x && after[x] == TransactionRowOf(height, rows[i]))
    requires forall x :: x in m ==> x in after
    ensures (map x | x in after && after[x].blockHeight != height :: after[x]) == m
    ensures forall x :: x in m ==> after[x] == m[x]
  {
  }

  lemma EventsDeleted(t: Tables, after: Tables, height: nat, rows: seq<EventRecord>)
    requires forall e :: e in t.events ==> e.height < height && t.events[e].txid in t.transactions
    requires forall x :: x in t.transactions ==> x in after.transactions && after.transactions[x] == t.transactions[x]
    requires forall x :: x in t.transactions ==> t.transactions[x].blockHeight < height
    requires forall e :: e in after.events ==>
               || (e in t.events && after.events[e] == t.events[e])
               || (exists i :: 0 <= i < |rows| && PositionOf(height, rows[i]) == e && after.events[e] == rows[i])
    requires forall e :: e in t.events ==> e in after.events
    ensures DeleteBlock(after, height).events == t.events
  {
    forall e
      ensures e in t.events <==> e in DeleteBlock(after, height).events
    {
    }
  }

  // ----- one block ----------------------------------------------------------------------------

  /** Writing a block and rolling it back gives the tables from before, row for row. */
  lemma RollbackUndoesBlock(p: Protocol, t: Tables, pre: Objects, r: ReducedBlock, txs: seq<Tx>, seen: set<Txid>)
    requires Continues(p, t, pre, r, txs, seen)
    requires RowsOwned(t, pre)
    requires forall e :: e in t.events ==> t.events[e].txid in t.transactions
    ensures RollbackHeight(AfterBlock(t, r), r.height) == t
  {
    hide ObjectsOk, IndexOk, StatesOk, ChaptersOk, StatesAfter, ChaptersAfter, InOrder, RowsOrdered, Inv, Below,
      IdentityOk, UndoOk, ObjectRows, PartlyRestored, CarriersOf, UndoAt, UndoExcept, RestoreObjects, DeleteBlock,
      UnspendStates, DeleteStates, UnspendCarriers, DeleteCarriers, UndoRows, DeleteChapters, WriteBlock,
      PutTransactions, PutEvents, PutObjects, TxRows;
    var w := r.work;
    var after := AfterBlock(t, r);
    var rows := UndoRows(r.height, w, |w.touched|);
    UndoBelow(t, r.height);
    UndoRowsHeight(r.height, w, |w.touched|);
    UndoSplits(t.undo, rows, r.height);
    BlockRowsCleared(p, t, pre, r, seen);
    var cleared := ClearHeight(after, r.height);
    assert cleared.states == t.states && cleared.chapters == t.chapters && cleared.carriers == t.carriers;
    InvParts(p, t, pre, r.height, w, seen);
    TouchedExist(pre, w);
    ObjectsRestored(p, cleared, pre, r.height, w, 0, seen);
    AllRestored(pre, w);
    TxRowsOrdered(txs, r.events, |txs|);
    EventsInOrder(r.events, txs, r.height);
    BlockDeleted(t, r, cleared.(objects := t.objects));
    DeleteBlockKeeps(cleared.(objects := t.objects), r.height);
  }

  lemma UndoBelow(t: Tables, height: nat)
    requires Below(t, height)
    ensures forall i :: 0 <= i < |t.undo| ==> t.undo[i].height != height
  {
  }

  /** Deleting by height and resetting spends gives the carrier and chapter tables from before. */
  lemma BlockRowsCleared(p: Protocol, t: Tables, pre: Objects, r: ReducedBlock, seen: set<Txid>)
    requires Inv(p, t, pre, r.height, r.work, seen) && t.carriers == CarriersOf(t.states)
    ensures
      var cleared := ClearHeight(AfterBlock(t, r), r.height);
      cleared.states == t.states && cleared.chapters == t.chapters && cleared.carriers == t.carriers
  {
    hide ObjectsOk, IndexOk, StatesOk, ChaptersOk, StatesAfter, ChaptersAfter, IdentityOk, UndoOk, StateFits,
      ChapterFits,
      UnspendStates, DeleteStates, UnspendCarriers, DeleteCarriers, CarriersOf;
    CarriersRollBack(StatesAfter(t.states, r.height, r.work), r.height);
  }

  lemma EventsInOrder(events: seq<EventRecord>, txs: seq<Tx>, height: nat)
    requires InOrder(events, txs, |txs|)
    ensures forall i, j :: 0 <= i < j < |events| ==> PositionOf(height, events[i]) != PositionOf(height, events[j])
  {
    OrderedPositionsDiffer(height, events);
  }

  lemma DeleteBlockKeeps(t: Tables, height: nat)
    ensures
      var d := DeleteBlock(t, height);
      d.objects == t.objects && d.states == t.states && d.carriers == t.carriers
      && d.chapters == t.chapters
  {
  }
}
