/**
 * `writeBlock` succeeds: in its own order of statements no primary, unique or foreign key refuses a
 * row, and the tables end up as `AfterBlock` says.
 */
module Appending {
  import opened Prelude
  import opened Bitcoin
  import opened StateEngine
  import opened Tandem
  import opened Reducer
  import opened Schema
  import opened Written
  import opened Invariants
  import opened Blocks

  // ----- transactions -------------------------------------------------------------------------

  /** Rows of one block: distinct txids, increasing positions. */
  ghost predicate RowsOrdered(rows: seq<TxRow>) {
    forall i, j :: 0 <= i < j < |rows| ==> rows[i].txIndex < rows[j].txIndex && rows[i].txid != rows[j].txid
  }

  /** What the table holds after the first `n` inserts. */
  lemma {:induction false} PutTransactionsRows(m: TransactionTable, height: nat, rows: seq<TxRow>, n: nat)
    requires n <= |rows|
    ensures forall x :: x in PutTransactions(m, height, rows, n) ==>
              || (x in m && PutTransactions(m, height, rows, n)[x] == m[x])
              || (exists i :: 0 <= i < n && rows[i].txid == x &&
                              PutTransactions(m, height, rows, n)[x] == TransactionRowOf(height, rows[i]))
    ensures forall x :: x in m ==> x in PutTransactions(m, height, rows, n)
    ensures forall i :: 0 <= i < n ==> rows[i].txid in PutTransactions(m, height, rows, n)
  {
    if n > 0 {
      PutTransactionsRows(m, height, rows, n - 1);
    }
  }

  lemma TransactionRowFits(m: TransactionTable, height: nat, rows: seq<TxRow>, n: nat)
    requires n < |rows| && RowsOrdered(rows)
    requires forall x :: x in m ==> m[x].blockHeight != height
    requires forall i :: 0 <= i < |rows| ==> rows[i].txid !in m
    ensures TransactionFits(PutTransactions(m, height, rows, n), height, rows[n])
  {
    PutTransactionsRows(m, height, rows, n);
  }

  lemma {:induction false} TransactionsInsert(t: Tables, height: nat, rows: seq<TxRow>, n: nat)
    requires n <= |rows| && height in t.blocks && RowsOrdered(rows)
    requires forall x :: x in t.transactions ==> t.transactions[x].blockHeight != height
    requires forall i :: 0 <= i < |rows| ==> rows[i].txid !in t.transactions
    ensures WriteTransactions(t, height, rows, n) ==
            if forall i :: 0 <= i < n ==> VersionFits(rows[i].version)
            then Ok(t.(transactions := PutTransactions(t.transactions, height, rows, n)))
            else Err(ColumnTooNarrow)
  {
    hide TransactionFits, TransactionRowOf, RowsOrdered, VersionFits;
    if n > 0 {
      TransactionsInsert(t, height, rows, n - 1);
      TransactionRowFits(t.transactions, height, rows, n - 1);
    }
  }

  lemma {:induction false} TxRowsOrdered(txs: seq<Tx>, events: seq<EventRecord>, n: nat)
    requires n <= |txs| && DistinctTxids(txs)
    ensures RowsOrdered(TxRows(txs, events, n))
    ensures forall i :: 0 <= i < |TxRows(txs, events, n)| ==>
              TxRows(txs, events, n)[i].txIndex < n &&
                  TxRows(txs, events, n)[i].txid == txs[TxRows(txs, events, n)[i].txIndex].txid
    ensures forall j :: 0 <= j < n && HasEvent(events, txs[j].txid) ==>
              exists i :: 0 <= i < |TxRows(txs, events, n)| && TxRows(txs, events, n)[i].txid == txs[j].txid
  {
    if n > 0 {
      TxRowsOrdered(txs, events, n - 1);
      var before := TxRows(txs, events, n - 1);
      var rows := TxRows(txs, events, n);
      forall j | 0 <= j < n && HasEvent(events, txs[j].txid)
        ensures exists i :: 0 <= i < |rows| && rows[i].txid == txs[j].txid
      {
        if j < n - 1 {
          var i :| 0 <= i < |before| && before[i].txid == txs[j].txid;
          assert rows[i].txid == txs[j].txid;
        } else {
          assert rows[|before|].txid == txs[j].txid;
        }
      }
    }
  }

  // ----- events -------------------------------------------------------------------------------

  lemma {:induction false} PutEventsRows(m: EventTable, height: nat, rows: seq<EventRecord>, n: nat)
    requires n <= |rows|
    requires forall i, j :: 0 <= i < j < |rows| ==> PositionOf(height, rows[i]) != PositionOf(height, rows[j])
    ensures forall e :: e in PutEvents(m, height, rows, n) ==>
              || (e in m && PutEvents(m, height, rows, n)[e] == m[e])
              || (exists i ::
                    0 <= i < n && PositionOf(height, rows[i]) == e && PutEvents(m, height, rows, n)[e] == rows[i])
    ensures forall e :: e in m ==> e in PutEvents(m, height, rows, n)
    ensures forall i :: 0 <= i < n ==> PositionOf(height, rows[i]) in PutEvents(m, height, rows, n)
                                       && PutEvents(m, height, rows, n)[PositionOf(height, rows[i])] == rows[i]
  {
    hide PositionOf, PutEvents;
    PutEventsStep(m, height, rows, n);
    if n > 0 {
      assert forall i :: 0 <= i < n - 1 ==> PositionOf(height, rows[i]) != PositionOf(height, rows[n - 1]);
      PutEventsRows(m, height, rows, n - 1);
    }
  }

  lemma PutEventsStep(m: EventTable, height: nat, rows: seq<EventRecord>, n: nat)
    requires n <= |rows|
    ensures PutEvents(m, height, rows, n) ==
            if n == 0 then m else PutEvents(m, height, rows, n - 1)[PositionOf(height, rows[n - 1]) := rows[n - 1]]
  {
    hide PositionOf;
  }

  lemma OrderedPositionsDiffer(height: nat, rows: seq<EventRecord>)
    requires forall i, j :: 0 <= i < j < |rows| ==> Before(rows[i], rows[j])
    ensures forall i, j :: 0 <= i < j < |rows| ==> PositionOf(height, rows[i]) != PositionOf(height, rows[j])
  {
  }

  /** The position of the next event is still free. */
  lemma NextPositionIsFree(m: EventTable, height: nat, rows: seq<EventRecord>, n: nat)
    requires n < |rows| && PositionOf(height, rows[n]) !in m
    requires forall i, j :: 0 <= i < j < |rows| ==> PositionOf(height, rows[i]) != PositionOf(height, rows[j])
    ensures PositionOf(height, rows[n]) !in PutEvents(m, height, rows, n)
  {
    hide PositionOf, PutEvents;
    PutEventsRows(m, height, rows, n);
    assert forall i :: 0 <= i < n ==> PositionOf(height, rows[i]) != PositionOf(height, rows[n]);
  }

  lemma LastPayloadFits(rows: seq<EventRecord>, last: EventRecord)
    ensures PayloadsFit(rows + [last]) <==> PayloadsFit(rows) && PayloadFits(last.markerPayload)
  {
    hide PayloadFits;
    var all := rows + [last];
    assert all[|rows|] == last;
    assert forall i :: 0 <= i < |rows| ==> all[i] == rows[i];
  }

  lemma {:induction false} EventsInsert(t: Tables, height: nat, rows: seq<EventRecord>, n: nat)
    requires n <= |rows| && height in t.blocks
    requires forall i, j :: 0 <= i < j < |rows| ==> PositionOf(height, rows[i]) != PositionOf(height, rows[j])
    requires forall i :: 0 <= i < |rows| ==> PositionOf(height, rows[i]) !in t.events
    requires forall i :: 0 <= i < |rows| ==> rows[i].txid in t.transactions
    ensures WriteEvents(t, height, rows, n) ==
            if PayloadsFit(rows[..n]) then Ok(t.(events := PutEvents(t.events, height, rows, n)))
            else Err(ColumnTooNarrow)
  {
    hide PositionOf, PayloadFits, PutEvents;
    PutEventsStep(t.events, height, rows, n);
    if n > 0 {
      EventsInsert(t, height, rows, n - 1);
      NextPositionIsFree(t.events, height, rows, n - 1);
      assert rows[..n] == rows[..n - 1] + [rows[n - 1]];
      LastPayloadFits(rows[..n - 1], rows[n - 1]);
    }
  }

  // ----- objects and their undo rows ----------------------------------------------------------

  /** tandem_objects after the first `n` upserts. */
  function PutObjects(m: ObjectTable, w: Work, n: nat): ObjectTable
    requires n <= |w.touched| && forall i :: 0 <= i < |w.touched| ==> w.touched[i] in w.objects
  {
    if n == 0 then m
    else PutObjects(m, w, n - 1)[w.touched[n - 1] := ObjectRowOf(w.objects[w.touched[n - 1]])]
  }

  lemma TouchedExist(pre: Objects, w: Work)
    requires UndoOk(pre, w)
    ensures forall i :: 0 <= i < |w.touched| ==> w.touched[i] in w.objects && w.touched[i] in w.undo
  {
    forall i | 0 <= i < |w.touched|
      ensures w.touched[i] in w.objects && w.touched[i] in w.undo
    {
      assert w.touched[i] in w.touched;
    }
  }

  /** No upsert hits another object's create_txid, so each writes its own row. */
  lemma UpsertWritesOwnRow(p: Protocol, m: ObjectTable, r: ObjectRecord)
    requires forall k :: k in m ==> k == p.objectKeyOf(p.binding.namespace, m[k].createTxid)
    requires r.objectKey == p.objectKeyOf(p.binding.namespace, r.createTxid)
    requires r.objectKey in m ==>
               m[r.objectKey].createTxid == r.createTxid && m[r.objectKey].createHeight == r.createHeight
    ensures UpsertObject(m, r) == m[r.objectKey := ObjectRowOf(r)]
  {
    assert forall k :: k in m && m[k].createTxid == r.createTxid ==> k == r.objectKey;
  }

  lemma {:induction false} PutObjectsRows(pre: Objects, w: Work, n: nat)
    requires n <= |w.touched|
    requires forall i :: 0 <= i < |w.touched| ==> w.touched[i] in w.objects
    ensures forall k :: k in PutObjects(ObjectRows(pre), w, n) <==> k in pre || k in w.touched[..n]
    ensures forall k :: k in PutObjects(ObjectRows(pre), w, n) ==>
              PutObjects(ObjectRows(pre), w, n)[k] == ObjectRowOf(if k in w.touched[..n] then w.objects[k] else pre[k])
  {
    hide ObjectRowOf, PutObjects;
    PutObjectsStep(pre, w, n);
    if n > 0 {
      PutObjectsRows(pre, w, n - 1);
      assert w.touched[..n] == w.touched[..n - 1] + [w.touched[n - 1]];
    }
  }

  lemma PutObjectsStep(pre: Objects, w: Work, n: nat)
    requires n <= |w.touched|
    requires forall i :: 0 <= i < |w.touched| ==> w.touched[i] in w.objects
    ensures PutObjects(ObjectRows(pre), w, n) ==
            if n == 0 then ObjectRows(pre)
            else PutObjects(ObjectRows(pre), w, n - 1)[w.touched[n - 1] := ObjectRowOf(w.objects[w.touched[n - 1]])]
  {
    hide ObjectRowOf, ObjectRows;
  }

  /** Touched or not, a stored row has the create_txid its key commits to. */
  lemma RowsNameTheirKeys(p: Protocol, pre: Objects, w: Work, n: nat, seen: set<Txid>)
    requires n <= |w.touched|
    requires ObjectsOk(p, pre, seen) && ObjectsOk(p, w.objects, seen) && IdentityOk(pre, w.objects)
    requires forall i :: 0 <= i < |w.touched| ==> w.touched[i] in w.objects
    ensures forall k :: k in PutObjects(ObjectRows(pre), w, n) ==>
              && k == p.objectKeyOf(p.binding.namespace, PutObjects(ObjectRows(pre), w, n)[k].createTxid)
              && k in w.objects
              && PutObjects(ObjectRows(pre), w, n)[k].createTxid == w.objects[k].createTxid
              && PutObjects(ObjectRows(pre), w, n)[k].createHeight == w.objects[k].createHeight
  {
    PutObjectsRows(pre, w, n);
    var m := PutObjects(ObjectRows(pre), w, n);
    forall k | k in m
      ensures k in w.objects && RecordOk(p, k, w.objects[k], seen)
      ensures m[k].createTxid == w.objects[k].createTxid && m[k].createHeight == w.objects[k].createHeight
    {
      if k in w.touched[..n] {
        assert k in w.touched;
      }
    }
  }

  lemma ObjectInserts(p: Protocol, t: Tables, height: nat, w: Work, key: Key, seen: set<Txid>)
    requires height in t.blocks
    requires key in w.undo && key in w.objects && RecordOk(p, key, w.objects[key], seen)
    requires forall k :: k in t.objects ==> k == p.objectKeyOf(p.binding.namespace, t.objects[k].createTxid)
    requires key in t.objects ==> t.objects[key].createTxid == w.objects[key].createTxid
                                  && t.objects[key].createHeight == w.objects[key].createHeight
    ensures WriteObject(t, height, w, key)
            == Ok(t.(undo := t.undo + [UndoRow(height, key, w.undo[key])],
                     objects := t.objects[key := ObjectRowOf(w.objects[key])]))
  {
    UpsertWritesOwnRow(p, t.objects, w.objects[key]);
  }

  lemma {:induction false} ObjectsInsert(p: Protocol, t: Tables, height: nat, pre: Objects, w: Work, n: nat,
                                         seen: set<Txid>)
    requires n <= |w.touched| && height in t.blocks
    requires ObjectsOk(p, pre, seen) && ObjectsOk(p, w.objects, seen) && IdentityOk(pre, w.objects)
    requires t.objects == ObjectRows(pre)
    requires forall i :: 0 <= i < |w.touched| ==> w.touched[i] in w.objects && w.touched[i] in w.undo
    ensures WriteObjects(t, height, w, n)
            == Ok(t.(undo := t.undo + UndoRows(height, w, n), objects := PutObjects(t.objects, w, n)))
  {
    hide WriteObject, RecordOk, ObjectRowOf, IdentityOk;
    if n == 0 {
      assert t.undo + [] == t.undo;
    } else {
      ObjectsInsert(p, t, height, pre, w, n - 1, seen);
      RowsNameTheirKeys(p, pre, w, n - 1, seen);
      ObjectInserts(p, WriteObjects(t, height, w, n - 1).value, height, w, w.touched[n - 1], seen);
      assert (t.undo + UndoRows(height, w, n - 1)) + [UndoRow(height, w.touched[n - 1], w.undo[w.touched[n - 1]])]
          == t.undo + UndoRows(height, w, n);
    }
  }

  lemma TouchedOrSame(pre: Objects, w: Work, k: Key)
    requires UndoOk(pre, w) && IdentityOk(pre, w.objects)
    ensures k in w.touched ==> k in w.objects
    ensures k !in w.touched ==> Lookup(w.objects, k) == Lookup(pre, k)
    ensures k in pre ==> k in w.objects
  {
  }

  lemma PutObjectsIsAll(pre: Objects, w: Work)
    requires UndoOk(pre, w) && IdentityOk(pre, w.objects)
    requires forall i :: 0 <= i < |w.touched| ==> w.touched[i] in w.objects
    ensures PutObjects(ObjectRows(pre), w, |w.touched|) == ObjectRows(w.objects)
  {
    hide ObjectRowOf, IdentityOk, UndoOk, PutObjects;
    PutObjectsRows(pre, w, |w.touched|);
    assert w.touched[..|w.touched|] == w.touched;
    var all := PutObjects(ObjectRows(pre), w, |w.touched|);
    forall k
      ensures k in all <==> k in w.objects
      ensures k in all ==> all[k] == ObjectRowOf(w.objects[k])
    {
      TouchedOrSame(pre, w, k);
    }
  }

  // ----- states, carriers, spends, chapters ---------------------------------------------------

  lemma {:induction false} StatesInsert(t: Tables, height: nat, rows: seq<StateRow>, n: nat)
    requires n <= |rows|
    requires t.carriers == CarriersOf(t.states)
    requires forall i :: 0 <= i < |rows| ==>
               rows[i].objectKey in t.objects && StateFits(PutStates(t.states, height, rows, i), rows[i])
    ensures WriteStates(t, height, rows, n)
            == Ok(t.(states := PutStates(t.states, height, rows, n),
                     carriers := CarriersOf(PutStates(t.states, height, rows, n))))
  {
    hide StateFits;
    hide CarriersOf, InsertState, InsertCarrier, StateOf;
    if n > 0 {
      StatesInsert(t, height, rows, n - 1);
      StateInserts(WriteStates(t, height, rows, n - 1).value, height, rows[n - 1]);
    }
  }

  lemma StateInserts(t: Tables, height: nat, row: StateRow)
    requires t.carriers == CarriersOf(t.states)
    requires row.objectKey in t.objects && StateFits(t.states, row)
    ensures InsertState(t, height, row).Ok?
    ensures
      var states := t.states[row.outpoint := StateOf(height, row)];
      InsertCarrier(InsertState(t, height, row).value, height, row)
      == Ok(t.(states := states, carriers := CarriersOf(states)))
  {
    var states := t.states[row.outpoint := StateOf(height, row)];
    assert CarriersOf(t.states)[row.outpoint := CarrierRow(row.objectKey, height, None, CARRIER_VALUE)] ==
        CarriersOf(states);
  }

  lemma {:induction false} SpendsUpdate(t: Tables, height: nat, spends: seq<Spend>, n: nat)
    requires n <= |spends|
    requires t.carriers == CarriersOf(t.states)
    ensures WriteSpends(t, height, spends, n)
            == t.(states := SpendStates(t.states, height, spends, n),
                  carriers := CarriersOf(SpendStates(t.states, height, spends, n)))
  {
    if n > 0 {
      SpendsUpdate(t, height, spends, n - 1);
      var before := SpendStates(t.states, height, spends, n - 1);
      assert SpendCarrier(CarriersOf(before), height, spends[n - 1]) ==
          CarriersOf(SpendState(before, height, spends[n - 1]));
    }
  }

  lemma {:induction false} ChaptersInsert(t: Tables, height: nat, rows: seq<ChapterRow>, n: nat)
    requires n <= |rows|
    requires forall i :: 0 <= i < |rows| ==>
               rows[i].objectKey in t.objects && ChapterFits(PutChapters(t.chapters, height, rows, i), rows[i])
    ensures WriteChapters(t, height, rows, n) == Ok(t.(chapters := PutChapters(t.chapters, height, rows, n)))
  {
    hide ChapterFits;
    if n > 0 {
      ChaptersInsert(t, height, rows, n - 1);
    }
  }

  // ----- all of them --------------------------------------------------------------------------

  /** The tables stand for these objects, and every row of theirs lies below this height. */
  ghost predicate Below(t: Tables, height: nat) {
    && (forall h :: h in t.blocks ==> h < height)
    && (forall h :: h in t.checkpoints ==> h < height)
    && (forall x :: x in t.transactions ==> t.transactions[x].blockHeight < height)
    && (forall e :: e in t.events ==> e.height < height)
    && (forall i :: 0 <= i < |t.undo| ==> t.undo[i].height < height)
    && (t.init.Some? ==> t.init.value.height < height)
  }

  /** The reduced block continues the tables: its own rows are new, its own invariant holds. */
  ghost predicate Continues(p: Protocol, t: Tables, pre: Objects, r: ReducedBlock, txs: seq<Tx>, seen: set<Txid>) {
    && Below(t, r.height)
    && (forall h :: h in t.blocks ==> t.blocks[h].hash != r.hash)
    && (r.initConfirmed ==> t.init.None? && r.activation.height == r.height)
    && t.objects == ObjectRows(pre) && t.carriers == CarriersOf(t.states)
    && ObjectsOk(p, pre, seen)
    && Inv(p, t, pre, r.height, r.work, seen)
    && DistinctTxids(txs)
    && (forall i :: 0 <= i < |txs| ==> txs[i].txid !in t.transactions)
    && r.transactions == TxRows(txs, r.events, |txs|)
    && InOrder(r.events, txs, |txs|)
  }

  /** Block row and INIT row are accepted, and so are the rows of transactions and events that fit their columns. */
  lemma RowsInsertExactly(p: Protocol, t: Tables, pre: Objects, r: ReducedBlock, txs: seq<Tx>, seen: set<Txid>)
    requires Continues(p, t, pre, r, txs, seen)
    ensures InsertBlock(t, r).Ok?
    ensures
      var started := InsertBlock(t, r).value;
      var activated := if r.initConfirmed then InsertInit(started, r.activation) else Ok(started);
      && activated.Ok?
      && var listed := WriteTransactions(activated.value, r.height, r.transactions, |r.transactions|);
         if !FitsColumns(r) then
           listed == Err(ColumnTooNarrow)
           || (listed.Ok? && WriteEvents(listed.value, r.height, r.events, |r.events|) == Err(ColumnTooNarrow))
         else
           listed.Ok? && WriteEvents(listed.value, r.height, r.events, |r.events|) == Ok(Logged(t, r))
  {
    hide Inv, ObjectsOk, VersionFits, PayloadsFit, TxRows, InOrder, WriteEvents, PutTransactions, PutEvents,
      WriteTransactions, ObjectRows, CarriersOf;
    var started := InsertBlock(t, r).value;
    var activated := if r.initConfirmed then InsertInit(started, r.activation) else Ok(started);
    TxRowsOrdered(txs, r.events, |txs|);
    TransactionsInsert(activated.value, r.height, r.transactions, |r.transactions|);
    var written := WriteTransactions(activated.value, r.height, r.transactions, |r.transactions|);
    if written.Ok? {
      LoggedRowsInsert(written.value, t.transactions, r, txs);
    }
  }

  /** The event rows, once the transaction rows are in. */
  lemma LoggedRowsInsert(listed: Tables, before: TransactionTable, r: ReducedBlock, txs: seq<Tx>)
    requires r.height in listed.blocks && forall e :: e in listed.events ==> e.height < r.height
    requires r.transactions == TxRows(txs, r.events, |txs|) && DistinctTxids(txs)
    requires InOrder(r.events, txs, |txs|)
    requires listed.transactions == PutTransactions(before, r.height, r.transactions, |r.transactions|)
    ensures WriteEvents(listed, r.height, r.events, |r.events|) ==
            if PayloadsFit(r.events)
            then Ok(listed.(events := PutEvents(listed.events, r.height, r.events, |r.events|)))
            else Err(ColumnTooNarrow)
  {
    hide PayloadsFit, TxRows, WriteEvents, PutTransactions, PutEvents, TransactionRowOf;
    TxRowsOrdered(txs, r.events, |txs|);
    PutTransactionsRows(before, r.height, r.transactions, |r.transactions|);
    forall i | 0 <= i < |r.events|
      ensures r.events[i].txid in listed.transactions
    {
      assert HasEvent(r.events, txs[r.events[i].txIndex].txid);
      var j :| 0 <= j < |r.transactions| && r.transactions[j].txid == r.events[i].txid;
      assert r.transactions[j].txid in listed.transactions;
    }
    OrderedPositionsDiffer(r.height, r.events);
    assert r.events[..|r.events|] == r.events;
    EventsInsert(listed, r.height, r.events, |r.events|);
  }

  /** The tables once the first four kinds of rows are in. */
  function Logged(t: Tables, r: ReducedBlock): Tables {
    t.(blocks := t.blocks[r.height := BlockRowOf(r)],
       init := if r.initConfirmed then Some(r.activation) else t.init,
       transactions := PutTransactions(t.transactions, r.height, r.transactions, |r.transactions|),
       events := PutEvents(t.events, r.height, r.events, |r.events|))
  }

  lemma BodyRowsInsert(p: Protocol, t: Tables, pre: Objects, height: nat, w: Work, seen: set<Txid>)
      returns (recorded: Tables)
    requires height in t.blocks
    requires t.objects == ObjectRows(pre) && t.carriers == CarriersOf(t.states)
    requires ObjectsOk(p, pre, seen)
    requires ObjectsOk(p, w.objects, seen) && UndoOk(pre, w) && IdentityOk(pre, w.objects)
    requires PendingStates(t.states, height, w, seen) && PendingChapters(t.chapters, height, w)
    ensures recorded == t.(objects := ObjectRows(w.objects), undo := t.undo + UndoRows(height, w, |w.touched|),
                           states := StatesAfter(t.states, height, w),
                           carriers := CarriersOf(StatesAfter(t.states, height, w)),
                           chapters := ChaptersAfter(t.chapters, height, w))
    ensures
      var objected := WriteObjects(t, height, w, |w.touched|);
      && objected.Ok?
      && var stated := WriteStates(objected.value, height, w.newStates, |w.newStates|);
         && stated.Ok?
         && WriteChapters(WriteSpends(stated.value, height, w.spentOutpoints, |w.spentOutpoints|), height,
                          w.chapters, |w.chapters|) == Ok(recorded)
  {
    hide ObjectsOk, StateFits, ChapterFits, RolledBackStates, DeleteChapters, CarriersOf, ObjectRows, IdentityOk,
      UndoOk;
    TouchedExist(pre, w);
    ObjectsInsert(p, t, height, pre, w, |w.touched|, seen);
    PutObjectsIsAll(pre, w);
    var objected := WriteObjects(t, height, w, |w.touched|).value;
    ObjectRowsKeys(w.objects);
    StatesInsert(objected, height, w.newStates, |w.newStates|);
    var stated := WriteStates(objected, height, w.newStates, |w.newStates|).value;
    SpendsUpdate(stated, height, w.spentOutpoints, |w.spentOutpoints|);
    var spent := WriteSpends(stated, height, w.spentOutpoints, |w.spentOutpoints|);
    ChaptersInsert(spent, height, w.chapters, |w.chapters|);
    recorded := WriteChapters(spent, height, w.chapters, |w.chapters|).value;
  }

  lemma ObjectRowsKeys(objects: Objects)
    ensures ObjectRows(objects).Keys == objects.Keys
  {
  }

  /**
   * A block that continues the tables is accepted exactly when its values fit their columns: no key refuses
   * a row.
   */
  lemma BlockIsAccepted(p: Protocol, t: Tables, pre: Objects, r: ReducedBlock, txs: seq<Tx>, seen: set<Txid>)
    requires Continues(p, t, pre, r, txs, seen)
    ensures WriteBlock(t, r) == if FitsColumns(r) then Ok(AfterBlock(t, r)) else Err(ColumnTooNarrow)
  {
    hide StatesAfter, ChaptersAfter, ObjectsOk, IndexOk, StatesOk, ChaptersOk, PendingStates, PendingChapters, InOrder,
      UndoOk, IdentityOk, InsertBlock, InsertInit, WriteTransactions, WriteEvents, WriteObjects, WriteStates,
      WriteSpends, WriteChapters, ObjectRows, CarriersOf, UndoRows, CheckpointOf, BlockRowOf, FitsColumns,
      PutTransactions, PutEvents;
    RowsInsertExactly(p, t, pre, r, txs, seen);
    if FitsColumns(r) {
      var recorded := BodyRowsInsert(p, Logged(t, r), pre, r.height, r.work, seen);
    }
  }
}
