/**
 * What holds of the working state, and of the tables it is about to become, after every event. `seen`
 * is the set of txids met so far; `base` holds the table before the block and `height` the block's.
 */
module Invariants {
  import opened Prelude
  import opened Bitcoin
  import opened StateEngine
  import opened Tandem
  import opened Reducer
  import opened Moves
  import opened Schema
  import opened Written

  // ----- objects and their index --------------------------------------------------------------

  ghost predicate RecordOk(p: Protocol, k: Key, r: ObjectRecord, seen: set<Txid>) {
    && r.objectKey == k && k == p.objectKeyOf(p.binding.namespace, r.createTxid) && r.createTxid in seen
    && (r.status.Active? <==> r.currentOutpoint.Some?)
    && (r.status.Active? <==> r.currentHeight.Some?)
    && (r.status.Active? <==> r.terminalTxid.None?)
    && (r.currentOutpoint.Some? ==> r.currentOutpoint.value.txid in seen)
    && (r.currentOutpoint.Some? ==> p.isScriptHash(r.currentOutpoint.value) && p.keysOk(r.key0, r.key1))
    && (r.status.Closed? ==> r.stateSequence > 0)
  }

  ghost predicate ObjectsOk(p: Protocol, objects: Objects, seen: set<Txid>) {
    forall k :: k in objects ==> RecordOk(p, k, objects[k], seen)
  }

  /** The index is exactly the map from current outpoints of active objects to their keys. */
  ghost predicate IndexOk(objects: Objects, index: map<Outpoint, Key>) {
    && (forall k :: k in objects && objects[k].currentOutpoint.Some? ==>
          objects[k].currentOutpoint.value in index && index[objects[k].currentOutpoint.value] == k)
    && (forall o :: o in index ==> index[o] in objects && objects[index[o]].currentOutpoint == Some(o))
  }

  /** `undo` holds the pre-block record of every object touched, and only touched objects differ. */
  ghost predicate UndoOk(pre: Objects, w: Work) {
    && (forall k :: k in w.undo <==> k in w.touched)
    && (forall i, j :: 0 <= i < j < |w.touched| ==> w.touched[i] != w.touched[j])
    && (forall k :: k in w.undo ==> k in w.objects && w.undo[k] == Lookup(pre, k))
    && (forall k :: k !in w.undo ==> Lookup(w.objects, k) == Lookup(pre, k))
  }

  /** No object disappears, and what CREATE fixed stays fixed. */
  ghost predicate IdentityOk(pre: Objects, objects: Objects) {
    forall k :: k in pre ==>
      && k in objects
      && objects[k].createTxid == pre[k].createTxid
      && objects[k].createHeight == pre[k].createHeight
      && objects[k].founding == pre[k].founding
  }

  /** An object the block made carries the block's height. */
  ghost predicate BornHere(pre: Objects, objects: Objects, height: nat) {
    forall k :: k in objects && k !in pre ==> objects[k].createHeight == height
  }

  // ----- carrier states -----------------------------------------------------------------------

  /** How many carriers an object has had: CLOSE counts the sequence up without a new carrier. */
  function Bound(r: ObjectRecord): int {
    if r.status.Closed? then r.stateSequence else r.stateSequence + 1
  }

  /** Every row belongs to an object, below its bound; it is unspent exactly when it is current. */
  ghost predicate RowBelongs(m: StateTable, o: Outpoint, objects: Objects, seen: set<Txid>)
    requires o in m
  {
    && o.txid in seen
    && m[o].objectKey in objects
    && m[o].sequence < Bound(objects[m[o].objectKey])
    && (m[o].spent.None? <==> objects[m[o].objectKey].currentOutpoint == Some(o))
  }

  ghost predicate RowsBelong(m: StateTable, objects: Objects, seen: set<Txid>) {
    forall o :: o in m ==> RowBelongs(m, o, objects, seen)
  }

  /** The current carrier of an active object has its row, with the object's own fields. */
  ghost predicate CurrentRows(m: StateTable, objects: Objects) {
    forall k :: k in objects && objects[k].currentOutpoint.Some? ==>
      && objects[k].currentOutpoint.value in m
      && var row := m[objects[k].currentOutpoint.value];
         row.objectKey == k && row.sequence == objects[k].stateSequence &&
         objects[k].currentHeight == Some(row.createdHeight) &&
         row.key0 == objects[k].key0 && row.key1 == objects[k].key1
  }

  ghost predicate UniqueRows(m: StateTable) {
    forall o, u :: o in m && u in m && m[o].objectKey == m[u].objectKey && m[o].sequence == m[u].sequence ==> o == u
  }

  ghost predicate HasRow(m: StateTable, k: Key, sequence: int) {
    exists o :: o in m && m[o].objectKey == k && m[o].sequence == sequence
  }

  /** The sequences of an object are contiguous from 0. */
  ghost predicate Contiguous(m: StateTable, objects: Objects) {
    forall k, n :: k in objects && 0 <= n < Bound(objects[k]) ==> HasRow(m, k, n)
  }

  ghost predicate StatesOk(m: StateTable, objects: Objects, seen: set<Txid>) {
    RowsBelong(m, objects, seen) && CurrentRows(m, objects) && UniqueRows(m) && Contiguous(m, objects)
  }

  function RolledBackStates(m: StateTable, height: nat): StateTable {
    UnspendStates(DeleteStates(m, height), height)
  }

  /** The block's state rows can be inserted in order, and deleting them again gives the base table. */
  ghost predicate PendingStates(base: StateTable, height: nat, w: Work, seen: set<Txid>) {
    && (forall i :: 0 <= i < |w.spentOutpoints| ==> w.spentOutpoints[i].outpoint.txid in seen)
    && (forall i :: 0 <= i < |w.newStates| ==>
          w.newStates[i].objectKey in w.objects && StateFits(PutStates(base, height, w.newStates, i), w.newStates[i]))
    && RolledBackStates(StatesAfter(base, height, w), height) == base
  }

  // ----- chapters -----------------------------------------------------------------------------

  ghost function ChaptersOf(m: ChapterTable, k: Key): set<ChapterKey> {
    set c | c in m && c.objectKey == k
  }

  ghost predicate ChaptersOk(m: ChapterTable, objects: Objects, seen: set<Txid>) {
    && (forall c :: c in m ==>
          c.objectKey in objects && c.sequence <= objects[c.objectKey].stateSequence && m[c].txid in seen)
    && (forall k :: k in objects ==> objects[k].chapterCount == |ChaptersOf(m, k)|)
  }

  ghost predicate PendingChapters(base: ChapterTable, height: nat, w: Work) {
    && (forall i :: 0 <= i < |w.chapters| ==>
          w.chapters[i].objectKey in w.objects && ChapterFits(PutChapters(base, height, w.chapters, i), w.chapters[i]))
    && DeleteChapters(ChaptersAfter(base, height, w), height) == base
  }

  /** All of it. */
  ghost predicate Inv(p: Protocol, base: Tables, pre: Objects, height: nat, w: Work, seen: set<Txid>) {
    && ObjectsOk(p, w.objects, seen)
    && IndexOk(w.objects, w.activeByOutpoint)
    && UndoOk(pre, w)
    && IdentityOk(pre, w.objects)
    && BornHere(pre, w.objects, height)
    && StatesOk(StatesAfter(base.states, height, w), w.objects, seen)
    && PendingStates(base.states, height, w, seen)
    && ChaptersOk(ChaptersAfter(base.chapters, height, w), w.objects, seen)
    && PendingChapters(base.chapters, height, w)
  }

  /** A legal move by a transaction whose txid is new wherever it makes a new carrier. */
  ghost predicate Allowed(p: Protocol, objects: Objects, next: ObjectRecord, txid: Txid, height: nat,
                          chapter: Option<Chapter>, seen: set<Txid>)
  {
    && Legal(p, Lookup(objects, next.objectKey), next, txid, height, chapter)
    && (next.currentOutpoint.Some? ==> txid !in seen)
  }

  // ----- each part survives a move ------------------------------------------------------------

  lemma MoveKeepsObjects(p: Protocol, w: Work, next: ObjectRecord, txid: Txid, height: nat,
                         chapter: Option<Chapter>, seen: set<Txid>)
    requires ObjectsOk(p, w.objects, seen)
    requires Allowed(p, w.objects, next, txid, height, chapter, seen)
    ensures ObjectsOk(p, Move(w, next, txid, chapter).objects, seen + {txid})
  {
    MoveObjects(w, next, txid, chapter);
  }

  /** A move's effect on the outpoint index. */
  function MovedIndex(index: map<Outpoint, Key>, prior: Option<ObjectRecord>, next: ObjectRecord): map<Outpoint, Key> {
    var released := if prior.Some? && prior.value.currentOutpoint.Some?
      then index - {prior.value.currentOutpoint.value} else index;
    if next.currentOutpoint.Some? then released[next.currentOutpoint.value := next.objectKey] else released
  }

  lemma MoveParts(w: Work, next: ObjectRecord, txid: Txid, chapter: Option<Chapter>)
    ensures Move(w, next, txid, chapter).activeByOutpoint
            == MovedIndex(w.activeByOutpoint, Lookup(w.objects, next.objectKey), next)
    ensures Move(w, next, txid, chapter).undo == Touch(w, next.objectKey).undo
    ensures Move(w, next, txid, chapter).touched == Touch(w, next.objectKey).touched
  {
  }

  lemma MoveKeepsIndex(p: Protocol, w: Work, next: ObjectRecord, txid: Txid, height: nat,
                       chapter: Option<Chapter>, seen: set<Txid>)
    requires ObjectsOk(p, w.objects, seen) && IndexOk(w.objects, w.activeByOutpoint)
    requires Allowed(p, w.objects, next, txid, height, chapter, seen)
    ensures IndexOk(Move(w, next, txid, chapter).objects, Move(w, next, txid, chapter).activeByOutpoint)
  {
    MoveObjects(w, next, txid, chapter);
    MoveParts(w, next, txid, chapter);
    hide Move, MovedIndex, IndexOk, ObjectsOk, Allowed;
    MovedIndexOk(p, w.objects, w.activeByOutpoint, next, txid, height, chapter, seen);
  }

  lemma MovedIndexOk(p: Protocol, objects: Objects, index: map<Outpoint, Key>, next: ObjectRecord, txid: Txid,
                     height: nat, chapter: Option<Chapter>, seen: set<Txid>)
    requires ObjectsOk(p, objects, seen) && IndexOk(objects, index)
    requires Allowed(p, objects, next, txid, height, chapter, seen)
    ensures IndexOk(objects[next.objectKey := next], MovedIndex(index, Lookup(objects, next.objectKey), next))
  {
    var after := objects[next.objectKey := next];
    var moved := MovedIndex(index, Lookup(objects, next.objectKey), next);
    forall k | k in after && after[k].currentOutpoint.Some?
      ensures after[k].currentOutpoint.value in moved && moved[after[k].currentOutpoint.value] == k
    {
      if k != next.objectKey {
        assert RecordOk(p, k, objects[k], seen);
      }
    }
    forall o | o in moved
      ensures moved[o] in after && after[moved[o]].currentOutpoint == Some(o)
    {
      if next.currentOutpoint != Some(o) {
        assert o in index && index[o] in objects;
      }
    }
  }

  lemma MoveKeepsUndo(pre: Objects, w: Work, next: ObjectRecord, txid: Txid, chapter: Option<Chapter>)
    requires UndoOk(pre, w)
    ensures UndoOk(pre, Move(w, next, txid, chapter))
  {
    MoveObjects(w, next, txid, chapter);
    MoveParts(w, next, txid, chapter);
    hide Move, Touch, UndoOk;
    TouchKeepsUndo(pre, w, next.objectKey, next);
    UndoOkReads(pre, Touch(w, next.objectKey).(objects := w.objects[next.objectKey := next]),
        Move(w, next, txid, chapter));
  }

  lemma MoveKeepsBirths(p: Protocol, pre: Objects, w: Work, next: ObjectRecord, txid: Txid, height: nat,
                        chapter: Option<Chapter>, seen: set<Txid>)
    requires BornHere(pre, w.objects, height) && IdentityOk(pre, w.objects)
    requires Allowed(p, w.objects, next, txid, height, chapter, seen)
    ensures BornHere(pre, Move(w, next, txid, chapter).objects, height)
  {
    hide StateFits;
  }

  lemma MoveKeepsIdentity(p: Protocol, pre: Objects, w: Work, next: ObjectRecord, txid: Txid, height: nat,
                          chapter: Option<Chapter>, seen: set<Txid>)
    requires IdentityOk(pre, w.objects)
    requires Allowed(p, w.objects, next, txid, height, chapter, seen)
    ensures IdentityOk(pre, Move(w, next, txid, chapter).objects)
  {
    MoveObjects(w, next, txid, chapter);
  }

  lemma UndoOkReads(pre: Objects, v: Work, w: Work)
    requires UndoOk(pre, v)
    requires v.undo == w.undo && v.touched == w.touched && v.objects == w.objects
    ensures UndoOk(pre, w)
  {
  }

  lemma TouchKeepsUndo(pre: Objects, w: Work, k: Key, next: ObjectRecord)
    requires UndoOk(pre, w)
    ensures UndoOk(pre, Touch(w, k).(objects := w.objects[k := next]))
  {
    if k !in w.undo {
      FirstTouchNotes(pre, w, k);
    }
    TouchedMayChange(pre, Touch(w, k), k, next);
  }

  lemma FirstTouchNotes(pre: Objects, w: Work, k: Key)
    requires UndoOk(pre, w) && k !in w.undo
    ensures UndoNotes(pre, Touch(w, k), k)
  {
    assert forall j :: j in w.touched + [k] <==> j in w.touched || j == k;
  }

  /** `UndoOk`, but the key need not have a record yet. */
  ghost predicate UndoNotes(pre: Objects, w: Work, key: Key) {
    && (forall k :: k in w.undo <==> k in w.touched)
    && (forall i, j :: 0 <= i < j < |w.touched| ==> w.touched[i] != w.touched[j])
    && key in w.undo
    && (forall k :: k in w.undo ==> (k == key || k in w.objects) && w.undo[k] == Lookup(pre, k))
    && (forall k :: k !in w.undo ==> Lookup(w.objects, k) == Lookup(pre, k))
  }

  lemma TouchedMayChange(pre: Objects, w: Work, k: Key, next: ObjectRecord)
    requires UndoNotes(pre, w, k)
    ensures UndoOk(pre, w.(objects := w.objects[k := next]))
  {
    assert forall j :: j !in w.undo ==> Lookup(w.objects[k := next], j) == Lookup(w.objects, j);
  }

  /** A move's effect on tandem_states. */
  function MovedStates(m: StateTable, height: nat, prior: Option<ObjectRecord>, next: ObjectRecord,
                       txid: Txid): StateTable {
    var spent := if prior.Some? && prior.value.currentOutpoint.Some?
      then SpendState(m, height, Spend(prior.value.currentOutpoint.value, txid)) else m;
    match next.currentOutpoint
    case None => spent
    case Some(o) => spent[o := CarrierState(next.objectKey, next.stateSequence, height, None, next.key0, next.key1)]
  }

  lemma MoveStates(p: Protocol, base: StateTable, w: Work, next: ObjectRecord, txid: Txid, height: nat,
                   chapter: Option<Chapter>, seen: set<Txid>)
    requires ObjectsOk(p, w.objects, seen) && PendingStates(base, height, w, seen)
    requires Allowed(p, w.objects, next, txid, height, chapter, seen)
    ensures StatesAfter(base, height, Move(w, next, txid, chapter))
            == MovedStates(StatesAfter(base, height, w), height, Lookup(w.objects, next.objectKey), next, txid)
  {
    hide Move, StatesAfter, Legal, RolledBackStates, StateFits;
    MoveLists(w, next, txid, chapter);
    var after := Move(w, next, txid, chapter);
    var prior := Lookup(w.objects, next.objectKey);
    var released := w.(spentOutpoints := after.spentOutpoints);
    if prior.Some? && prior.value.currentOutpoint.Some? {
      StatesAfterSpend(base, height, w, Spend(prior.value.currentOutpoint.value, txid));
    } else {
      assert released == w;
    }
    assert StatesAfter(base, height, released)
        == MovedStates(StatesAfter(base, height, w), height, prior, next.(currentOutpoint := None), txid);
    if next.currentOutpoint.Some? {
      var row := StateRow(next.currentOutpoint.value, next.objectKey, next.stateSequence, next.key0, next.key1);
      NewCarrierIsUnspent(p, base, w, next, txid, height, chapter, seen);
      StatesAfterRow(base, height, released, row);
      StatesAfterReads(base, height, released.(newStates := w.newStates + [row]), after);
    } else {
      StatesAfterReads(base, height, released, after);
    }
  }

  lemma StatesAfterReads(base: StateTable, height: nat, v: Work, w: Work)
    requires v.newStates == w.newStates && v.spentOutpoints == w.spentOutpoints
    ensures StatesAfter(base, height, v) == StatesAfter(base, height, w)
  {
  }

  lemma NewCarrierIsUnspent(p: Protocol, base: StateTable, w: Work, next: ObjectRecord, txid: Txid, height: nat,
                            chapter: Option<Chapter>, seen: set<Txid>)
    requires ObjectsOk(p, w.objects, seen) && PendingStates(base, height, w, seen)
    requires Allowed(p, w.objects, next, txid, height, chapter, seen)
    requires next.currentOutpoint.Some?
    ensures next.currentOutpoint.value.txid == txid && txid !in seen
    ensures forall i :: 0 <= i < |w.spentOutpoints| ==> w.spentOutpoints[i].outpoint.txid in seen
    ensures next.objectKey in w.objects && w.objects[next.objectKey].currentOutpoint.Some? ==>
              w.objects[next.objectKey].currentOutpoint.value.txid in seen
  {
    if next.objectKey in w.objects {
      assert RecordOk(p, next.objectKey, w.objects[next.objectKey], seen);
    }
  }

  /** The row a move adds is new, and the row it spends is the object's current one. */
  lemma MovedRows(p: Protocol, m: StateTable, objects: Objects, next: ObjectRecord, txid: Txid, height: nat,
                  chapter: Option<Chapter>, seen: set<Txid>)
    requires ObjectsOk(p, objects, seen) && StatesOk(m, objects, seen)
    requires Allowed(p, objects, next, txid, height, chapter, seen)
    ensures next.currentOutpoint.Some? ==> next.currentOutpoint == Some(Outpoint(txid, 1)) && Outpoint(txid, 1) !in m
    ensures next.objectKey in objects ==>
              && objects[next.objectKey].currentOutpoint.Some?
              && objects[next.objectKey].currentOutpoint.value in m
              && m[objects[next.objectKey].currentOutpoint.value].objectKey == next.objectKey
              && m[objects[next.objectKey].currentOutpoint.value].sequence == objects[next.objectKey].stateSequence
  {
    if next.objectKey in objects {
      assert RecordOk(p, next.objectKey, objects[next.objectKey], seen);
    }
  }

  lemma MoveKeepsBelonging(p: Protocol, m: StateTable, objects: Objects, next: ObjectRecord, txid: Txid, height: nat,
                           chapter: Option<Chapter>, seen: set<Txid>)
    requires ObjectsOk(p, objects, seen) && StatesOk(m, objects, seen)
    requires Allowed(p, objects, next, txid, height, chapter, seen)
    ensures RowsBelong(MovedStates(m, height, Lookup(objects, next.objectKey), next, txid),
                       objects[next.objectKey := next], seen + {txid})
  {
    MovedRows(p, m, objects, next, txid, height, chapter, seen);
    var after := objects[next.objectKey := next];
    var moved := MovedStates(m, height, Lookup(objects, next.objectKey), next, txid);
    forall o | o in moved
      ensures RowBelongs(moved, o, after, seen + {txid})
    {
      if next.currentOutpoint != Some(o) {
        assert o in m && RowBelongs(m, o, objects, seen);
        assert moved[o].objectKey == m[o].objectKey && moved[o].sequence == m[o].sequence;
        if m[o].objectKey == next.objectKey {
          assert m[o].sequence < Bound(after[next.objectKey]);
          assert moved[o].spent.Some?;
        } else {
          assert moved[o] == m[o];
        }
      }
    }
  }

  lemma MoveKeepsCurrent(p: Protocol, m: StateTable, objects: Objects, next: ObjectRecord, txid: Txid, height: nat,
                         chapter: Option<Chapter>, seen: set<Txid>)
    requires ObjectsOk(p, objects, seen) && StatesOk(m, objects, seen)
    requires Allowed(p, objects, next, txid, height, chapter, seen)
    ensures CurrentRows(MovedStates(m, height, Lookup(objects, next.objectKey), next, txid),
                        objects[next.objectKey := next])
  {
    MovedRows(p, m, objects, next, txid, height, chapter, seen);
    var after := objects[next.objectKey := next];
    var moved := MovedStates(m, height, Lookup(objects, next.objectKey), next, txid);
    forall k | k in after && k != next.objectKey && after[k].currentOutpoint.Some?
      ensures after[k].currentOutpoint.value in moved &&
                moved[after[k].currentOutpoint.value] == m[after[k].currentOutpoint.value]
    {
      assert m[objects[k].currentOutpoint.value].objectKey == k;
    }
  }

  lemma MoveKeepsUnique(p: Protocol, m: StateTable, objects: Objects, next: ObjectRecord, txid: Txid, height: nat,
                        chapter: Option<Chapter>, seen: set<Txid>)
    requires ObjectsOk(p, objects, seen) && StatesOk(m, objects, seen)
    requires Allowed(p, objects, next, txid, height, chapter, seen)
    ensures UniqueRows(MovedStates(m, height, Lookup(objects, next.objectKey), next, txid))
    ensures next.currentOutpoint.Some? ==>
              StateFits(m, StateRow(next.currentOutpoint.value, next.objectKey, next.stateSequence, next.key0,
                  next.key1))
  {
    MovedRows(p, m, objects, next, txid, height, chapter, seen);
    var moved := MovedStates(m, height, Lookup(objects, next.objectKey), next, txid);
    forall o, u | o in moved && u in moved && moved[o].objectKey == moved[u].objectKey &&
        moved[o].sequence == moved[u].sequence
      ensures o == u
    {
      if o in m && u in m {
        assert m[o].objectKey == m[u].objectKey && m[o].sequence == m[u].sequence;
      }
    }
  }

  lemma MoveKeepsContiguous(p: Protocol, m: StateTable, objects: Objects, next: ObjectRecord, txid: Txid, height: nat,
                            chapter: Option<Chapter>, seen: set<Txid>)
    requires ObjectsOk(p, objects, seen) && StatesOk(m, objects, seen)
    requires Allowed(p, objects, next, txid, height, chapter, seen)
    ensures Contiguous(MovedStates(m, height, Lookup(objects, next.objectKey), next, txid),
                       objects[next.objectKey := next])
  {
    MovedRows(p, m, objects, next, txid, height, chapter, seen);
    var after := objects[next.objectKey := next];
    var moved := MovedStates(m, height, Lookup(objects, next.objectKey), next, txid);
    forall k, n | k in after && 0 <= n < Bound(after[k])
      ensures HasRow(moved, k, n)
    {
      if k == next.objectKey && next.currentOutpoint.Some? && n == next.stateSequence {
        assert moved[next.currentOutpoint.value].sequence == n;
      } else {
        assert k in objects && n < Bound(objects[k]);
        assert HasRow(m, k, n);
        var o :| o in m && m[o].objectKey == k && m[o].sequence == n;
        assert o in moved && moved[o].objectKey == k && moved[o].sequence == n;
      }
    }
  }

  lemma MoveKeepsStates(p: Protocol, base: StateTable, w: Work, next: ObjectRecord, txid: Txid, height: nat,
                        chapter: Option<Chapter>, seen: set<Txid>)
    requires ObjectsOk(p, w.objects, seen) && PendingStates(base, height, w, seen)
    requires StatesOk(StatesAfter(base, height, w), w.objects, seen)
    requires Allowed(p, w.objects, next, txid, height, chapter, seen)
    ensures StatesOk(StatesAfter(base, height, Move(w, next, txid, chapter)),
                     Move(w, next, txid, chapter).objects, seen + {txid})
  {
    hide Move, StatesAfter, MovedStates, Legal, PendingStates, RowsBelong, CurrentRows, UniqueRows, Contiguous;
    var m := StatesAfter(base, height, w);
    MoveStates(p, base, w, next, txid, height, chapter, seen);
    MoveObjects(w, next, txid, chapter);
    MoveKeepsBelonging(p, m, w.objects, next, txid, height, chapter, seen);
    MoveKeepsCurrent(p, m, w.objects, next, txid, height, chapter, seen);
    MoveKeepsUnique(p, m, w.objects, next, txid, height, chapter, seen);
    MoveKeepsContiguous(p, m, w.objects, next, txid, height, chapter, seen);
  }

  lemma AddedRowRollsBack(m: StateTable, o: Outpoint, row: CarrierState)
    requires o !in m
    ensures RolledBackStates(m[o := row], row.createdHeight) == RolledBackStates(m, row.createdHeight)
  {
  }

  lemma SpentRowRollsBack(m: StateTable, height: nat, s: Spend)
    requires s.outpoint in m && m[s.outpoint].spent == None
    ensures RolledBackStates(SpendState(m, height, s), height) == RolledBackStates(m, height)
  {
  }

  /** Undoing a move in the tables undoes it: the added row has this height, the spent row was unspent. */
  lemma MoveRollsBack(p: Protocol, m: StateTable, objects: Objects, next: ObjectRecord, txid: Txid, height: nat,
                      chapter: Option<Chapter>, seen: set<Txid>)
    requires ObjectsOk(p, objects, seen) && StatesOk(m, objects, seen)
    requires Allowed(p, objects, next, txid, height, chapter, seen)
    ensures RolledBackStates(MovedStates(m, height, Lookup(objects, next.objectKey), next, txid), height)
            == RolledBackStates(m, height)
  {
    hide RolledBackStates, SpendState, Allowed, ObjectsOk;
    MovedRows(p, m, objects, next, txid, height, chapter, seen);
    SpendKeys(m, height);
    var prior := Lookup(objects, next.objectKey);
    var spent := MovedStates(m, height, prior, next.(currentOutpoint := None), txid);
    if prior.Some? {
      assert RowBelongs(m, prior.value.currentOutpoint.value, objects, seen);
      SpentRowRollsBack(m, height, Spend(prior.value.currentOutpoint.value, txid));
    }
    if next.currentOutpoint.Some? {
      AddedRowRollsBack(spent, next.currentOutpoint.value,
                        CarrierState(next.objectKey, next.stateSequence, height, None, next.key0, next.key1));
    }
  }

  lemma SpendKeys(m: StateTable, height: nat)
    ensures forall s :: SpendState(m, height, s).Keys == m.Keys
  {
  }

  lemma SpentRowsFit(put: StateTable, height: nat, spends: seq<Spend>, row: StateRow)
    requires StateFits(SpendStates(put, height, spends, |spends|), row)
    ensures StateFits(put, row)
  {
    var spent := SpendStates(put, height, spends, |spends|);
    SpendKeepsRows(put, height, spends, |spends|);
    forall o | o in put
      ensures !(put[o].objectKey == row.objectKey && put[o].sequence == row.sequence)
    {
      assert o in spent && spent[o] == put[o].(spent := spent[o].spent);
    }
  }

  /** One more row that fits keeps the list of rows insertable. */
  lemma RowStillFits(base: StateTable, height: nat, rows: seq<StateRow>, row: StateRow, i: nat)
    requires i <= |rows|
    requires i < |rows| ==> StateFits(PutStates(base, height, rows, i), rows[i])
    requires i == |rows| ==> StateFits(PutStates(base, height, rows, |rows|), row)
    ensures StateFits(PutStates(base, height, rows + [row], i), (rows + [row])[i])
  {
    PutStatesPrefix(base, height, rows, [row], i);
    assert (rows + [row])[i] == if i < |rows| then rows[i] else row;
  }

  lemma RowsStillFit(base: StateTable, height: nat, w: Work, row: StateRow)
    requires forall i :: 0 <= i < |w.newStates| ==> StateFits(PutStates(base, height, w.newStates, i), w.newStates[i])
    requires StateFits(StatesAfter(base, height, w), row)
    ensures forall i :: 0 <= i <= |w.newStates| ==>
              StateFits(PutStates(base, height, w.newStates + [row], i), (w.newStates + [row])[i])
  {
    SpentRowsFit(PutStates(base, height, w.newStates, |w.newStates|), height, w.spentOutpoints, row);
    forall i | 0 <= i <= |w.newStates|
      ensures StateFits(PutStates(base, height, w.newStates + [row], i), (w.newStates + [row])[i])
    {
      RowStillFits(base, height, w.newStates, row, i);
    }
  }

  lemma PendingStatesGrow(base: StateTable, height: nat, w: Work, after: Work, row: Option<StateRow>,
                          spend: Option<Spend>, seen: set<Txid>, txid: Txid)
    requires PendingStates(base, height, w, seen)
    requires w.objects.Keys <= after.objects.Keys
    requires after.newStates == w.newStates + if row.Some? then [row.value] else []
    requires after.spentOutpoints == w.spentOutpoints + if spend.Some? then [spend.value] else []
    requires spend.Some? ==> spend.value.outpoint.txid in seen
    requires row.Some? ==> row.value.objectKey in after.objects && StateFits(StatesAfter(base, height, w), row.value)
    requires RolledBackStates(StatesAfter(base, height, after), height) == base
    ensures PendingStates(base, height, after, seen + {txid})
  {
    if row.Some? {
      RowsStillFit(base, height, w, row.value);
    } else {
      assert after.newStates == w.newStates;
    }
  }

  lemma MoveKeepsPendingStates(p: Protocol, base: StateTable, w: Work, next: ObjectRecord, txid: Txid, height: nat,
                               chapter: Option<Chapter>, seen: set<Txid>)
    requires ObjectsOk(p, w.objects, seen) && PendingStates(base, height, w, seen)
    requires StatesOk(StatesAfter(base, height, w), w.objects, seen)
    requires Allowed(p, w.objects, next, txid, height, chapter, seen)
    ensures PendingStates(base, height, Move(w, next, txid, chapter), seen + {txid})
  {
    hide Move, StatesAfter, Legal, StatesOk, RolledBackStates, StateFits;
    var m := StatesAfter(base, height, w);
    MoveObjects(w, next, txid, chapter);
    MoveStates(p, base, w, next, txid, height, chapter, seen);
    MoveRollsBack(p, m, w.objects, next, txid, height, chapter, seen);
    MoveLists(w, next, txid, chapter);
    MoveKeepsUnique(p, m, w.objects, next, txid, height, chapter, seen);
    var prior := Lookup(w.objects, next.objectKey);
    var row := if next.currentOutpoint.None? then None
               else Some(StateRow(next.currentOutpoint.value, next.objectKey, next.stateSequence, next.key0,
                   next.key1));
    var spend := if prior.Some? && prior.value.currentOutpoint.Some?
                 then Some(Spend(prior.value.currentOutpoint.value, txid)) else None;
    PendingStatesGrow(base, height, w, Move(w, next, txid, chapter), row, spend, seen, txid);
  }

  lemma MoveLists(w: Work, next: ObjectRecord, txid: Txid, chapter: Option<Chapter>)
    ensures
      var after := Move(w, next, txid, chapter);
      && after.newStates == (if next.currentOutpoint.None? then w.newStates
                             else w.newStates + [StateRow(next.currentOutpoint.value, next.objectKey,
                                                          next.stateSequence, next.key0, next.key1)])
      && after.spentOutpoints == (if next.objectKey in w.objects && w.objects[next.objectKey].currentOutpoint.Some?
                                  then w.spentOutpoints + [Spend(w.objects[next.objectKey].currentOutpoint.value, txid)]
                                  else w.spentOutpoints)
      && after.chapters == (if chapter.None? then w.chapters
                            else w.chapters + [ChapterRow(next.objectKey, next.stateSequence, txid, chapter.value)])
  {
  }

  // ----- chapters -----------------------------------------------------------------------------

  lemma AddedChapter(m: ChapterTable, c: ChapterKey, entry: ChapterEntry, k: Key)
    requires c !in m
    ensures |ChaptersOf(m[c := entry], k)| == |ChaptersOf(m, k)| + if c.objectKey == k then 1 else 0
  {
    var after := ChaptersOf(m[c := entry], k);
    assert after == ChaptersOf(m, k) + (if c.objectKey == k then {c} else {});
  }

  lemma ChaptersStand(p: Protocol, m: ChapterTable, objects: Objects, next: ObjectRecord, txid: Txid, height: nat,
                      chapter: Option<Chapter>, seen: set<Txid>)
    requires ObjectsOk(p, objects, seen) && ChaptersOk(m, objects, seen)
    requires Allowed(p, objects, next, txid, height, chapter, seen)
    requires chapter.None?
    ensures ChaptersOk(m, objects[next.objectKey := next], seen + {txid})
  {
    if next.objectKey !in objects {
      assert ChaptersOf(m, next.objectKey) == {};
    }
  }

  lemma ChapterAdded(p: Protocol, m: ChapterTable, objects: Objects, next: ObjectRecord, txid: Txid, height: nat,
                     chapter: Option<Chapter>, seen: set<Txid>)
    requires ObjectsOk(p, objects, seen) && ChaptersOk(m, objects, seen)
    requires Allowed(p, objects, next, txid, height, chapter, seen)
    requires chapter.Some?
    ensures
      var c, entry := ChapterKey(next.objectKey, next.stateSequence), ChapterEntry(txid, height, chapter.value);
      && ChapterFits(m, ChapterRow(next.objectKey, next.stateSequence, txid, chapter.value))
      && ChaptersOk(m[c := entry], objects[next.objectKey := next], seen + {txid})
      && DeleteChapters(m[c := entry], height) == DeleteChapters(m, height)
  {
    var c, entry := ChapterKey(next.objectKey, next.stateSequence), ChapterEntry(txid, height, chapter.value);
    var after := objects[next.objectKey := next];
    assert c !in m;
    forall k | k in after
      ensures after[k].chapterCount == |ChaptersOf(m[c := entry], k)|
    {
      AddedChapter(m, c, entry, k);
    }
  }

  lemma ChapterStillFits(base: ChapterTable, height: nat, rows: seq<ChapterRow>, row: ChapterRow, i: nat)
    requires i <= |rows|
    requires i < |rows| ==> ChapterFits(PutChapters(base, height, rows, i), rows[i])
    requires i == |rows| ==> ChapterFits(PutChapters(base, height, rows, |rows|), row)
    ensures ChapterFits(PutChapters(base, height, rows + [row], i), (rows + [row])[i])
  {
    PutChaptersPrefix(base, height, rows, [row], i);
    assert (rows + [row])[i] == if i < |rows| then rows[i] else row;
  }

  lemma PendingChaptersGrow(base: ChapterTable, height: nat, w: Work, after: Work, row: Option<ChapterRow>)
    requires PendingChapters(base, height, w)
    requires w.objects.Keys <= after.objects.Keys
    requires after.chapters == w.chapters + if row.Some? then [row.value] else []
    requires row.Some? ==>
               row.value.objectKey in after.objects && ChapterFits(ChaptersAfter(base, height, w), row.value)
    requires DeleteChapters(ChaptersAfter(base, height, after), height) == base
    ensures PendingChapters(base, height, after)
  {
    hide ChapterFits, DeleteChapters, PutChapters;
    match row
    case None => assert after.chapters == w.chapters;
    case Some(added) =>
      forall i | 0 <= i < |after.chapters|
        ensures ChapterFits(PutChapters(base, height, after.chapters, i), after.chapters[i])
      {
        ChapterStillFits(base, height, w.chapters, added, i);
      }
  }

  lemma MoveKeepsChapters(p: Protocol, base: ChapterTable, w: Work, next: ObjectRecord, txid: Txid, height: nat,
                          chapter: Option<Chapter>, seen: set<Txid>)
    requires ObjectsOk(p, w.objects, seen)
    requires ChaptersOk(ChaptersAfter(base, height, w), w.objects, seen) && PendingChapters(base, height, w)
    requires Allowed(p, w.objects, next, txid, height, chapter, seen)
    ensures ChaptersOk(ChaptersAfter(base, height, Move(w, next, txid, chapter)),
                       Move(w, next, txid, chapter).objects, seen + {txid})
    ensures PendingChapters(base, height, Move(w, next, txid, chapter))
  {
    var m := ChaptersAfter(base, height, w);
    MoveObjects(w, next, txid, chapter);
    MoveLists(w, next, txid, chapter);
    match chapter
    case None =>
      ChaptersStand(p, m, w.objects, next, txid, height, chapter, seen);
      PendingChaptersGrow(base, height, w, Move(w, next, txid, chapter), None);
    case Some(written) =>
      var row := ChapterRow(next.objectKey, next.stateSequence, txid, written);
      ChapterAdded(p, m, w.objects, next, txid, height, chapter, seen);
      ChaptersAfterRow(base, height, w, row);
      ChaptersAfterReads(base, height, w.(chapters := w.chapters + [row]), Move(w, next, txid, chapter));
      PendingChaptersGrow(base, height, w, Move(w, next, txid, chapter), Some(row));
  }

  lemma ChaptersAfterReads(base: ChapterTable, height: nat, v: Work, w: Work)
    requires v.chapters == w.chapters
    ensures ChaptersAfter(base, height, v) == ChaptersAfter(base, height, w)
  {
  }

  /** Every part of the invariant survives a legal move. */
  lemma MoveKeepsInv(p: Protocol, base: Tables, pre: Objects, w: Work, next: ObjectRecord, txid: Txid, height: nat,
                     chapter: Option<Chapter>, seen: set<Txid>)
    requires Inv(p, base, pre, height, w, seen)
    requires Allowed(p, w.objects, next, txid, height, chapter, seen)
    ensures Inv(p, base, pre, height, Move(w, next, txid, chapter), seen + {txid})
  {
    hide Move, Allowed, ObjectsOk, IndexOk, UndoOk, IdentityOk, BornHere, StatesOk, PendingStates, ChaptersOk,
      PendingChapters;
    MoveKeepsObjects(p, w, next, txid, height, chapter, seen);
    MoveKeepsIndex(p, w, next, txid, height, chapter, seen);
    MoveKeepsUndo(pre, w, next, txid, chapter);
    MoveKeepsIdentity(p, pre, w, next, txid, height, chapter, seen);
    MoveKeepsBirths(p, pre, w, next, txid, height, chapter, seen);
    MoveKeepsStates(p, base.states, w, next, txid, height, chapter, seen);
    MoveKeepsPendingStates(p, base.states, w, next, txid, height, chapter, seen);
    MoveKeepsChapters(p, base.chapters, w, next, txid, height, chapter, seen);
  }

  lemma InvParts(p: Protocol, base: Tables, pre: Objects, height: nat, w: Work, seen: set<Txid>)
    requires Inv(p, base, pre, height, w, seen)
    ensures ObjectsOk(p, w.objects, seen) && IndexOk(w.objects, w.activeByOutpoint)
    ensures UndoOk(pre, w) && IdentityOk(pre, w.objects) && BornHere(pre, w.objects, height)
  {
  }

  /** More seen txids do no harm. */
  lemma InvSees(p: Protocol, base: Tables, pre: Objects, height: nat, w: Work, seen: set<Txid>, more: set<Txid>)
    requires Inv(p, base, pre, height, w, seen) && seen <= more
    ensures Inv(p, base, pre, height, w, more)
  {
  }
}
