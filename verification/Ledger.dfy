/**
 * Event rows as a ledger. Every carrier, chapter and object has its entries: one event makes each carrier
 * and one spends it, each chapter is one MARK, each object has one CREATE and at most one ending.
 */
module Ledger {
  import opened Prelude
  import opened Bitcoin
  import opened StateEngine
  import opened Tandem
  import opened Reducer
  import opened Moves
  import opened Schema
  import opened Invariants

  /** An event row with the height of its block and the marker of its transaction. */
  datatype Entry = Entry(height: nat, marker: Option<Marker>, row: EventRecord)

  // ----- one entry for each key ---------------------------------------------------------------

  /** Each key has exactly one entry that `of` gives it, and no entry has a key outside. */
  ghost predicate Books<K(!new)>(j: seq<Entry>, of: Entry -> Option<K>, keys: set<K>) {
    && (forall i :: 0 <= i < |j| && of(j[i]).Some? ==> of(j[i]).value in keys)
    && (forall k :: k in keys ==> exists i :: 0 <= i < |j| && of(j[i]) == Some(k))
    && (forall i, l :: 0 <= i < l < |j| && of(j[i]).Some? ==> of(j[i]) != of(j[l]))
  }

  lemma BooksGrow<K(!new)>(j: seq<Entry>, of: Entry -> Option<K>, keys: set<K>, e: Entry, more: set<K>)
    requires Books(j, of, keys)
    requires of(e).Some? ==> of(e).value !in keys
    requires more == keys + if of(e).Some? then {of(e).value} else {}
    ensures Books(j + [e], of, more)
  {
    var all := j + [e];
    forall k | k in more
      ensures exists i :: 0 <= i < |all| && of(all[i]) == Some(k)
    {
      if k in keys {
        var i :| 0 <= i < |j| && of(j[i]) == Some(k);
        assert of(all[i]) == Some(k);
      } else {
        assert of(all[|j|]) == Some(k);
      }
    }
  }

  // ----- what an entry is for -----------------------------------------------------------------

  function Successor(row: EventRecord): Option<Outpoint> {
    row.successor
  }

  function SuccessorOf(e: Entry): Option<Outpoint> {
    Successor(e.row)
  }

  function Predecessor(row: EventRecord): Option<Outpoint> {
    row.predecessor
  }

  function PredecessorOf(e: Entry): Option<Outpoint> {
    Predecessor(e.row)
  }

  predicate IsMark(row: EventRecord) {
    row.validity.ValidOperation? && row.eventType == MARK && row.objectKey.Some?
  }

  function Marked(row: EventRecord): Option<ChapterKey> {
    if IsMark(row) then Some(ChapterKey(row.objectKey.value, row.stateSequence)) else None
  }

  function MarkOf(e: Entry): Option<ChapterKey> {
    Marked(e.row)
  }

  predicate IsCreate(row: EventRecord) {
    row.validity.ValidOperation? && row.eventType == CREATE
  }

  function Created(row: EventRecord): Option<Key> {
    if IsCreate(row) then row.objectKey else None
  }

  function CreatedBy(e: Entry): Option<Key> {
    Created(e.row)
  }

  /** The status an event row ends an object with. */
  function EndingOf(row: EventRecord): Option<Status> {
    if !IsMove(row) then None
    else
      match row.eventType
      case CLOSE => Some(Closed)
      case REFUND => Some(Refunded)
      case EXITED_NONCANONICAL => Some(ExitedNoncanonical)
      case _ => None
  }

  function Finished(row: EventRecord): Option<Key> {
    if EndingOf(row).Some? then row.objectKey else None
  }

  function EndedBy(e: Entry): Option<Key> {
    Finished(e.row)
  }

  // ----- the balance --------------------------------------------------------------------------

  /** The carrier row is the one the event made. */
  predicate MadeBy(s: CarrierState, height: nat, row: EventRecord) {
    && row.objectKey == Some(s.objectKey) && row.stateSequence == s.sequence && height == s.createdHeight
    && row.key0 == Some(s.key0) && row.key1 == Some(s.key1)
  }

  ghost predicate CarriersMade(j: seq<Entry>, m: StateTable) {
    && Books(j, SuccessorOf, m.Keys)
    && forall i :: 0 <= i < |j| && j[i].row.successor.Some? && j[i].row.successor.value in m ==>
         MadeBy(m[j[i].row.successor.value], j[i].height, j[i].row)
  }

  function SpentKeys(m: StateTable): set<Outpoint> {
    set o | o in m && m[o].spent.Some?
  }

  predicate SpentIn(s: CarrierState, height: nat, row: EventRecord) {
    row.objectKey == Some(s.objectKey) && s.spent == Some(SpentBy(height, row.txid))
  }

  ghost predicate CarriersSpent(j: seq<Entry>, m: StateTable) {
    && Books(j, PredecessorOf, SpentKeys(m))
    && forall i :: 0 <= i < |j| && j[i].row.predecessor.Some? && j[i].row.predecessor.value in m ==>
         SpentIn(m[j[i].row.predecessor.value], j[i].height, j[i].row)
  }

  predicate WrittenBy(c: ChapterEntry, height: nat, row: EventRecord) {
    c.txid == row.txid && c.blockHeight == height && row.commitment == Some(c.chapter.commitment)
  }

  predicate HeldBy(c: Chapter, sequence: nat, marker: Option<Marker>) {
    marker == Some(MarkMarker(sequence, c.kind, c.commitment))
  }

  ghost predicate ChaptersWritten(j: seq<Entry>, m: ChapterTable) {
    && Books(j, MarkOf, m.Keys)
    && forall i :: 0 <= i < |j| && MarkOf(j[i]).Some? && MarkOf(j[i]).value in m ==>
         && WrittenBy(m[MarkOf(j[i]).value], j[i].height, j[i].row)
         && HeldBy(m[MarkOf(j[i]).value].chapter, j[i].row.stateSequence, j[i].marker)
  }

  predicate FoundedBy(window: Window, r: ObjectRow, height: nat, row: EventRecord) {
    && r.createTxid == row.txid && r.createHeight == height
    && (r.founding <==> window.openHeight <= height < window.closeHeight)
  }

  ghost predicate ObjectsFounded(window: Window, j: seq<Entry>, objects: Objects) {
    && Books(j, CreatedBy, objects.Keys)
    && forall i :: 0 <= i < |j| && CreatedBy(j[i]).Some? && CreatedBy(j[i]).value in objects ==>
         FoundedBy(window, ObjectRowOf(objects[CreatedBy(j[i]).value]), j[i].height, j[i].row)
  }

  function EndedKeys(objects: Objects): set<Key> {
    set k | k in objects && !objects[k].status.Active?
  }

  predicate EndsBy(r: ObjectRow, row: EventRecord) {
    r.terminalTxid == Some(row.txid) && Some(r.status) == EndingOf(row)
  }

  ghost predicate ObjectsEnded(j: seq<Entry>, objects: Objects) {
    && Books(j, EndedBy, EndedKeys(objects))
    && forall i :: 0 <= i < |j| && EndedBy(j[i]).Some? && EndedBy(j[i]).value in objects ==>
         EndsBy(ObjectRowOf(objects[EndedBy(j[i]).value]), j[i].row)
  }

  ghost predicate Balanced(window: Window, j: seq<Entry>, states: StateTable, chapters: ChapterTable,
                           objects: Objects) {
    && CarriersMade(j, states) && CarriersSpent(j, states) && ChaptersWritten(j, chapters)
    && ObjectsFounded(window, j, objects) && ObjectsEnded(j, objects)
  }

  // ----- one move -----------------------------------------------------------------------------

  /** The entry records a legal move, and its chapter is the marker's. */
  ghost predicate Enters(p: Protocol, window: Window, objects: Objects, next: ObjectRecord, txid: Txid, height: nat,
                         chapter: Option<Chapter>, e: Entry)
  {
    var prior := Lookup(objects, next.objectKey);
    && e.height == height
    && Legal(p, prior, next, txid, height, chapter) && Records(e.row, prior, next, txid, chapter)
    && IsFounding(window, prior, next) && IsChapterOf(e.marker, next.stateSequence, chapter)
    && (chapter.Some? ==> e.row.commitment == Some(chapter.value.commitment))
  }

  lemma MadeGrows(p: Protocol, window: Window, j: seq<Entry>, m: StateTable, objects: Objects, next: ObjectRecord,
                  txid: Txid, height: nat, chapter: Option<Chapter>, seen: set<Txid>, e: Entry)
    requires CarriersMade(j, m) && ObjectsOk(p, objects, seen) && StatesOk(m, objects, seen)
    requires Allowed(p, objects, next, txid, height, chapter, seen)
    requires Enters(p, window, objects, next, txid, height, chapter, e)
    ensures CarriersMade(j + [e], MovedStates(m, height, Lookup(objects, next.objectKey), next, txid))
  {
    hide ObjectsOk, StatesOk, Books;
    MovedRows(p, m, objects, next, txid, height, chapter, seen);
    var moved := MovedStates(m, height, Lookup(objects, next.objectKey), next, txid);
    BooksGrow(j, SuccessorOf, m.Keys, e, moved.Keys);
    BooksKeep(j, SuccessorOf, m.Keys);
  }

  /** Every entry's key is booked. */
  lemma BooksKeep<K(!new)>(j: seq<Entry>, of: Entry -> Option<K>, keys: set<K>)
    requires Books(j, of, keys)
    ensures forall i :: 0 <= i < |j| && of(j[i]).Some? ==> of(j[i]).value in keys
  {
  }

  lemma SpentGrow(p: Protocol, window: Window, j: seq<Entry>, m: StateTable, objects: Objects, next: ObjectRecord,
                  txid: Txid, height: nat, chapter: Option<Chapter>, seen: set<Txid>, e: Entry)
    requires CarriersSpent(j, m) && ObjectsOk(p, objects, seen) && StatesOk(m, objects, seen)
    requires Allowed(p, objects, next, txid, height, chapter, seen)
    requires Enters(p, window, objects, next, txid, height, chapter, e)
    ensures CarriersSpent(j + [e], MovedStates(m, height, Lookup(objects, next.objectKey), next, txid))
  {
    hide ObjectsOk, Books;
    MovedRows(p, m, objects, next, txid, height, chapter, seen);
    var prior := Lookup(objects, next.objectKey);
    var moved := MovedStates(m, height, prior, next, txid);
    if prior.Some? {
      assert RowBelongs(m, prior.value.currentOutpoint.value, objects, seen);
    }
    BooksGrow(j, PredecessorOf, SpentKeys(m), e, SpentKeys(moved));
    BooksKeep(j, PredecessorOf, SpentKeys(m));
  }

  /** tandem_chapters after a move. */
  function MovedChapters(m: ChapterTable, height: nat, next: ObjectRecord, txid: Txid,
                         chapter: Option<Chapter>): ChapterTable {
    match chapter
    case None => m
    case Some(written) => m[ChapterKey(next.objectKey, next.stateSequence) := ChapterEntry(txid, height, written)]
  }

  lemma ChaptersGrow(p: Protocol, window: Window, j: seq<Entry>, m: ChapterTable, objects: Objects, next: ObjectRecord,
                     txid: Txid, height: nat, chapter: Option<Chapter>, seen: set<Txid>, e: Entry)
    requires ChaptersWritten(j, m) && ObjectsOk(p, objects, seen) && ChaptersOk(m, objects, seen)
    requires Allowed(p, objects, next, txid, height, chapter, seen)
    requires Enters(p, window, objects, next, txid, height, chapter, e)
    ensures ChaptersWritten(j + [e], MovedChapters(m, height, next, txid, chapter))
  {
    hide ObjectsOk, ChaptersOk, Allowed, Enters, Books, MarkOf;
    ChapterEntered(p, window, m, objects, next, txid, height, chapter, seen, e);
    BooksGrow(j, MarkOf, m.Keys, e, MovedChapters(m, height, next, txid, chapter).Keys);
    BooksKeep(j, MarkOf, m.Keys);
  }

  /** A move that writes a chapter is entered as its MARK; the chapter is new. */
  lemma ChapterEntered(p: Protocol, window: Window, m: ChapterTable, objects: Objects, next: ObjectRecord, txid: Txid,
                       height: nat, chapter: Option<Chapter>, seen: set<Txid>, e: Entry)
    requires ObjectsOk(p, objects, seen) && ChaptersOk(m, objects, seen)
    requires Allowed(p, objects, next, txid, height, chapter, seen)
    requires Enters(p, window, objects, next, txid, height, chapter, e)
    ensures MarkOf(e) == if chapter.Some? then Some(ChapterKey(next.objectKey, next.stateSequence)) else None
    ensures MarkOf(e).Some? ==>
              && MarkOf(e).value !in m && WrittenBy(ChapterEntry(txid, height, chapter.value), e.height, e.row)
              && HeldBy(chapter.value, e.row.stateSequence, e.marker)
  {
    hide ObjectsOk;
  }

  lemma FoundedGrow(p: Protocol, window: Window, j: seq<Entry>, objects: Objects, next: ObjectRecord,
                    txid: Txid, height: nat, chapter: Option<Chapter>, e: Entry)
    requires ObjectsFounded(window, j, objects)
    requires Enters(p, window, objects, next, txid, height, chapter, e)
    ensures ObjectsFounded(window, j + [e], objects[next.objectKey := next])
  {
    hide Books;
    BooksGrow(j, CreatedBy, objects.Keys, e, objects[next.objectKey := next].Keys);
    BooksKeep(j, CreatedBy, objects.Keys);
  }

  lemma EndedGrow(p: Protocol, window: Window, j: seq<Entry>, objects: Objects, next: ObjectRecord,
                  txid: Txid, height: nat, chapter: Option<Chapter>, e: Entry)
    requires ObjectsEnded(j, objects)
    requires Enters(p, window, objects, next, txid, height, chapter, e)
    ensures ObjectsEnded(j + [e], objects[next.objectKey := next])
  {
    hide Books;
    BooksGrow(j, EndedBy, EndedKeys(objects), e, EndedKeys(objects[next.objectKey := next]));
    BooksKeep(j, EndedBy, EndedKeys(objects));
  }

  lemma IdleCarriers(j: seq<Entry>, m: StateTable, e: Entry)
    requires CarriersMade(j, m) && CarriersSpent(j, m) && IsIdle(e.row)
    ensures CarriersMade(j + [e], m) && CarriersSpent(j + [e], m)
  {
    hide Books;
    BooksGrow(j, SuccessorOf, m.Keys, e, m.Keys);
    BooksGrow(j, PredecessorOf, SpentKeys(m), e, SpentKeys(m));
  }

  lemma IdleObjects(window: Window, j: seq<Entry>, objects: Objects, e: Entry)
    requires ObjectsFounded(window, j, objects) && ObjectsEnded(j, objects) && IsIdle(e.row)
    ensures ObjectsFounded(window, j + [e], objects) && ObjectsEnded(j + [e], objects)
  {
    hide Books;
    BooksGrow(j, CreatedBy, objects.Keys, e, objects.Keys);
    BooksGrow(j, EndedBy, EndedKeys(objects), e, EndedKeys(objects));
  }

  /** An entry that names no carrier and no object changes no balance. */
  lemma IdleBalances(window: Window, j: seq<Entry>, states: StateTable, chapters: ChapterTable, objects: Objects,
                     e: Entry)
    requires Balanced(window, j, states, chapters, objects) && IsIdle(e.row)
    ensures Balanced(window, j + [e], states, chapters, objects)
  {
    hide Books, CarriersMade, CarriersSpent, ObjectsFounded, ObjectsEnded;
    IdleCarriers(j, states, e);
    IdleObjects(window, j, objects, e);
    BooksGrow(j, MarkOf, chapters.Keys, e, chapters.Keys);
  }

  lemma NothingBalances(window: Window)
    ensures Balanced(window, [], map[], map[], map[])
  {
  }
}
