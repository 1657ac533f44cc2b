/**
 * The ten canonical tables, with their keys and foreign-key cascades
 * (src/database/migrations), and what each statement of `IndexerStore` does to them. Surrogate
 * auto-increment ids are left out; `undo` keeps insertion order, which is what its id orders by.
 */
module Schema {
  import opened Prelude
  import opened Bitcoin
  import opened StateEngine
  import opened Tandem
  import opened Reducer

  datatype BlockRow = BlockRow(
    hash: Hash, previousHash: Option<Hash>, time: nat, eventRoot: Hash, objectStateRoot: Hash,
    chainedRoot: Hash, eventCount: nat)

  datatype TransactionRow = TransactionRow(wtxid: Txid, blockHeight: nat, txIndex: nat, version: int, locktime: nat)

  /** The unique key of tandem_events. */
  datatype EventPosition = EventPosition(height: nat, txIndex: nat, eventIndex: nat, subIndex: nat)

  /** tandem_objects does not store the carrier's height. */
  datatype ObjectRow = ObjectRow(
    createTxid: Txid, createHeight: nat, founding: bool, status: Status, stateSequence: nat,
    currentOutpoint: Option<Outpoint>, key0: Bytes, key1: Bytes, terminalTxid: Option<Txid>, chapterCount: nat)

  datatype SpentBy = SpentBy(height: nat, txid: Txid)

  datatype CarrierState = CarrierState(
    objectKey: Key, sequence: nat, createdHeight: nat, spent: Option<SpentBy>, key0: Bytes, key1: Bytes)

  datatype CarrierRow = CarrierRow(objectKey: Key, createdHeight: nat, spent: Option<SpentBy>, valueSats: nat)

  datatype ChapterKey = ChapterKey(objectKey: Key, sequence: nat)

  datatype ChapterEntry = ChapterEntry(txid: Txid, blockHeight: nat, chapter: Chapter)

  datatype CheckpointRow = CheckpointRow(
    blockHash: Hash, eventRoot: Hash, objectStateRoot: Hash, chainedRoot: Hash,
    foundingCreated: nat, allObjects: nat, activeObjects: nat)

  datatype UndoRow = UndoRow(height: nat, objectKey: Key, prior: Option<ObjectRecord>)

  type StateTable = map<Outpoint, CarrierState>
  type CarrierTable = map<Outpoint, CarrierRow>
  type ChapterTable = map<ChapterKey, ChapterEntry>
  type ObjectTable = map<Key, ObjectRow>
  type EventTable = map<EventPosition, EventRecord>
  type TransactionTable = map<Txid, TransactionRow>

  datatype Tables = Tables(
    blocks: map<nat, BlockRow>, transactions: TransactionTable, events: EventTable,
    objects: ObjectTable, states: StateTable, carriers: CarrierTable, chapters: ChapterTable,
    checkpoints: map<nat, CheckpointRow>, init: Option<InitActivation>, undo: seq<UndoRow>)

  const EMPTY_TABLES := Tables(map[], map[], map[], map[], map[], map[], map[], map[], None, [])

  // ----- rows ---------------------------------------------------------------------------------

  function BlockRowOf(r: ReducedBlock): BlockRow {
    BlockRow(r.hash, r.previousHash, r.time, r.eventRoot, r.objectStateRoot, r.chainedRoot, |r.events|)
  }

  function TransactionRowOf(height: nat, row: TxRow): TransactionRow {
    TransactionRow(row.wtxid, height, row.txIndex, row.version, row.locktime % 0x1_0000_0000)
  }

  function PositionOf(height: nat, e: EventRecord): EventPosition {
    EventPosition(height, e.txIndex, e.eventIndex, e.subIndex)
  }

  function ObjectRowOf(r: ObjectRecord): ObjectRow {
    ObjectRow(r.createTxid, r.createHeight, r.founding, r.status, r.stateSequence, r.currentOutpoint,
              r.key0, r.key1, r.terminalTxid, r.chapterCount)
  }

  function ObjectRows(objects: Objects): ObjectTable {
    map k | k in objects :: ObjectRowOf(objects[k])
  }

  function StateOf(height: nat, row: StateRow): CarrierState {
    CarrierState(row.objectKey, row.sequence, height, None, row.key0, row.key1)
  }

  function CarrierOf(s: CarrierState): CarrierRow {
    CarrierRow(s.objectKey, s.createdHeight, s.spent, CARRIER_VALUE)
  }

  function CarriersOf(states: StateTable): CarrierTable {
    map o | o in states :: CarrierOf(states[o])
  }

  function CheckpointOf(r: ReducedBlock): CheckpointRow {
    CheckpointRow(r.hash, r.eventRoot, r.objectStateRoot, r.chainedRoot,
                  r.foundingCreated, r.allObjects, r.activeObjects)
  }

  // ----- statements of writeBlock -------------------------------------------------------------

  function InsertBlock(t: Tables, r: ReducedBlock): Result<Tables> {
    if r.height in t.blocks || exists k :: k in t.blocks && t.blocks[k].hash == r.hash then Err(DuplicateKey)
    else Ok(t.(blocks := t.blocks[r.height := BlockRowOf(r)]))
  }

  function InsertInit(t: Tables, init: InitActivation): Result<Tables> {
    if t.init.Some? then Err(DuplicateKey)
    else if init.height !in t.blocks then Err(ForeignKey)
    else Ok(t.(init := Some(init)))
  }

  /** `version INT`, signed. */
  predicate VersionFits(version: int) {
    -0x8000_0000 <= version < 0x8000_0000
  }

  /** `marker_payload VARCHAR(164)` holds two digits a byte. */
  const PAYLOAD_WIDTH: nat := 82

  predicate PayloadFits(payload: Option<Bytes>) {
    payload.Some? ==> |payload.value| <= PAYLOAD_WIDTH
  }

  predicate PayloadsFit(rows: seq<EventRecord>) {
    forall i :: 0 <= i < |rows| ==> PayloadFits(rows[i].markerPayload)
  }

  /** Every value of a reduced block is as wide as its column allows. */
  predicate FitsColumns(r: ReducedBlock) {
    && (forall i :: 0 <= i < |r.transactions| ==> VersionFits(r.transactions[i].version))
    && PayloadsFit(r.events)
  }

  predicate TransactionFits(m: TransactionTable, height: nat, row: TxRow) {
    && row.txid !in m
    && !exists x :: x in m && m[x].blockHeight == height && m[x].txIndex == row.txIndex
  }

  function InsertTransaction(t: Tables, height: nat, row: TxRow): Result<Tables> {
    if !VersionFits(row.version) then Err(ColumnTooNarrow)
    else if !TransactionFits(t.transactions, height, row) then Err(DuplicateKey)
    else if height !in t.blocks then Err(ForeignKey)
    else Ok(t.(transactions := t.transactions[row.txid := TransactionRowOf(height, row)]))
  }

  function InsertEvent(t: Tables, height: nat, e: EventRecord): Result<Tables> {
    if !PayloadFits(e.markerPayload) then Err(ColumnTooNarrow)
    else if PositionOf(height, e) in t.events then Err(DuplicateKey)
    else if height !in t.blocks || e.txid !in t.transactions then Err(ForeignKey)
    else Ok(t.(events := t.events[PositionOf(height, e) := e]))
  }

  function InsertUndo(t: Tables, row: UndoRow): Result<Tables> {
    if row.height !in t.blocks then Err(ForeignKey) else Ok(t.(undo := t.undo + [row]))
  }

  /** ON DUPLICATE KEY UPDATE and the rollback UPDATE: every column but create_txid and create_height. */
  function Overwrite(row: ObjectRow, r: ObjectRecord): ObjectRow {
    ObjectRowOf(r).(createTxid := row.createTxid, createHeight := row.createHeight)
  }

  /** INSERT ... ON DUPLICATE KEY UPDATE: either unique key of tandem_objects turns it into an update. */
  function UpsertObject(objects: ObjectTable, r: ObjectRecord): ObjectTable {
    if r.objectKey in objects then objects[r.objectKey := Overwrite(objects[r.objectKey], r)]
    else if exists k :: k in objects && objects[k].createTxid == r.createTxid then
      map k | k in objects ::
        if objects[k].createTxid == r.createTxid then Overwrite(objects[k], r) else objects[k]
    else objects[r.objectKey := ObjectRowOf(r)]
  }

  predicate StateFits(m: StateTable, row: StateRow) {
    && row.outpoint !in m
    && !exists o :: o in m && m[o].objectKey == row.objectKey && m[o].sequence == row.sequence
  }

  function InsertState(t: Tables, height: nat, row: StateRow): Result<Tables> {
    if !StateFits(t.states, row) then Err(DuplicateKey)
    else if row.objectKey !in t.objects then Err(ForeignKey)
    else Ok(t.(states := t.states[row.outpoint := StateOf(height, row)]))
  }

  function InsertCarrier(t: Tables, height: nat, row: StateRow): Result<Tables> {
    if row.outpoint in t.carriers then Err(DuplicateKey)
    else if row.objectKey !in t.objects then Err(ForeignKey)
    else Ok(t.(carriers := t.carriers[row.outpoint := CarrierRow(row.objectKey, height, None, CARRIER_VALUE)]))
  }

  function SpendState(m: StateTable, height: nat, s: Spend): StateTable {
    if s.outpoint in m then m[s.outpoint := m[s.outpoint].(spent := Some(SpentBy(height, s.txid)))] else m
  }

  function SpendCarrier(m: CarrierTable, height: nat, s: Spend): CarrierTable {
    if s.outpoint in m then m[s.outpoint := m[s.outpoint].(spent := Some(SpentBy(height, s.txid)))] else m
  }

  predicate ChapterFits(m: ChapterTable, row: ChapterRow) {
    && ChapterKey(row.objectKey, row.sequence) !in m
    && !exists c :: c in m && m[c].txid == row.txid
  }

  function InsertChapter(t: Tables, height: nat, row: ChapterRow): Result<Tables> {
    if !ChapterFits(t.chapters, row) then Err(DuplicateKey)
    else if row.objectKey !in t.objects then Err(ForeignKey)
    else
      Ok(t.(chapters := t.chapters[ChapterKey(row.objectKey, row.sequence) :=
                                   ChapterEntry(row.txid, height, row.chapter)]))
  }

  function InsertCheckpoint(t: Tables, r: ReducedBlock): Result<Tables> {
    if r.height in t.checkpoints then Err(DuplicateKey)
    else if r.height !in t.blocks then Err(ForeignKey)
    else Ok(t.(checkpoints := t.checkpoints[r.height := CheckpointOf(r)]))
  }

  // ----- loops of writeBlock, by number of rows done ------------------------------------------

  function WriteTransactions(t: Tables, height: nat, rows: seq<TxRow>, n: nat): Result<Tables>
    requires n <= |rows|
  {
    if n == 0 then Ok(t)
    else
      var before :- WriteTransactions(t, height, rows, n - 1);
      InsertTransaction(before, height, rows[n - 1])
  }

  function WriteEvents(t: Tables, height: nat, rows: seq<EventRecord>, n: nat): Result<Tables>
    requires n <= |rows|
  {
    if n == 0 then Ok(t)
    else
      var before :- WriteEvents(t, height, rows, n - 1);
      InsertEvent(before, height, rows[n - 1])
  }

  /** One undo row and one object row for each touched key. */
  function WriteObjects(t: Tables, height: nat, w: Work, n: nat): Result<Tables>
    requires n <= |w.touched|
  {
    if n == 0 then Ok(t)
    else
      var before :- WriteObjects(t, height, w, n - 1);
      WriteObject(before, height, w, w.touched[n - 1])
  }

  function WriteObject(t: Tables, height: nat, w: Work, key: Key): Result<Tables> {
    var prior := match Lookup(w.undo, key) case Some(prior) => prior case None => None;
    var noted :- InsertUndo(t, UndoRow(height, key, prior));
    Ok(if key in w.objects then noted.(objects := UpsertObject(noted.objects, w.objects[key])) else noted)
  }

  function WriteStates(t: Tables, height: nat, rows: seq<StateRow>, n: nat): Result<Tables>
    requires n <= |rows|
  {
    if n == 0 then Ok(t)
    else
      var before :- WriteStates(t, height, rows, n - 1);
      var stated :- InsertState(before, height, rows[n - 1]);
      InsertCarrier(stated, height, rows[n - 1])
  }

  function SpendOutpoint(t: Tables, height: nat, s: Spend): Tables {
    t.(states := SpendState(t.states, height, s), carriers := SpendCarrier(t.carriers, height, s))
  }

  function WriteSpends(t: Tables, height: nat, spends: seq<Spend>, n: nat): Tables
    requires n <= |spends|
  {
    if n == 0 then t
    else SpendOutpoint(WriteSpends(t, height, spends, n - 1), height, spends[n - 1])
  }

  function WriteChapters(t: Tables, height: nat, rows: seq<ChapterRow>, n: nat): Result<Tables>
    requires n <= |rows|
  {
    if n == 0 then Ok(t)
    else
      var before :- WriteChapters(t, height, rows, n - 1);
      InsertChapter(before, height, rows[n - 1])
  }

  function WriteBlock(t: Tables, r: ReducedBlock): Result<Tables> {
    var started :- InsertBlock(t, r);
    var activated :- if r.initConfirmed then InsertInit(started, r.activation) else Ok(started);
    var listed :- WriteTransactions(activated, r.height, r.transactions, |r.transactions|);
    var logged :- WriteEvents(listed, r.height, r.events, |r.events|);
    var objected :- WriteObjects(logged, r.height, r.work, |r.work.touched|);
    var stated :- WriteStates(objected, r.height, r.work.newStates, |r.work.newStates|);
    var spent := WriteSpends(stated, r.height, r.work.spentOutpoints, |r.work.spentOutpoints|);
    var recorded :- WriteChapters(spent, r.height, r.work.chapters, |r.work.chapters|);
    InsertCheckpoint(recorded, r)
  }

  /** `appendBlocks`: the first `n` blocks in order; any refused row refuses them all. */
  function WriteBlocks(t: Tables, blocks: seq<ReducedBlock>, n: nat): Result<Tables>
    requires n <= |blocks|
  {
    if n == 0 then Ok(t)
    else
      var before :- WriteBlocks(t, blocks, n - 1);
      WriteBlock(before, blocks[n - 1])
  }

  // ----- statements of rollback ---------------------------------------------------------------

  function DeleteChapters(m: ChapterTable, height: nat): ChapterTable {
    map c | c in m && m[c].blockHeight != height :: m[c]
  }

  function DeleteStates(m: StateTable, height: nat): StateTable {
    map o | o in m && m[o].createdHeight != height :: m[o]
  }

  function DeleteCarriers(m: CarrierTable, height: nat): CarrierTable {
    map o | o in m && m[o].createdHeight != height :: m[o]
  }

  function SpentAt(spent: Option<SpentBy>, height: nat): bool {
    spent.Some? && spent.value.height == height
  }

  function UnspendStates(m: StateTable, height: nat): StateTable {
    map o | o in m :: if SpentAt(m[o].spent, height) then m[o].(spent := None) else m[o]
  }

  function UnspendCarriers(m: CarrierTable, height: nat): CarrierTable {
    map o | o in m :: if SpentAt(m[o].spent, height) then m[o].(spent := None) else m[o]
  }

  /** DELETE FROM tandem_objects, with its cascades into states, carriers and chapters. */
  function DeleteObject(t: Tables, key: Key): Tables {
    t.(objects := t.objects - {key},
       states := map o | o in t.states && t.states[o].objectKey != key :: t.states[o],
       carriers := map o | o in t.carriers && t.carriers[o].objectKey != key :: t.carriers[o],
       chapters := map c | c in t.chapters && c.objectKey != key :: t.chapters[c])
  }

  function RestoreObject(t: Tables, row: UndoRow): Tables {
    match row.prior
    case None => DeleteObject(t, row.objectKey)
    case Some(prior) =>
      if prior.objectKey in t.objects then
        t.(objects := t.objects[prior.objectKey := Overwrite(t.objects[prior.objectKey], prior)])
      else t
  }

  /** The undo rows of one height in insertion order. */
  function UndoAt(undo: seq<UndoRow>, height: nat): seq<UndoRow> {
    if undo == [] then []
    else
      UndoAt(undo[..|undo| - 1], height) +
      if undo[|undo| - 1].height == height then [undo[|undo| - 1]] else []
  }

  function UndoExcept(undo: seq<UndoRow>, height: nat): seq<UndoRow> {
    if undo == [] then []
    else
      UndoExcept(undo[..|undo| - 1], height) +
      if undo[|undo| - 1].height == height then [] else [undo[|undo| - 1]]
  }

  /** Replays rows from the last one down to row `n`: ORDER BY id DESC. */
  function RestoreObjects(t: Tables, rows: seq<UndoRow>, n: nat): Tables
    requires n <= |rows|
    decreases |rows| - n
  {
    if n == |rows| then t else RestoreObject(RestoreObjects(t, rows, n + 1), rows[n])
  }

  /**
   * DELETE FROM tandem_blocks, with its cascades into transactions, events (also through their
   * transaction), checkpoints, the INIT row and the undo journal.
   */
  function DeleteBlock(t: Tables, height: nat): Tables {
    t.(blocks := t.blocks - {height},
       transactions := map x | x in t.transactions && t.transactions[x].blockHeight != height :: t.transactions[x],
       events := map e | e in t.events && e.height != height
                         && !(t.events[e].txid in t.transactions &&
                             t.transactions[t.events[e].txid].blockHeight == height)
       :: t.events[e],
       checkpoints := t.checkpoints - {height},
       init := if t.init.Some? && t.init.value.height == height then None else t.init,
       undo := UndoExcept(t.undo, height))
  }

  function ClearHeight(t: Tables, height: nat): Tables {
    t.(chapters := DeleteChapters(t.chapters, height),
       carriers := UnspendCarriers(DeleteCarriers(t.carriers, height), height),
       states := UnspendStates(DeleteStates(t.states, height), height))
  }

  /** One block of a rollback. */
  function RollbackHeight(t: Tables, height: nat): Tables {
    DeleteBlock(RestoreObjects(ClearHeight(t, height), UndoAt(t.undo, height), 0), height)
  }

  /** The first `n` heights of a rollback plan, in its order. */
  function RollbackHeights(t: Tables, heights: seq<nat>, n: nat): Tables
    requires n <= |heights|
  {
    if n == 0 then t else RollbackHeight(RollbackHeights(t, heights, n - 1), heights[n - 1])
  }
}
