/**
 * The block engine (src/indexer/block-reducer.ts) as functions on values: what one event, one
 * transaction and one block do to the working state. `WorkingState.dfy` holds the loops and the
 * mutable state, and proves that they compute these functions.
 */
module Reducer {
  import opened Prelude
  import opened Bitcoin
  import opened StateEngine
  import opened Tandem

  /** Canonical object state, plus the confirmation height of the current carrier. */
  datatype ObjectRecord = ObjectRecord(
    objectKey: Key, createTxid: Txid, createHeight: nat, founding: bool, status: Status,
    stateSequence: nat, currentOutpoint: Option<Outpoint>, currentHeight: Option<nat>,
    key0: Bytes, key1: Bytes, terminalTxid: Option<Txid>, chapterCount: nat)

  type Objects = map<Key, ObjectRecord>

  datatype InitActivation = InitActivation(
    txid: Txid, height: nat, blockHash: Hash, openHeight: Option<nat>, closeHeight: Option<nat>,
    valid: bool, reason: nat)

  datatype EventRecord = EventRecord(
    txid: Txid, wtxid: Txid, txIndex: nat, eventIndex: nat, subIndex: nat,
    eventType: EventType, validity: ValidityClass, reason: nat, namespace: Bytes,
    objectKey: Option<Key>, stateSequence: nat,
    predecessor: Option<Outpoint>, successor: Option<Outpoint>,
    key0: Option<Bytes>, key1: Option<Bytes>, commitment: Option<Bytes>, markerPayload: Option<Bytes>)

  datatype StateRow = StateRow(outpoint: Outpoint, objectKey: Key, sequence: nat, key0: Bytes, key1: Bytes)

  datatype Spend = Spend(outpoint: Outpoint, txid: Txid)

  datatype Chapter = Chapter(kind: nat, commitment: Bytes)

  datatype ChapterRow = ChapterRow(objectKey: Key, sequence: nat, txid: Txid, chapter: Chapter)

  datatype TxRow = TxRow(txid: Txid, wtxid: Txid, txIndex: nat, version: int, locktime: nat)

  datatype ReducedBlock = ReducedBlock(
    height: nat, hash: Hash, previousHash: Option<Hash>, time: nat,
    activation: InitActivation, initConfirmed: bool,
    events: seq<EventRecord>, transactions: seq<TxRow>,
    work: Work,
    eventRoot: Hash, objectStateRoot: Hash, chainedRoot: Hash,
    foundingCreated: nat, allObjects: nat, activeObjects: nat)

  // ----- markers ------------------------------------------------------------------------------

  function AttemptedType(candidate: Candidate): EventType {
    if ByteAt(candidate.payload, 4) != Some(1) then INVALID
    else
      match ByteAt(candidate.payload, 6)
      case Some(0) => INIT
      case Some(1) => CREATE
      case Some(2) => MARK
      case Some(3) => ROTATE
      case Some(4) => CLOSE
      case _ => INVALID
  }

  function PayloadLength(opcode: int): nat {
    if opcode == 1 then 40 else if opcode == 2 then 78 else if opcode == 3 then 44 else 80
  }

  /** The namespace bytes of a complete payload of a defined operation other than INIT. */
  function PopulationNamespace(candidate: Candidate): Option<Bytes> {
    match ByteAt(candidate.payload, 6)
    case None => None
    case Some(opcode) =>
      if !candidate.complete || ByteAt(candidate.payload, 4) != Some(1) || opcode < 1 || opcode > 4
         || |candidate.payload| != PayloadLength(opcode) then None
      else Some(candidate.payload[8..40])
  }

  /** The open and close heights a transaction's only marker gives, when that marker is an INIT. */
  function InitHeights(p: Protocol, tx: Tx): Option<(nat, nat)> {
    var markers := RemainingCandidates(p, tx, tx.txid);
    if |markers| != 1 then None
    else
      match ScriptAt(tx.outputs, markers[0].vout)
      case None => None
      case Some(script) =>
        match p.parse(script, p.binding.networkCode)
        case Some(InitMarker(open, close, _)) => Some((open, close))
        case _ => None
  }

  /** The script of the first output numbered `vout`. */
  function ScriptAt(outputs: seq<Output>, vout: nat): (r: Option<Bytes>)
    ensures r.None? <==> forall i :: 0 <= i < |outputs| ==> outputs[i].n != vout
    ensures r.Some? ==> exists i :: 0 <= i < |outputs| && outputs[i] == Output(vout, r.value)
                                    && forall j :: 0 <= j < i ==> outputs[j].n != vout
  {
    if outputs == [] then None
    else if outputs[0].n == vout then Some(outputs[0].script)
    else ScriptAt(outputs[1..], vout)
  }

  // ----- the working state --------------------------------------------------------------------

  /**
   * `undo` keeps JavaScript's Map: `undo` itself for look-ups and `touched` for insertion order.
   */
  datatype Work = Work(
    objects: Objects, activeByOutpoint: map<Outpoint, Key>,
    undo: map<Key, Option<ObjectRecord>>, touched: seq<Key>,
    newStates: seq<StateRow>, spentOutpoints: seq<Spend>, chapters: seq<ChapterRow>)

  function Touch(w: Work, key: Key): Work {
    if key in w.undo then w
    else w.(undo := w.undo[key := Lookup(w.objects, key)], touched := w.touched + [key])
  }

  /** Drops the record's carrier from the index and lists it as spent. */
  function Release(w: Work, record: ObjectRecord, txid: Txid): Work {
    match record.currentOutpoint
    case None => w
    case Some(outpoint) =>
      w.(activeByOutpoint := w.activeByOutpoint - {outpoint},
         spentOutpoints := w.spentOutpoints + [Spend(outpoint, txid)])
  }

  function Terminate(w: Work, record: ObjectRecord, status: Status, txid: Txid, sequence: nat): Work {
    var released := Release(Touch(w, record.objectKey), record, txid);
    released.(objects := released.objects[record.objectKey := Ended(record, status, txid, sequence)])
  }

  function Ended(record: ObjectRecord, status: Status, txid: Txid, sequence: nat): ObjectRecord {
    record.(status := status, stateSequence := sequence, currentOutpoint := None,
            currentHeight := None, terminalTxid := Some(txid))
  }

  function Advance(w: Work, record: ObjectRecord, txid: Txid, height: nat, sequence: nat,
                   key0: Bytes, key1: Bytes, chapter: Option<Chapter>): Work
  {
    var released := Release(Touch(w, record.objectKey), record, txid);
    var successor := Outpoint(txid, 1);
    released.(
    activeByOutpoint := released.activeByOutpoint[successor := record.objectKey],
    objects := released.objects[record.objectKey := Advanced(record, txid, height, sequence, key0, key1, chapter)],
    newStates := released.newStates + [StateRow(successor, record.objectKey, sequence, key0, key1)],
    chapters := released.chapters +
    if chapter.Some? then [ChapterRow(record.objectKey, sequence, txid, chapter.value)] else [])
  }

  function Advanced(record: ObjectRecord, txid: Txid, height: nat, sequence: nat,
                    key0: Bytes, key1: Bytes, chapter: Option<Chapter>): ObjectRecord
  {
    record.(stateSequence := sequence, currentOutpoint := Some(Outpoint(txid, 1)),
            currentHeight := Some(height), key0 := key0, key1 := key1,
            chapterCount := record.chapterCount + if chapter.Some? then 1 else 0)
  }

  function Found(w: Work, record: ObjectRecord): Work
    requires record.currentOutpoint.Some?
  {
    var touched := Touch(w, record.objectKey);
    var successor := record.currentOutpoint.value;
    touched.(
    objects := touched.objects[record.objectKey := record],
    activeByOutpoint := touched.activeByOutpoint[successor := record.objectKey],
    newStates := touched.newStates +
    [StateRow(successor, record.objectKey, record.stateSequence, record.key0, record.key1)])
  }

  function NewRecord(key: Key, txid: Txid, height: nat, window: Window, key0: Bytes, key1: Bytes): ObjectRecord {
    ObjectRecord(key, txid, height, window.openHeight <= height < window.closeHeight, Active, 0,
                 Some(Outpoint(txid, 1)), Some(height), key0, key1, None, 0)
  }

  // ----- one transaction ----------------------------------------------------------------------

  /** What the events of one transaction share. */
  datatype TxScope = TxScope(p: Protocol, window: Window, tx: Tx, txIndex: nat, height: nat,
                             marker: Option<Marker>, candidates: seq<Candidate>)

  /** The event's fields that do not depend on its class, with those of an INVALID event in the rest. */
  function BaseEvent(s: TxScope, event: ValidationEvent, subIndex: nat): EventRecord {
    EventRecord(
      s.tx.txid, s.tx.wtxid, s.txIndex,
      if s.candidates == [] then NO_INDEX else s.candidates[0].vout, subIndex,
      INVALID, InvalidNoState, event.reason, ZERO32, None, NO_SEQUENCE, None, None, None, None, None,
      if |s.candidates| == 1 then Some(s.candidates[0].payload) else None)
  }

  function CandidateNamespace(s: TxScope): Bytes {
    if |s.candidates| != 1 then ZERO32
    else match PopulationNamespace(s.candidates[0]) case Some(n) => n case None => ZERO32
  }

  function ApplyInvalid(s: TxScope, event: ValidationEvent, subIndex: nat): EventRecord {
    BaseEvent(s, event, subIndex).(
    eventType := if |s.candidates| == 1 then AttemptedType(s.candidates[0]) else INVALID,
    namespace := if s.tx.txid == s.p.binding.initTxid then s.p.binding.namespace else CandidateNamespace(s))
  }

  function ApplyTerminal(s: TxScope, w: Work, event: ValidationEvent, subIndex: nat): Result<(Work, EventRecord)> {
    if event.objectKey.None? || event.objectKey.value !in w.objects then Err(UnusableVerdict)
    else
      var record := w.objects[event.objectKey.value];
      Ok((Terminate(w, record, ExitedNoncanonical, s.tx.txid, record.stateSequence),
          BaseEvent(s, event, subIndex).(
          eventType := EXITED_NONCANONICAL, validity := TerminalNoncanonical,
          namespace := if s.candidates == [] then s.p.binding.namespace else CandidateNamespace(s),
          objectKey := event.objectKey, stateSequence := record.stateSequence,
          predecessor := record.currentOutpoint, key0 := Some(record.key0), key1 := Some(record.key1))))
  }

  function ApplyValid(s: TxScope, w: Work, event: ValidationEvent, subIndex: nat): Result<(Work, EventRecord)> {
    var common := BaseEvent(s, event, subIndex).(validity := ValidOperation, namespace := s.p.binding.namespace);
    match event.operation
    case None => Err(UnusableVerdict)
    case Some(OpInit) =>
      Ok((w, common.(eventType := INIT,
                     commitment := match s.marker case Some(InitMarker(_, _, spec)) => Some(spec) case _ => None)))
    case Some(OpCreate) =>
      var key := s.p.objectKeyOf(s.p.binding.namespace, s.tx.txid);
      var record := NewRecord(key, s.tx.txid, s.height, s.window, Revealed(s.tx, 0), Revealed(s.tx, 1));
      Ok((Found(w, record),
          common.(eventType := CREATE, objectKey := Some(key), stateSequence := 0,
                  successor := record.currentOutpoint, key0 := Some(record.key0), key1 := Some(record.key1))))
    case Some(_) =>
      if event.objectKey.None? || event.objectKey.value !in w.objects then Err(UnusableVerdict)
      else
        var record := w.objects[event.objectKey.value];
        var spending := common.(objectKey := event.objectKey, predecessor := record.currentOutpoint,
                                key0 := Some(record.key0), key1 := Some(record.key1));
        if event.operation == Some(OpRefund) then
          Ok((Terminate(w, record, Refunded, s.tx.txid, record.stateSequence),
              spending.(eventType := REFUND, stateSequence := record.stateSequence)))
        else
          match s.marker
          case Some(CloseMarker(sequence, commitment)) =>
            Ok((Terminate(w, record, Closed, s.tx.txid, sequence),
                spending.(eventType := CLOSE, stateSequence := sequence, commitment := Some(commitment))))
          case Some(MarkMarker(sequence, kind, commitment)) =>
            Ok((Advance(w, record, s.tx.txid, s.height, sequence, record.key0, record.key1,
                        Some(Chapter(kind, commitment))),
                spending.(eventType := MARK, stateSequence := sequence,
                          successor := Some(Outpoint(s.tx.txid, 1)), commitment := Some(commitment))))
          case Some(RotateMarker(sequence)) =>
            var key0, key1 := Revealed(s.tx, 1), Revealed(s.tx, 2);
            Ok((Advance(w, record, s.tx.txid, s.height, sequence, key0, key1, None),
                spending.(eventType := ROTATE, stateSequence := sequence,
                          successor := Some(Outpoint(s.tx.txid, 1)), key0 := Some(key0), key1 := Some(key1))))
          case _ => Err(UnusableVerdict)
  }

  function ApplyEvent(s: TxScope, w: Work, event: ValidationEvent, subIndex: nat): Result<(Work, EventRecord)> {
    match event.validity
    case ValidOperation => ApplyValid(s, w, event, subIndex)
    case TerminalNoncanonical => ApplyTerminal(s, w, event, subIndex)
    case InvalidNoState => Ok((w, ApplyInvalid(s, event, subIndex)))
  }

  /** The working state and the event rows so far. */
  datatype Progress = Progress(work: Work, events: seq<EventRecord>)

  /** The first `n` validation events of one transaction, in order. */
  function ApplyEvents(s: TxScope, w: Work, events: seq<ValidationEvent>, n: nat): Result<Progress>
    requires n <= |events|
  {
    if n == 0 then Ok(Progress(w, []))
    else
      var before :- ApplyEvents(s, w, events, n - 1);
      var (work, row) :- ApplyEvent(s, before.work, events[n - 1], n - 1);
      Ok(Progress(work, before.events + [row]))
  }

  /** The active objects whose carriers the first `n` inputs spend. */
  function Consumed(w: Work, inputs: seq<Input>, n: nat): seq<ObjectRecord>
    requires n <= |inputs|
  {
    if n == 0 then []
    else
      var outpoint := inputs[n - 1].outpoint;
      Consumed(w, inputs, n - 1) +
      if outpoint.Some? && outpoint.value in w.activeByOutpoint && w.activeByOutpoint[outpoint.value] in w.objects
      then [w.objects[w.activeByOutpoint[outpoint.value]]] else []
  }

  function Carrier(record: ObjectRecord): CarrierEvidence {
    CarrierEvidence(record.objectKey, record.currentOutpoint, record.stateSequence, record.key0, record.key1,
                    match record.currentHeight case Some(h) => h case None => 0)
  }

  function Carriers(records: seq<ObjectRecord>): (r: seq<CarrierEvidence>) {
    seq(|records|, i requires 0 <= i < |records| => Carrier(records[i]))
  }

  function ContextOf(p: Protocol, window: Window, w: Work, tx: Tx): Context {
    Context(p.binding, window, Carriers(Consumed(w, tx.inputs, |tx.inputs|)))
  }

  function Scope(p: Protocol, window: Window, tx: Tx, txIndex: nat, height: nat, verdict: Verdict): TxScope {
    TxScope(p, window, tx, txIndex, height, verdict.marker, RemainingCandidates(p, tx, p.binding.initTxid))
  }

  function Classify(p: Protocol, window: Window, w: Work, tx: Tx, txIndex: nat, height: nat): Result<Progress> {
    var evidence, context := Evidence(tx, height), ContextOf(p, window, w, tx);
    var verdict := VerdictOf(p, evidence, context);
    if p.validate(evidence, context).None? then Err(ValidatorThrew)
    else if !verdict.relevant || verdict.events == [] then Ok(Progress(w, []))
    else ApplyEvents(Scope(p, window, tx, txIndex, height, verdict), w, verdict.events, |verdict.events|)
  }

  // ----- one block ----------------------------------------------------------------------------

  predicate IsRelevant(p: Protocol, tx: Tx, activeByOutpoint: map<Outpoint, Key>) {
    || tx.txid == p.binding.initTxid
    || (exists i :: 0 <= i < |tx.outputs| &&
                    ByteAt(tx.outputs[i].script, 0) == Some(0x6a) && p.inspect(tx.outputs[i].script).candidate)
    || (exists i :: 0 <= i < |tx.inputs| &&
                    tx.inputs[i].outpoint.Some? && tx.inputs[i].outpoint.value in activeByOutpoint)
  }

  /** The first `n` transactions of the block, in order, skipping those that cannot matter. */
  function ClassifyAll(p: Protocol, window: Window, w: Work, txs: seq<Tx>, height: nat, n: nat): Result<Progress>
    requires n <= |txs|
  {
    if n == 0 then Ok(Progress(w, []))
    else
      var before :- ClassifyAll(p, window, w, txs, height, n - 1);
      if !IsRelevant(p, txs[n - 1], before.work.activeByOutpoint) then Ok(before)
      else
        var step :- Classify(p, window, before.work, txs[n - 1], n - 1, height);
        Ok(Progress(step.work, before.events + step.events))
  }

  predicate Carries(record: ObjectRecord, outpoint: Outpoint) {
    record.status.Active? && record.currentOutpoint == Some(outpoint)
  }

  ghost function ActiveOutpoints(objects: Objects): set<Outpoint> {
    set k | k in objects && objects[k].status.Active? && objects[k].currentOutpoint.Some?
    :: objects[k].currentOutpoint.value
  }

  ghost function CarriedBy(objects: Objects, outpoint: Outpoint): Key
    requires outpoint in ActiveOutpoints(objects)
  {
    var k :| k in objects && Carries(objects[k], outpoint); k
  }

  /** The outpoint index of a set of objects: every active carrier, with its object. */
  ghost function IndexOf(objects: Objects): map<Outpoint, Key> {
    map o | o in ActiveOutpoints(objects) :: CarriedBy(objects, o)
  }

  ghost function StartOf(objects: Objects): Work {
    Work(objects, IndexOf(objects), map[], [], [], [], [])
  }

  /** A working state a block can start from: should two active objects share a carrier, the index names one. */
  ghost predicate IsStart(objects: Objects, w: Work) {
    && w == Work(objects, w.activeByOutpoint, map[], [], [], [], [])
    && w.activeByOutpoint.Keys == ActiveOutpoints(objects)
    && forall o :: o in w.activeByOutpoint ==>
         w.activeByOutpoint[o] in objects && Carries(objects[w.activeByOutpoint[o]], o)
  }

  /** The first position from `i` on whose transaction has the txid. */
  function InitPosition(txs: seq<Tx>, txid: Txid, i: nat): (r: Option<nat>)
    requires i <= |txs|
    ensures r.Some? ==> i <= r.value < |txs| && txs[r.value].txid == txid
    ensures forall j :: i <= j < (if r.Some? then r.value else |txs|) ==> txs[j].txid != txid
    decreases |txs| - i
  {
    if i == |txs| then None else if txs[i].txid == txid then Some(i) else InitPosition(txs, txid, i + 1)
  }

  function InitWindow(height: nat, heights: Option<(nat, nat)>): Window {
    match heights
    case Some((open, close)) => Window(height, open, close)
    case None => Window(height, 0, 0)
  }

  function ActivationOf(p: Protocol, block: Block, heights: Option<(nat, nat)>,
                        events: seq<EventRecord>): InitActivation {
    InitActivation(p.binding.initTxid, block.height, block.hash,
                   if heights.Some? then Some(heights.value.0) else None,
                   if heights.Some? then Some(heights.value.1) else None,
                   events != [] && events[0].validity.ValidOperation?,
                   if events == [] then 2 else events[0].reason)
  }

  /** What classifying the configured INIT on its own decides. */
  datatype Activated = Activated(activation: InitActivation, progress: Progress)

  /** Validates the configured INIT in its confirmation block. */
  function Activate(p: Protocol, w: Work, block: Block): Result<Activated> {
    match InitPosition(block.txs, p.binding.initTxid, 0)
    case None => Err(InitNotInBlock)
    case Some(at) =>
      var heights := InitHeights(p, block.txs[at]);
      var progress :- Classify(p, InitWindow(block.height, heights), w, block.txs[at], at, block.height);
      Ok(Activated(
           ActivationOf(p, block, heights, progress.events),
           Progress(progress.work,
                    if ActivationOf(p, block, heights, progress.events).valid then [] else progress.events)))
  }

  /** The block's transactions, when the INIT is valid. */
  function ClassifyBlock(p: Protocol, activation: InitActivation, start: Progress, block: Block): Result<Progress> {
    if activation.valid && activation.openHeight.Some? && activation.closeHeight.Some? then
      var window := Window(activation.height, activation.openHeight.value, activation.closeHeight.value);
      var all :- ClassifyAll(p, window, start.work, block.txs, block.height, |block.txs|);
      Ok(Progress(all.work, start.events + all.events))
    else Ok(start)
  }

  /** 36 zero bytes. */
  const NO_OUTPOINT := Outpoint(0, 0)

  function Or<T>(o: Option<T>, missing: T): T {
    match o case Some(t) => t case None => missing
  }

  function CanonicalEventOf(e: EventRecord, blockHash: Hash, height: nat): CanonicalEvent {
    CanonicalEvent(e.namespace, blockHash, height, e.txIndex, e.eventIndex, e.subIndex, e.eventType,
                   e.validity, e.reason, e.txid, e.wtxid, Or(e.objectKey, 0), e.stateSequence,
                   Or(e.predecessor, NO_OUTPOINT), Or(e.successor, NO_OUTPOINT),
                   Or(e.key0, ZERO33), Or(e.key1, ZERO33), Or(e.commitment, ZERO32))
  }

  function CanonicalEvents(events: seq<EventRecord>, blockHash: Hash, height: nat): seq<CanonicalEvent> {
    seq(|events|, i requires 0 <= i < |events| => CanonicalEventOf(events[i], blockHash, height))
  }

  function Snapshot(r: ObjectRecord): ObjectSnapshot {
    ObjectSnapshot(r.objectKey, r.founding, r.status, r.createHeight, r.stateSequence,
                   Or(r.currentOutpoint, NO_OUTPOINT), r.key0, r.key1, Or(r.terminalTxid, 0), r.chapterCount)
  }

  function Snapshots(objects: Objects): map<Key, ObjectSnapshot> {
    map k | k in objects :: Snapshot(objects[k])
  }

  function FoundingKeys(objects: Objects): set<Key> {
    set k | k in objects && objects[k].founding
  }

  function ActiveKeys(objects: Objects): set<Key> {
    set k | k in objects && objects[k].status.Active?
  }

  predicate HasEvent(events: seq<EventRecord>, txid: Txid) {
    exists i :: 0 <= i < |events| && events[i].txid == txid
  }

  /** Rows of the transactions among the first `n` that produced an event. */
  function TxRows(txs: seq<Tx>, events: seq<EventRecord>, n: nat): seq<TxRow>
    requires n <= |txs|
  {
    if n == 0 then []
    else
      TxRows(txs, events, n - 1) +
      if HasEvent(events, txs[n - 1].txid)
      then [TxRow(txs[n - 1].txid, txs[n - 1].wtxid, n - 1, txs[n - 1].version, txs[n - 1].locktime)] else []
  }

  function Reduced(p: Protocol, activation: InitActivation, initConfirmed: bool, previousRoot: Hash,
                   block: Block, done: Progress): ReducedBlock
  {
    var objects := done.work.objects;
    var eventRoot := p.eventRoot(p.binding.namespace, CanonicalEvents(done.events, block.hash, block.height));
    var stateRoot := p.objectStateRoot(p.binding.namespace, Snapshots(objects));
    var founding, all, active := |FoundingKeys(objects)|, |objects|, |ActiveKeys(objects)|;
    ReducedBlock(
      block.height, block.hash, block.previousHash, block.time, activation, initConfirmed,
      done.events, TxRows(block.txs, done.events, |block.txs|), done.work, eventRoot, stateRoot,
      p.chainedRoot(BlockRootInput(p.binding.namespace, previousRoot, block.hash, block.height,
                                   eventRoot, stateRoot, founding, all, active)),
      founding, all, active)
  }

  /** Connects one block: the whole of `reduceBlock`, for a block whose transactions are in order. */
  ghost function Reduce(p: Protocol, activation: Option<InitActivation>, previousRoot: Hash,
                        objects: Objects, block: Block): Result<ReducedBlock>
  {
    ReduceFrom(p, activation, previousRoot, StartOf(objects), block)
  }

  function ReduceFrom(p: Protocol, activation: Option<InitActivation>, previousRoot: Hash,
                      start: Work, block: Block): Result<ReducedBlock>
  {
    match activation
    case None =>
      var activated :- Activate(p, start, block);
      var done :- ClassifyBlock(p, activated.activation, activated.progress, block);
      Ok(Reduced(p, activated.activation, true, previousRoot, block, done))
    case Some(known) =>
      var done :- ClassifyBlock(p, known, Progress(start, []), block);
      Ok(Reduced(p, known, false, previousRoot, block, done))
  }
}
