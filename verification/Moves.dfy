/**
 * Every state change of the block engine is one of six moves of one object. This module names the
 * move, says which moves are legal, and proves that a lawful validation event makes a legal one.
 */
module Moves {
  import opened Prelude
  import opened Bitcoin
  import opened StateEngine
  import opened Tandem
  import opened Reducer

  /** Replaces one object's record by `next`, moving its carrier along. */
  function Move(w: Work, next: ObjectRecord, txid: Txid, chapter: Option<Chapter>): Work {
    var key := next.objectKey;
    var touched := Touch(w, key);
    var released := if key in w.objects then Release(touched, w.objects[key], txid) else touched;
    var moved := released.(
    objects := released.objects[key := next],
    chapters := released.chapters +
    if chapter.Some? then [ChapterRow(key, next.stateSequence, txid, chapter.value)] else []);
    match next.currentOutpoint
    case None => moved
    case Some(outpoint) =>
      moved.(activeByOutpoint := moved.activeByOutpoint[outpoint := key],
             newStates := moved.newStates + [StateRow(outpoint, key, next.stateSequence, next.key0, next.key1)])
  }

  /** The record a CREATE founds. */
  predicate Founds(p: Protocol, next: ObjectRecord, txid: Txid, height: nat) {
    && next.objectKey == p.objectKeyOf(p.binding.namespace, txid)
    && next.createTxid == txid && next.createHeight == height
    && next.status == Active && next.stateSequence == 0 && next.chapterCount == 0
    && next.currentOutpoint == Some(Outpoint(txid, 1)) && next.currentHeight == Some(height)
    && next.terminalTxid == None
  }

  /** The object keeps its identity and its carrier moves to the transaction: MARK with a chapter, else ROTATE. */
  predicate Advances(prior: ObjectRecord, next: ObjectRecord, txid: Txid, height: nat, chapter: Option<Chapter>) {
    && prior.status == Active
    && next == prior.(stateSequence := prior.stateSequence + 1, currentOutpoint := Some(Outpoint(txid, 1)),
                   currentHeight := Some(height), key0 := next.key0, key1 := next.key1,
                   chapterCount := prior.chapterCount + if chapter.Some? then 1 else 0)
    && (chapter.Some? ==> next.key0 == prior.key0 && next.key1 == prior.key1)
  }

  /** The object ends: only CLOSE counts the sequence up. */
  predicate Ends(prior: ObjectRecord, next: ObjectRecord, txid: Txid) {
    && prior.status == Active && next.status != Active
    && next == prior.(status := next.status, currentOutpoint := None, currentHeight := None,
                   terminalTxid := Some(txid),
                   stateSequence := prior.stateSequence + if next.status == Closed then 1 else 0)
  }

  predicate Legal(p: Protocol, prior: Option<ObjectRecord>, next: ObjectRecord, txid: Txid, height: nat,
                  chapter: Option<Chapter>)
  {
    match prior
    case None => chapter.None? && Founds(p, next, txid, height) && CarrierMade(p, next, chapter)
    case Some(prior) =>
      || (Advances(prior, next, txid, height, chapter) && CarrierMade(p, next, chapter))
      || (chapter.None? && Ends(prior, next, txid))
  }

  /** The new carrier is a witness script hash; a MARK keeps the keys, every other move makes new ones in order. */
  predicate CarrierMade(p: Protocol, next: ObjectRecord, chapter: Option<Chapter>) {
    && next.currentOutpoint.Some? && p.isScriptHash(next.currentOutpoint.value)
    && (chapter.None? ==> p.keysOk(next.key0, next.key1))
  }

  // ----- the reference machine's view ---------------------------------------------------------

  function ViewOf(r: ObjectRecord): IndexedObjectState {
    IndexedObjectState(r.objectKey, r.status, r.stateSequence, r.currentOutpoint, r.key0, r.key1,
                       r.chapterCount, r.terminalTxid)
  }

  function View(objects: Objects): States {
    map k | k in objects :: ViewOf(objects[k])
  }

  /** The transition an event row stands for; INIT and INVALID rows stand for none. */
  function TransitionOf(e: EventRecord): Option<StateTransition> {
    if e.objectKey.None? then None
    else if e.eventType == CREATE && e.successor.Some? && e.key0.Some? && e.key1.Some? then
      Some(Create(e.objectKey.value, e.successor.value, e.key0.value, e.key1.value))
    else if e.predecessor.None? then None
    else
      match e.eventType
      case MARK =>
        if e.successor.None? || e.key0.None? || e.key1.None? then None
        else Some(Mark(e.objectKey.value, e.stateSequence, e.predecessor.value, e.successor.value, e.key0.value,
            e.key1.value))
      case ROTATE =>
        if e.successor.None? || e.key0.None? || e.key1.None? then None
        else Some(Rotate(e.objectKey.value, e.stateSequence, e.predecessor.value, e.successor.value, e.key0.value,
            e.key1.value))
      case CLOSE => Some(Close(e.objectKey.value, e.stateSequence, e.predecessor.value, e.txid))
      case REFUND => Some(Refund(e.objectKey.value, e.predecessor.value, e.txid))
      case EXITED_NONCANONICAL => Some(Exit(e.objectKey.value, e.predecessor.value, e.txid))
      case _ => None
  }

  /** A row that changes state carries an object key; one that does not carries none. */
  predicate IsMove(e: EventRecord) {
    e.validity.TerminalNoncanonical? || (e.validity.ValidOperation? && e.eventType != INIT)
  }

  predicate CountsUp(e: EventRecord, key: Key) {
    e.validity.ValidOperation? && e.objectKey == Some(key) &&
    (e.eventType == MARK || e.eventType == ROTATE || e.eventType == CLOSE)
  }

  /** What one event row says about the move it records. */
  ghost predicate Records(e: EventRecord, prior: Option<ObjectRecord>, next: ObjectRecord, txid: Txid,
                          chapter: Option<Chapter>)
  {
    && e.txid == txid && IsMove(e) && e.objectKey == Some(next.objectKey)
    && e.predecessor == (if prior.Some? then prior.value.currentOutpoint else None)
    && e.successor == next.currentOutpoint
    && e.stateSequence == next.stateSequence
    && e.key0 == Some(next.key0) && e.key1 == Some(next.key1)
    && e.validity == (if next.status.ExitedNoncanonical? then TerminalNoncanonical else ValidOperation)
    && e.eventType == (match next.status
                       case Active => (if prior.None? then CREATE else if chapter.Some? then MARK else ROTATE)
                       case Closed => CLOSE
                       case Refunded => REFUND
                       case ExitedNoncanonical => EXITED_NONCANONICAL)
  }

  // ----- a lawful event makes a legal move ----------------------------------------------------

  /** The event can be applied now: it moves an active object, or founds a new one. */
  ghost predicate Applicable(s: TxScope, w: Work, event: ValidationEvent) {
    match event.validity
    case InvalidNoState => true
    case TerminalNoncanonical =>
      event.objectKey.Some? && event.objectKey.value in w.objects && w.objects[event.objectKey.value].status.Active?
    case ValidOperation =>
      match event.operation
      case None => false
      case Some(OpInit) =>
        && s.marker.Some? && s.marker.value.InitMarker? && s.marker.value.specHash == s.p.binding.specHash
      case Some(OpCreate) =>
        s.p.objectKeyOf(s.p.binding.namespace, s.tx.txid) !in w.objects && MakesCarrier(s.p, s.tx, event.operation)
      case Some(_) =>
        && MakesCarrier(s.p, s.tx, event.operation)
        && event.objectKey.Some? && event.objectKey.value in w.objects
        && w.objects[event.objectKey.value].status.Active?
        && OperatesOn(Carrier(w.objects[event.objectKey.value]).(objectKey := event.objectKey.value), event, s.marker)
  }

  /** The record an applicable event leaves behind, and the chapter it writes. */
  function Outcome(s: TxScope, w: Work, event: ValidationEvent): Option<(ObjectRecord, Option<Chapter>)> {
    if event.validity.InvalidNoState? || (event.validity.ValidOperation? && event.operation == Some(OpInit)) then None
    else if event.validity.ValidOperation? && event.operation == Some(OpCreate) then
      Some((NewRecord(s.p.objectKeyOf(s.p.binding.namespace, s.tx.txid), s.tx.txid, s.height, s.window,
                      Revealed(s.tx, 0), Revealed(s.tx, 1)), None))
    else if event.objectKey.None? || event.objectKey.value !in w.objects then None
    else
      var record := w.objects[event.objectKey.value];
      if event.validity.TerminalNoncanonical? then
        Some((Ended(record, ExitedNoncanonical, s.tx.txid, record.stateSequence), None))
      else if event.operation == Some(OpRefund) then
        Some((Ended(record, Refunded, s.tx.txid, record.stateSequence), None))
      else
        match s.marker
        case Some(CloseMarker(sequence, _)) => Some((Ended(record, Closed, s.tx.txid, sequence), None))
        case Some(MarkMarker(sequence, kind, commitment)) =>
          var chapter := Some(Chapter(kind, commitment));
          Some((Advanced(record, s.tx.txid, s.height, sequence, record.key0, record.key1, chapter), chapter))
        case Some(RotateMarker(sequence)) =>
          Some((Advanced(record, s.tx.txid, s.height, sequence, Revealed(s.tx, 1), Revealed(s.tx, 2), None), None))
        case _ => None
  }

  ghost predicate KeysMatch(objects: Objects) {
    forall k :: k in objects ==> objects[k].objectKey == k
  }

  lemma TerminateIsMove(w: Work, record: ObjectRecord, status: Status, txid: Txid, sequence: nat)
    requires record.objectKey in w.objects && w.objects[record.objectKey] == record
    ensures Terminate(w, record, status, txid, sequence) == Move(w, Ended(record, status, txid, sequence), txid, None)
  {
    var released := Release(Touch(w, record.objectKey), record, txid);
    assert released.chapters + [] == released.chapters;
  }

  lemma AdvanceIsMove(w: Work, record: ObjectRecord, txid: Txid, height: nat, sequence: nat,
                      key0: Bytes, key1: Bytes, chapter: Option<Chapter>)
    requires record.objectKey in w.objects && w.objects[record.objectKey] == record
    ensures Advance(w, record, txid, height, sequence, key0, key1, chapter)
            == Move(w, Advanced(record, txid, height, sequence, key0, key1, chapter), txid, chapter)
  {
  }

  lemma FoundIsMove(w: Work, record: ObjectRecord, txid: Txid)
    requires record.currentOutpoint.Some? && record.objectKey !in w.objects
    ensures Found(w, record) == Move(w, record, txid, None)
  {
    assert Touch(w, record.objectKey).chapters + [] == Touch(w, record.objectKey).chapters;
  }

  /** What the marker of a valid operation commits to: an INIT to its specification. */
  function Committed(operation: Option<Operation>, marker: Option<Marker>): Option<Bytes> {
    match (operation, marker)
    case (Some(OpInit), Some(InitMarker(_, _, spec))) => Some(spec)
    case (Some(OpMark), Some(MarkMarker(_, _, commitment))) => Some(commitment)
    case (Some(OpClose), Some(CloseMarker(_, commitment))) => Some(commitment)
    case _ => None
  }

  /** The inputs whose witnesses reveal the keys an operation sets. */
  predicate ShowsKeys(tx: Tx, operation: Option<Operation>, row: EventRecord) {
    match operation
    case Some(OpCreate) => row.key0 == Some(Revealed(tx, 0)) && row.key1 == Some(Revealed(tx, 1))
    case Some(OpRotate) => row.key0 == Some(Revealed(tx, 1)) && row.key1 == Some(Revealed(tx, 2))
    case _ => true
  }

  function TypeOf(operation: Operation): EventType {
    match operation
    case OpInit => INIT
    case OpCreate => CREATE
    case OpMark => MARK
    case OpRotate => ROTATE
    case OpClose => CLOSE
    case OpRefund => REFUND
  }

  /** The place of a row, and what it repeats of its transaction. */
  predicate IsPlaced(s: TxScope, subIndex: nat, row: EventRecord) {
    && row.txid == s.tx.txid && row.wtxid == s.tx.wtxid && row.txIndex == s.txIndex && row.subIndex == subIndex
    && row.eventIndex == (if s.candidates == [] then 0xffff_ffff else s.candidates[0].vout)
    && row.markerPayload == if |s.candidates| == 1 then Some(s.candidates[0].payload) else None
  }

  /** What a row says of the validation event and the marker it was made from. */
  predicate Describes(s: TxScope, event: ValidationEvent, row: EventRecord) {
    && row.validity == event.validity && row.reason == event.reason
    && match event.validity
       case ValidOperation =>
         && event.operation.Some? && row.eventType == TypeOf(event.operation.value)
         && row.namespace == s.p.binding.namespace
         && row.commitment == Committed(event.operation, s.marker) && ShowsKeys(s.tx, event.operation, row)
       case TerminalNoncanonical =>
         && row.eventType == EXITED_NONCANONICAL && row.commitment == None
         && row.namespace == if s.candidates == [] then s.p.binding.namespace else CandidateNamespace(s)
       case InvalidNoState =>
         && row.eventType == (if |s.candidates| == 1 then AttemptedType(s.candidates[0]) else INVALID)
         && row.commitment == None
         && row.namespace == if s.tx.txid == s.p.binding.initTxid then s.p.binding.namespace else CandidateNamespace(s)
  }

  /** A row that names no object, and no carrier either. */
  predicate IsIdle(row: EventRecord) {
    && !IsMove(row) && row.objectKey == None && row.stateSequence == 0xffff_ffff
    && row.predecessor == None && row.successor == None && row.key0 == None && row.key1 == None
  }

  /** A new object belongs to the founding window or not. */
  predicate IsFounding(window: Window, prior: Option<ObjectRecord>, next: ObjectRecord) {
    prior.None? ==> (next.founding <==> window.openHeight <= next.createHeight < window.closeHeight)
  }

  /** A chapter is what a MARK's marker holds. */
  predicate IsChapterOf(marker: Option<Marker>, sequence: nat, chapter: Option<Chapter>) {
    chapter.Some? ==> marker == Some(MarkMarker(sequence, chapter.value.kind, chapter.value.commitment))
  }

  /** Type and validity of a row tell which of its optional fields are there. */
  predicate IsShaped(p: Protocol, row: EventRecord) {
    && (row.objectKey.Some? <==> IsMove(row)) && (row.key0.Some? <==> IsMove(row)) && (row.key1.Some? <==> IsMove(row))
    && (row.predecessor.Some? <==> IsMove(row) && row.eventType != CREATE)
    && (row.successor.Some? <==> IsMove(row) && (row.eventType == CREATE || row.eventType == MARK ||
                                                 row.eventType == ROTATE))
    && (row.commitment.Some? <==> row.validity.ValidOperation? && (row.eventType == INIT || row.eventType == MARK ||
                                                                   row.eventType == CLOSE))
    && (row.validity.ValidOperation? && row.eventType == INIT ==> row.commitment == Some(p.binding.specHash))
  }

  /** What `ApplyEvent` promises for an applicable event. */
  ghost predicate MovesLegally(s: TxScope, w: Work, event: ValidationEvent, subIndex: nat, work: Work,
                               row: EventRecord) {
    && IsPlaced(s, subIndex, row) && Describes(s, event, row)
    && match Outcome(s, w, event)
       case None => work == w && IsIdle(row)
       case Some((next, chapter)) =>
         var prior := Lookup(w.objects, next.objectKey);
         && work == Move(w, next, s.tx.txid, chapter)
         && Legal(s.p, prior, next, s.tx.txid, s.height, chapter)
         && Records(row, prior, next, s.tx.txid, chapter)
         && IsFounding(s.window, prior, next) && IsChapterOf(s.marker, next.stateSequence, chapter)
  }

  lemma InitMovesNothing(s: TxScope, w: Work, event: ValidationEvent, subIndex: nat)
    requires event.operation == Some(OpInit) && event.validity.ValidOperation?
    ensures ApplyValid(s, w, event, subIndex).Ok?
    ensures
      var (work, row) := ApplyValid(s, w, event, subIndex).value;
      MovesLegally(s, w, event, subIndex, work, row)
  {
  }

  lemma CreateMovesLegally(s: TxScope, w: Work, event: ValidationEvent, subIndex: nat)
    requires event.operation == Some(OpCreate) && event.validity.ValidOperation?
    requires Applicable(s, w, event)
    ensures ApplyValid(s, w, event, subIndex).Ok?
    ensures
      var (work, row) := ApplyValid(s, w, event, subIndex).value;
      MovesLegally(s, w, event, subIndex, work, row)
  {
    hide Found, Move;
    FoundIsMove(w, Outcome(s, w, event).value.0, s.tx.txid);
  }

  lemma RefundMovesLegally(s: TxScope, w: Work, event: ValidationEvent, subIndex: nat)
    requires KeysMatch(w.objects)
    requires event.validity.ValidOperation? && event.operation.Some?
    requires event.operation.value == OpRefund
    requires Applicable(s, w, event)
    ensures ApplyValid(s, w, event, subIndex).Ok?
    ensures
      var (work, row) := ApplyValid(s, w, event, subIndex).value;
      MovesLegally(s, w, event, subIndex, work, row)
  {
    hide Terminate, Advance, Move;
    var record := w.objects[event.objectKey.value];
    TerminateIsMove(w, record, Refunded, s.tx.txid, record.stateSequence);
  }

  lemma CloseMovesLegally(s: TxScope, w: Work, event: ValidationEvent, subIndex: nat)
    requires KeysMatch(w.objects)
    requires event.validity.ValidOperation? && event.operation.Some?
    requires event.operation.value == OpClose
    requires Applicable(s, w, event)
    ensures ApplyValid(s, w, event, subIndex).Ok?
    ensures
      var (work, row) := ApplyValid(s, w, event, subIndex).value;
      MovesLegally(s, w, event, subIndex, work, row)
  {
    hide Terminate, Advance, Move;
    var record := w.objects[event.objectKey.value];
    TerminateIsMove(w, record, Closed, s.tx.txid, s.marker.value.sequence);
  }

  lemma MarkMovesLegally(s: TxScope, w: Work, event: ValidationEvent, subIndex: nat)
    requires KeysMatch(w.objects)
    requires event.validity.ValidOperation? && event.operation.Some?
    requires event.operation.value == OpMark
    requires Applicable(s, w, event)
    ensures ApplyValid(s, w, event, subIndex).Ok?
    ensures
      var (work, row) := ApplyValid(s, w, event, subIndex).value;
      MovesLegally(s, w, event, subIndex, work, row)
  {
    hide Terminate, Advance, Move;
    var record := w.objects[event.objectKey.value];
    var chapter := Some(Chapter(s.marker.value.kind, s.marker.value.commitment));
    AdvanceIsMove(w, record, s.tx.txid, s.height, s.marker.value.sequence, record.key0, record.key1, chapter);
  }

  lemma RotateMovesLegally(s: TxScope, w: Work, event: ValidationEvent, subIndex: nat)
    requires KeysMatch(w.objects)
    requires event.validity.ValidOperation? && event.operation.Some?
    requires event.operation.value == OpRotate
    requires Applicable(s, w, event)
    ensures ApplyValid(s, w, event, subIndex).Ok?
    ensures
      var (work, row) := ApplyValid(s, w, event, subIndex).value;
      MovesLegally(s, w, event, subIndex, work, row)
  {
    hide Terminate, Advance, Move;
    var record := w.objects[event.objectKey.value];
    AdvanceIsMove(w, record, s.tx.txid, s.height, s.marker.value.sequence,
                  Revealed(s.tx, 1), Revealed(s.tx, 2), None);
  }

  lemma ExitMovesLegally(s: TxScope, w: Work, event: ValidationEvent, subIndex: nat)
    requires KeysMatch(w.objects)
    requires event.validity.TerminalNoncanonical?
    requires Applicable(s, w, event)
    ensures ApplyTerminal(s, w, event, subIndex).Ok?
    ensures
      var (work, row) := ApplyTerminal(s, w, event, subIndex).value;
      MovesLegally(s, w, event, subIndex, work, row)
  {
    hide Terminate, Move;
    var record := w.objects[event.objectKey.value];
    TerminateIsMove(w, record, ExitedNoncanonical, s.tx.txid, record.stateSequence);
  }

  /**
   * An applicable event never throws. It either changes nothing and writes a row without an object,
   * or makes exactly one legal move and writes the row that records it.
   */
  lemma EventMakesLegalMove(s: TxScope, w: Work, event: ValidationEvent, subIndex: nat)
    requires KeysMatch(w.objects)
    requires Applicable(s, w, event)
    ensures ApplyEvent(s, w, event, subIndex).Ok?
    ensures
      var (work, row) := ApplyEvent(s, w, event, subIndex).value;
      MovesLegally(s, w, event, subIndex, work, row)
  {
    hide Terminate, Advance, Found, Move, ApplyValid, ApplyTerminal;
    match event.validity
    case InvalidNoState =>
    case TerminalNoncanonical => ExitMovesLegally(s, w, event, subIndex);
    case ValidOperation =>
      match event.operation.value
      case OpInit => InitMovesNothing(s, w, event, subIndex);
      case OpCreate => CreateMovesLegally(s, w, event, subIndex);
      case OpMark => MarkMovesLegally(s, w, event, subIndex);
      case OpRotate => RotateMovesLegally(s, w, event, subIndex);
      case OpClose => CloseMovesLegally(s, w, event, subIndex);
      case OpRefund => RefundMovesLegally(s, w, event, subIndex);
  }

  lemma EventIsShaped(s: TxScope, w: Work, event: ValidationEvent, subIndex: nat, work: Work, row: EventRecord)
    requires forall k :: k in w.objects && w.objects[k].status.Active? ==> w.objects[k].currentOutpoint.Some?
    requires Applicable(s, w, event) && MovesLegally(s, w, event, subIndex, work, row)
    ensures IsShaped(s.p, row)
  {
    hide Move, Revealed;
  }

  lemma MoveObjects(w: Work, next: ObjectRecord, txid: Txid, chapter: Option<Chapter>)
    ensures Move(w, next, txid, chapter).objects == w.objects[next.objectKey := next]
  {
  }

  lemma EngineFollows(p: Protocol, states: States, prior: Option<ObjectRecord>, next: ObjectRecord, txid: Txid,
                      height: nat, chapter: Option<Chapter>, row: EventRecord)
    requires prior.Some? ==> prior.value.objectKey == next.objectKey
    requires Lookup(states, next.objectKey) == if prior.Some? then Some(ViewOf(prior.value)) else None
    requires prior.Some? && prior.value.status.Active? ==> prior.value.currentOutpoint.Some?
    requires Legal(p, prior, next, txid, height, chapter)
    requires Records(row, prior, next, txid, chapter)
    ensures TransitionOf(row).Some?
    ensures ApplyStateTransition(states, TransitionOf(row).value) == Ok(states[next.objectKey := ViewOf(next)])
  {
    match prior
    case None =>
    case Some(before) =>
      assert states[next.objectKey] == ViewOf(before);
      if next.status == Active {
        assert Advances(before, next, txid, height, chapter);
        assert row.eventType == if chapter.Some? then MARK else ROTATE;
      } else {
        assert Ends(before, next, txid);
      }
  }

  /** The reference machine takes the row's transition and lands on the same object map. */
  lemma MoveRefinesEngine(p: Protocol, w: Work, next: ObjectRecord, txid: Txid, height: nat,
                          chapter: Option<Chapter>, row: EventRecord)
    requires KeysMatch(w.objects)
    requires forall k :: k in w.objects && w.objects[k].status.Active? ==> w.objects[k].currentOutpoint.Some?
    requires Legal(p, Lookup(w.objects, next.objectKey), next, txid, height, chapter)
    requires Records(row, Lookup(w.objects, next.objectKey), next, txid, chapter)
    ensures TransitionOf(row).Some?
    ensures ApplyStateTransition(View(w.objects), TransitionOf(row).value)
            == Ok(View(Move(w, next, txid, chapter).objects))
  {
    hide Move, Legal, Records, TransitionOf, ApplyStateTransition;
    MoveObjects(w, next, txid, chapter);
    assert View(w.objects[next.objectKey := next]) == View(w.objects)[next.objectKey := ViewOf(next)];
    EngineFollows(p, View(w.objects), Lookup(w.objects, next.objectKey), next, txid, height, chapter, row);
  }
}
