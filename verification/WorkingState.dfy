/**
 * The block engine as the source runs it: a working state updated in place by loops over events and
 * transactions. Every method computes the function of the same name in `Reducer`.
 */
module WorkingStates {
  import opened Prelude
  import opened Bitcoin
  import opened BlockOrdering
  import opened StateEngine
  import opened Tandem
  import opened Reducer

  /** No two active objects share a carrier. */
  ghost predicate DistinctActive(objects: Objects) {
    forall j, k, o :: j in objects && k in objects && Carries(objects[j], o) && Carries(objects[k], o) ==> j == k
  }

  /** Without shared carriers there is one working state to start from. */
  lemma StartIsUnique(objects: Objects, w: Work)
    requires DistinctActive(objects) && IsStart(objects, w)
    ensures w == StartOf(objects)
  {
    assert w.activeByOutpoint == IndexOf(objects);
  }

  class WorkingState {
    var objects: Objects
    var activeByOutpoint: map<Outpoint, Key>
    var undo: map<Key, Option<ObjectRecord>>
    var touched: seq<Key>
    var newStates: seq<StateRow>
    var spentOutpoints: seq<Spend>
    var chapters: seq<ChapterRow>

    function View(): Work
      reads this
    {
      Work(objects, activeByOutpoint, undo, touched, newStates, spentOutpoints, chapters)
    }

    /** Starts from the objects before the block and indexes their carriers. */
    constructor (before: Objects)
      ensures IsStart(before, View())
      ensures DistinctActive(before) ==> View() == StartOf(before)
    {
      objects := before;
      activeByOutpoint := map[];
      undo, touched := map[], [];
      newStates, spentOutpoints, chapters := [], [], [];
      new;
      var keys := before.Keys;
      while keys != {}
        invariant keys <= before.Keys
        invariant forall k ::
                    k in before && k !in keys && before[k].status.Active? && before[k].currentOutpoint.Some? ==>
                      before[k].currentOutpoint.value in activeByOutpoint
        invariant forall o :: o in activeByOutpoint ==>
                                activeByOutpoint[o] in before && Carries(before[activeByOutpoint[o]], o)
        invariant objects == before && undo == map[] && touched == []
        invariant newStates == [] && spentOutpoints == [] && chapters == []
        decreases keys
      {
        var k :| k in keys;
        var record := before[k];
        if record.status.Active? && record.currentOutpoint.Some? {
          activeByOutpoint := activeByOutpoint[record.currentOutpoint.value := k];
        }
        keys := keys - {k};
      }
      assert activeByOutpoint.Keys == ActiveOutpoints(before);
      if DistinctActive(before) {
        StartIsUnique(before, View());
      }
    }

    method Touch(key: Key)
      modifies this
      ensures View() == Reducer.Touch(old(View()), key)
    {
      if key !in undo {
        undo := undo[key := Lookup(objects, key)];
        touched := touched + [key];
      }
    }

    method Terminate(record: ObjectRecord, status: Status, txid: Txid, sequence: nat)
      modifies this
      ensures View() == Reducer.Terminate(old(View()), record, status, txid, sequence)
    {
      Touch(record.objectKey);
      if record.currentOutpoint.Some? {
        activeByOutpoint := activeByOutpoint - {record.currentOutpoint.value};
        spentOutpoints := spentOutpoints + [Spend(record.currentOutpoint.value, txid)];
      }
      objects := objects[record.objectKey :=
        record.(status := status, stateSequence := sequence, currentOutpoint := None,
                currentHeight := None, terminalTxid := Some(txid))];
    }

    method Advance(record: ObjectRecord, txid: Txid, height: nat, sequence: nat,
                   key0: Bytes, key1: Bytes, chapter: Option<Chapter>)
      modifies this
      ensures View() == Reducer.Advance(old(View()), record, txid, height, sequence, key0, key1, chapter)
    {
      Touch(record.objectKey);
      var successor := Outpoint(txid, 1);
      if record.currentOutpoint.Some? {
        activeByOutpoint := activeByOutpoint - {record.currentOutpoint.value};
        spentOutpoints := spentOutpoints + [Spend(record.currentOutpoint.value, txid)];
      }
      activeByOutpoint := activeByOutpoint[successor := record.objectKey];
      objects := objects[record.objectKey :=
        record.(stateSequence := sequence, currentOutpoint := Some(successor), currentHeight := Some(height),
                key0 := key0, key1 := key1,
                chapterCount := record.chapterCount + if chapter.Some? then 1 else 0)];
      newStates := newStates + [StateRow(successor, record.objectKey, sequence, key0, key1)];
      if chapter.Some? {
        chapters := chapters + [ChapterRow(record.objectKey, sequence, txid, chapter.value)];
      }
    }

    /** The object a CREATE founds. */
    method Found(record: ObjectRecord)
      requires record.currentOutpoint.Some?
      modifies this
      ensures View() == Reducer.Found(old(View()), record)
    {
      Touch(record.objectKey);
      objects := objects[record.objectKey := record];
      activeByOutpoint := activeByOutpoint[record.currentOutpoint.value := record.objectKey];
      newStates := newStates + [StateRow(record.currentOutpoint.value, record.objectKey, record.stateSequence,
                                         record.key0, record.key1)];
    }
  }

  method RemainingCandidates(p: Protocol, tx: Tx, initTxid: Txid) returns (result: seq<Candidate>)
    ensures result == Tandem.RemainingCandidates(p, tx, initTxid)
  {
    result := [];
    for i := 0 to |tx.outputs|
      invariant result == Candidates(p, tx, initTxid, i)
    {
      var candidate := CandidateOf(p, tx, initTxid, tx.outputs[i]);
      if candidate.Some? {
        result := result + [candidate.value];
      }
    }
  }

  /** The row of a result, when it is one. */
  function RowOf(r: Result<(Work, EventRecord)>): Result<EventRecord> {
    match r case Ok(pair) => Ok(pair.1) case Err(e) => Err(e)
  }

  method ApplyValid(s: TxScope, state: WorkingState, event: ValidationEvent, subIndex: nat)
      returns (r: Result<EventRecord>)
    modifies state
    ensures r == RowOf(Reducer.ApplyValid(s, old(state.View()), event, subIndex))
    ensures r.Ok? ==> state.View() == Reducer.ApplyValid(s, old(state.View()), event, subIndex).value.0
  {
    hide Reducer.Terminate, Reducer.Advance, Reducer.Found;
    var common := BaseEvent(s, event, subIndex).(validity := ValidOperation, namespace := s.p.binding.namespace);
    match event.operation {
      case None => return Err(UnusableVerdict);
      case Some(OpInit) =>
        return Ok(common.(eventType := INIT,
                          commitment := match s.marker case Some(InitMarker(_, _, spec)) => Some(spec) case _ => None));
      case Some(OpCreate) =>
        var key := s.p.objectKeyOf(s.p.binding.namespace, s.tx.txid);
        var record := NewRecord(key, s.tx.txid, s.height, s.window, Revealed(s.tx, 0), Revealed(s.tx, 1));
        state.Found(record);
        return Ok(common.(eventType := CREATE, objectKey := Some(key), stateSequence := 0,
                          successor := record.currentOutpoint, key0 := Some(record.key0), key1 := Some(record.key1)));
      case Some(_) =>
    }
    if event.objectKey.None? || event.objectKey.value !in state.objects {
      return Err(UnusableVerdict);
    }
    var record := state.objects[event.objectKey.value];
    var spending := common.(objectKey := event.objectKey, predecessor := record.currentOutpoint,
                            key0 := Some(record.key0), key1 := Some(record.key1));
    if event.operation == Some(OpRefund) {
      state.Terminate(record, Refunded, s.tx.txid, record.stateSequence);
      return Ok(spending.(eventType := REFUND, stateSequence := record.stateSequence));
    }
    match s.marker {
      case Some(CloseMarker(sequence, commitment)) =>
        state.Terminate(record, Closed, s.tx.txid, sequence);
        return Ok(spending.(eventType := CLOSE, stateSequence := sequence, commitment := Some(commitment)));
      case Some(MarkMarker(sequence, kind, commitment)) =>
        state.Advance(record, s.tx.txid, s.height, sequence, record.key0, record.key1, Some(Chapter(kind, commitment)));
        return Ok(spending.(eventType := MARK, stateSequence := sequence,
                            successor := Some(Outpoint(s.tx.txid, 1)), commitment := Some(commitment)));
      case Some(RotateMarker(sequence)) =>
        var key0, key1 := Revealed(s.tx, 1), Revealed(s.tx, 2);
        state.Advance(record, s.tx.txid, s.height, sequence, key0, key1, None);
        return Ok(spending.(eventType := ROTATE, stateSequence := sequence,
                            successor := Some(Outpoint(s.tx.txid, 1)), key0 := Some(key0), key1 := Some(key1)));
      case _ => return Err(UnusableVerdict);
    }
  }

  method ApplyTerminal(s: TxScope, state: WorkingState, event: ValidationEvent, subIndex: nat)
      returns (r: Result<EventRecord>)
    modifies state
    ensures r == RowOf(Reducer.ApplyTerminal(s, old(state.View()), event, subIndex))
    ensures r.Ok? ==> state.View() == Reducer.ApplyTerminal(s, old(state.View()), event, subIndex).value.0
  {
    if event.objectKey.None? || event.objectKey.value !in state.objects {
      return Err(UnusableVerdict);
    }
    var record := state.objects[event.objectKey.value];
    r := Ok(BaseEvent(s, event, subIndex).(
              eventType := EXITED_NONCANONICAL, validity := TerminalNoncanonical,
              namespace := if s.candidates == [] then s.p.binding.namespace else CandidateNamespace(s),
              objectKey := event.objectKey, stateSequence := record.stateSequence,
              predecessor := record.currentOutpoint, key0 := Some(record.key0), key1 := Some(record.key1)));
    state.Terminate(record, ExitedNoncanonical, s.tx.txid, record.stateSequence);
  }

  /** The event rows of a result, when it is one. */
  function EventsOf(r: Result<Progress>): Result<seq<EventRecord>> {
    match r case Ok(done) => Ok(done.events) case Err(e) => Err(e)
  }

  method ClassifyTransaction(p: Protocol, window: Window, state: WorkingState, tx: Tx, txIndex: nat, height: nat)
      returns (r: Result<seq<EventRecord>>)
    modifies state
    ensures r == EventsOf(Classify(p, window, old(state.View()), tx, txIndex, height))
    ensures r.Ok? ==> state.View() == Classify(p, window, old(state.View()), tx, txIndex, height).value.work
  {
    hide Reducer.ApplyValid, Reducer.ApplyTerminal, Tandem.RemainingCandidates, ApplyInvalid;
    ghost var start := state.View();
    var validated := p.validate(Evidence(tx, height), ContextOf(p, window, state.View(), tx));
    if validated.None? {
      return Err(ValidatorThrew);
    }
    var verdict := validated.value;
    if !verdict.relevant || verdict.events == [] {
      return Ok([]);
    }
    var candidates := RemainingCandidates(p, tx, p.binding.initTxid);
    var s := TxScope(p, window, tx, txIndex, height, verdict.marker, candidates);
    var events := [];
    for subIndex := 0 to |verdict.events|
      invariant ApplyEvents(s, start, verdict.events, subIndex) == Ok(Progress(state.View(), events))
    {
      var event := verdict.events[subIndex];
      var row: Result<EventRecord>;
      match event.validity {
        case ValidOperation => row := ApplyValid(s, state, event, subIndex);
        case TerminalNoncanonical => row := ApplyTerminal(s, state, event, subIndex);
        case InvalidNoState => row := Ok(ApplyInvalid(s, event, subIndex));
      }
      if row.Err? {
        ErrorStays(s, start, verdict.events, subIndex + 1, |verdict.events|);
        return Err(row.error);
      }
      events := events + [row.value];
    }
    return Ok(events);
  }

  lemma {:induction false} ErrorStays(s: TxScope, w: Work, events: seq<ValidationEvent>, n: nat, m: nat)
    requires n <= m <= |events|
    requires ApplyEvents(s, w, events, n).Err?
    ensures ApplyEvents(s, w, events, m) == ApplyEvents(s, w, events, n)
  {
    if n < m {
      ErrorStays(s, w, events, n, m - 1);
    }
  }

  lemma {:induction false} BlockErrorStays(p: Protocol, window: Window, w: Work, txs: seq<Tx>, height: nat, n: nat,
                                           m: nat)
    requires n <= m <= |txs|
    requires ClassifyAll(p, window, w, txs, height, n).Err?
    ensures ClassifyAll(p, window, w, txs, height, m) == ClassifyAll(p, window, w, txs, height, n)
  {
    if n < m {
      BlockErrorStays(p, window, w, txs, height, n, m - 1);
    }
  }

  /** All transactions of the block, in order. */
  method ClassifyBlockTransactions(p: Protocol, window: Window, state: WorkingState,
                                   ordered: seq<OrderedTransaction>, block: Block)
      returns (r: Result<seq<EventRecord>>)
    requires ordered == WithIndex(block.txs)
    modifies state
    ensures r == EventsOf(ClassifyAll(p, window, old(state.View()), block.txs, block.height, |block.txs|))
    ensures r.Ok? ==>
              state.View() == ClassifyAll(p, window, old(state.View()), block.txs, block.height, |block.txs|).value.work
  {
    hide Classify;
    ghost var start := state.View();
    var events := [];
    for i := 0 to |ordered|
      invariant ClassifyAll(p, window, start, block.txs, block.height, i) == Ok(Progress(state.View(), events))
    {
      var tx := ordered[i].transaction;
      if !IsRelevant(p, tx, state.activeByOutpoint) {
        continue;
      }
      var rows := ClassifyTransaction(p, window, state, tx, ordered[i].txIndex, block.height);
      if rows.Err? {
        BlockErrorStays(p, window, start, block.txs, block.height, i + 1, |block.txs|);
        return Err(rows.error);
      }
      events := events + rows.value;
    }
    return Ok(events);
  }

  /** Finds the configured INIT among the ordered transactions. */
  method FindInit(p: Protocol, ordered: seq<OrderedTransaction>, block: Block) returns (at: Option<nat>)
    requires ordered == WithIndex(block.txs)
    ensures at == InitPosition(block.txs, p.binding.initTxid, 0)
  {
    for i := 0 to |ordered|
      invariant forall j :: 0 <= j < i ==> block.txs[j].txid != p.binding.initTxid
    {
      if ordered[i].transaction.txid == p.binding.initTxid {
        return Some(i);
      }
    }
    return None;
  }

  /**
   * Connects one block. A block whose transactions are out of order is refused; for every other block
   * the result, errors included, is `Reduce`, or `ReduceFrom` if active objects share carriers.
   */
  method ReduceBlock(p: Protocol, known: Option<InitActivation>, previousRoot: Hash, objects: Objects, block: Block)
      returns (r: Result<ReducedBlock>)
    ensures DistinctTxids(block.txs) && CoinbaseFirst(block.txs) ==>
              && (exists start :: IsStart(objects, start) && r == ReduceFrom(p, known, previousRoot, start, block))
              && (DistinctActive(objects) ==> r == Reduce(p, known, previousRoot, objects, block))
    ensures !(DistinctTxids(block.txs) && CoinbaseFirst(block.txs)) ==> r.Err?
  {
    hide Classify, ClassifyAll, Reduced, StartOf, IsStart, InitHeights, DistinctActive;
    var ordering := OrderedBlockTransactions(block);
    if ordering.Err? {
      return Err(ordering.error);
    }
    var ordered := ordering.value;
    var state := new WorkingState(objects);
    ghost var start := state.View();
    assert IsStart(objects, start);
    var activation := known;
    var events := [];
    if activation.None? {
      var at := FindInit(p, ordered, block);
      if at.None? {
        return Err(InitNotInBlock);
      }
      var heights := InitHeights(p, block.txs[at.value]);
      var classified := ClassifyTransaction(p, InitWindow(block.height, heights), state,
                                            ordered[at.value].transaction, ordered[at.value].txIndex, block.height);
      if classified.Err? {
        return Err(classified.error);
      }
      activation := Some(ActivationOf(p, block, heights, classified.value));
      if !activation.value.valid {
        events := classified.value;
      }
    }
    var init := activation.value;
    if init.valid && init.openHeight.Some? && init.closeHeight.Some? {
      var window := Window(init.height, init.openHeight.value, init.closeHeight.value);
      var rows := ClassifyBlockTransactions(p, window, state, ordered, block);
      if rows.Err? {
        return Err(rows.error);
      }
      events := events + rows.value;
    }
    return Ok(Reduced(p, init, known.None?, previousRoot, block, Progress(state.View(), events)));
  }
}
