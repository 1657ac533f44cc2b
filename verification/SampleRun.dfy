/**
 * A chain on which the sample protocol founds an object, moves it, and a rollback takes the move back: what
 * is proved for lawful protocols and valid chains is not about empty tables.
 */
module SampleRun {
  import opened Prelude
  import opened Bitcoin
  import opened StateEngine
  import opened Tandem
  import opened Reducer
  import opened Schema
  import opened Written
  import opened Invariants
  import opened Chain
  import opened SampleProtocol
  import opened Node
  import opened Reorg
  import opened Acceptance
  import Runs

  const INIT_HEIGHT: nat := 2
  const OPEN_HEIGHT: nat := INIT_HEIGHT + INIT_LEAD
  const INIT_TXID: Txid := 3 * INIT_HEIGHT + 1
  const CREATE_TXID: Txid := 3 * OPEN_HEIGHT + 1
  const BINDING := Binding(0, INIT_TXID, [], [])

  // 1010, low byte first.
  const INIT_SCRIPT: Bytes := [0x6a, 11, 0x54, 0x4e, 0x44, 0x4d, 1, 0, 0, 0xf2, 0x03, 0, 0]
  const CREATE_SCRIPT: Bytes := [0x6a, 11, 0x54, 0x4e, 0x44, 0x4d, 1, 0, 1, 0, 0, 0, 0]

  function KeyOf(b: Byte): Bytes {
    seq(33, i => b)
  }

  function P(): Protocol {
    Sample(BINDING)
  }

  /** As on Bitcoin's own main chain, two early coinbase transactions share their txid. */
  function Coinbase(height: nat): Tx {
    Tx(if height <= 1 then 0 else 3 * height, 0, 1, 0, [Input(None, true, [], None)], [])
  }

  function InitTx(): Tx {
    Tx(INIT_TXID, 0, 2, 0, [Input(Some(Outpoint(0, 0)), false, [], Some(0))], [Output(0, INIT_SCRIPT)])
  }

  function CreateTx(): Tx {
    Tx(CREATE_TXID, 0, 2, 0,
       [Input(Some(Outpoint(0, 1)), false, [[], KeyOf(2)], Some(0)),
        Input(Some(Outpoint(0, 2)), false, [[], KeyOf(3)], Some(0))],
       [Output(0, CREATE_SCRIPT)])
  }

  /** Spends output 1 of the CREATE. */
  function MarkTx(): Tx {
    Tx(3 * (OPEN_HEIGHT + 1) + 1, 0, 2, 0, [Input(Some(Outpoint(CREATE_TXID, 1)), false, [], Some(OPEN_HEIGHT))], [])
  }

  function TxsAt(height: nat): seq<Tx> {
    if height == INIT_HEIGHT then [Coinbase(height), InitTx()]
    else if height == OPEN_HEIGHT then [Coinbase(height), CreateTx()]
    else if height == OPEN_HEIGHT + 1 then [Coinbase(height), MarkTx()]
    else [Coinbase(height)]
  }

  function BlockAt(height: nat): Block {
    Block(height + 1, if height == 0 then None else Some(height), height, 0, TxsAt(height))
  }

  /** The first `n` blocks from the INIT block on. */
  function SampleChain(n: nat): seq<Block> {
    seq(n, i requires 0 <= i < n => BlockAt(INIT_HEIGHT + i))
  }

  lemma IsLawful()
    ensures Lawful(P())
  {
    SampleIsLawful(BINDING);
  }

  // ----- the chain is valid -------------------------------------------------------------------

  lemma BlockIsWellFormed(height: nat)
    ensures WellFormed(BlockAt(height))
  {
    hide Coinbase, InitTx, CreateTx, MarkTx;
    CoinbaseIsFine(height);
    OthersAreFine();
    assert Coinbase(height).txid != INIT_TXID && Coinbase(height).txid != CREATE_TXID;
  }

  lemma CoinbaseIsFine(height: nat)
    ensures IsCoinbase(Coinbase(height)) && DistinctInputs(Coinbase(height)) && IsSized(Coinbase(height))
    ensures Coinbase(height).txid % 3 == 0
  {
    assert Coinbase(height).inputs[0].coinbase;
  }

  lemma OthersAreFine()
    ensures forall tx :: tx in [InitTx(), CreateTx(), MarkTx()] ==>
              !IsCoinbase(tx) && DistinctInputs(tx) && IsSized(tx) && tx.txid % 3 == 1
  {
  }

  lemma TxidsOf(height: nat, txid: Txid)
    requires height >= INIT_HEIGHT && txid in Txids(BlockAt(height))
    ensures txid == 3 * height || txid == 3 * height + 1
  {
  }

  lemma Disjoint(a: nat, b: nat)
    requires INIT_HEIGHT <= a < b
    ensures Txids(BlockAt(a)) !! Txids(BlockAt(b))
  {
    hide BlockAt;
    forall txid | txid in Txids(BlockAt(a)) && txid in Txids(BlockAt(b))
      ensures false
    {
      TxidsOf(a, txid);
      TxidsOf(b, txid);
    }
  }

  lemma InitIsThere()
    ensures HasTxid(BlockAt(INIT_HEIGHT), INIT_TXID)
  {
    assert BlockAt(INIT_HEIGHT).txs[1].txid == INIT_TXID;
  }

  lemma ChainIsValid(n: nat)
    ensures ValidChain(P(), SampleChain(n))
  {
    hide TxsAt, WellFormed, Txids;
    var chain := SampleChain(n);
    assert forall i :: 0 <= i < n ==> chain[i] == BlockAt(INIT_HEIGHT + i);
    forall i | 0 <= i < n
      ensures WellFormed(chain[i])
    {
      BlockIsWellFormed(INIT_HEIGHT + i);
    }
    forall i, j | 0 <= i < j < n
      ensures Txids(chain[i]) !! Txids(chain[j])
    {
      Disjoint(INIT_HEIGHT + i, INIT_HEIGHT + j);
    }
    if n > 0 {
      InitIsThere();
    }
  }

  lemma OneMore(n: nat)
    ensures SampleChain(n + 1) == SampleChain(n) + [BlockAt(INIT_HEIGHT + n)]
  {
  }

  // ----- what the engine makes of it ----------------------------------------------------------

  const ACTIVATED := InitActivation(
    INIT_TXID, INIT_HEIGHT, INIT_HEIGHT + 1, Some(OPEN_HEIGHT), Some(OPEN_HEIGHT + FOUNDING_WINDOW), true, 0)
  const WINDOW := Window(INIT_HEIGHT, OPEN_HEIGHT, OPEN_HEIGHT + FOUNDING_WINDOW)

  /** The state before a block of the sample, once the INIT is valid. */
  ghost predicate Stands(n: nat, objects: Objects) {
    var c := CanonOf(P(), SampleChain(n));
    && c.objects == objects
    && c.activation == Some(ACTIVATED)
  }

  lemma InitCandidate()
    ensures InitHeights(P(), InitTx()) == Some((OPEN_HEIGHT, OPEN_HEIGHT + FOUNDING_WINDOW))
  {
    var p, tx := P(), InitTx();
    assert HeightIn(INIT_SCRIPT[2..]) == OPEN_HEIGHT;
    assert CandidateOf(p, tx, tx.txid, tx.outputs[0]).Some?;
    assert Candidates(p, tx, tx.txid, 0) == [];
    assert |Candidates(p, tx, tx.txid, 1)| == 1 && Candidates(p, tx, tx.txid, 1)[0].vout == 0;
  }

  /** Nothing is spent while no object exists. */
  lemma NothingSpent(w: Work, inputs: seq<Input>)
    requires w.activeByOutpoint == map[] && |inputs| <= 2
    ensures Consumed(w, inputs, |inputs|) == []
  {
    assert Consumed(w, inputs, 0) == [];
    if |inputs| > 0 {
      assert Consumed(w, inputs, 1) == [];
    }
  }

  lemma EmptyStart()
    ensures StartOf(map[]).activeByOutpoint == map[] && StartOf(map[]).objects == map[]
  {
    assert ActiveOutpoints(map[]) == {};
  }

  lemma InitValidates()
    ensures
      var heights := InitHeights(P(), InitTx());
      var done := Classify(P(), InitWindow(INIT_HEIGHT, heights), StartOf(map[]), InitTx(), 1, INIT_HEIGHT);
      && done.Ok? && |done.value.events| == 1
      && done.value.events[0].validity.ValidOperation? && done.value.events[0].reason == 0
  {
    hide InitHeights, StartOf, RemainingCandidates;
    InitCandidate();
    EmptyStart();
    var p, w := P(), StartOf(map[]);
    var window := InitWindow(INIT_HEIGHT, InitHeights(p, InitTx()));
    NothingSpent(w, InitTx().inputs);
    var evidence, context := Evidence(InitTx(), INIT_HEIGHT), ContextOf(p, window, w, InitTx());
    assert context.carriers == [];
    var verdict := Judge(evidence, context);
    assert p.validate(evidence, context) == Some(verdict);
    assert verdict.relevant && |verdict.events| == 1;
    var s := Scope(p, window, InitTx(), 1, INIT_HEIGHT, verdict);
    assert ApplyEvents(s, w, verdict.events, 0) == Ok(Progress(w, []));
  }

  lemma Activates(objects: Objects, root: Hash)
    requires objects == map[] && Reduce(P(), None, root, objects, BlockAt(INIT_HEIGHT)).Ok?
    ensures Reduce(P(), None, root, objects, BlockAt(INIT_HEIGHT)).value.activation == ACTIVATED
  {
    hide InitHeights, StartOf, Classify, ClassifyAll, Reduced;
    InitCandidate();
    InitValidates();
    var block := BlockAt(INIT_HEIGHT);
    assert InitPosition(block.txs, INIT_TXID, 1) == Some(1);
    assert InitPosition(block.txs, INIT_TXID, 0) == Some(1);
    Keeps(objects, root);
  }

  /** A reduced block carries the activation it was reduced under. */
  lemma Keeps(objects: Objects, root: Hash)
    ensures forall a, confirmed, block, done :: Reduced(P(), a, confirmed, root, block, done).activation == a
  {
  }

  lemma AfterInit()
    ensures Stands(1, map[])
  {
    hide CanonOf, Reduce, CanonOk, Coherent, AfterBlock, WriteBlock;
    var p, block := P(), BlockAt(INIT_HEIGHT);
    ChainIsValid(1);
    IsLawful();
    assert SampleChain(1) == [] + [block];
    ReplayExtends(p, [], block);
    ChainReplays(p, []);
    NothingYet();
    BlockReduces(p, [], block, CanonOf(p, []));
    Activates(map[], CanonOf(p, []).root);
  }

  lemma NothingYet()
    ensures CanonOf(P(), []).activation == None && CanonOf(P(), []).objects == map[]
  {
  }

  /** One more block, once the INIT is valid. */
  lemma NextBlock(n: nat, objects: Objects, done: Progress)
    requires Stands(n, objects)
    requires ClassifyAll(P(), WINDOW, StartOf(objects), TxsAt(INIT_HEIGHT + n), INIT_HEIGHT + n,
              |TxsAt(INIT_HEIGHT + n)|)
             == Ok(done)
    ensures Stands(n + 1, done.work.objects)
  {
    hide CanonOf, CanonOk, ValidChain, AfterBlock, WriteBlock, ClassifyAll, StartOf, TxsAt, Lawful;
    var p, block := P(), BlockAt(INIT_HEIGHT + n);
    ChainIsValid(n + 1);
    IsLawful();
    OneMore(n);
    ReplayExtends(p, SampleChain(n), block);
    assert [] + done.events == done.events;
  }

  lemma CoinbaseIsIrrelevant(height: nat, index: map<Outpoint, Key>)
    ensures !IsRelevant(P(), Coinbase(height), index)
  {
  }

  lemma Quiet(n: nat, objects: Objects)
    requires Stands(n, objects) && n > 0 && n != INIT_LEAD && n != INIT_LEAD + 1
    ensures Stands(n + 1, objects)
  {
    hide Stands, StartOf, IsRelevant, Classify;
    var height := INIT_HEIGHT + n;
    var start := StartOf(objects);
    CoinbaseIsIrrelevant(height, start.activeByOutpoint);
    assert ClassifyAll(P(), WINDOW, start, TxsAt(height), height, 0) == Ok(Progress(start, []));
    assert TxsAt(height) == [Coinbase(height)];
    StartKeeps(objects);
    NextBlock(n, objects, Progress(start, []));
  }

  lemma StartKeeps(objects: Objects)
    ensures StartOf(objects).objects == objects
  {
  }

  /** Until the founding window opens no object exists. */
  lemma {:induction false} QuietUpTo(n: nat)
    requires 1 <= n <= INIT_LEAD
    ensures Stands(n, map[])
  {
    hide Stands;
    if n == 1 {
      AfterInit();
    } else {
      QuietUpTo(n - 1);
      Quiet(n - 1, map[]);
    }
  }

  const CREATED := ObjectRecord(CREATE_TXID, CREATE_TXID, OPEN_HEIGHT, true, Active, 0, Some(Outpoint(CREATE_TXID, 1)),
                                Some(OPEN_HEIGHT), KeyOf(2), KeyOf(3), None, 0)
  const MARKED := CREATED.(stateSequence := 1, currentOutpoint := Some(Outpoint(MarkTx().txid, 1)),
                           currentHeight := Some(OPEN_HEIGHT + 1), chapterCount := 1)

  /** A block of a coinbase and one more transaction does what that transaction does. */
  lemma SecondTransaction(height: nat, objects: Objects, tx: Tx, done: Progress)
    requires TxsAt(height) == [Coinbase(height), tx]
    requires IsRelevant(P(), tx, StartOf(objects).activeByOutpoint)
    requires Classify(P(), WINDOW, StartOf(objects), tx, 1, height) == Ok(done)
    ensures ClassifyAll(P(), WINDOW, StartOf(objects), TxsAt(height), height, 2) == Ok(done)
  {
    hide StartOf, IsRelevant, Classify;
    var start := StartOf(objects);
    CoinbaseIsIrrelevant(height, start.activeByOutpoint);
    assert ClassifyAll(P(), WINDOW, start, TxsAt(height), height, 0) == Ok(Progress(start, []));
    assert ClassifyAll(P(), WINDOW, start, TxsAt(height), height, 1) == Ok(Progress(start, []));
    assert [] + done.events == done.events;
  }

  lemma CreateVerdict()
    ensures
      var e, c := Evidence(CreateTx(), OPEN_HEIGHT), ContextOf(P(), WINDOW, StartOf(map[]), CreateTx());
      P().validate(e, c) ==
      Some(Verdict(true, [ValidationEvent(ValidOperation, Some(OpCreate), None, 0)], Some(CreateMarker)))
  {
    hide StartOf;
    var p, w, tx := P(), StartOf(map[]), CreateTx();
    EmptyStart();
    NothingSpent(w, tx.inputs);
    assert ContextOf(p, WINDOW, w, tx).carriers == [];
    assert KeyOf(2)[0] != KeyOf(3)[0];
    assert IsCandidate(tx, INIT_TXID, tx.outputs[0].script);
  }

  lemma CreateClassified()
    ensures
      var done := Classify(P(), WINDOW, StartOf(map[]), CreateTx(), 1, OPEN_HEIGHT);
      done.Ok? && done.value.work.objects == map[CREATE_TXID := CREATED]
  {
    hide StartOf, RemainingCandidates, ContextOf, P;
    var p, w, tx := P(), StartOf(map[]), CreateTx();
    EmptyStart();
    CreateVerdict();
    KeysAreIds();
    var verdict := VerdictOf(p, Evidence(tx, OPEN_HEIGHT), ContextOf(p, WINDOW, w, tx));
    var s := Scope(p, WINDOW, tx, 1, OPEN_HEIGHT, verdict);
    assert ApplyEvents(s, w, verdict.events, 0) == Ok(Progress(w, []));
    assert w.objects[CREATE_TXID := CREATED] == map[CREATE_TXID := CREATED];
  }

  lemma KeysAreIds()
    ensures forall n: Bytes, t: Txid :: P().objectKeyOf(n, t) == t
    ensures P().binding == BINDING
  {
  }

  lemma Founded()
    ensures Stands(INIT_LEAD + 1, map[CREATE_TXID := CREATED])
  {
    hide Stands, StartOf, Classify, CREATED;
    QuietUpTo(INIT_LEAD);
    CreateClassified();
    CreateIsRelevant();
    var done := Classify(P(), WINDOW, StartOf(map[]), CreateTx(), 1, OPEN_HEIGHT).value;
    SecondTransaction(OPEN_HEIGHT, map[], CreateTx(), done);
    NextBlock(INIT_LEAD, map[], done);
  }

  lemma CreateIsRelevant()
    ensures IsRelevant(P(), CreateTx(), StartOf(map[]).activeByOutpoint)
  {
    hide StartOf;
    var output := CreateTx().outputs[0];
    assert ByteAt(output.script, 0) == Some(0x6a) && P().inspect(output.script).candidate;
  }

  lemma CreatedStart()
    ensures
      var w := StartOf(map[CREATE_TXID := CREATED]);
      && w.objects == map[CREATE_TXID := CREATED]
      && w.activeByOutpoint == map[Outpoint(CREATE_TXID, 1) := CREATE_TXID]
  {
    var objects: Objects := map[CREATE_TXID := CREATED];
    assert Carries(objects[CREATE_TXID], Outpoint(CREATE_TXID, 1));
    assert ActiveOutpoints(objects) == {Outpoint(CREATE_TXID, 1)};
  }

  lemma MarkClassified()
    ensures
      var done := Classify(P(), WINDOW, StartOf(map[CREATE_TXID := CREATED]), MarkTx(), 1, OPEN_HEIGHT + 1);
      done.Ok? && done.value.work.objects == map[CREATE_TXID := MARKED]
  {
    hide StartOf, RemainingCandidates, Release, Touch;
    var p, w, tx := P(), StartOf(map[CREATE_TXID := CREATED]), MarkTx();
    CreatedStart();
    assert Consumed(w, tx.inputs, 0) == [];
    assert Consumed(w, tx.inputs, 1) == [CREATED];
    var evidence, context := Evidence(tx, OPEN_HEIGHT + 1), ContextOf(p, WINDOW, w, tx);
    assert context.carriers == [Carrier(CREATED)];
    assert KeyOf(2)[0] != KeyOf(3)[0];
    var verdict := Judge(evidence, context);
    assert p.validate(evidence, context) == Some(verdict);
    var s := Scope(p, WINDOW, tx, 1, OPEN_HEIGHT + 1, verdict);
    assert ApplyEvents(s, w, verdict.events, 0) == Ok(Progress(w, []));
    AdvanceObjects(w, CREATED, tx.txid, OPEN_HEIGHT + 1, 1, KeyOf(2), KeyOf(3), Some(Chapter(0, ZERO32)));
  }

  lemma AdvanceObjects(w: Work, record: ObjectRecord, txid: Txid, height: nat, sequence: nat, key0: Bytes, key1: Bytes,
                       chapter: Option<Chapter>)
    ensures Advance(w, record, txid, height, sequence, key0, key1, chapter).objects
         == w.objects[record.objectKey := Advanced(record, txid, height, sequence, key0, key1, chapter)]
  {
  }

  lemma Moved()
    ensures Stands(INIT_LEAD + 2, map[CREATE_TXID := MARKED])
  {
    hide Stands, StartOf, Classify, CREATED, MARKED;
    Founded();
    MarkClassified();
    MarkIsRelevant();
    var objects: Objects := map[CREATE_TXID := CREATED];
    var done := Classify(P(), WINDOW, StartOf(objects), MarkTx(), 1, OPEN_HEIGHT + 1).value;
    SecondTransaction(OPEN_HEIGHT + 1, objects, MarkTx(), done);
    NextBlock(INIT_LEAD + 1, objects, done);
  }

  lemma MarkIsRelevant()
    ensures IsRelevant(P(), MarkTx(), StartOf(map[CREATE_TXID := CREATED]).activeByOutpoint)
  {
    hide StartOf, CREATED;
    CreatedStart();
    assert MarkTx().inputs[0].outpoint == Some(Outpoint(CREATE_TXID, 1));
  }

  // ----- what the sample shows ----------------------------------------------------------------

  lemma TablesShow(n: nat, objects: Objects)
    requires Stands(n, objects)
    ensures TablesOf(P(), SampleChain(n)).objects == ObjectRows(objects)
    ensures TablesOf(P(), SampleChain(n)).init == Some(ACTIVATED)
  {
    hide CanonOf, ObjectsOk, StatesOk, ChaptersOk, AllBelow, BlocksMatch, EventsMatch, RootMatches;
    ChainIsValid(n);
    IsLawful();
    ChainReplays(P(), SampleChain(n));
  }

  lemma BlockIsStorable(height: nat)
    ensures Storable(P(), BlockAt(height))
  {
    hide Coinbase, InitTx, CreateTx, MarkTx, RecordedPayload;
    PayloadsFitHere(height);
  }

  lemma PayloadsFitHere(height: nat)
    ensures forall tx :: tx in [Coinbase(height), InitTx(), CreateTx(), MarkTx()] ==>
              PayloadFits(RecordedPayload(P(), tx)) && VersionFits(tx.version)
  {
    hide RecordedPayload;
    MarkedPayloadFits(InitTx());
    MarkedPayloadFits(CreateTx());
    UnmarkedPayloadFits(Coinbase(height));
    UnmarkedPayloadFits(MarkTx());
  }

  lemma MarkedPayloadFits(tx: Tx)
    requires |tx.outputs| == 1 && |tx.outputs[0].script| == 13
    ensures PayloadFits(RecordedPayload(P(), tx))
  {
    OneOutput(P(), tx);
  }

  lemma UnmarkedPayloadFits(tx: Tx)
    requires tx.outputs == []
    ensures PayloadFits(RecordedPayload(P(), tx))
  {
  }

  /** The candidates of a transaction with one output. */
  lemma OneOutput(p: Protocol, tx: Tx)
    requires |tx.outputs| == 1
    ensures RemainingCandidates(p, tx, p.binding.initTxid) ==
            match CandidateOf(p, tx, p.binding.initTxid, tx.outputs[0])
            case None => []
            case Some(candidate) => [candidate]
  {
    assert Candidates(p, tx, p.binding.initTxid, 0) == [];
  }

  lemma SampleIsAccepted(n: nat)
    ensures Accepted(P(), SampleChain(n))
  {
    hide BlockAt, Accepted, Storable;
    IsLawful();
    ChainIsValid(n);
    forall i | 0 <= i < n
      ensures Storable(P(), SampleChain(n)[i])
    {
      BlockIsStorable(INIT_HEIGHT + i);
    }
    StorableIsAccepted(P(), SampleChain(n));
  }

  /**
   * A lawful protocol and a valid chain with an object: founded in the first open block, moved by a MARK in
   * the next, and back where it was once that block is rolled back.
   */
  lemma SampleMovesAnObject()
    ensures Lawful(P()) && ValidChain(P(), SampleChain(INIT_LEAD + 2)) && Accepted(P(), SampleChain(INIT_LEAD + 2))
    ensures CanonOf(P(), SampleChain(INIT_LEAD + 1)).objects == map[CREATE_TXID := CREATED]
    ensures CanonOf(P(), SampleChain(INIT_LEAD + 2)).objects == map[CREATE_TXID := MARKED]
    ensures
      var marked := TablesOf(P(), SampleChain(INIT_LEAD + 2));
      var restored := RollbackHeight(marked, OPEN_HEIGHT + 1);
      && marked.objects == map[CREATE_TXID := ObjectRowOf(MARKED)]
      && restored.objects == map[CREATE_TXID := ObjectRowOf(CREATED)]
      && restored == TablesOf(P(), SampleChain(INIT_LEAD + 1))
  {
    hide CanonOf, RollbackHeight, ValidChain, Lawful, CREATED, MARKED, ObjectRowOf, P, Accepted;
    IsLawful();
    ChainIsValid(INIT_LEAD + 2);
    SampleIsAccepted(INIT_LEAD + 2);
    Founded();
    Moved();
    TablesShow(INIT_LEAD + 1, map[CREATE_TXID := CREATED]);
    TablesShow(INIT_LEAD + 2, map[CREATE_TXID := MARKED]);
    LastBlockDrops(INIT_LEAD + 1);
  }

  lemma LastBlockDrops(n: nat)
    ensures RollbackHeight(TablesOf(P(), SampleChain(n + 1)), INIT_HEIGHT + n) == TablesOf(P(), SampleChain(n))
  {
    hide CanonOf, RollbackHeight, ValidChain, Lawful, SampleChain, TxsAt;
    IsLawful();
    ChainIsValid(n + 1);
    OneMore(n);
    RollbackDropsLastBlock(P(), SampleChain(n), BlockAt(INIT_HEIGHT + n));
  }

  // ----- rows too wide for their columns ------------------------------------------------------

  // A marker of 200 bytes behind a two-byte length.
  const WIDE_SCRIPT: Bytes := [0x6a, 0x4d, 200, 0, 0x54, 0x4e, 0x44, 0x4d, 1, 0, 1] + seq(193, i => 0)

  function WideTx(script: Bytes, version: int): Tx {
    Tx(3 * (INIT_HEIGHT + 1) + 1, 0, version, 0, [Input(Some(Outpoint(0, 3)), false, [], Some(0))], [Output(0, script)])
  }

  /** Another block on top of the INIT block. */
  function OtherBlock(tx: Tx): Block {
    Block(1_000_000, Some(INIT_HEIGHT + 1), INIT_HEIGHT + 1, 0, [Coinbase(INIT_HEIGHT + 1), tx])
  }

  lemma OtherChainIsValid(script: Bytes, version: int)
    ensures ValidChain(P(), SampleChain(1) + [OtherBlock(WideTx(script, version))])
  {
    hide TxsAt, WellFormed, WideTx;
    var block := OtherBlock(WideTx(script, version));
    var chain := SampleChain(1) + [block];
    FirstBlock();
    ChainIsValid(1);
    OtherIsWellFormed(script, version);
    OtherIsDisjoint(script, version);
    var first := 0;
    assert SampleChain(1)[first] == BlockAt(INIT_HEIGHT + first);
    assert chain[0] == BlockAt(INIT_HEIGHT) && chain[1] == block;
    InitIsThere();
  }

  lemma OtherIsDisjoint(script: Bytes, version: int)
    ensures Txids(BlockAt(INIT_HEIGHT)) !! Txids(OtherBlock(WideTx(script, version)))
  {
    forall txid | txid in Txids(BlockAt(INIT_HEIGHT)) && txid in Txids(OtherBlock(WideTx(script, version)))
      ensures false
    {
      TxidsOf(INIT_HEIGHT, txid);
    }
  }

  lemma OtherIsWellFormed(script: Bytes, version: int)
    ensures WellFormed(OtherBlock(WideTx(script, version)))
  {
    CoinbaseIsFine(INIT_HEIGHT + 1);
  }

  lemma TooWideIsRefused(tx: Tx)
    requires ValidChain(P(), SampleChain(1) + [OtherBlock(tx)]) && IsTooWide(P(), tx)
    ensures Accepted(P(), SampleChain(1)) && !Accepted(P(), SampleChain(1) + [OtherBlock(tx)])
    ensures ReduceNext(P(), CanonOf(P(), SampleChain(1)), OtherBlock(tx)).Ok?
    ensures Replay(P(), SampleChain(1) + [OtherBlock(tx)]) == Err(ColumnTooNarrow)
  {
    hide CanonOf, Accepted, Lawful, ValidChain, ReduceNext, Replay, IsTooWide, P;
    IsLawful();
    SampleIsAccepted(1);
    AfterInit();
    WideMarkerIsRefused(P(), SampleChain(1), OtherBlock(tx), 1);
    ReplayExtends(P(), SampleChain(1), OtherBlock(tx));
    ReplaysExactly(P(), SampleChain(1) + [OtherBlock(tx)]);
  }

  /** A marker of 200 bytes, or a version above 2^31 - 1 next to a short one, ends the replay after the INIT block. */
  lemma WideRowsAreRefused()
    ensures var wide := SampleChain(1) + [OtherBlock(WideTx(WIDE_SCRIPT, 2))];
            ValidChain(P(), wide) && !Accepted(P(), wide) && Replay(P(), wide) == Err(ColumnTooNarrow)
    ensures var high := SampleChain(1) + [OtherBlock(WideTx(CREATE_SCRIPT, 0x8000_0000))];
            ValidChain(P(), high) && !Accepted(P(), high) && Replay(P(), high) == Err(ColumnTooNarrow)
  {
    hide CanonOf, Accepted, Lawful, ValidChain, Replay;
    OtherChainIsValid(WIDE_SCRIPT, 2);
    OtherChainIsValid(CREATE_SCRIPT, 0x8000_0000);
    WideIsTooWide();
    HighIsTooWide();
    TooWideIsRefused(WideTx(WIDE_SCRIPT, 2));
    TooWideIsRefused(WideTx(CREATE_SCRIPT, 0x8000_0000));
  }

  lemma WideIsTooWide()
    ensures IsTooWide(P(), WideTx(WIDE_SCRIPT, 2))
  {
    OneOutput(P(), WideTx(WIDE_SCRIPT, 2));
    assert |PayloadIn(WIDE_SCRIPT)| == 200 && PayloadIn(WIDE_SCRIPT)[6] == 1;
  }

  lemma HighIsTooWide()
    ensures IsTooWide(P(), WideTx(CREATE_SCRIPT, 0x8000_0000))
  {
    OneOutput(P(), WideTx(CREATE_SCRIPT, 0x8000_0000));
  }

  // ----- the INIT rolled away -----------------------------------------------------------------

  /** The INIT can be rolled away: the plan to one below its height is accepted and leaves empty tables. */
  lemma InitIsRolledAway()
    ensures TablesOf(P(), SampleChain(1)).init == Some(ACTIVATED)
    ensures PlanOf(INIT_HEIGHT, INIT_HEIGHT - 1, INIT_HEIGHT) ==
              Ok(ReorgPlan(INIT_HEIGHT, INIT_HEIGHT - 1, [INIT_HEIGHT]))
    ensures RollbackHeights(TablesOf(P(), SampleChain(1)), [INIT_HEIGHT], 1) == EMPTY_TABLES
  {
    hide CanonOf, RollbackHeights, ValidChain, Lawful;
    IsLawful();
    ChainIsValid(1);
    AfterInit();
    TablesShow(1, map[]);
    FirstBlock();
    Runs.RollbackCutsChain(P(), SampleChain(1), [INIT_HEIGHT], 1);
    assert SampleChain(1)[..0] == [];
    EmptyTables();
    assert Descending(INIT_HEIGHT, INIT_HEIGHT - 1) == [INIT_HEIGHT];
  }

  lemma FirstBlock()
    ensures |SampleChain(1)| == 1 && SampleChain(1)[0].height == INIT_HEIGHT
  {
    var i := 0;
    assert SampleChain(1)[i] == BlockAt(INIT_HEIGHT + i);
  }

  lemma EmptyTables()
    ensures TablesOf(P(), []) == EMPTY_TABLES
  {
  }

  /** All blocks of the sample, also those below the INIT. */
  ghost function SampleWorld(): iset<Block> {
    iset h: nat | h <= U32_MAX :: BlockAt(h)
  }

  function NodeChain(n: nat): seq<Block> {
    seq(n, h requires 0 <= h < n => BlockAt(h))
  }

  lemma {:induction false} LinkedAreConsecutive(c: seq<Block>, i: nat)
    requires LinkedIn(SampleWorld(), c) && i < |c|
    ensures c[i] == BlockAt(c[0].height + i)
  {
    hide TxsAt;
    assert c[i] in SampleWorld();
    if i > 0 {
      assert c[i].previousHash == Some(c[i - 1].hash);
      LinkedAreConsecutive(c, i - 1);
    }
  }

  /** What is assumed of the node holds of the sample, although two txids repeat below its INIT. */
  lemma SampleKeepsConsensus()
    ensures Consensus(SampleWorld(), INIT_TXID)
    ensures BlockAt(0).txs[0].txid == BlockAt(1).txs[0].txid
    ensures forall n: nat :: 0 < n <= U32_MAX ==> IsBestChain(SampleWorld(), NodeChain(n))
  {
    hide TxsAt, Txids, WellFormed;
    forall c: seq<Block> | LinkedIn(SampleWorld(), c)
      ensures Sound(c)
      ensures c != [] && HasTxid(c[0], INIT_TXID) ==> Coherent(c)
    {
      LinkedIsSound(c);
    }
    FirstIsCoinbase();
  }

  lemma FirstIsCoinbase()
    ensures TxsAt(0) == [Coinbase(0)] && TxsAt(1) == [Coinbase(1)]
  {
  }

  lemma OnlyHere(height: nat)
    requires HasTxid(BlockAt(height), INIT_TXID)
    ensures height == INIT_HEIGHT
  {
  }

  lemma LinkedIsSound(c: seq<Block>)
    requires LinkedIn(SampleWorld(), c)
    ensures Sound(c)
    ensures c != [] && HasTxid(c[0], INIT_TXID) ==> Coherent(c)
  {
    hide TxsAt, Txids, WellFormed, LinkedIn, HasTxid;
    forall i | 0 <= i < |c|
      ensures c[i] == BlockAt(c[0].height + i) && WellFormed(c[i])
    {
      LinkedAreConsecutive(c, i);
      BlockIsWellFormed(c[0].height + i);
    }
    if c != [] && HasTxid(c[0], INIT_TXID) {
      OnlyHere(c[0].height);
      forall i, j | 0 <= i < j < |c|
        ensures Txids(c[i]) !! Txids(c[j])
      {
        Disjoint(INIT_HEIGHT + i, INIT_HEIGHT + j);
      }
    }
  }
}
