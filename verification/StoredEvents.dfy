/** Each stored event says what the validator said of its transaction, and all that it said is stored. */
module StoredEvents {
  import opened Prelude
  import opened Bitcoin
  import opened Tandem
  import opened Reducer
  import opened Moves
  import opened Schema
  import opened Written
  import opened Invariants
  import opened History
  import opened Transactions
  import opened Blocks
  import opened Activation
  import opened Chain
  import opened Acceptance

  /** The row is made from the verdict's event of its number. */
  ghost predicate RowTells(p: Protocol, window: Window, v: Verdict, tx: Tx, height: nat, row: EventRecord) {
    var s := Scope(p, window, tx, row.txIndex, height, v);
    && v.relevant && row.subIndex < |v.events|
    && IsPlaced(s, row.subIndex, row) && Describes(s, v.events[row.subIndex], row) && IsShaped(p, row)
  }

  ghost predicate HasAnswer(rows: seq<EventRecord>, j: nat, k: nat) {
    exists i :: 0 <= i < |rows| && rows[i].txIndex == j && rows[i].subIndex == k
  }

  /** Rows and validation events of the first `n` transactions correspond. */
  ghost predicate TellsAll(p: Protocol, window: Window, w: Work, txs: seq<Tx>, height: nat, n: nat,
                           rows: seq<EventRecord>)
    requires n <= |txs|
  {
    && (forall i :: 0 <= i < |rows| ==>
          && rows[i].txIndex < n
          && RowTells(p, window, VerdictOn(p, window, w, txs, height, rows[i].txIndex), txs[rows[i].txIndex], height,
                      rows[i]))
    && (forall j: nat, k: nat :: j < n && IsAnswer(VerdictOn(p, window, w, txs, height, j), k) ==>
        HasAnswer(rows, j, k))
  }

  /** The verdict has an event of this number. */
  predicate IsAnswer(v: Verdict, k: nat) {
    v.relevant && k < |v.events|
  }

  // ----- what the validator is shown ----------------------------------------------------------

  /** The carrier is the stored one, with the height at which it was made. */
  predicate ShowsRow(c: CarrierEvidence, row: CarrierState) {
    && c.objectKey == row.objectKey && c.stateSequence == row.sequence && c.confirmedHeight == row.createdHeight
    && c.key0 == row.key0 && c.key1 == row.key1
  }

  /** The carriers are the unspent rows that the transaction spends, in the order of its inputs. */
  ghost predicate ShowsUnspent(m: StateTable, tx: Tx, carriers: seq<CarrierEvidence>) {
    && (forall i :: 0 <= i < |carriers| ==>
          && carriers[i].outpoint.Some? && carriers[i].outpoint.value in m
          && m[carriers[i].outpoint.value].spent.None? && Spends(tx.inputs, carriers[i].outpoint.value)
          && ShowsRow(carriers[i], m[carriers[i].outpoint.value]))
    && (forall o :: o in m && m[o].spent.None? && Spends(tx.inputs, o) ==> IsShown(carriers, o))
    && exists at: seq<nat> :: AreSpentAt(tx, at, OutpointsOf(carriers))
  }

  function OutpointsOf(carriers: seq<CarrierEvidence>): seq<Option<Outpoint>> {
    seq(|carriers|, i requires 0 <= i < |carriers| => carriers[i].outpoint)
  }

  /** Ascending places of the inputs that spend the outpoints. */
  ghost predicate AreSpentAt(tx: Tx, at: seq<nat>, outpoints: seq<Option<Outpoint>>) {
    && |at| == |outpoints|
    && (forall i, j :: 0 <= i < j < |at| ==> at[i] < at[j])
    && forall i :: 0 <= i < |at| ==> at[i] < |tx.inputs| && tx.inputs[at[i]].outpoint == outpoints[i]
  }

  ghost predicate IsShown(carriers: seq<CarrierEvidence>, o: Outpoint) {
    exists i :: 0 <= i < |carriers| && carriers[i].outpoint == Some(o)
  }

  function Outpoints(records: seq<ObjectRecord>): seq<Option<Outpoint>> {
    seq(|records|, i requires 0 <= i < |records| => records[i].currentOutpoint)
  }

  /** The records of spent carriers come in the order of the inputs that spend them. */
  lemma {:induction false} ConsumedInOrder(w: Work, tx: Tx, n: nat) returns (at: seq<nat>)
    requires n <= |tx.inputs| && IndexOk(w.objects, w.activeByOutpoint)
    ensures AreSpentAt(tx, at, Outpoints(Consumed(w, tx.inputs, n))) && forall i :: 0 <= i < |at| ==> at[i] < n
  {
    at := [];
    if n > 0 {
      at := ConsumedInOrder(w, tx, n - 1);
      var before, outpoint := Consumed(w, tx.inputs, n - 1), tx.inputs[n - 1].outpoint;
      if outpoint.Some? && outpoint.value in w.activeByOutpoint {
        var r := w.objects[w.activeByOutpoint[outpoint.value]];
        assert Consumed(w, tx.inputs, n) == before + [r] && r.currentOutpoint == outpoint;
        at := at + [n - 1];
      } else {
        assert Consumed(w, tx.inputs, n) == before;
      }
    }
  }

  /** What a consumed record shows is its stored row. */
  lemma RecordShowsRow(p: Protocol, m: StateTable, w: Work, tx: Tx, r: ObjectRecord, seen: set<Txid>)
    requires ObjectsOk(p, w.objects, seen) && StatesOk(m, w.objects, seen) && IsConsumed(w, tx.inputs, r)
    ensures Carrier(r).outpoint.Some? && Carrier(r).outpoint.value in m
    ensures m[Carrier(r).outpoint.value].spent.None? && Spends(tx.inputs, Carrier(r).outpoint.value)
    ensures ShowsRow(Carrier(r), m[Carrier(r).outpoint.value])
  {
    hide UniqueRows, Contiguous, Spends;
    assert RecordOk(p, r.objectKey, w.objects[r.objectKey], seen);
    assert RowBelongs(m, r.currentOutpoint.value, w.objects, seen);
  }

  lemma UnspentIsConsumed(p: Protocol, m: StateTable, w: Work, tx: Tx, o: Outpoint, seen: set<Txid>)
    requires ObjectsOk(p, w.objects, seen) && StatesOk(m, w.objects, seen)
    requires o in m && m[o].spent.None? && Spends(tx.inputs, o)
    ensures m[o].objectKey in w.objects
    ensures IsConsumed(w, tx.inputs, w.objects[m[o].objectKey])
    ensures Carrier(w.objects[m[o].objectKey]).outpoint == Some(o)
  {
    hide UniqueRows, Contiguous, CurrentRows, Spends;
    assert RowBelongs(m, o, w.objects, seen);
    assert RecordOk(p, m[o].objectKey, w.objects[m[o].objectKey], seen);
  }

  /**
   * The carriers handed to the validator are exactly the unspent rows that the transaction spends, in the order
   * of its inputs; each shows its row, so it was confirmed where the row was made.
   */
  lemma ValidatorSeesUnspent(p: Protocol, window: Window, base: Tables, pre: Objects, w: Work, tx: Tx, height: nat,
                             seen: set<Txid>)
    requires Inv(p, base, pre, height, w, seen) && DistinctInputs(tx)
    ensures ShowsUnspent(StatesAfter(base.states, height, w), tx, ContextOf(p, window, w, tx).carriers)
  {
    hide ObjectsOk, IndexOk, UndoOk, IdentityOk, BornHere, PendingStates, ChaptersOk, PendingChapters, StatesOk,
      StatesAfter, ChaptersAfter, Spends, Carrier, ShowsRow, IsConsumed, DistinctInputs;
    var m, records := StatesAfter(base.states, height, w), Consumed(w, tx.inputs, |tx.inputs|);
    var carriers := ContextOf(p, window, w, tx).carriers;
    DistinctAsIndexed(tx);
    ConsumedExactly(p, w, tx.inputs, |tx.inputs|, seen);
    var at := ConsumedInOrder(w, tx, |tx.inputs|);
    assert tx.inputs[..|tx.inputs|] == tx.inputs;
    forall i | 0 <= i < |carriers|
      ensures carriers[i] == Carrier(records[i]) && carriers[i].outpoint == records[i].currentOutpoint
      ensures carriers[i].outpoint.Some? && carriers[i].outpoint.value in m
      ensures m[carriers[i].outpoint.value].spent.None? && Spends(tx.inputs, carriers[i].outpoint.value)
      ensures ShowsRow(carriers[i], m[carriers[i].outpoint.value])
    {
      assert records[i] in records;
      RecordShowsRow(p, m, w, tx, records[i], seen);
      CarrierNamesOutpoint(records[i]);
    }
    forall o | o in m && m[o].spent.None? && Spends(tx.inputs, o)
      ensures IsShown(carriers, o)
    {
      UnspentIsConsumed(p, m, w, tx, o, seen);
      var r := w.objects[m[o].objectKey];
      assert r in records;
      var i :| 0 <= i < |records| && records[i] == r;
      assert carriers[i] == Carrier(r);
    }
    assert AreSpentAt(tx, at, OutpointsOf(carriers));
  }

  lemma CarrierNamesOutpoint(r: ObjectRecord)
    ensures Carrier(r).outpoint == r.currentOutpoint
  {
  }

  lemma DistinctAsIndexed(tx: Tx)
    requires DistinctInputs(tx)
    ensures forall i, j :: 0 <= i < j < |tx.inputs| && tx.inputs[i].outpoint.Some? ==>
              tx.inputs[i].outpoint != tx.inputs[j].outpoint
  {
  }

  // ----- one transaction ----------------------------------------------------------------------

  lemma TransactionTells(p: Protocol, window: Window, base: Tables, pre: Objects, w: Work, tx: Tx, txIndex: nat,
                         height: nat, seen: set<Txid>)
    requires Lawful(p)
    requires Inv(p, base, pre, height, w, seen)
    requires DistinctInputs(tx) && tx.txid !in seen && InitAlone(p, w, tx)
    ensures Classify(p, window, w, tx, txIndex, height).Ok?
    ensures
      var rows := Classify(p, window, w, tx, txIndex, height).value.events;
      var v := VerdictOf(p, Evidence(tx, height), ContextOf(p, window, w, tx));
      && (forall i :: 0 <= i < |rows| ==> rows[i].txIndex == txIndex && RowTells(p, window, v, tx, height, rows[i]))
      && (forall k: nat :: IsAnswer(v, k) ==> HasAnswer(rows, txIndex, k))
  {
    hide Inv, Traces, Classify, RemainingCandidates, ContextOf, Describes, IsShaped, InitAlone;
    ClassifyKeepsInv(p, window, base, pre, w, tx, txIndex, height, seen);
    var rows := Classify(p, window, w, tx, txIndex, height).value.events;
    var v := VerdictOf(p, Evidence(tx, height), ContextOf(p, window, w, tx));
    assert forall k: nat :: IsAnswer(v, k) ==> rows[k].txIndex == txIndex && rows[k].subIndex == k;
  }

  /** The validator has nothing to say of a transaction that the loop skips. */
  lemma SkippedIsSilent(p: Protocol, window: Window, w: Work, tx: Tx, height: nat, seen: set<Txid>)
    requires Lawful(p) && ObjectsOk(p, w.objects, seen) && IndexOk(w.objects, w.activeByOutpoint)
    requires DistinctInputs(tx) && !IsRelevant(p, tx, w.activeByOutpoint)
    ensures forall k: nat :: !IsAnswer(VerdictOf(p, Evidence(tx, height), ContextOf(p, window, w, tx)), k)
  {
    hide ObjectsOk, IndexOk, IsRelevant, DistinctInputs, LawfulVerdict, Presented, RemainingCandidates;
    SkippedIsNotRecorded(p, w, tx);
    ConsumedCarriersStand(p, window, w, tx, height, seen);
    assert IsAnswered(p, Evidence(tx, height), ContextOf(p, window, w, tx),
                      VerdictOf(p, Evidence(tx, height), ContextOf(p, window, w, tx)));
  }

  // ----- one block ----------------------------------------------------------------------------

  lemma NextTells(p: Protocol, window: Window, w: Work, txs: seq<Tx>, height: nat, n: nat, rows: seq<EventRecord>,
                  more: seq<EventRecord>)
    requires n < |txs| && TellsAll(p, window, w, txs, height, n, rows)
    requires
      var v := VerdictOn(p, window, w, txs, height, n);
      && (forall i :: 0 <= i < |more| ==> more[i].txIndex == n && RowTells(p, window, v, txs[n], height, more[i]))
      && (forall k: nat :: IsAnswer(v, k) ==> HasAnswer(more, n, k))
    ensures TellsAll(p, window, w, txs, height, n + 1, rows + more)
  {
    hide VerdictOn, RowTells, IsAnswer;
    var all := rows + more;
    forall j: nat, k: nat | j < n + 1 && IsAnswer(VerdictOn(p, window, w, txs, height, j), k)
      ensures HasAnswer(all, j, k)
    {
      if j < n {
        var i :| 0 <= i < |rows| && rows[i].txIndex == j && rows[i].subIndex == k;
        assert all[i].txIndex == j;
      } else {
        var i :| 0 <= i < |more| && more[i].txIndex == j && more[i].subIndex == k;
        assert all[|rows| + i].txIndex == j;
      }
    }
  }

  lemma NothingTells(p: Protocol, window: Window, w: Work, txs: seq<Tx>, height: nat)
    ensures TellsAll(p, window, w, txs, height, 0, [])
  {
  }

  lemma {:induction false} BlockTells(p: Protocol, window: Window, base: Tables, pre: Objects, w: Work, txs: seq<Tx>,
                                      height: nat, n: nat, seen: set<Txid>)
    requires Lawful(p)
    requires n <= |txs|
    requires DistinctTxids(txs) && AreSized(txs) && forall i :: 0 <= i < |txs| ==> DistinctInputs(txs[i])
    requires forall i :: 0 <= i < |txs| ==> txs[i].txid !in seen
    requires Inv(p, base, pre, height, w, seen)
    requires InitSafe(p, window, txs, height, w.objects)
    ensures ClassifyAll(p, window, w, txs, height, n).Ok?
    ensures TellsAll(p, window, w, txs, height, n, ClassifyAll(p, window, w, txs, height, n).value.events)
  {
    hide Inv, Classify, IsRelevant, ContextOf, RemainingCandidates, RowTells, IsAnswer, DistinctInputs, AreSized,
      DistinctTxids, InitSafe, InitAlone, TellsAll, Lawful, HasAnswer, TxidsBefore;
    if n == 0 {
      NothingTells(p, window, w, txs, height);
    } else {
      BlockTells(p, window, base, pre, w, txs, height, n - 1, seen);
      NextIsReady(p, window, base, pre, w, txs, height, n - 1, seen);
      var before, tx := ClassifyAll(p, window, w, txs, height, n - 1).value, txs[n - 1];
      var known := seen + TxidsBefore(txs, n - 1);
      if IsRelevant(p, tx, before.work.activeByOutpoint) {
        TransactionTells(p, window, base, pre, before.work, tx, n - 1, height, known);
        NextTells(p, window, w, txs, height, n - 1, before.events,
                  Classify(p, window, before.work, tx, n - 1, height).value.events);
      } else {
        InvParts(p, base, pre, height, before.work, known);
        SkippedIsSilent(p, window, before.work, tx, height, known);
        NextTells(p, window, w, txs, height, n - 1, before.events, []);
        assert before.events + [] == before.events;
      }
    }
  }

  // ----- one block of a chain -----------------------------------------------------------------

  /** The activation that a block of the chain is reduced under. */
  ghost function ActivationAt(p: Protocol, chain: seq<Block>, block: Block): InitActivation {
    match ReduceNext(p, CanonOf(p, chain), block)
    case Ok(r) => r.activation
    case Err(_) => InitActivation(p.binding.initTxid, block.height, block.hash, None, None, false, 2)
  }

  /** The working state in which transaction `i` of the next block is validated. */
  ghost function WorkFor(p: Protocol, chain: seq<Block>, block: Block, i: nat): Work
    requires i < |block.txs|
  {
    var a, start := ActivationAt(p, chain, block), StartOf(CanonOf(p, chain).objects);
    if a.valid then WorkAt(p, WindowOf(a), start, block.txs, block.height, i) else start
  }

  /** What the validator says of transaction `i` of the next block. */
  ghost function VerdictFor(p: Protocol, chain: seq<Block>, block: Block, i: nat): Verdict
    requires i < |block.txs|
  {
    var context := ContextOf(p, WindowOf(ActivationAt(p, chain, block)), WorkFor(p, chain, block, i), block.txs[i]);
    VerdictOf(p, Evidence(block.txs[i], block.height), context)
  }

  ghost function MarkerFor(p: Protocol, chain: seq<Block>, block: Block, i: nat): Option<Marker> {
    if i < |block.txs| then VerdictFor(p, chain, block, i).marker else None
  }

  /** What the next block of a chain is reduced from. */
  lemma BlockStarts(p: Protocol, chain: seq<Block>, block: Block)
    requires Lawful(p) && ValidChain(p, chain + [block])
    ensures ReduceNext(p, CanonOf(p, chain), block).Ok?
    ensures WellFormed(block) && forall i :: 0 <= i < |block.txs| ==> block.txs[i].txid !in ChainTxids(chain)
    ensures chain == [] ==>
              HasTxid(block, p.binding.initTxid) && CanonOf(p, chain).objects == map[] && ChainTxids(chain) == {}
    ensures chain == [] <==> CanonOf(p, chain).activation.None?
    ensures chain != [] ==>
              && forall i :: 0 <= i < |block.txs| ==> block.txs[i].txid != p.binding.initTxid
    ensures Inv(p, CanonOf(p, chain).tables, CanonOf(p, chain).objects, block.height,
              StartOf(CanonOf(p, chain).objects),
                ChainTxids(chain))
  {
    hide CanonOf, Reduce, AllBelow, StatesOk, ChaptersOk, ObjectsOk, Inv, Coherent, StartOf, WellFormed, ActivationOk;
    ReplayExtends(p, chain, block);
    ChainReplays(p, chain);
    var c := CanonOf(p, chain);
    NextBlockIsNew(p, chain, block, c);
    AllBelowGrows(c.tables, NextHeight(chain), block.height);
    StartKeepsInv(p, c.tables, c.objects, block.height, ChainTxids(chain));
    assert forall i :: 0 <= i < |block.txs| ==> block.txs[i].txid in Txids(block);
  }

  /** After a failed INIT only the INIT itself is considered. */
  ghost predicate IsConsidered(p: Protocol, chain: seq<Block>, block: Block, i: nat)
    requires i < |block.txs|
  {
    ActivationAt(p, chain, block).valid || block.txs[i].txid == p.binding.initTxid
  }

  /** Rows and validation events of the next block correspond. */
  ghost predicate BlockSays(p: Protocol, chain: seq<Block>, block: Block, rows: seq<EventRecord>) {
    && (forall i :: 0 <= i < |rows| ==>
          && rows[i].txIndex < |block.txs|
          && RowTells(p, WindowOf(ActivationAt(p, chain, block)), VerdictFor(p, chain, block, rows[i].txIndex),
                      block.txs[rows[i].txIndex], block.height, rows[i]))
    && (forall j: nat, k: nat ::
          j < |block.txs| && IsConsidered(p, chain, block, j) && IsAnswer(VerdictFor(p, chain, block, j), k) ==>
            HasAnswer(rows, j, k))
  }

  lemma ValidBlockSays(p: Protocol, chain: seq<Block>, block: Block, rows: seq<EventRecord>)
    requires ActivationAt(p, chain, block).valid
    requires TellsAll(p, WindowOf(ActivationAt(p, chain, block)), StartOf(CanonOf(p, chain).objects), block.txs,
                      block.height, |block.txs|, rows)
    ensures BlockSays(p, chain, block, rows)
  {
    hide ActivationAt, ContextOf, StartOf, CanonOf, WorkAt, RowTells, IsAnswer, HasAnswer;
    assert forall j: nat :: j < |block.txs| ==>
        VerdictFor(p, chain, block, j) == VerdictOn(p, WindowOf(ActivationAt(p, chain, block)),
                                                    StartOf(CanonOf(p, chain).objects), block.txs, block.height, j);
  }

  lemma LaterBlockSays(p: Protocol, chain: seq<Block>, block: Block)
    requires Lawful(p) && ValidChain(p, chain + [block]) && chain != []
    ensures ReduceNext(p, CanonOf(p, chain), block).Ok?
    ensures BlockSays(p, chain, block, ReduceNext(p, CanonOf(p, chain), block).value.events)
  {
    hide CanonOf, Inv, InitSafe, ClassifyAll, StartOf, TellsAll, RowTells, VerdictFor, IsAnswer, TxRows, Snapshots,
      CanonicalEvents, FoundingKeys, ActiveKeys, WellFormed, ActivationOk, ValidChain;
    BlockStarts(p, chain, block);
    var c := CanonOf(p, chain);
    var a, start := c.activation.value, StartOf(c.objects);
    var r := ReduceNext(p, c, block).value;
    assert r.activation == a == ActivationAt(p, chain, block);
    StartObjects(c.objects);
    ValidHasHeights(p, chain, block);
    if a.valid {
      LaterIsSafe(p, WindowOf(a), block, start.objects);
      WellFormedParts(block);
      BlockTells(p, WindowOf(a), c.tables, c.objects, start, block.txs, block.height, |block.txs|, ChainTxids(chain));
      var all := ClassifyAll(p, WindowOf(a), start, block.txs, block.height, |block.txs|).value;
      assert [] + all.events == all.events;
      ValidBlockSays(p, chain, block, r.events);
    }
  }

  lemma LaterIsSafe(p: Protocol, window: Window, block: Block, objects: Objects)
    requires forall i :: 0 <= i < |block.txs| ==> block.txs[i].txid != p.binding.initTxid
    ensures InitSafe(p, window, block.txs, block.height, objects)
  {
  }

  lemma WellFormedParts(block: Block)
    requires WellFormed(block)
    ensures DistinctTxids(block.txs) && AreSized(block.txs)
    ensures forall i :: 0 <= i < |block.txs| ==> DistinctInputs(block.txs[i])
  {
  }

  lemma ValidHasHeights(p: Protocol, chain: seq<Block>, block: Block)
    requires Lawful(p) && ValidChain(p, chain + [block]) && chain != []
    ensures CanonOf(p, chain).activation.Some?
    ensures ActivationOk(p, CanonOf(p, chain).activation.value, CanonOf(p, chain).objects)
    ensures CanonOf(p, chain).activation.value.valid ==>
              && CanonOf(p, chain).activation.value.openHeight.Some?
              && CanonOf(p, chain).activation.value.closeHeight.Some?
  {
    hide CanonOf, ObjectsOk, StatesOk, ChaptersOk, AllBelow, BlocksMatch, EventsMatch;
    assert (chain + [block])[..|chain|] == chain;
    ValidPrefix(p, chain + [block], |chain|);
    ChainReplays(p, chain);
  }

  /** What the rows of the activation block tell: of all transactions, or of the failed INIT alone. */
  lemma ActivationTells(p: Protocol, base: Tables, root: Hash, block: Block) returns (at: nat)
    requires Lawful(p) && WellFormed(block) && HasTxid(block, p.binding.initTxid)
    requires Inv(p, base, map[], block.height, StartOf(map[]), {})
    requires Reduce(p, None, root, map[], block).Ok?
    ensures at < |block.txs| && block.txs[at].txid == p.binding.initTxid
    ensures
      var r := Reduce(p, None, root, map[], block).value;
      var window := WindowOf(r.activation);
      var v := VerdictOf(p, Evidence(block.txs[at], block.height),
                         ContextOf(p, window, StartOf(map[]), block.txs[at]));
      if r.activation.valid then TellsAll(p, window, StartOf(map[]), block.txs, block.height, |block.txs|, r.events)
      else
        && (forall i :: 0 <= i < |r.events| ==>
              r.events[i].txIndex == at && RowTells(p, window, v, block.txs[at], block.height, r.events[i]))
        && (forall k: nat :: IsAnswer(v, k) ==> HasAnswer(r.events, at, k))
  {
    hide Inv, Traces, InitHeights, Classify, StartOf, InOrder, ClassifyAll, TxRows, Snapshots, CanonicalEvents,
      ContextOf, RowTells, TellsAll, IsAnswer;
    at := InitPosition(block.txs, p.binding.initTxid, 0).value;
    var heights := InitHeights(p, block.txs[at]);
    var window, start := InitWindow(block.height, heights), StartOf(map[]);
    StartObjects(map[]);
    InitClassified(p, base, block, {}, at);
    var progress := Classify(p, window, start, block.txs[at], at, block.height).value;
    var r := Reduce(p, None, root, map[], block).value;
    assert WindowOf(r.activation) == window;
    if ActivationOf(p, block, heights, progress.events).valid {
      BlockTells(p, window, base, map[], start, block.txs, block.height, |block.txs|, {});
      var all := ClassifyAll(p, window, start, block.txs, block.height, |block.txs|).value;
      assert [] + all.events == all.events;
    } else {
      TransactionTells(p, window, base, map[], start, block.txs[at], at, block.height, {});
    }
  }

  lemma ActivationBlockSays(p: Protocol, block: Block)
    requires Lawful(p) && ValidChain(p, [block])
    ensures ReduceNext(p, CanonOf(p, []), block).Ok?
    ensures BlockSays(p, [], block, ReduceNext(p, CanonOf(p, []), block).value.events)
  {
    hide CanonOf, Reduce, Inv, StartOf, TellsAll, RowTells, VerdictFor, IsAnswer, ContextOf, WellFormed, HasTxid;
    assert [] + [block] == [block];
    BlockStarts(p, [], block);
    var c := CanonOf(p, []);
    var at := ActivationTells(p, c.tables, c.root, block);
    var r := ReduceNext(p, c, block).value;
    assert r.activation == ActivationAt(p, [], block);
    if r.activation.valid {
      ValidBlockSays(p, [], block, r.events);
    } else {
      FailedInitSays(p, block, at, r.events);
    }
  }

  lemma FailedInitSays(p: Protocol, block: Block, at: nat, rows: seq<EventRecord>)
    requires WellFormed(block) && at < |block.txs| && block.txs[at].txid == p.binding.initTxid
    requires !ActivationAt(p, [], block).valid
    requires
      var context := ContextOf(p, WindowOf(ActivationAt(p, [], block)), StartOf(CanonOf(p, []).objects), block.txs[at]);
      var v := VerdictOf(p, Evidence(block.txs[at], block.height), context);
      && (forall i :: 0 <= i < |rows| ==>
            && rows[i].txIndex == at
            && RowTells(p, WindowOf(ActivationAt(p, [], block)), v, block.txs[at], block.height, rows[i]))
      && (forall k: nat :: IsAnswer(v, k) ==> HasAnswer(rows, at, k))
    ensures BlockSays(p, [], block, rows)
  {
    hide ActivationAt, ContextOf, StartOf, CanonOf, WorkAt, RowTells, IsAnswer, HasAnswer;
    assert forall j: nat :: j < |block.txs| && IsConsidered(p, [], block, j) ==> j == at;
  }

  lemma NextSays(p: Protocol, chain: seq<Block>, block: Block)
    requires Lawful(p) && ValidChain(p, chain + [block])
    ensures ReduceNext(p, CanonOf(p, chain), block).Ok?
    ensures BlockSays(p, chain, block, ReduceNext(p, CanonOf(p, chain), block).value.events)
  {
    hide CanonOf, ReduceNext, BlockSays, ValidChain;
    if chain == [] {
      assert chain + [block] == [block];
      ActivationBlockSays(p, block);
    } else {
      LaterBlockSays(p, chain, block);
    }
  }

  /** The next block's transaction `i` meets the invariant. */
  lemma WorkForKeepsInv(p: Protocol, chain: seq<Block>, block: Block, i: nat) returns (seen: set<Txid>)
    requires Lawful(p) && ValidChain(p, chain + [block]) && i < |block.txs|
    requires ActivationAt(p, chain, block).valid
    ensures Inv(p, CanonOf(p, chain).tables, CanonOf(p, chain).objects, block.height, WorkFor(p, chain, block, i), seen)
    ensures DistinctInputs(block.txs[i])
  {
    hide CanonOf, Inv, InitSafe, ClassifyAll, StartOf, TxRows, Snapshots, CanonicalEvents, FoundingKeys, ActiveKeys,
      WellFormed, ActivationOk, ValidChain, Traces, InOrder, HasTxid, Reduce;
    BlockStarts(p, chain, block);
    var c := CanonOf(p, chain);
    var a, start := ActivationAt(p, chain, block), StartOf(c.objects);
    StartObjects(c.objects);
    WellFormedParts(block);
    NextIsSafe(p, chain, block);
    BlockProcessed(p, WindowOf(a), c.tables, c.objects, start, block.txs, block.height, i, ChainTxids(chain));
    seen := ChainTxids(chain) + TxidsBefore(block.txs, i);
  }

  /** The INIT block lies below the founding window, and no later block holds the INIT. */
  lemma NextIsSafe(p: Protocol, chain: seq<Block>, block: Block)
    requires Lawful(p) && ValidChain(p, chain + [block]) && ActivationAt(p, chain, block).valid
    ensures InitSafe(p, WindowOf(ActivationAt(p, chain, block)), block.txs, block.height, CanonOf(p, chain).objects)
  {
    hide CanonOf, CanonOk, Reduce, Inv, Reduces, WellFormed, ValidChain;
    BlockStarts(p, chain, block);
    ReplayExtends(p, chain, block);
    ChainReplays(p, chain);
    BlockReduces(p, chain, block, CanonOf(p, chain));
  }

  /**
   * Whatever transaction of a chain the validator is asked about, it is shown the configured binding, the stored
   * window, and exactly the carriers that are unspent then and that the transaction spends, as stored.
   */
  lemma ValidatorSees(p: Protocol, chain: seq<Block>, block: Block, i: nat)
    requires Lawful(p) && ValidChain(p, chain + [block]) && i < |block.txs|
    requires ActivationAt(p, chain, block).valid
    ensures TablesOf(p, chain + [block]).init == Some(ActivationAt(p, chain, block))
    ensures
      var a, w := ActivationAt(p, chain, block), WorkFor(p, chain, block, i);
      var c := ContextOf(p, WindowOf(a), w, block.txs[i]);
      && VerdictFor(p, chain, block, i) == VerdictOf(p, Evidence(block.txs[i], block.height), c)
      && c.binding == p.binding && c.window.height == a.height
      && Some(c.window.openHeight) == a.openHeight && Some(c.window.closeHeight) == a.closeHeight
      && ShowsUnspent(StatesAfter(TablesOf(p, chain).states, block.height, w), block.txs[i], c.carriers)
  {
    hide CanonOf, CanonOk, Reduce, Inv, Reduces, ValidChain, ShowsUnspent, WorkAt, StatesAfter;
    var seen := WorkForKeepsInv(p, chain, block, i);
    ValidatorSeesUnspent(p, WindowOf(ActivationAt(p, chain, block)), CanonOf(p, chain).tables,
        CanonOf(p, chain).objects,
                         WorkFor(p, chain, block, i), block.txs[i], block.height, seen);
    ReplayExtends(p, chain, block);
    ChainReplays(p, chain);
    BlockReduces(p, chain, block, CanonOf(p, chain));
    InitRowIs(p, chain, block);
  }

  lemma InitRowIs(p: Protocol, chain: seq<Block>, block: Block)
    requires Lawful(p) && ValidChain(p, chain + [block])
    ensures TablesOf(p, chain + [block]).init == Some(ActivationAt(p, chain, block))
  {
    hide CanonOf, ObjectsOk, StatesOk, ChaptersOk, AllBelow, BlocksMatch, EventsMatch, Reduce, ValidChain, WriteBlock;
    ReplayExtends(p, chain, block);
    ChainReplays(p, chain + [block]);
  }
}
