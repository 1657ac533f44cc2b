/**
 * Which blocks the tables can hold, told from the blocks' own transactions. A transaction is recorded when it
 * is the configured INIT, has a marker candidate left, or spends a carrier; the payload of a lone candidate and
 * the version of a recorded transaction must fit their columns.
 */
module Acceptance {
  import opened Prelude
  import opened Bitcoin
  import opened Tandem
  import opened Reducer
  import opened Schema
  import opened Invariants
  import opened History
  import opened Transactions
  import opened Blocks
  import opened Activation
  import opened Chain

  /** The widest values that the two columns hold. */
  lemma WidestValues(payload: Bytes, version: int)
    ensures PayloadFits(Some(payload)) <==> |payload| <= 82
    ensures VersionFits(version) <==> -0x8000_0000 <= version <= 0x7fff_ffff
    ensures PayloadFits(None)
  {
  }

  /** The payload that every event row of the transaction carries. */
  function RecordedPayload(p: Protocol, tx: Tx): Option<Bytes> {
    var candidates := RemainingCandidates(p, tx, p.binding.initTxid);
    if |candidates| == 1 then Some(candidates[0].payload) else None
  }

  predicate IsRecorded(p: Protocol, w: Work, tx: Tx) {
    || tx.txid == p.binding.initTxid
    || RemainingCandidates(p, tx, p.binding.initTxid) != []
    || Consumed(w, tx.inputs, |tx.inputs|) != []
  }

  // ----- one transaction ----------------------------------------------------------------------

  lemma RowCarriesPayload(s: TxScope, w: Work, event: ValidationEvent, subIndex: nat)
    ensures ApplyEvent(s, w, event, subIndex).Ok? ==>
              ApplyEvent(s, w, event, subIndex).value.1.markerPayload ==
              if |s.candidates| == 1 then Some(s.candidates[0].payload) else None
  {
    hide Terminate, Reducer.Advance, Found, Revealed;
  }

  lemma {:induction false} RowsCarryPayload(s: TxScope, w: Work, events: seq<ValidationEvent>, n: nat)
    requires n <= |events| && ApplyEvents(s, w, events, n).Ok?
    ensures |ApplyEvents(s, w, events, n).value.events| == n
    ensures forall i :: 0 <= i < n ==>
              ApplyEvents(s, w, events, n).value.events[i].markerPayload ==
              if |s.candidates| == 1 then Some(s.candidates[0].payload) else None
  {
    hide ApplyEvent;
    if n > 0 {
      RowsCarryPayload(s, w, events, n - 1);
      RowCarriesPayload(s, ApplyEvents(s, w, events, n - 1).value.work, events[n - 1], n - 1);
    }
  }

  /** A classified transaction has rows exactly when it is recorded, all with its payload. */
  lemma ClassifiedIsRecorded(p: Protocol, window: Window, w: Work, tx: Tx, txIndex: nat, height: nat, seen: set<Txid>)
    requires Lawful(p) && ObjectsOk(p, w.objects, seen) && IndexOk(w.objects, w.activeByOutpoint)
    requires DistinctInputs(tx) && Classify(p, window, w, tx, txIndex, height).Ok?
    ensures
      var rows := Classify(p, window, w, tx, txIndex, height).value.events;
      && (rows != [] <==> IsRecorded(p, w, tx))
      && forall i :: 0 <= i < |rows| ==> rows[i].markerPayload == RecordedPayload(p, tx)
  {
    hide ObjectsOk, IndexOk, LawfulVerdict, Presented, RemainingCandidates, ApplyEvents, DistinctInputs;
    ConsumedCarriersStand(p, window, w, tx, height, seen);
    var e, c := Evidence(tx, height), ContextOf(p, window, w, tx);
    var v := VerdictOf(p, e, c);
    assert IsAnswered(p, e, c, v);
    if v.relevant && v.events != [] {
      RowsCarryPayload(Scope(p, window, tx, txIndex, height, v), w, v.events, |v.events|);
    }
  }

  lemma {:induction false} CandidateIsRelevant(p: Protocol, tx: Tx, initTxid: Txid, n: nat)
    requires n <= |tx.outputs| && Candidates(p, tx, initTxid, n) != []
    ensures exists i :: 0 <= i < n &&
                        ByteAt(tx.outputs[i].script, 0) == Some(0x6a) && p.inspect(tx.outputs[i].script).candidate
  {
    if CandidateOf(p, tx, initTxid, tx.outputs[n - 1]).None? {
      CandidateIsRelevant(p, tx, initTxid, n - 1);
    }
  }

  lemma {:induction false} ConsumedIsRelevant(w: Work, inputs: seq<Input>, n: nat)
    requires n <= |inputs| && Consumed(w, inputs, n) != []
    ensures exists i :: 0 <= i < n && inputs[i].outpoint.Some? && inputs[i].outpoint.value in w.activeByOutpoint
  {
    var outpoint := inputs[n - 1].outpoint;
    if !(outpoint.Some? && outpoint.value in w.activeByOutpoint) {
      ConsumedIsRelevant(w, inputs, n - 1);
    }
  }

  /** The transactions that the block loop skips are not recorded. */
  lemma SkippedIsNotRecorded(p: Protocol, w: Work, tx: Tx)
    requires !IsRelevant(p, tx, w.activeByOutpoint)
    ensures !IsRecorded(p, w, tx)
  {
    if RemainingCandidates(p, tx, p.binding.initTxid) != [] {
      CandidateIsRelevant(p, tx, p.binding.initTxid, |tx.outputs|);
    }
    if Consumed(w, tx.inputs, |tx.inputs|) != [] {
      ConsumedIsRelevant(w, tx.inputs, |tx.inputs|);
    }
  }

  // ----- one block ----------------------------------------------------------------------------

  ghost predicate LoneMarkersFit(p: Protocol, txs: seq<Tx>, n: nat)
    requires n <= |txs|
  {
    forall i :: 0 <= i < n ==> PayloadFits(RecordedPayload(p, txs[i]))
  }

  /** Each of the first `n` transactions has a row exactly when it is recorded. */
  ghost predicate RecordsExactly(p: Protocol, window: Window, w: Work, txs: seq<Tx>, height: nat, n: nat,
                                 rows: seq<EventRecord>)
    requires n <= |txs|
  {
    forall i :: 0 <= i < n ==> (HasEvent(rows, txs[i].txid) <==>
        IsRecorded(p, WorkAt(p, window, w, txs, height, i), txs[i]))
  }

  lemma RowsJoin(before: seq<EventRecord>, more: seq<EventRecord>, txid: Txid)
    ensures HasEvent(before + more, txid) <==> HasEvent(before, txid) || HasEvent(more, txid)
    ensures PayloadsFit(before + more) <==> PayloadsFit(before) && PayloadsFit(more)
  {
    hide PayloadFits;
    var all := before + more;
    if HasEvent(before, txid) {
      var i :| 0 <= i < |before| && before[i].txid == txid;
      assert all[i].txid == txid;
    }
    if HasEvent(more, txid) {
      var i :| 0 <= i < |more| && more[i].txid == txid;
      assert all[|before| + i].txid == txid;
    }
    if PayloadsFit(all) {
      assert forall i :: 0 <= i < |before| ==> before[i] == all[i];
      assert forall i :: 0 <= i < |more| ==> more[i] == all[|before| + i];
    }
  }

  lemma OtherTransactionsHaveNone(rows: seq<EventRecord>, txs: seq<Tx>, n: nat, k: nat)
    requires DistinctTxids(txs) && InOrder(rows, txs, n) && n <= k < |txs|
    ensures !HasEvent(rows, txs[k].txid)
  {
  }

  lemma {:induction false} BlockRecords(p: Protocol, window: Window, base: Tables, pre: Objects, w: Work, txs: seq<Tx>,
                                        height: nat, n: nat, seen: set<Txid>)
    requires Lawful(p)
    requires n <= |txs|
    requires DistinctTxids(txs) && AreSized(txs) && forall i :: 0 <= i < |txs| ==> DistinctInputs(txs[i])
    requires forall i :: 0 <= i < |txs| ==> txs[i].txid !in seen
    requires Inv(p, base, pre, height, w, seen)
    requires InitSafe(p, window, txs, height, w.objects)
    ensures ClassifyAll(p, window, w, txs, height, n).Ok?
    ensures
      var rows := ClassifyAll(p, window, w, txs, height, n).value.events;
      && (PayloadsFit(rows) <==> LoneMarkersFit(p, txs, n))
      && RecordsExactly(p, window, w, txs, height, n, rows)
  {
    hide Inv, Processed, Classify, InitSafe, IsRelevant, ClassifyAll, PayloadsFit, IsRecorded, RecordedPayload,
      PayloadFits;
    BlockProcessed(p, window, base, pre, w, txs, height, n, seen);
    if n == 0 {
      NothingRecords(p, window, w, txs, height);
    } else {
      BlockRecords(p, window, base, pre, w, txs, height, n - 1, seen);
      BlockProcessed(p, window, base, pre, w, txs, height, n - 1, seen);
      NextRecords(p, window, base, pre, w, txs, height, n, seen);
    }
  }

  lemma NothingRecords(p: Protocol, window: Window, w: Work, txs: seq<Tx>, height: nat)
    ensures ClassifyAll(p, window, w, txs, height, 0) == Ok(Progress(w, []))
    ensures PayloadsFit([])
  {
  }

  /** The rows of the next transaction, if the loop does not skip it. */
  ghost function NextRows(p: Protocol, window: Window, before: Work, tx: Tx, k: nat, height: nat): seq<EventRecord> {
    if !IsRelevant(p, tx, before.activeByOutpoint) then []
    else match Classify(p, window, before, tx, k, height) case Ok(step) => step.events case Err(_) => []
  }

  lemma NextRowsAdded(p: Protocol, window: Window, w: Work, txs: seq<Tx>, height: nat, n: nat)
    requires 0 < n <= |txs| && ClassifyAll(p, window, w, txs, height, n).Ok?
    ensures ClassifyAll(p, window, w, txs, height, n - 1).Ok?
    ensures
      var before := ClassifyAll(p, window, w, txs, height, n - 1).value;
      && ClassifyAll(p, window, w, txs, height, n).value.events
         == before.events + NextRows(p, window, before.work, txs[n - 1], n - 1, height)
      && (IsRelevant(p, txs[n - 1], before.work.activeByOutpoint) ==>
            Classify(p, window, before.work, txs[n - 1], n - 1, height).Ok?)
  {
    hide Classify, IsRelevant;
    var before := ClassifyAll(p, window, w, txs, height, n - 1).value;
    assert before.events + [] == before.events;
  }

  lemma NextRowsRecord(p: Protocol, window: Window, before: Work, tx: Tx, k: nat, height: nat, seen: set<Txid>)
    requires Lawful(p) && ObjectsOk(p, before.objects, seen) && IndexOk(before.objects, before.activeByOutpoint)
    requires DistinctInputs(tx)
    requires IsRelevant(p, tx, before.activeByOutpoint) ==> Classify(p, window, before, tx, k, height).Ok?
    ensures
      var rows := NextRows(p, window, before, tx, k, height);
      && (rows != [] <==> IsRecorded(p, before, tx))
      && (PayloadsFit(rows) <==> PayloadFits(RecordedPayload(p, tx)))
      && (HasEvent(rows, tx.txid) <==> rows != [])
      && forall i :: 0 <= i < |rows| ==> rows[i].txid == tx.txid
  {
    hide ObjectsOk, IndexOk, Lawful, DistinctInputs, IsRelevant, Classify, PayloadFits, RemainingCandidates;
    var rows := NextRows(p, window, before, tx, k, height);
    if IsRelevant(p, tx, before.activeByOutpoint) {
      ClassifiedIsRecorded(p, window, before, tx, k, height, seen);
      RowsAreOf(p, window, before, tx, k, height);
    } else {
      SkippedIsNotRecorded(p, before, tx);
    }
    NonePayloadFits();
    if rows != [] {
      assert rows[0].txid == tx.txid;
    }
  }

  lemma NonePayloadFits()
    ensures PayloadFits(None)
  {
  }

  lemma {:induction false} AppliedRowsAreOf(s: TxScope, w: Work, events: seq<ValidationEvent>, n: nat)
    requires n <= |events| && ApplyEvents(s, w, events, n).Ok?
    ensures forall i :: 0 <= i < |ApplyEvents(s, w, events, n).value.events| ==>
              ApplyEvents(s, w, events, n).value.events[i].txid == s.tx.txid
  {
    hide ApplyEvent;
    if n > 0 {
      AppliedRowsAreOf(s, w, events, n - 1);
      AppliedRowIsOf(s, ApplyEvents(s, w, events, n - 1).value.work, events[n - 1], n - 1);
    }
  }

  lemma AppliedRowIsOf(s: TxScope, w: Work, event: ValidationEvent, subIndex: nat)
    ensures ApplyEvent(s, w, event, subIndex).Ok? ==>
              ApplyEvent(s, w, event, subIndex).value.1.txid == s.tx.txid
  {
    hide Terminate, Reducer.Advance, Found, Revealed;
  }

  lemma RowsAreOf(p: Protocol, window: Window, w: Work, tx: Tx, k: nat, height: nat)
    requires Classify(p, window, w, tx, k, height).Ok?
    ensures forall i :: 0 <= i < |Classify(p, window, w, tx, k, height).value.events| ==>
              Classify(p, window, w, tx, k, height).value.events[i].txid == tx.txid
  {
    hide ApplyEvents, RemainingCandidates;
    var v := VerdictOf(p, Evidence(tx, height), ContextOf(p, window, w, tx));
    if v.relevant && v.events != [] {
      AppliedRowsAreOf(Scope(p, window, tx, k, height, v), w, v.events, |v.events|);
    }
  }

  lemma NextRecords(p: Protocol, window: Window, base: Tables, pre: Objects, w: Work, txs: seq<Tx>, height: nat, n: nat,
                    seen: set<Txid>)
    requires Lawful(p)
    requires 0 < n <= |txs| && DistinctTxids(txs) && DistinctInputs(txs[n - 1])
    requires ClassifyAll(p, window, w, txs, height, n).Ok? && ClassifyAll(p, window, w, txs, height, n - 1).Ok?
    requires Processed(p, window, base, pre, w.objects, txs, height, n - 1,
                       ClassifyAll(p, window, w, txs, height, n - 1).value, seen)
    requires
      var rows := ClassifyAll(p, window, w, txs, height, n - 1).value.events;
      && (PayloadsFit(rows) <==> LoneMarkersFit(p, txs, n - 1))
      && RecordsExactly(p, window, w, txs, height, n - 1, rows)
    ensures
      var rows := ClassifyAll(p, window, w, txs, height, n).value.events;
      && (PayloadsFit(rows) <==> LoneMarkersFit(p, txs, n))
      && RecordsExactly(p, window, w, txs, height, n, rows)
  {
    hide Inv, Classify, ClassifyAll, IsRelevant, PayloadsFit, IsRecorded, RecordedPayload, PayloadFits, Traces, InOrder,
      NextRows, HasEvent, InitSafe, Lawful;
    var before := ClassifyAll(p, window, w, txs, height, n - 1).value;
    var more := NextRows(p, window, before.work, txs[n - 1], n - 1, height);
    NextRowsAdded(p, window, w, txs, height, n);
    InvParts(p, base, pre, height, before.work, seen + TxidsBefore(txs, n - 1));
    NextRowsRecord(p, window, before.work, txs[n - 1], n - 1, height, seen + TxidsBefore(txs, n - 1));
    assert LoneMarkersFit(p, txs, n) <==>
           LoneMarkersFit(p, txs, n - 1) && PayloadFits(RecordedPayload(p, txs[n - 1]));
    RowsJoin(before.events, more, 0);
    forall i | 0 <= i < n
      ensures HasEvent(before.events + more, txs[i].txid) <==>
              IsRecorded(p, WorkAt(p, window, w, txs, height, i), txs[i])
    {
      RowsJoin(before.events, more, txs[i].txid);
      if i < n - 1 {
        OthersAreNotIn(more, txs[n - 1].txid, txs[i].txid);
      } else {
        OtherTransactionsHaveNone(before.events, txs, n - 1, n - 1);
      }
    }
  }

  lemma OthersAreNotIn(rows: seq<EventRecord>, txid: Txid, other: Txid)
    requires forall i :: 0 <= i < |rows| ==> rows[i].txid == txid
    requires other != txid
    ensures !HasEvent(rows, other)
  {
  }

  // ----- the next block of a chain ------------------------------------------------------------

  lemma {:induction false} VersionRows(txs: seq<Tx>, rows: seq<EventRecord>, n: nat)
    requires n <= |txs|
    ensures (forall i :: 0 <= i < |TxRows(txs, rows, n)| ==> VersionFits(TxRows(txs, rows, n)[i].version)) <==>
            (forall i :: 0 <= i < n && HasEvent(rows, txs[i].txid) ==> VersionFits(txs[i].version))
  {
    hide HasEvent, VersionFits;
    if n > 0 {
      VersionRows(txs, rows, n - 1);
      var before, all := TxRows(txs, rows, n - 1), TxRows(txs, rows, n);
      assert forall i :: 0 <= i < |before| ==> all[i] == before[i];
      if HasEvent(rows, txs[n - 1].txid) {
        assert all[|before|].version == txs[n - 1].version;
      }
    }
  }

  function WindowOf(a: InitActivation): Window {
    Window(a.height, match a.openHeight case Some(h) => h case None => 0,
        match a.closeHeight case Some(h) => h case None => 0)
  }

  /** The version of the transaction fits, if it is recorded. */
  ghost predicate RecordedVersionFits(p: Protocol, w: Work, tx: Tx) {
    IsRecorded(p, w, tx) ==> VersionFits(tx.version)
  }

  /** Lone markers fit, and so do the versions of the transactions recorded on the way. */
  ghost predicate BlockFits(p: Protocol, window: Window, start: Work, block: Block) {
    && LoneMarkersFit(p, block.txs, |block.txs|)
    && forall i :: 0 <= i < |block.txs| ==>
         RecordedVersionFits(p, WorkAt(p, window, start, block.txs, block.height, i), block.txs[i])
  }

  lemma RowsFitExactly(p: Protocol, window: Window, start: Work, block: Block, r: ReducedBlock)
    requires r.transactions == TxRows(block.txs, r.events, |block.txs|)
    requires PayloadsFit(r.events) <==> LoneMarkersFit(p, block.txs, |block.txs|)
    requires RecordsExactly(p, window, start, block.txs, block.height, |block.txs|, r.events)
    ensures FitsColumns(r) <==> BlockFits(p, window, start, block)
  {
    hide HasEvent, VersionFits, PayloadFits, IsRecorded, LoneMarkersFit, WorkAt, TxRows;
    VersionRows(block.txs, r.events, |block.txs|);
  }

  /**
   * After the INIT block, the tables can hold a block exactly when its lone markers and the versions of its
   * recorded transactions fit; after a failed INIT nothing is recorded and every block fits.
   */
  lemma LaterBlockFitsExactly(p: Protocol, chain: seq<Block>, block: Block)
    requires Lawful(p) && ValidChain(p, chain + [block]) && chain != []
    ensures CanonOf(p, chain).activation.Some?
    ensures
      var a := CanonOf(p, chain).activation.value;
      NextFits(p, chain, block) <==>
      (a.valid ==> BlockFits(p, WindowOf(a), StartOf(CanonOf(p, chain).objects), block))
  {
    hide CanonOf, AllBelow, StatesOk, ChaptersOk, ObjectsOk, Inv, Traces, InOrder, InitSafe, ClassifyAll, StartOf,
      Coherent, TxRows, FitsColumns, BlockFits, PayloadsFit, LoneMarkersFit, RecordsExactly, Snapshots, CanonicalEvents;
    assert (chain + [block])[..|chain|] == chain;
    ValidPrefix(p, chain + [block], |chain|);
    ChainReplays(p, chain);
    var c := CanonOf(p, chain);
    NextBlockIsNew(p, chain, block, c);
    AllBelowGrows(c.tables, NextHeight(chain), block.height);
    StartKeepsInv(p, c.tables, c.objects, block.height, ChainTxids(chain));
    var a, start := c.activation.value, StartOf(c.objects);
    assert ActivationOk(p, a, c.objects);
    if a.valid {
      NoneIsSafe(p, WindowOf(a), block, start.objects);
      assert forall i :: 0 <= i < |block.txs| ==> block.txs[i].txid in Txids(block);
      BlockRecords(p, WindowOf(a), c.tables, c.objects, start, block.txs, block.height, |block.txs|, ChainTxids(chain));
      var all := ClassifyAll(p, WindowOf(a), start, block.txs, block.height, |block.txs|).value;
      assert [] + all.events == all.events;
      RowsFitExactly(p, WindowOf(a), start, block, ReduceNext(p, c, block).value);
    } else {
      NothingToFit(block.txs, |block.txs|);
      EmptyBlockFits(ReduceNext(p, c, block).value);
    }
  }

  lemma NoneIsSafe(p: Protocol, window: Window, block: Block, objects: Objects)
    requires p.binding.initTxid !in Txids(block)
    ensures InitSafe(p, window, block.txs, block.height, objects)
  {
    assert forall i :: 0 <= i < |block.txs| ==> block.txs[i].txid in Txids(block);
  }

  lemma {:induction false} NothingToFit(txs: seq<Tx>, n: nat)
    requires n <= |txs|
    ensures TxRows(txs, [], n) == []
  {
    if n > 0 {
      NothingToFit(txs, n - 1);
    }
  }

  lemma EmptyBlockFits(r: ReducedBlock)
    requires r.events == [] && r.transactions == []
    ensures FitsColumns(r)
  {
  }

  /** The configured INIT on its own. */
  ghost predicate InitFits(p: Protocol, txs: seq<Tx>) {
    forall i :: 0 <= i < |txs| && txs[i].txid == p.binding.initTxid ==>
      PayloadFits(RecordedPayload(p, txs[i])) && VersionFits(txs[i].version)
  }

  lemma InitRowsFitExactly(p: Protocol, block: Block, at: nat, r: ReducedBlock)
    requires at < |block.txs| && block.txs[at].txid == p.binding.initTxid && DistinctTxids(block.txs)
    requires r.transactions == TxRows(block.txs, r.events, |block.txs|) && r.events != []
    requires forall i :: 0 <= i < |r.events| ==>
               r.events[i].txid == p.binding.initTxid && r.events[i].markerPayload == RecordedPayload(p, block.txs[at])
    ensures FitsColumns(r) <==> InitFits(p, block.txs)
  {
    hide VersionFits, PayloadFits, RecordedPayload, TxRows;
    VersionRows(block.txs, r.events, |block.txs|);
    assert r.events[0].txid == block.txs[at].txid;
    assert HasEvent(r.events, block.txs[at].txid);
    assert forall i :: 0 <= i < |block.txs| && i != at ==> !HasEvent(r.events, block.txs[i].txid);
    assert forall i :: 0 <= i < |block.txs| && i != at ==> block.txs[i].txid != p.binding.initTxid;
  }

  /** What the activation block records: all of it if the INIT is valid, the INIT alone if not. */
  lemma ActivationRows(p: Protocol, base: Tables, root: Hash, block: Block)
    requires Lawful(p) && WellFormed(block) && HasTxid(block, p.binding.initTxid)
    requires Inv(p, base, map[], block.height, StartOf(map[]), {})
    requires Reduce(p, None, root, map[], block).Ok?
    ensures
      var r := Reduce(p, None, root, map[], block).value;
      FitsColumns(r) <==>
      if r.activation.valid then BlockFits(p, WindowOf(r.activation), StartOf(map[]), block) else InitFits(p, block.txs)
  {
    hide Inv, Traces, InitHeights, Classify, StartOf, InOrder, ClassifyAll, TxRows, FitsColumns, BlockFits, InitFits,
      PayloadsFit, LoneMarkersFit, RecordsExactly, Snapshots, CanonicalEvents;
    var at := InitPosition(block.txs, p.binding.initTxid, 0).value;
    var heights := InitHeights(p, block.txs[at]);
    var window, start := InitWindow(block.height, heights), StartOf(map[]);
    StartObjects(map[]);
    InitClassified(p, base, block, {}, at);
    var progress := Classify(p, window, start, block.txs[at], at, block.height).value;
    var r := Reduce(p, None, root, map[], block).value;
    if ActivationOf(p, block, heights, progress.events).valid {
      assert WindowOf(r.activation) == window;
      BlockRecords(p, window, base, map[], start, block.txs, block.height, |block.txs|, {});
      var all := ClassifyAll(p, window, start, block.txs, block.height, |block.txs|).value;
      assert [] + all.events == all.events;
      RowsFitExactly(p, window, start, block, r);
    } else {
      InvParts(p, base, map[], block.height, start, {});
      ClassifiedIsRecorded(p, window, start, block.txs[at], at, block.height, {});
      RowsAreOf(p, window, start, block.txs[at], at, block.height);
      InitRowsFitExactly(p, block, at, r);
    }
  }

  /**
   * The tables can hold the activation block exactly when, the INIT being valid, the same holds of it; else
   * when the payload and version of the INIT fit.
   */
  lemma ActivationBlockFitsExactly(p: Protocol, block: Block)
    requires Lawful(p) && ValidChain(p, [block])
    ensures ReduceNext(p, CanonOf(p, []), block).Ok?
    ensures
      var a := ReduceNext(p, CanonOf(p, []), block).value.activation;
      NextFits(p, [], block) <==>
      if a.valid then BlockFits(p, WindowOf(a), StartOf(map[]), block) else InitFits(p, block.txs)
  {
    hide CanonOf, Reduce, AllBelow, StatesOk, ChaptersOk, ObjectsOk, Inv, FitsColumns, BlockFits, InitFits, StartOf,
      Coherent;
    assert [] + [block] == [block];
    ReplayExtends(p, [], block);
    ChainReplays(p, []);
    var c := CanonOf(p, []);
    NextBlockIsNew(p, [], block, c);
    AllBelowGrows(c.tables, NextHeight([]), block.height);
    StartKeepsInv(p, c.tables, c.objects, block.height, ChainTxids([]));
    ActivationRows(p, c.tables, c.root, block);
  }

  // ----- told from the transactions alone -----------------------------------------------------

  /** Every marker and every version of the block fits, recorded or not. */
  ghost predicate Storable(p: Protocol, block: Block) {
    forall i :: 0 <= i < |block.txs| ==>
      PayloadFits(RecordedPayload(p, block.txs[i])) && VersionFits(block.txs[i].version)
  }

  lemma StorableFits(p: Protocol, window: Window, start: Work, block: Block)
    requires Storable(p, block)
    ensures BlockFits(p, window, start, block) && InitFits(p, block.txs)
  {
    hide PayloadFits, RecordedPayload, VersionFits, IsRecorded, WorkAt;
  }

  /** A chain of storable blocks is accepted. */
  lemma {:induction false} StorableIsAccepted(p: Protocol, chain: seq<Block>)
    requires Lawful(p) && ValidChain(p, chain)
    requires forall i :: 0 <= i < |chain| ==> Storable(p, chain[i])
    ensures Accepted(p, chain)
  {
    hide CanonOf, ValidChain, Lawful, NextFits, Storable, BlockFits, InitFits, ReduceNext, Accepted;
    if chain == [] {
      NothingIsAccepted(p);
    } else {
      var front, last := chain[..|chain| - 1], chain[|chain| - 1];
      assert front + [last] == chain;
      ValidPrefix(p, chain, |chain| - 1);
      StorableIsAccepted(p, front);
      AcceptedGrows(p, front, last);
      if front == [] {
        ActivationBlockFitsExactly(p, last);
        StorableFits(p, WindowOf(ReduceNext(p, CanonOf(p, []), last).value.activation), StartOf(map[]), last);
      } else {
        LaterBlockFitsExactly(p, front, last);
        StorableFits(p, WindowOf(CanonOf(p, front).activation.value), StartOf(CanonOf(p, front).objects), last);
      }
    }
  }

  lemma NothingIsAccepted(p: Protocol)
    ensures Accepted(p, [])
  {
  }

  /** A marker is left, and the lone one's payload or the version is too wide for its column. */
  predicate IsTooWide(p: Protocol, tx: Tx) {
    && RemainingCandidates(p, tx, p.binding.initTxid) != []
    && !(PayloadFits(RecordedPayload(p, tx)) && VersionFits(tx.version))
  }

  /** After a valid INIT no accepted chain has a block with such a transaction: it reduces, but is not written. */
  lemma WideMarkerIsRefused(p: Protocol, chain: seq<Block>, block: Block, i: nat)
    requires Lawful(p) && ValidChain(p, chain + [block]) && chain != []
    requires CanonOf(p, chain).activation.Some? && CanonOf(p, chain).activation.value.valid
    requires i < |block.txs| && IsTooWide(p, block.txs[i])
    ensures !NextFits(p, chain, block) && !Accepted(p, chain + [block])
    ensures match ReduceNext(p, CanonOf(p, chain), block)
            case Ok(r) => WriteBlock(TablesOf(p, chain), r) == Err(ColumnTooNarrow)
            case Err(_) => false
  {
    hide CanonOf, ValidChain, Lawful, FitsColumns, RecordedPayload, WriteBlock, Accepted, ReduceNext, StartOf,
      PayloadFits, VersionFits, RemainingCandidates, WorkAt;
    LaterBlockFitsExactly(p, chain, block);
    AcceptedGrows(p, chain, block);
    ReplayExtends(p, chain, block);
  }
}
