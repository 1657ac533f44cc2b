/** One block: all its transactions in order, and the configured INIT in its confirmation block. */
module Blocks {
  import opened Prelude
  import opened Bitcoin
  import opened StateEngine
  import opened Tandem
  import opened Reducer
  import opened Moves
  import opened Schema
  import opened Invariants
  import opened History
  import opened Transactions

  function TxidsBefore(txs: seq<Tx>, n: nat): set<Txid>
    requires n <= |txs|
  {
    set i | 0 <= i < n :: txs[i].txid
  }

  predicate Before(a: EventRecord, b: EventRecord) {
    || a.txIndex < b.txIndex
    || (a.txIndex == b.txIndex && (a.eventIndex < b.eventIndex
                                   || (a.eventIndex == b.eventIndex && a.subIndex < b.subIndex)))
  }

  /** Event positions are strictly increasing, and every event belongs to its transaction. */
  ghost predicate InOrder(rows: seq<EventRecord>, txs: seq<Tx>, n: nat) {
    && n <= |txs|
    && (forall i :: 0 <= i < |rows| ==> rows[i].txIndex < n && rows[i].txid == txs[rows[i].txIndex].txid)
    && (forall i, j :: 0 <= i < j < |rows| ==> Before(rows[i], rows[j]))
    && PlacesFit(rows)
  }

  /** The place of every row fits its columns. */
  ghost predicate PlacesFit(rows: seq<EventRecord>) {
    forall i :: 0 <= i < |rows| ==>
      rows[i].txIndex <= U32_MAX && rows[i].eventIndex <= U32_MAX && rows[i].subIndex <= U32_MAX
  }

  /** The working state before transaction `i`. */
  ghost function WorkAt(p: Protocol, window: Window, w: Work, txs: seq<Tx>, height: nat, i: nat): Work
    requires i <= |txs|
  {
    match ClassifyAll(p, window, w, txs, height, i) case Ok(done) => done.work case Err(_) => w
  }

  /** What the validator says of transaction `i`. */
  ghost function VerdictOn(p: Protocol, window: Window, w: Work, txs: seq<Tx>, height: nat, i: nat): Verdict
    requires i < |txs|
  {
    VerdictOf(p, Evidence(txs[i], height), ContextOf(p, window, WorkAt(p, window, w, txs, height, i), txs[i]))
  }

  lemma {:induction false} CandidatesFit(p: Protocol, tx: Tx, initTxid: Txid, n: nat)
    requires IsSized(tx) && n <= |tx.outputs|
    ensures forall i :: 0 <= i < |Candidates(p, tx, initTxid, n)| ==> Candidates(p, tx, initTxid, n)[i].vout <= U32_MAX
  {
    if n > 0 {
      CandidatesFit(p, tx, initTxid, n - 1);
    }
  }

  lemma RowsFit(s: TxScope, rows: seq<EventRecord>)
    requires IsSized(s.tx) && s.txIndex <= U32_MAX && RowsOf(s, rows)
    requires s.candidates == RemainingCandidates(s.p, s.tx, s.p.binding.initTxid)
    requires |rows| <= 1 || |rows| <= |s.tx.inputs|
    ensures PlacesFit(rows)
  {
    CandidatesFit(s.p, s.tx, s.p.binding.initTxid, |s.tx.outputs|);
  }

  lemma RowsExtendOrder(s: TxScope, rows: seq<EventRecord>, more: seq<EventRecord>, txs: seq<Tx>, n: nat)
    requires n < |txs| && InOrder(rows, txs, n)
    requires s.txIndex == n && s.tx == txs[n] && RowsOf(s, more) && PlacesFit(more)
    ensures InOrder(rows + more, txs, n + 1)
  {
  }

  lemma SkipExtendsOrder(rows: seq<EventRecord>, txs: seq<Tx>, n: nat)
    requires n < |txs| && InOrder(rows, txs, n)
    ensures InOrder(rows, txs, n + 1)
  {
  }

  /** The block may hold the configured INIT only while no object exists, before the open height. */
  ghost predicate InitSafe(p: Protocol, window: Window, txs: seq<Tx>, height: nat, objects: Objects) {
    || (forall i :: 0 <= i < |txs| ==> txs[i].txid != p.binding.initTxid)
    || (objects == map[] && height < window.openHeight)
  }

  /** Nothing can be created before the open height, nor by the INIT, so such a transaction changes nothing. */
  lemma EarlyTransactionIdles(p: Protocol, window: Window, w: Work, tx: Tx, txIndex: nat, height: nat)
    requires Lawful(p)
    requires w.objects == map[] && (height < window.openHeight || tx.txid == p.binding.initTxid)
    requires Classify(p, window, w, tx, txIndex, height).Ok?
    ensures Classify(p, window, w, tx, txIndex, height).value.work == w
    ensures
      var events := Classify(p, window, w, tx, txIndex, height).value.events;
      |events| <= 1 && (events != [] && events[0].validity.ValidOperation? && tx.txid == p.binding.initTxid ==>
                          events[0].eventType == INIT && window.openHeight >= window.height + INIT_LEAD)
  {
    NothingConsumed(w, tx.inputs, |tx.inputs|);
    var context := ContextOf(p, window, w, tx);
    assert context.carriers == [];
    var verdict := VerdictOf(p, Evidence(tx, height), context);
    assert Presented(p, Evidence(tx, height), context);
    assert LawfulVerdict(p, Evidence(tx, height), context, verdict);
    if verdict.relevant && verdict.events != [] {
      var s := Scope(p, window, tx, txIndex, height, verdict);
      assert CarrierlessEvent(Evidence(tx, height), context, verdict.events[0]);
      assert ApplyEvents(s, w, verdict.events, 0) == Ok(Progress(w, []));
      EventMakesLegalMove(s, w, verdict.events[0], 0);
    }
  }

  lemma {:induction false} NothingConsumed(w: Work, inputs: seq<Input>, n: nat)
    requires n <= |inputs|
    requires w.objects == map[]
    ensures Consumed(w, inputs, n) == []
  {
    if n > 0 {
      NothingConsumed(w, inputs, n - 1);
    }
  }

  /** What holds after the first `n` transactions of a block. */
  ghost predicate Processed(p: Protocol, window: Window, base: Tables, pre: Objects, start: Objects, txs: seq<Tx>,
                            height: nat, n: nat, done: Progress, seen: set<Txid>)
    requires n <= |txs|
  {
    && Inv(p, base, pre, height, done.work, seen + TxidsBefore(txs, n))
    && Traces(start, done.work.objects, done.events)
    && InOrder(done.events, txs, n)
    && InitSafe(p, window, txs, height, done.work.objects)
  }

  lemma NextTransactionProcessed(p: Protocol, window: Window, base: Tables, pre: Objects, start: Objects,
                                 txs: seq<Tx>, height: nat, n: nat, before: Progress, seen: set<Txid>)
    requires Lawful(p)
    requires 0 < n <= |txs|
    requires DistinctTxids(txs) && DistinctInputs(txs[n - 1]) && AreSized(txs)
    requires forall i :: 0 <= i < |txs| ==> txs[i].txid !in seen
    requires Processed(p, window, base, pre, start, txs, height, n - 1, before, seen)
    ensures Classify(p, window, before.work, txs[n - 1], n - 1, height).Ok?
    ensures
      var step := Classify(p, window, before.work, txs[n - 1], n - 1, height).value;
      Processed(p, window, base, pre, start, txs, height, n, Progress(step.work, before.events + step.events), seen)
  {
    hide Inv, Traces, Classify, InOrder, RemainingCandidates, RowsOf, PlacesFit;
    var known := seen + TxidsBefore(txs, n - 1);
    var tx := txs[n - 1];
    ClassifyKeepsInv(p, window, base, pre, before.work, tx, n - 1, height, known);
    assert known + {tx.txid} == seen + TxidsBefore(txs, n);
    var step := Classify(p, window, before.work, tx, n - 1, height).value;
    var verdict := VerdictOf(p, Evidence(tx, height), ContextOf(p, window, before.work, tx));
    TracesCompose(start, before.work.objects, step.work.objects, before.events, step.events);
    RowsFit(Scope(p, window, tx, n - 1, height, verdict), step.events);
    RowsExtendOrder(Scope(p, window, tx, n - 1, height, verdict), before.events, step.events, txs, n - 1);
    if before.work.objects == map[] && height < window.openHeight {
      EarlyTransactionIdles(p, window, before.work, tx, n - 1, height);
    }
  }

  lemma SkippedTransactionProcessed(p: Protocol, window: Window, base: Tables, pre: Objects, start: Objects,
                                    txs: seq<Tx>, height: nat, n: nat, before: Progress, seen: set<Txid>)
    requires 0 < n <= |txs|
    requires Processed(p, window, base, pre, start, txs, height, n - 1, before, seen)
    ensures Processed(p, window, base, pre, start, txs, height, n, before, seen)
  {
    hide Inv, Traces, InOrder;
    InvSees(p, base, pre, height, before.work, seen + TxidsBefore(txs, n - 1), seen + TxidsBefore(txs, n));
    SkipExtendsOrder(before.events, txs, n - 1);
  }

  /** No transaction of the block throws; the invariant, the trace and the order hold after each one. */
  lemma {:induction false} BlockProcessed(p: Protocol, window: Window, base: Tables, pre: Objects, w: Work,
                                          txs: seq<Tx>, height: nat, n: nat, seen: set<Txid>)
    requires Lawful(p)
    requires n <= |txs|
    requires DistinctTxids(txs) && AreSized(txs) && forall i :: 0 <= i < |txs| ==> DistinctInputs(txs[i])
    requires forall i :: 0 <= i < |txs| ==> txs[i].txid !in seen
    requires Inv(p, base, pre, height, w, seen)
    requires InitSafe(p, window, txs, height, w.objects)
    ensures ClassifyAll(p, window, w, txs, height, n).Ok?
    ensures Processed(p, window, base, pre, w.objects, txs, height, n,
              ClassifyAll(p, window, w, txs, height, n).value, seen)
  {
    hide Inv, Processed, Classify, InitSafe, IsRelevant;
    if n == 0 {
      assert seen + TxidsBefore(txs, 0) == seen;
      TracesNothing(w.objects);
      StartProcessed(p, window, base, pre, w, txs, height, seen);
    } else {
      BlockProcessed(p, window, base, pre, w, txs, height, n - 1, seen);
      var before := ClassifyAll(p, window, w, txs, height, n - 1).value;
      if IsRelevant(p, txs[n - 1], before.work.activeByOutpoint) {
        NextTransactionProcessed(p, window, base, pre, w.objects, txs, height, n, before, seen);
      } else {
        SkippedTransactionProcessed(p, window, base, pre, w.objects, txs, height, n, before, seen);
      }
    }
  }

  lemma StartProcessed(p: Protocol, window: Window, base: Tables, pre: Objects, w: Work, txs: seq<Tx>, height: nat,
                       seen: set<Txid>)
    requires Inv(p, base, pre, height, w, seen)
    requires InitSafe(p, window, txs, height, w.objects)
    ensures Processed(p, window, base, pre, w.objects, txs, height, 0, Progress(w, []), seen)
  {
    hide Inv, InitSafe;
    assert seen + TxidsBefore(txs, 0) == seen;
    TracesNothing(w.objects);
  }

  /** What holds before transaction `n` of a block. */
  lemma NextIsReady(p: Protocol, window: Window, base: Tables, pre: Objects, w: Work, txs: seq<Tx>, height: nat, n: nat,
                    seen: set<Txid>)
    requires Lawful(p)
    requires n < |txs|
    requires DistinctTxids(txs) && AreSized(txs) && forall i :: 0 <= i < |txs| ==> DistinctInputs(txs[i])
    requires forall i :: 0 <= i < |txs| ==> txs[i].txid !in seen
    requires Inv(p, base, pre, height, w, seen)
    requires InitSafe(p, window, txs, height, w.objects)
    ensures ClassifyAll(p, window, w, txs, height, n).Ok?
    ensures
      var before := ClassifyAll(p, window, w, txs, height, n).value.work;
      var known := seen + TxidsBefore(txs, n);
      && Inv(p, base, pre, height, before, known)
      && txs[n].txid !in known && DistinctInputs(txs[n]) && InitAlone(p, before, txs[n])
  {
    hide Inv, ClassifyAll, Traces, InOrder, AreSized, DistinctInputs;
    BlockProcessed(p, window, base, pre, w, txs, height, n, seen);
  }

  // ----- the activation block -----------------------------------------------------------------

  /** While nothing can be created, no transaction changes the working state. */
  lemma {:induction false} EarlyBlockIdles(p: Protocol, window: Window, w: Work, txs: seq<Tx>, height: nat, n: nat)
    requires Lawful(p) && n <= |txs|
    requires w.objects == map[] && height < window.openHeight
    requires ClassifyAll(p, window, w, txs, height, n).Ok?
    ensures ClassifyAll(p, window, w, txs, height, n).value.work == w
  {
    hide Classify, IsRelevant, Lawful;
    if n > 0 {
      EarlyBlockIdles(p, window, w, txs, height, n - 1);
      if IsRelevant(p, txs[n - 1], w.activeByOutpoint) {
        EarlyTransactionIdles(p, window, w, txs[n - 1], n - 1, height);
      }
    }
  }

  /** The rows of transaction `at` are in the block's events, and its other rows are of other transactions. */
  ghost predicate HoldsRows(all: seq<EventRecord>, rows: seq<EventRecord>, at: nat, from: nat) {
    && from + |rows| <= |all|
    && all[from..from + |rows|] == rows
    && forall i :: 0 <= i < |all| && !(from <= i < from + |rows|) ==> all[i].txIndex != at
  }

  lemma {:induction false} RowsPlaced(s: TxScope, w: Work, events: seq<ValidationEvent>, n: nat)
    requires n <= |events| && ApplyEvents(s, w, events, n).Ok?
    ensures forall i :: 0 <= i < |ApplyEvents(s, w, events, n).value.events| ==>
              ApplyEvents(s, w, events, n).value.events[i].txIndex == s.txIndex
  {
    hide ApplyEvent;
    if n > 0 {
      RowsPlaced(s, w, events, n - 1);
      RowPlaced(s, ApplyEvents(s, w, events, n - 1).value.work, events[n - 1], n - 1);
    }
  }

  lemma RowPlaced(s: TxScope, w: Work, event: ValidationEvent, subIndex: nat)
    ensures ApplyEvent(s, w, event, subIndex).Ok? ==>
              ApplyEvent(s, w, event, subIndex).value.1.txIndex == s.txIndex
  {
    hide Terminate, Advance, Found, Revealed;
  }

  lemma {:induction false} BlockRowsPlaced(p: Protocol, window: Window, w: Work, txs: seq<Tx>, height: nat, n: nat)
    requires n <= |txs| && ClassifyAll(p, window, w, txs, height, n).Ok?
    ensures forall i :: 0 <= i < |ClassifyAll(p, window, w, txs, height, n).value.events| ==>
              ClassifyAll(p, window, w, txs, height, n).value.events[i].txIndex < n
  {
    hide Classify, IsRelevant;
    if n > 0 {
      BlockRowsPlaced(p, window, w, txs, height, n - 1);
      var before := ClassifyAll(p, window, w, txs, height, n - 1).value;
      ClassifiedRowsPlaced(p, window, before.work, txs[n - 1], n - 1, height);
    }
  }

  lemma ClassifiedRowsPlaced(p: Protocol, window: Window, w: Work, tx: Tx, txIndex: nat, height: nat)
    ensures Classify(p, window, w, tx, txIndex, height).Ok? ==>
              forall i :: 0 <= i < |Classify(p, window, w, tx, txIndex, height).value.events| ==>
                Classify(p, window, w, tx, txIndex, height).value.events[i].txIndex == txIndex
  {
    var verdict := VerdictOf(p, Evidence(tx, height), ContextOf(p, window, w, tx));
    var s := Scope(p, window, tx, txIndex, height, verdict);
    if ApplyEvents(s, w, verdict.events, |verdict.events|).Ok? {
      RowsPlaced(s, w, verdict.events, |verdict.events|);
    }
  }

  /** Classified again among the others, the INIT gives the very rows it gave on its own, once. */
  lemma {:induction false} InitClassifiedAgain(p: Protocol, window: Window, w: Work, txs: seq<Tx>, height: nat,
                                               n: nat, at: nat)
      returns (from: nat)
    requires Lawful(p) && at < n <= |txs|
    requires w.objects == map[] && height < window.openHeight
    requires txs[at].txid == p.binding.initTxid
    requires ClassifyAll(p, window, w, txs, height, n).Ok?
    ensures Classify(p, window, w, txs[at], at, height).Ok?
    ensures HoldsRows(ClassifyAll(p, window, w, txs, height, n).value.events,
                      Classify(p, window, w, txs[at], at, height).value.events, at, from)
  {
    hide Classify, IsRelevant;
    var before := ClassifyAll(p, window, w, txs, height, n - 1).value;
    var all := ClassifyAll(p, window, w, txs, height, n).value;
    EarlyBlockIdles(p, window, w, txs, height, n - 1);
    BlockRowsPlaced(p, window, w, txs, height, n - 1);
    ClassifiedRowsPlaced(p, window, w, txs[n - 1], n - 1, height);
    if n == at + 1 {
      from := |before.events|;
      InitIsRelevant(p, txs[at], before.work.activeByOutpoint);
    } else {
      from := InitClassifiedAgain(p, window, w, txs, height, n - 1, at);
      assert forall i :: 0 <= i < |before.events| ==> all.events[i] == before.events[i];
      assert all.events[from..from + |Classify(p, window, w, txs[at], at, height).value.events|]
          == before.events[from..from + |Classify(p, window, w, txs[at], at, height).value.events|];
    }
  }

  lemma InitIsRelevant(p: Protocol, tx: Tx, index: map<Outpoint, Key>)
    requires tx.txid == p.binding.initTxid
    ensures IsRelevant(p, tx, index)
  {
  }
}
