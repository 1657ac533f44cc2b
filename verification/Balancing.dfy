/** The event rows of every block and every chain keep the ledger balanced. */
module Balancing {
  import opened Prelude
  import opened Bitcoin
  import opened Tandem
  import opened Reducer
  import opened Moves
  import opened Schema
  import opened Written
  import opened Invariants
  import opened History
  import opened Transactions
  import opened Blocks
  import opened Ledger

  /** The ledger balances with the tables that the working state is about to become. */
  ghost predicate Booked(window: Window, j: seq<Entry>, base: Tables, height: nat, w: Work) {
    Balanced(window, j, StatesAfter(base.states, height, w), ChaptersAfter(base.chapters, height, w), w.objects)
  }

  lemma MoveChapters(base: ChapterTable, w: Work, next: ObjectRecord, txid: Txid, height: nat, chapter: Option<Chapter>)
    ensures ChaptersAfter(base, height, Move(w, next, txid, chapter))
            == MovedChapters(ChaptersAfter(base, height, w), height, next, txid, chapter)
  {
    hide ChaptersAfter, Move;
    MoveLists(w, next, txid, chapter);
    var after := Move(w, next, txid, chapter);
    match chapter
    case None => ChaptersAfterReads(base, height, w, after);
    case Some(written) =>
      var row := ChapterRow(next.objectKey, next.stateSequence, txid, written);
      ChaptersAfterRow(base, height, w, row);
      ChaptersAfterReads(base, height, w.(chapters := w.chapters + [row]), after);
  }

  /** A legal move, entered, keeps the ledger balanced. */
  lemma MoveBalances(p: Protocol, window: Window, j: seq<Entry>, base: Tables, pre: Objects, w: Work,
                     next: ObjectRecord, txid: Txid, height: nat, chapter: Option<Chapter>, seen: set<Txid>, e: Entry)
    requires Inv(p, base, pre, height, w, seen) && Booked(window, j, base, height, w)
    requires Allowed(p, w.objects, next, txid, height, chapter, seen)
    requires Enters(p, window, w.objects, next, txid, height, chapter, e)
    ensures Booked(window, j + [e], base, height, Move(w, next, txid, chapter))
  {
    hide Move, Allowed, ObjectsOk, IndexOk, UndoOk, IdentityOk, BornHere, StatesOk, PendingStates, ChaptersOk,
      PendingChapters, Enters, StatesAfter, ChaptersAfter, MovedStates, MovedChapters, CarriersMade, CarriersSpent,
      ChaptersWritten, ObjectsFounded, ObjectsEnded;
    var states, chapters := StatesAfter(base.states, height, w), ChaptersAfter(base.chapters, height, w);
    MoveObjects(w, next, txid, chapter);
    MoveStates(p, base.states, w, next, txid, height, chapter, seen);
    MoveChapters(base.chapters, w, next, txid, height, chapter);
    MadeGrows(p, window, j, states, w.objects, next, txid, height, chapter, seen, e);
    SpentGrow(p, window, j, states, w.objects, next, txid, height, chapter, seen, e);
    ChaptersGrow(p, window, j, chapters, w.objects, next, txid, height, chapter, seen, e);
    FoundedGrow(p, window, j, w.objects, next, txid, height, chapter, e);
    EndedGrow(p, window, j, w.objects, next, txid, height, chapter, e);
  }

  // ----- one event, one transaction -----------------------------------------------------------

  lemma EventEnters(s: TxScope, w: Work, event: ValidationEvent, subIndex: nat, work: Work, row: EventRecord)
    requires MovesLegally(s, w, event, subIndex, work, row)
    ensures match Outcome(s, w, event)
            case None => IsIdle(row) && work == w
            case Some((next, chapter)) =>
              Enters(s.p, s.window, w.objects, next, s.tx.txid, s.height, chapter, Entry(s.height, s.marker, row))
  {
    hide Move;
  }

  lemma EventBalances(s: TxScope, j: seq<Entry>, base: Tables, pre: Objects, w: Work, event: ValidationEvent,
                      subIndex: nat, seen: set<Txid>)
    requires Inv(s.p, base, pre, s.height, w, seen) && Booked(s.window, j, base, s.height, w)
    requires Applicable(s, w, event)
    requires !IsExit(event) ==> s.tx.txid !in seen
    ensures ApplyEvent(s, w, event, subIndex).Ok?
    ensures
      var (work, row) := ApplyEvent(s, w, event, subIndex).value;
      Booked(s.window, j + [Entry(s.height, s.marker, row)], base, s.height, work)
  {
    hide Move, Inv, ApplyEvent, Records, Enters, IsIdle, IsPlaced, Describes, Booked;
    InvParts(s.p, base, pre, s.height, w, seen);
    EventMakesLegalMove(s, w, event, subIndex);
    var (work, row) := ApplyEvent(s, w, event, subIndex).value;
    var e := Entry(s.height, s.marker, row);
    EventEnters(s, w, event, subIndex, work, row);
    match Outcome(s, w, event)
    case None => IdleBooked(s.window, j, base, s.height, w, e);
    case Some((next, chapter)) =>
      MoveBalances(s.p, s.window, j, base, pre, w, next, s.tx.txid, s.height, chapter, seen, e);
  }

  lemma IdleBooked(window: Window, j: seq<Entry>, base: Tables, height: nat, w: Work, e: Entry)
    requires Booked(window, j, base, height, w) && IsIdle(e.row)
    ensures Booked(window, j + [e], base, height, w)
  {
    hide Balanced;
    IdleBalances(window, j, StatesAfter(base.states, height, w), ChaptersAfter(base.chapters, height, w), w.objects, e);
  }

  /** The rows of one transaction, entered. */
  function Entries(height: nat, marker: Option<Marker>, rows: seq<EventRecord>): seq<Entry> {
    seq(|rows|, i requires 0 <= i < |rows| => Entry(height, marker, rows[i]))
  }

  lemma {:induction false} EventsBalance(s: TxScope, j: seq<Entry>, base: Tables, pre: Objects, w: Work,
                                         events: seq<ValidationEvent>, n: nat, seen: set<Txid>)
    requires n <= |events|
    requires Inv(s.p, base, pre, s.height, w, seen) && Booked(s.window, j, base, s.height, w)
    requires Ready(s, w, events) && s.tx.txid !in seen
    ensures ApplyEvents(s, w, events, n).Ok?
    ensures
      var done := ApplyEvents(s, w, events, n).value;
      Booked(s.window, j + Entries(s.height, s.marker, done.events), base, s.height, done.work)
  {
    hide Inv, Traces, Applicable, ApplyEvent, Booked, RowsOf, RowsTell;
    if n == 0 {
      assert j + Entries(s.height, s.marker, []) == j;
    } else {
      EventsBalance(s, j, base, pre, w, events, n - 1, seen);
      EventsApply(s, base, pre, w, events, n - 1, seen);
      var before := ApplyEvents(s, w, events, n - 1).value;
      var known := if n == 1 then seen else seen + {s.tx.txid};
      var entered := j + Entries(s.height, s.marker, before.events);
      EventBalances(s, entered, base, pre, before.work, events[n - 1], n - 1, known);
      var (work, row) := ApplyEvent(s, before.work, events[n - 1], n - 1).value;
      assert entered + [Entry(s.height, s.marker, row)] == j + Entries(s.height, s.marker, before.events + [row]);
    }
  }

  lemma TransactionBalances(p: Protocol, window: Window, j: seq<Entry>, base: Tables, pre: Objects, w: Work, tx: Tx,
                            txIndex: nat, height: nat, seen: set<Txid>)
    requires Lawful(p)
    requires Inv(p, base, pre, height, w, seen) && Booked(window, j, base, height, w)
    requires DistinctInputs(tx) && tx.txid !in seen && InitAlone(p, w, tx)
    ensures Classify(p, window, w, tx, txIndex, height).Ok?
    ensures
      var done := Classify(p, window, w, tx, txIndex, height).value;
      var marker := VerdictOf(p, Evidence(tx, height), ContextOf(p, window, w, tx)).marker;
      Booked(window, j + Entries(height, marker, done.events), base, height, done.work)
  {
    hide Inv, Ready, ApplyEvents, RemainingCandidates, Booked;
    InvParts(p, base, pre, height, w, seen);
    VerdictIsReady(p, window, w, tx, txIndex, height, seen);
    var verdict := VerdictOf(p, Evidence(tx, height), ContextOf(p, window, w, tx));
    if verdict.relevant && verdict.events != [] {
      EventsBalance(Scope(p, window, tx, txIndex, height, verdict), j, base, pre, w, verdict.events, |verdict.events|,
                    seen);
    } else {
      assert j + Entries(height, verdict.marker, []) == j;
    }
  }

  // ----- one block ----------------------------------------------------------------------------

  /** The rows of a block, entered with the markers of their transactions. */
  ghost function BlockEntries(p: Protocol, window: Window, w: Work, txs: seq<Tx>, height: nat,
                              rows: seq<EventRecord>): seq<Entry>
  {
    seq(|rows|, i requires 0 <= i < |rows| => Entry(height, MarkerOn(p, window, w, txs, height, rows[i].txIndex),
        rows[i]))
  }

  ghost function MarkerOn(p: Protocol, window: Window, w: Work, txs: seq<Tx>, height: nat, i: nat): Option<Marker> {
    if i < |txs| then VerdictOn(p, window, w, txs, height, i).marker else None
  }

  lemma EntriesJoin(p: Protocol, window: Window, w: Work, txs: seq<Tx>, height: nat, rows: seq<EventRecord>,
                    more: seq<EventRecord>, n: nat)
    requires forall i :: 0 <= i < |more| ==> more[i].txIndex == n
    ensures BlockEntries(p, window, w, txs, height, rows + more)
         == BlockEntries(p, window, w, txs, height, rows) + Entries(height, MarkerOn(p, window, w, txs, height, n),
             more)
  {
    hide MarkerOn;
  }

  lemma {:induction false} BlockBalances(p: Protocol, window: Window, j: seq<Entry>, base: Tables, pre: Objects,
                                         w: Work,
                                         txs: seq<Tx>, height: nat, n: nat, seen: set<Txid>)
    requires Lawful(p)
    requires n <= |txs|
    requires DistinctTxids(txs) && AreSized(txs) && forall i :: 0 <= i < |txs| ==> DistinctInputs(txs[i])
    requires forall i :: 0 <= i < |txs| ==> txs[i].txid !in seen
    requires Inv(p, base, pre, height, w, seen) && Booked(window, j, base, height, w)
    requires InitSafe(p, window, txs, height, w.objects)
    ensures ClassifyAll(p, window, w, txs, height, n).Ok?
    ensures
      var done := ClassifyAll(p, window, w, txs, height, n).value;
      Booked(window, j + BlockEntries(p, window, w, txs, height, done.events), base, height, done.work)
  {
    hide Inv, Classify, IsRelevant, Booked, ContextOf, RemainingCandidates, DistinctInputs, AreSized, DistinctTxids,
      InitSafe, InitAlone, Lawful, TxidsBefore;
    if n == 0 {
      assert j + BlockEntries(p, window, w, txs, height, []) == j;
    } else {
      BlockBalances(p, window, j, base, pre, w, txs, height, n - 1, seen);
      NextIsReady(p, window, base, pre, w, txs, height, n - 1, seen);
      var before := ClassifyAll(p, window, w, txs, height, n - 1).value;
      if IsRelevant(p, txs[n - 1], before.work.activeByOutpoint) {
        var entered := j + BlockEntries(p, window, w, txs, height, before.events);
        TransactionBalances(p, window, entered, base, pre, before.work, txs[n - 1], n - 1, height,
                            seen + TxidsBefore(txs, n - 1));
        ClassifiedRowsPlaced(p, window, before.work, txs[n - 1], n - 1, height);
        var more := Classify(p, window, before.work, txs[n - 1], n - 1, height).value.events;
        EntriesJoin(p, window, w, txs, height, before.events, more, n - 1);
        assert entered + Entries(height, MarkerOn(p, window, w, txs, height, n - 1), more)
            == j + BlockEntries(p, window, w, txs, height, before.events + more);
      }
    }
  }
}
