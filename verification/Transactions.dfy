/** One transaction: which carriers it consumes, and what its events do. */
module Transactions {
  import opened Prelude
  import opened Bitcoin
  import opened Tandem
  import opened Reducer
  import opened Moves
  import opened Schema
  import opened Invariants
  import opened History

  /** The record is the current record of an active object whose carrier the inputs spend. */
  ghost predicate IsConsumed(w: Work, inputs: seq<Input>, r: ObjectRecord) {
    && r.objectKey in w.objects && w.objects[r.objectKey] == r
    && r.status.Active? && r.currentOutpoint.Some? && Spends(inputs, r.currentOutpoint.value)
  }

  /**
   * The carriers handed to the validator are exactly the active objects whose current outpoint the
   * transaction spends, each once.
   */
  lemma {:induction false} ConsumedExactly(p: Protocol, w: Work, inputs: seq<Input>, n: nat, seen: set<Txid>)
    requires n <= |inputs|
    requires ObjectsOk(p, w.objects, seen) && IndexOk(w.objects, w.activeByOutpoint)
    requires forall i, j :: 0 <= i < j < |inputs| && inputs[i].outpoint.Some? ==>
              inputs[i].outpoint != inputs[j].outpoint
    ensures forall r :: r in Consumed(w, inputs, n) <==> IsConsumed(w, inputs[..n], r)
    ensures forall i, j :: 0 <= i < j < |Consumed(w, inputs, n)| ==>
              Consumed(w, inputs, n)[i].objectKey != Consumed(w, inputs, n)[j].objectKey
  {
    if n > 0 {
      ConsumedExactly(p, w, inputs, n - 1, seen);
      var before := Consumed(w, inputs, n - 1);
      var outpoint := inputs[n - 1].outpoint;
      assert inputs[..n] == inputs[..n - 1] + [inputs[n - 1]];
      forall o
        ensures Spends(inputs[..n], o) <==> Spends(inputs[..n - 1], o) || outpoint == Some(o)
      {
        if outpoint == Some(o) {
          assert inputs[..n][n - 1].outpoint == Some(o);
        }
        if Spends(inputs[..n - 1], o) {
          var i :| 0 <= i < n - 1 && inputs[..n - 1][i].outpoint == Some(o);
          assert inputs[..n][i].outpoint == Some(o);
        }
      }
      if outpoint.Some? && outpoint.value in w.activeByOutpoint {
        var r := w.objects[w.activeByOutpoint[outpoint.value]];
        assert Consumed(w, inputs, n) == before + [r];
        assert RecordOk(p, r.objectKey, r, seen);
        forall i | 0 <= i < |before|
          ensures before[i].objectKey != r.objectKey
        {
          assert before[i] in before;
          assert Spends(inputs[..n - 1], before[i].currentOutpoint.value);
        }
      } else {
        assert Consumed(w, inputs, n) == before;
      }
    }
  }

  /** All rows of one transaction share its place; their sub-indexes count up from 0. */
  ghost predicate RowsOf(s: TxScope, rows: seq<EventRecord>) {
    forall i :: 0 <= i < |rows| ==> IsPlaced(s, i, rows[i])
  }

  /** Each row describes its validation event. */
  ghost predicate RowsTell(s: TxScope, events: seq<ValidationEvent>, rows: seq<EventRecord>) {
    |rows| <= |events| && forall i :: 0 <= i < |rows| ==> Describes(s, events[i], rows[i]) && IsShaped(s.p, rows[i])
  }

  /** The events can be applied one after the other: at most one of them, or exits of distinct objects. */
  ghost predicate Ready(s: TxScope, w: Work, events: seq<ValidationEvent>) {
    && (forall i :: 0 <= i < |events| ==> Applicable(s, w, events[i]))
    && (|events| > 1 ==>
          && (forall i :: 0 <= i < |events| ==> IsExit(events[i]))
          && (forall i, j :: 0 <= i < j < |events| ==> events[i].objectKey != events[j].objectKey))
  }

  lemma EventTraces(s: TxScope, w: Work, event: ValidationEvent, subIndex: nat, seen: set<Txid>)
    requires ObjectsOk(s.p, w.objects, seen)
    requires Applicable(s, w, event)
    ensures ApplyEvent(s, w, event, subIndex).Ok?
    ensures
      var (work, row) := ApplyEvent(s, w, event, subIndex).value;
      && MovesLegally(s, w, event, subIndex, work, row) && Traces(w.objects, work.objects, [row])
      && Describes(s, event, row) && IsPlaced(s, subIndex, row) && IsShaped(s.p, row)
  {
    EventMakesLegalMove(s, w, event, subIndex);
    var (work, row) := ApplyEvent(s, w, event, subIndex).value;
    EventIsShaped(s, w, event, subIndex, work, row);
    match Outcome(s, w, event)
    case None => IdleTraces(w.objects, row);
    case Some((next, chapter)) => MoveTraces(s.p, w, next, s.tx.txid, s.height, chapter, row);
  }

  lemma EventKeepsInv(s: TxScope, base: Tables, pre: Objects, w: Work, event: ValidationEvent, subIndex: nat,
                      seen: set<Txid>)
    requires Inv(s.p, base, pre, s.height, w, seen)
    requires Applicable(s, w, event)
    requires !IsExit(event) ==> s.tx.txid !in seen
    ensures ApplyEvent(s, w, event, subIndex).Ok?
    ensures Inv(s.p, base, pre, s.height, ApplyEvent(s, w, event, subIndex).value.0, seen + {s.tx.txid})
  {
    hide Move, Inv, ApplyEvent, Records;
    InvParts(s.p, base, pre, s.height, w, seen);
    EventMakesLegalMove(s, w, event, subIndex);
    match Outcome(s, w, event)
    case None => InvSees(s.p, base, pre, s.height, w, seen, seen + {s.tx.txid});
    case Some((next, chapter)) =>
      MoveKeepsInv(s.p, base, pre, w, next, s.tx.txid, s.height, chapter, seen);
  }

  /** An exit leaves every other object as it was. */
  lemma ExitKeepsOthers(s: TxScope, w: Work, event: ValidationEvent, subIndex: nat, other: ValidationEvent)
    requires KeysMatch(w.objects)
    requires IsExit(event) && Applicable(s, w, event)
    requires IsExit(other) && Applicable(s, w, other) && event.objectKey != other.objectKey
    ensures ApplyEvent(s, w, event, subIndex).Ok?
    ensures Applicable(s, ApplyEvent(s, w, event, subIndex).value.0, other)
  {
    EventMakesLegalMove(s, w, event, subIndex);
    var (next, chapter) := Outcome(s, w, event).value;
    MoveObjects(w, next, s.tx.txid, chapter);
  }

  /** What holds after the first `n` of a transaction's events. */
  ghost predicate Applied(s: TxScope, base: Tables, pre: Objects, w: Work, events: seq<ValidationEvent>, n: nat,
                          done: Progress, seen: set<Txid>)
  {
    && Inv(s.p, base, pre, s.height, done.work, if n == 0 then seen else seen + {s.tx.txid})
    && Traces(w.objects, done.work.objects, done.events)
    && |done.events| == n && RowsOf(s, done.events) && RowsTell(s, events, done.events)
    && (forall i :: n <= i < |events| ==> Applicable(s, done.work, events[i]))
  }

  lemma NextEventApplies(s: TxScope, base: Tables, pre: Objects, w: Work, events: seq<ValidationEvent>, n: nat,
                         before: Progress, seen: set<Txid>)
    requires 0 < n <= |events|
    requires Ready(s, w, events) && s.tx.txid !in seen
    requires Applied(s, base, pre, w, events, n - 1, before, seen)
    ensures ApplyEvent(s, before.work, events[n - 1], n - 1).Ok?
    ensures
      var (work, row) := ApplyEvent(s, before.work, events[n - 1], n - 1).value;
      Applied(s, base, pre, w, events, n, Progress(work, before.events + [row]), seen)
  {
    hide Inv, Traces, Applicable, ApplyEvent, MovesLegally, Describes, IsShaped, IsPlaced;
    var known := if n == 1 then seen else seen + {s.tx.txid};
    EventKeepsInv(s, base, pre, before.work, events[n - 1], n - 1, known);
    InvParts(s.p, base, pre, s.height, before.work, known);
    assert known + {s.tx.txid} == seen + {s.tx.txid};
    EventTraces(s, before.work, events[n - 1], n - 1, known);
    var (work, row) := ApplyEvent(s, before.work, events[n - 1], n - 1).value;
    TracesCompose(w.objects, before.work.objects, work.objects, before.events, [row]);
    forall i | n <= i < |events|
      ensures Applicable(s, work, events[i])
    {
      ExitKeepsOthers(s, before.work, events[n - 1], n - 1, events[i]);
    }
  }

  /** Ready events never throw, keep the invariant, and their rows trace what they did. */
  lemma {:induction false} EventsApply(s: TxScope, base: Tables, pre: Objects, w: Work, events: seq<ValidationEvent>,
                                       n: nat, seen: set<Txid>)
    requires n <= |events|
    requires Inv(s.p, base, pre, s.height, w, seen)
    requires Ready(s, w, events) && s.tx.txid !in seen
    ensures ApplyEvents(s, w, events, n).Ok?
    ensures Applied(s, base, pre, w, events, n, ApplyEvents(s, w, events, n).value, seen)
  {
    hide Inv, Traces, Applicable, ApplyEvent;
    if n == 0 {
      TracesNothing(w.objects);
    } else {
      EventsApply(s, base, pre, w, events, n - 1, seen);
      NextEventApplies(s, base, pre, w, events, n, ApplyEvents(s, w, events, n - 1).value, seen);
    }
  }

  /** The configured INIT spends no carrier and, while it is being activated, nothing else exists. */
  ghost predicate InitAlone(p: Protocol, w: Work, tx: Tx) {
    tx.txid == p.binding.initTxid ==> w.objects == map[]
  }

  /** The records are active objects of the working state, and the carriers are theirs. */
  ghost predicate CarriersStand(w: Work, records: seq<ObjectRecord>, carriers: seq<CarrierEvidence>) {
    && |carriers| == |records|
    && forall i :: 0 <= i < |records| ==>
         && carriers[i] == Carrier(records[i])
         && records[i].objectKey in w.objects && w.objects[records[i].objectKey] == records[i]
         && records[i].status.Active?
  }

  /** A consumed record's carrier is what the validator is promised. */
  lemma RecordIsPresented(p: Protocol, w: Work, tx: Tx, r: ObjectRecord, seen: set<Txid>)
    requires ObjectsOk(p, w.objects, seen) && IsConsumed(w, tx.inputs, r)
    ensures IsPresented(p, tx, Carrier(r))
  {
    assert RecordOk(p, r.objectKey, w.objects[r.objectKey], seen);
  }

  lemma ConsumedCarriersStand(p: Protocol, window: Window, w: Work, tx: Tx, height: nat, seen: set<Txid>)
    requires ObjectsOk(p, w.objects, seen) && IndexOk(w.objects, w.activeByOutpoint) && DistinctInputs(tx)
    ensures CarriersStand(w, Consumed(w, tx.inputs, |tx.inputs|), ContextOf(p, window, w, tx).carriers)
    ensures Presented(p, Evidence(tx, height), ContextOf(p, window, w, tx))
  {
    hide RecordOk;
    ConsumedExactly(p, w, tx.inputs, |tx.inputs|, seen);
    var records := Consumed(w, tx.inputs, |tx.inputs|);
    assert tx.inputs[..|tx.inputs|] == tx.inputs;
    forall i | 0 <= i < |records|
      ensures IsConsumed(w, tx.inputs, records[i]) && IsPresented(p, tx, Carrier(records[i]))
    {
      assert records[i] in records;
      RecordIsPresented(p, w, tx, records[i], seen);
    }
  }

  lemma CarrierlessIsReady(s: TxScope, w: Work, c: Context, v: Verdict, seen: set<Txid>)
    requires Lawful(s.p) && ObjectsOk(s.p, w.objects, seen) && s.tx.txid !in seen
    requires c.carriers == [] && LawfulVerdict(s.p, Evidence(s.tx, s.height), c, v)
    requires c.binding == s.p.binding && s.marker == v.marker
    ensures Ready(s, w, v.events)
  {
    CreateIsFresh(s.p, w, s.tx, seen);
  }

  lemma ExitsAreReady(s: TxScope, w: Work, records: seq<ObjectRecord>, carriers: seq<CarrierEvidence>, v: Verdict)
    requires CarriersStand(w, records, carriers)
    requires AllExit(carriers, v.events)
    ensures Ready(s, w, v.events)
    ensures |v.events| == |carriers|
  {
    forall i | 0 <= i < |v.events|
      ensures Applicable(s, w, v.events[i])
    {
      assert NamesOne(carriers, v.events[i]);
      var j :| 0 <= j < |carriers| && v.events[i].objectKey == Some(carriers[j].objectKey);
      assert carriers[j] == Carrier(records[j]);
    }
  }

  lemma OperationIsReady(s: TxScope, w: Work, records: seq<ObjectRecord>, carriers: seq<CarrierEvidence>, v: Verdict)
    requires CarriersStand(w, records, carriers) && |carriers| == 1
    requires |v.events| == 1 && OperatesOn(carriers[0], v.events[0], v.marker) && s.marker == v.marker
    requires MakesCarrier(s.p, s.tx, v.events[0].operation)
    ensures Ready(s, w, v.events)
  {
    assert carriers[0] == Carrier(records[0]);
  }

  /** A lawful verdict can be carried out, event by event. */
  lemma VerdictIsReady(p: Protocol, window: Window, w: Work, tx: Tx, txIndex: nat, height: nat, seen: set<Txid>)
    requires Lawful(p)
    requires ObjectsOk(p, w.objects, seen) && IndexOk(w.objects, w.activeByOutpoint)
    requires DistinctInputs(tx) && tx.txid !in seen && InitAlone(p, w, tx)
    ensures
      var context := ContextOf(p, window, w, tx);
      var verdict := VerdictOf(p, Evidence(tx, height), context);
      && p.validate(Evidence(tx, height), context).Some?
      && LawfulVerdict(p, Evidence(tx, height), context, verdict)
      && Ready(Scope(p, window, tx, txIndex, height, verdict), w, verdict.events)
      && (|verdict.events| <= 1 || |verdict.events| <= |tx.inputs|)
  {
    hide ObjectsOk, IndexOk, Ready, OperatesOn, AllExit, CarrierlessEvent, MakesCarrier, Presented, Applicable,
      RemainingCandidates, DistinctInputs;
    var records := Consumed(w, tx.inputs, |tx.inputs|);
    ConsumedCarriersStand(p, window, w, tx, height, seen);
    var context := ContextOf(p, window, w, tx);
    var verdict := VerdictOf(p, Evidence(tx, height), context);
    assert LawfulVerdict(p, Evidence(tx, height), context, verdict);
    var s := Scope(p, window, tx, txIndex, height, verdict);
    ConsumedCount(w, tx.inputs, |tx.inputs|);
    if context.carriers == [] {
      CarrierlessIsReady(s, w, context, verdict, seen);
    } else {
      assert records[0].objectKey in w.objects;
      if AllExit(context.carriers, verdict.events) {
        ExitsAreReady(s, w, records, context.carriers, verdict);
      } else {
        OperationIsReady(s, w, records, context.carriers, verdict);
      }
    }
  }

  lemma {:induction false} ConsumedCount(w: Work, inputs: seq<Input>, n: nat)
    requires n <= |inputs|
    ensures |Consumed(w, inputs, n)| <= n
  {
    if n > 0 {
      ConsumedCount(w, inputs, n - 1);
    }
  }

  lemma CreateIsFresh(p: Protocol, w: Work, tx: Tx, seen: set<Txid>)
    requires Lawful(p)
    requires ObjectsOk(p, w.objects, seen) && tx.txid !in seen
    ensures p.objectKeyOf(p.binding.namespace, tx.txid) !in w.objects
  {
    assert forall k :: k in w.objects ==>
             w.objects[k].createTxid in seen && k == p.objectKeyOf(p.binding.namespace, w.objects[k].createTxid);
  }

  /** Classifying a transaction never throws and keeps the invariant; its rows trace what it did. */
  lemma ClassifyKeepsInv(p: Protocol, window: Window, base: Tables, pre: Objects, w: Work, tx: Tx, txIndex: nat,
                         height: nat, seen: set<Txid>)
    requires Lawful(p)
    requires Inv(p, base, pre, height, w, seen)
    requires DistinctInputs(tx) && tx.txid !in seen && InitAlone(p, w, tx)
    ensures Classify(p, window, w, tx, txIndex, height).Ok?
    ensures
      var done := Classify(p, window, w, tx, txIndex, height).value;
      var verdict := VerdictOf(p, Evidence(tx, height), ContextOf(p, window, w, tx));
      && Inv(p, base, pre, height, done.work, seen + {tx.txid})
      && Traces(w.objects, done.work.objects, done.events)
      && RowsOf(Scope(p, window, tx, txIndex, height, verdict), done.events)
      && |done.events| == (if verdict.relevant then |verdict.events| else 0)
      && RowsTell(Scope(p, window, tx, txIndex, height, verdict), verdict.events, done.events)
      && (|done.events| <= 1 || |done.events| <= |tx.inputs|)
  {
    hide Inv, Traces, Ready, ApplyEvents, RemainingCandidates;
    InvParts(p, base, pre, height, w, seen);
    VerdictIsReady(p, window, w, tx, txIndex, height, seen);
    var verdict := VerdictOf(p, Evidence(tx, height), ContextOf(p, window, w, tx));
    var s := Scope(p, window, tx, txIndex, height, verdict);
    InvSees(p, base, pre, height, w, seen, seen + {tx.txid});
    TracesNothing(w.objects);
    if verdict.relevant && verdict.events != [] {
      EventsApply(s, base, pre, w, verdict.events, |verdict.events|, seen);
    }
  }
}
