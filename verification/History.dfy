/**
 * Event rows as a history of the objects: folding the reference machine over them leads from the
 * objects before to the objects after, and they count every step of every sequence.
 */
module History {
  import opened Prelude
  import opened Bitcoin
  import opened StateEngine
  import opened Tandem
  import opened Reducer
  import opened Moves

  function Transitions(rows: seq<EventRecord>): seq<StateTransition> {
    if rows == [] then []
    else
      Transitions(rows[..|rows| - 1]) +
      match TransitionOf(rows[|rows| - 1]) case None => [] case Some(t) => [t]
  }

  /** How many rows are a valid MARK, ROTATE or CLOSE of the object. */
  function CountUps(rows: seq<EventRecord>, key: Key): nat {
    if rows == [] then 0
    else CountUps(rows[..|rows| - 1], key) + if CountsUp(rows[|rows| - 1], key) then 1 else 0
  }

  function SequenceOf(objects: Objects, key: Key): nat {
    if key in objects then objects[key].stateSequence else 0
  }

  ghost predicate Traces(before: Objects, after: Objects, rows: seq<EventRecord>) {
    && Run(View(before), Transitions(rows)) == Ok(View(after))
    && before.Keys <= after.Keys
    && (forall k :: SequenceOf(after, k) == SequenceOf(before, k) + CountUps(rows, k))
    && (forall k :: k in before && !before[k].status.Active? ==> after[k] == before[k])
  }

  lemma {:induction false} TransitionsAppend(a: seq<EventRecord>, b: seq<EventRecord>)
    ensures Transitions(a + b) == Transitions(a) + Transitions(b)
  {
    if b == [] {
      assert a + b == a;
    } else {
      assert (a + b)[..|a + b| - 1] == a + b[..|b| - 1];
      TransitionsAppend(a, b[..|b| - 1]);
    }
  }

  lemma {:induction false} CountUpsAppend(a: seq<EventRecord>, b: seq<EventRecord>, key: Key)
    ensures CountUps(a + b, key) == CountUps(a, key) + CountUps(b, key)
  {
    if b == [] {
      assert a + b == a;
    } else {
      assert (a + b)[..|a + b| - 1] == a + b[..|b| - 1];
      CountUpsAppend(a, b[..|b| - 1], key);
    }
  }

  lemma {:induction false} RunAppend(states: States, a: seq<StateTransition>, b: seq<StateTransition>)
    requires Run(states, a).Ok?
    ensures Run(states, a + b) == Run(Run(states, a).value, b)
  {
    if b == [] {
      assert a + b == a;
    } else {
      assert (a + b)[..|a + b| - 1] == a + b[..|b| - 1];
      RunAppend(states, a, b[..|b| - 1]);
    }
  }

  lemma TracesNothing(objects: Objects)
    ensures Traces(objects, objects, [])
  {
  }

  lemma TracesCompose(a: Objects, b: Objects, c: Objects, first: seq<EventRecord>, second: seq<EventRecord>)
    requires Traces(a, b, first) && Traces(b, c, second)
    ensures Traces(a, c, first + second)
  {
    TransitionsAppend(first, second);
    RunAppend(View(a), Transitions(first), Transitions(second));
    forall k {
      CountUpsAppend(first, second, k);
    }
  }

  /** One row that records one legal move. */
  lemma MoveTraces(p: Protocol, w: Work, next: ObjectRecord, txid: Txid, height: nat, chapter: Option<Chapter>,
                   row: EventRecord)
    requires KeysMatch(w.objects)
    requires forall k :: k in w.objects && w.objects[k].status.Active? ==> w.objects[k].currentOutpoint.Some?
    requires Legal(p, Lookup(w.objects, next.objectKey), next, txid, height, chapter)
    requires Records(row, Lookup(w.objects, next.objectKey), next, txid, chapter)
    ensures Traces(w.objects, Move(w, next, txid, chapter).objects, [row])
  {
    hide Move, Records, TransitionOf, ApplyStateTransition, CountUps, CountsUp;
    MoveRefinesEngine(p, w, next, txid, height, chapter, row);
    MoveObjects(w, next, txid, chapter);
    SingleTransition(View(w.objects), row);
    SequenceCounted(p, w.objects, next, txid, height, chapter, row);
    assert Traces(w.objects, w.objects[next.objectKey := next], [row]);
  }

  lemma SingleTransition(states: States, row: EventRecord)
    requires TransitionOf(row).Some?
    ensures Run(states, Transitions([row])) == ApplyStateTransition(states, TransitionOf(row).value)
  {
    hide TransitionOf, ApplyStateTransition, Run;
    assert [row][..0] == [];
    assert Transitions([row]) == [] + [TransitionOf(row).value];
    assert [] + [TransitionOf(row).value] == [TransitionOf(row).value];
    RunOne(states, TransitionOf(row).value);
  }

  lemma RunOne(states: States, t: StateTransition)
    ensures Run(states, [t]) == ApplyStateTransition(states, t)
  {
    hide ApplyStateTransition;
    assert [t][..0] == [];
  }

  lemma SequenceCounted(p: Protocol, objects: Objects, next: ObjectRecord, txid: Txid, height: nat,
                        chapter: Option<Chapter>, row: EventRecord)
    requires Legal(p, Lookup(objects, next.objectKey), next, txid, height, chapter)
    requires Records(row, Lookup(objects, next.objectKey), next, txid, chapter)
    ensures forall k :: SequenceOf(objects[next.objectKey := next], k) == SequenceOf(objects, k) + CountUps([row], k)
  {
    forall k
      ensures CountUps([row], k) == if CountsUp(row, k) then 1 else 0
    {
      assert [row][..0] == [];
    }
  }

  /** A row without an object moves nothing. */
  lemma IdleTraces(objects: Objects, row: EventRecord)
    requires row.objectKey == None
    ensures Traces(objects, objects, [row])
  {
    assert [row][..0] == [];
    forall k
      ensures CountUps([row], k) == 0
    {
      assert [row][..0] == [];
    }
  }
}
