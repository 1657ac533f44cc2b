/** Per-object and whole-table counts that hold of every replayed chain. */
module Conservation {
  import opened Prelude
  import opened Bitcoin
  import opened StateEngine
  import opened Tandem
  import opened Reducer
  import opened Moves
  import opened Schema
  import opened Written
  import opened Invariants
  import opened History
  import opened Blocks
  import opened Appending
  import opened RollingBack
  import opened Activation
  import opened Chain

  // ----- carriers -----------------------------------------------------------------------------

  function Unspent(m: CarrierTable): set<Outpoint> {
    set o | o in m && m[o].spent.None?
  }

  ghost function TotalValue(m: CarrierTable, outpoints: set<Outpoint>): nat
    requires forall o :: o in outpoints ==> o in m
  {
    if outpoints == {} then 0
    else
      var o :| o in outpoints;
      m[o].valueSats + TotalValue(m, outpoints - {o})
  }

  lemma {:induction false} EachHoldsCarrierValue(m: CarrierTable, outpoints: set<Outpoint>)
    requires forall o :: o in outpoints ==> o in m && m[o].valueSats == CARRIER_VALUE
    ensures TotalValue(m, outpoints) == CARRIER_VALUE * |outpoints|
  {
    if outpoints != {} {
      var o :| o in outpoints && TotalValue(m, outpoints) == m[o].valueSats + TotalValue(m, outpoints - {o});
      EachHoldsCarrierValue(m, outpoints - {o});
    }
  }

  /** Two sets of which each element of one names exactly one of the other have the same size. */
  lemma {:induction false} SameSize(outpoints: set<Outpoint>, keys: set<Key>, owner: map<Outpoint, Key>)
    requires forall o :: o in outpoints ==> o in owner && owner[o] in keys
    requires forall k :: k in keys ==> exists o :: o in outpoints && owner[o] == k
    requires forall o, u :: o in outpoints && u in outpoints && owner[o] == owner[u] ==> o == u
    ensures |outpoints| == |keys|
  {
    if outpoints == {} {
      assert forall k :: k !in keys;
    } else {
      var o :| o in outpoints;
      var fewer, others := outpoints - {o}, keys - {owner[o]};
      forall k | k in others
        ensures exists u :: u in fewer && owner[u] == k
      {
        var u :| u in outpoints && owner[u] == k;
        assert u in fewer;
      }
      SameSize(fewer, others, owner);
    }
  }

  /**
   * The unspent carrier rows correspond one to one with the active objects, and hold 20,000 satoshis
   * each.
   */
  lemma UnspentAreActive(p: Protocol, chain: seq<Block>, c: Canon)
    requires CanonOk(p, chain, c)
    ensures forall k :: k in ActiveKeys(c.objects) ==>
              && c.objects[k].currentOutpoint.Some?
              && c.objects[k].currentOutpoint.value in Unspent(c.tables.carriers)
              && c.tables.carriers[c.objects[k].currentOutpoint.value].objectKey == k
    ensures forall o :: o in Unspent(c.tables.carriers) ==>
              && c.tables.carriers[o].objectKey in ActiveKeys(c.objects)
              && c.objects[c.tables.carriers[o].objectKey].currentOutpoint == Some(o)
    ensures |Unspent(c.tables.carriers)| == |ActiveKeys(c.objects)|
    ensures TotalValue(c.tables.carriers, Unspent(c.tables.carriers)) == 20_000 * |ActiveKeys(c.objects)|
  {
    var m, carriers := c.tables.states, c.tables.carriers;
    forall k | k in ActiveKeys(c.objects)
      ensures c.objects[k].currentOutpoint.Some?
      ensures c.objects[k].currentOutpoint.value in Unspent(carriers)
      ensures carriers[c.objects[k].currentOutpoint.value].objectKey == k
    {
      assert RecordOk(p, k, c.objects[k], ChainTxids(chain));
      assert RowBelongs(m, c.objects[k].currentOutpoint.value, c.objects, ChainTxids(chain));
    }
    forall o | o in Unspent(carriers)
      ensures carriers[o].objectKey in ActiveKeys(c.objects)
      ensures c.objects[carriers[o].objectKey].currentOutpoint == Some(o)
    {
      assert RowBelongs(m, o, c.objects, ChainTxids(chain));
      assert RecordOk(p, m[o].objectKey, c.objects[m[o].objectKey], ChainTxids(chain));
    }
    SameSize(Unspent(carriers), ActiveKeys(c.objects), map o | o in carriers :: carriers[o].objectKey);
    EachHoldsCarrierValue(carriers, Unspent(carriers));
  }

  // ----- events -------------------------------------------------------------------------------

  /** The stored events that count the object's sequence up. */
  function Counting(events: EventTable, key: Key): set<EventPosition> {
    set e | e in events && CountsUp(events[e], key)
  }

  lemma CountingGrows(m: EventTable, e: EventPosition, row: EventRecord, key: Key)
    requires e !in m
    ensures |Counting(m[e := row], key)| == |Counting(m, key)| + if CountsUp(row, key) then 1 else 0
  {
    assert Counting(m[e := row], key) == Counting(m, key) + if CountsUp(row, key) then {e} else {};
  }

  lemma NextPositionIsNew(m: EventTable, height: nat, rows: seq<EventRecord>, n: nat)
    requires n < |rows|
    requires forall i, j :: 0 <= i < j < |rows| ==> PositionOf(height, rows[i]) != PositionOf(height, rows[j])
    requires forall e :: e in m ==> e.height != height
    ensures PositionOf(height, rows[n]) !in PutEvents(m, height, rows, n)
  {
    hide PutEvents;
    PutEventsRows(m, height, rows, n);
  }

  lemma {:induction false} PutEventsCounts(m: EventTable, height: nat, rows: seq<EventRecord>, n: nat, key: Key)
    requires n <= |rows|
    requires forall i, j :: 0 <= i < j < |rows| ==> PositionOf(height, rows[i]) != PositionOf(height, rows[j])
    requires forall e :: e in m ==> e.height != height
    ensures |Counting(PutEvents(m, height, rows, n), key)| == |Counting(m, key)| + CountUps(rows[..n], key)
  {
    hide CountsUp, PositionOf, Counting;
    if n > 0 {
      PutEventsCounts(m, height, rows, n - 1, key);
      NextPositionIsNew(m, height, rows, n - 1);
      assert rows[..n][..n - 1] == rows[..n - 1];
      CountingGrows(PutEvents(m, height, rows, n - 1), PositionOf(height, rows[n - 1]), rows[n - 1], key);
    }
  }

  /** The counters of a reduced block are sizes of its object map. */
  lemma CountersCount(p: Protocol, activation: Option<InitActivation>, root: Hash, objects: Objects, block: Block)
    requires Reduce(p, activation, root, objects, block).Ok?
    ensures
      var r := Reduce(p, activation, root, objects, block).value;
      && r.foundingCreated == |FoundingKeys(r.work.objects)|
      && r.allObjects == |r.work.objects| && r.activeObjects == |ActiveKeys(r.work.objects)|
  {
    hide Activate, ClassifyBlock, StartOf, TxRows, CanonicalEvents, Snapshots;
  }

  lemma TracedSequences(before: Objects, after: Objects, rows: seq<EventRecord>)
    requires Traces(before, after, rows)
    ensures forall k :: SequenceOf(after, k) == SequenceOf(before, k) + CountUps(rows, k)
  {
    hide Run, Transitions;
  }

  /** What a reduced block's counters count, and what its rows do to the sequences. */
  lemma ReducedCounts(p: Protocol, chain: seq<Block>, block: Block)
    requires Lawful(p) && ValidChain(p, chain + [block])
    ensures ReduceNext(p, CanonOf(p, chain), block).Ok?
    ensures
      var r := ReduceNext(p, CanonOf(p, chain), block).value;
      && r.height == block.height
      && r.foundingCreated == |FoundingKeys(r.work.objects)|
      && r.allObjects == |r.work.objects| && r.activeObjects == |ActiveKeys(r.work.objects)|
      && (forall k :: SequenceOf(r.work.objects, k) == SequenceOf(CanonOf(p, chain).objects, k) + CountUps(r.events, k))
      && (forall i, j :: 0 <= i < j < |r.events| ==>
            PositionOf(r.height, r.events[i]) != PositionOf(r.height, r.events[j]))
  {
    hide CanonOf, CanonOk, Reduce, Inv, InOrder, Traces, ActivationOk, ValidChain, FoundingKeys, ActiveKeys, TxRows;
    ReplayExtends(p, chain, block);
    ChainReplays(p, chain);
    var c := CanonOf(p, chain);
    BlockReduces(p, chain, block, c);
    CountersCount(p, c.activation, c.root, c.objects, block);
    var r := ReduceNext(p, c, block).value;
    TracedSequences(c.objects, r.work.objects, r.events);
    EventsInOrder(r.events, block.txs, r.height);
  }

  /**
   * In every replayed chain an object's state sequence is the number of its stored MARK, ROTATE and
   * CLOSE events.
   */
  lemma {:induction false} SequencesCountEvents(p: Protocol, chain: seq<Block>, key: Key)
    requires Lawful(p) && ValidChain(p, chain)
    ensures SequenceOf(CanonOf(p, chain).objects, key) == |Counting(TablesOf(p, chain).events, key)|
  {
    hide CanonOf, ReduceNext, ValidChain, AfterBlock, WriteBlock, CountsUp, CanonOk, PositionOf;
    if chain == [] {
      EmptyCounts(p, key);
    } else {
      var front, last := chain[..|chain| - 1], chain[|chain| - 1];
      assert front + [last] == chain;
      ReplayExtends(p, front, last);
      SequencesCountEvents(p, front, key);
      ReducedCounts(p, front, last);
      var r := ReduceNext(p, CanonOf(p, front), last).value;
      EventsBelow(p, front, last);
      PutEventsCounts(TablesOf(p, front).events, r.height, r.events, |r.events|, key);
      assert r.events[..|r.events|] == r.events;
      AfterBlockEvents(TablesOf(p, front), r);
    }
  }

  lemma EmptyCounts(p: Protocol, key: Key)
    ensures SequenceOf(CanonOf(p, []).objects, key) == |Counting(TablesOf(p, []).events, key)|
  {
    assert Counting(map[], key) == {};
  }

  lemma AfterBlockEvents(t: Tables, r: ReducedBlock)
    ensures AfterBlock(t, r).events == PutEvents(t.events, r.height, r.events, |r.events|)
    ensures r.height in AfterBlock(t, r).checkpoints && AfterBlock(t, r).checkpoints[r.height] == CheckpointOf(r)
  {
  }

  lemma EventsBelow(p: Protocol, chain: seq<Block>, block: Block)
    requires Lawful(p) && ValidChain(p, chain + [block])
    ensures forall e :: e in TablesOf(p, chain).events ==> e.height != block.height
  {
    hide CanonOf, StatesOk, ChaptersOk, ObjectsOk;
    ReplayExtends(p, chain, block);
    ChainReplays(p, chain);
    NextBlockIsNew(p, chain, block, CanonOf(p, chain));
  }

  /** The tip checkpoint counts the objects, and 20,000 satoshis for every active one are unspent. */
  lemma CheckpointCounts(p: Protocol, chain: seq<Block>)
    requires Lawful(p) && ValidChain(p, chain) && chain != []
    ensures
      var t, tip := TablesOf(p, chain), chain[|chain| - 1].height;
      && tip in t.checkpoints
      && t.checkpoints[tip].allObjects == |CanonOf(p, chain).objects|
      && t.checkpoints[tip].foundingCreated == |FoundingKeys(CanonOf(p, chain).objects)|
      && t.checkpoints[tip].activeObjects == |Unspent(t.carriers)|
      && TotalValue(t.carriers, Unspent(t.carriers)) == 20_000 * t.checkpoints[tip].activeObjects
  {
    hide CanonOf, ReduceNext, ValidChain, AfterBlock, WriteBlock, CanonOk, Unspent, TotalValue, ActiveKeys,
      FoundingKeys;
    var front, last := chain[..|chain| - 1], chain[|chain| - 1];
    assert front + [last] == chain;
    ReplayExtends(p, front, last);
    ChainReplays(p, chain);
    ReducedCounts(p, front, last);
    AfterBlockEvents(TablesOf(p, front), ReduceNext(p, CanonOf(p, front), last).value);
    UnspentAreActive(p, chain, CanonOf(p, chain));
  }

  /** An object's carriers are numbered from 0 without a gap, as many as its status allows; its chapters are counted. */
  lemma ObjectsAreAccounted(p: Protocol, chain: seq<Block>, k: Key)
    requires Lawful(p) && ValidChain(p, chain) && k in CanonOf(p, chain).objects
    ensures
      var r, t := CanonOf(p, chain).objects[k], TablesOf(p, chain);
      && (forall n :: HasRow(t.states, k, n) <==> 0 <= n < Bound(r))
      && r.chapterCount == |ChaptersOf(t.chapters, k)|
      && (r.status.Active? <==> r.terminalTxid.None?)
  {
    hide CanonOf;
    ChainReplays(p, chain);
    var c := CanonOf(p, chain);
    assert RecordOk(p, k, c.objects[k], ChainTxids(chain));
    forall n
      ensures HasRow(c.tables.states, k, n) <==> 0 <= n < Bound(c.objects[k])
    {
      if HasRow(c.tables.states, k, n) {
        var o :| o in c.tables.states && c.tables.states[o].objectKey == k && c.tables.states[o].sequence == n;
        assert RowBelongs(c.tables.states, o, c.objects, ChainTxids(chain));
      }
    }
  }
}
