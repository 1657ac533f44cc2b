/** What the event and object roots of a checkpoint are roots of, and what equal chained roots commit to. */
module Contents {
  import opened Prelude
  import opened Bitcoin
  import opened StateEngine
  import opened Tandem
  import opened Reducer
  import opened Moves
  import opened Schema
  import opened Invariants
  import opened History
  import opened Blocks
  import opened Chain
  import opened Commitment
  import opened StoredEvents
  import opened StoredRows
  import opened Ledger
  import opened StoredLedger
  import ChainTheorems

  // ----- leaves -------------------------------------------------------------------------------

  /** The value, or zeros where there is none. */
  predicate Fills<T(==)>(field: T, value: Option<T>, zeros: T) {
    if value.Some? then field == value.value else field == zeros
  }

  /** The leaf holds the row, field by field. */
  predicate IsLeaf(c: CanonicalEvent, height: nat, blockHash: Hash, row: EventRecord) {
    && c.namespace == row.namespace && c.blockHash == blockHash && c.height == height
    && c.txIndex == row.txIndex && c.eventIndex == row.eventIndex && c.subIndex == row.subIndex
    && c.eventType == row.eventType && c.validity == row.validity && c.reason == row.reason
    && c.txid == row.txid && c.wtxid == row.wtxid && c.stateSequence == row.stateSequence
    && Fills(c.objectKey, row.objectKey, 0)
    && Fills(c.predecessor, row.predecessor, Outpoint(0, 0)) && Fills(c.successor, row.successor, Outpoint(0, 0))
    && Fills(c.key0, row.key0, Zeros(33)) && Fills(c.key1, row.key1, Zeros(33))
    && Fills(c.commitment, row.commitment, Zeros(32))
  }

  /** The leaves ascend in the order of their places. */
  predicate LeafBefore(a: CanonicalEvent, b: CanonicalEvent) {
    || a.txIndex < b.txIndex
    || (a.txIndex == b.txIndex && a.eventIndex < b.eventIndex)
    || (a.txIndex == b.txIndex && a.eventIndex == b.eventIndex && a.subIndex < b.subIndex)
  }

  predicate LeavesAscend(leaves: seq<CanonicalEvent>) {
    forall i, j :: 0 <= i < j < |leaves| ==> LeafBefore(leaves[i], leaves[j])
  }

  function PlaceOfLeaf(c: CanonicalEvent): EventPosition {
    EventPosition(c.height, c.txIndex, c.eventIndex, c.subIndex)
  }

  /** The leaves are the stored events of a height, in the order of their places. */
  ghost predicate LeavesAre(m: EventTable, height: nat, blockHash: Hash, leaves: seq<CanonicalEvent>) {
    && LeavesAscend(leaves) && |leaves| == |EventsAt(m, height)|
    && forall i :: 0 <= i < |leaves| ==>
         PlaceOfLeaf(leaves[i]) in m && IsLeaf(leaves[i], height, blockHash, m[PlaceOfLeaf(leaves[i])])
  }

  predicate IsSnapshot(s: ObjectSnapshot, key: Key, row: ObjectRow) {
    && s.objectKey == key && s.founding == row.founding && s.status == row.status
    && s.createHeight == row.createHeight && s.stateSequence == row.stateSequence && s.chapterCount == row.chapterCount
    && s.key0 == row.key0 && s.key1 == row.key1
    && Fills(s.currentOutpoint, row.currentOutpoint, Outpoint(0, 0)) && Fills(s.terminalTxid, row.terminalTxid, 0)
  }

  /** The snapshots are the stored objects. */
  predicate SnapshotsAre(objects: ObjectTable, snapshots: map<Key, ObjectSnapshot>) {
    snapshots.Keys == objects.Keys && forall k :: k in objects ==> IsSnapshot(snapshots[k], k, objects[k])
  }

  // ----- what the roots are taken over --------------------------------------------------------

  lemma ReducedRoots(p: Protocol, activation: Option<InitActivation>, root: Hash, objects: Objects, block: Block)
    requires Reduce(p, activation, root, objects, block).Ok?
    ensures
      var r := Reduce(p, activation, root, objects, block).value;
      && r.eventRoot == p.eventRoot(p.binding.namespace, CanonicalEvents(r.events, block.hash, block.height))
      && r.objectStateRoot == p.objectStateRoot(p.binding.namespace, Snapshots(r.work.objects))
  {
    hide Activate, ClassifyBlock, StartOf, TxRows, CanonicalEvents, Snapshots, FoundingKeys, ActiveKeys;
  }

  lemma LeavesAscendInOrder(rows: seq<EventRecord>, blockHash: Hash, height: nat)
    requires forall i, j :: 0 <= i < j < |rows| ==> Before(rows[i], rows[j])
    ensures LeavesAscend(CanonicalEvents(rows, blockHash, height))
  {
  }

  lemma RowsAreLeaves(m: EventTable, rows: seq<EventRecord>, blockHash: Hash, height: nat)
    requires StoresRows(m, height, rows)
    ensures
      var leaves := CanonicalEvents(rows, blockHash, height);
      forall i :: 0 <= i < |leaves| ==>
        PlaceOfLeaf(leaves[i]) in m && IsLeaf(leaves[i], height, blockHash, m[PlaceOfLeaf(leaves[i])])
  {
    var leaves := CanonicalEvents(rows, blockHash, height);
    forall i | 0 <= i < |leaves|
      ensures PlaceOfLeaf(leaves[i]) in m && IsLeaf(leaves[i], height, blockHash, m[PlaceOfLeaf(leaves[i])])
    {
      assert PlaceOfLeaf(leaves[i]) == PositionOf(height, rows[i]);
    }
  }

  lemma {:induction false} CheckpointStays(p: Protocol, chain: seq<Block>, i: nat)
    requires Lawful(p) && ValidChain(p, chain) && i < |chain|
    ensures ValidChain(p, chain[..i]) && ReduceNext(p, CanonOf(p, chain[..i]), chain[i]).Ok?
    ensures chain[i].height in TablesOf(p, chain).checkpoints
    ensures TablesOf(p, chain).checkpoints[chain[i].height] ==
            CheckpointOf(ReduceNext(p, CanonOf(p, chain[..i]), chain[i]).value)
  {
    hide CanonOf, Reduce, ValidChain, WriteBlock, BlockIsStored;
    var front, last := chain[..|chain| - 1], chain[|chain| - 1];
    assert front + [last] == chain;
    ReplayExtends(p, front, last);
    ReducedHeight(p, front, last);
    AfterBlockCheckpoints(TablesOf(p, front), ReduceNext(p, CanonOf(p, front), last).value);
    if i < |front| {
      CheckpointStays(p, front, i);
      assert front[..i] == chain[..i];
      StoredLedger.ValidHeightsDiffer(p, chain);
    } else {
      assert chain[..i] == front;
    }
  }

  /** The leaves that the event root of a stored block is taken over. */
  ghost function LeavesOf(p: Protocol, chain: seq<Block>, i: nat): seq<CanonicalEvent>
    requires i < |chain|
  {
    match ReduceNext(p, CanonOf(p, chain[..i]), chain[i])
    case Ok(r) => CanonicalEvents(r.events, chain[i].hash, chain[i].height)
    case Err(_) => []
  }

  /**
   * The event root of every stored checkpoint is the root of the events stored at its height, in the order of
   * their places.
   */
  lemma EventRootTells(p: Protocol, chain: seq<Block>, i: nat)
    requires Lawful(p) && ValidChain(p, chain) && i < |chain|
    ensures chain[i].height in TablesOf(p, chain).checkpoints
    ensures TablesOf(p, chain).checkpoints[chain[i].height].eventRoot
         == p.eventRoot(p.binding.namespace, LeavesOf(p, chain, i))
    ensures LeavesAre(TablesOf(p, chain).events, chain[i].height, chain[i].hash, LeavesOf(p, chain, i))
  {
    hide CanonOf, Reduce, ValidChain, StoresRows, CanonicalEvents, LeavesAscend, IsLeaf, InOrder, Traces, BlockIsStored,
      EventsAt;
    CheckpointStays(p, chain, i);
    RowsStay(p, chain, i);
    var front, block := chain[..i], chain[i];
    ChainTheorems.BlockTraces(p, front, block);
    var c := CanonOf(p, front);
    var r := ReduceNext(p, c, block).value;
    ReducedRoots(p, c.activation, c.root, c.objects, block);
    InOrderAscends(r.events, block.txs);
    LeavesAscendInOrder(r.events, block.hash, block.height);
    RowsAreLeaves(TablesOf(p, chain).events, r.events, block.hash, block.height);
    CountRows(TablesOf(p, chain).events, block.height, r.events);
    LeafCount(r.events, block.hash, block.height);
  }

  lemma LeafCount(rows: seq<EventRecord>, blockHash: Hash, height: nat)
    ensures |CanonicalEvents(rows, blockHash, height)| == |rows|
  {
  }

  lemma InOrderAscends(rows: seq<EventRecord>, txs: seq<Tx>)
    requires InOrder(rows, txs, |txs|)
    ensures forall i, j :: 0 <= i < j < |rows| ==> Before(rows[i], rows[j])
  {
  }

  lemma CountRows(m: EventTable, height: nat, rows: seq<EventRecord>)
    requires StoresRows(m, height, rows)
    requires forall i, j :: 0 <= i < j < |rows| ==> Before(rows[i], rows[j])
    ensures |EventsAt(m, height)| == |rows|
  {
    var places := seq(|rows|, i requires 0 <= i < |rows| => PositionOf(height, rows[i]));
    forall e
      ensures e in EventsAt(m, height) <==> e in places
    {
      if e in EventsAt(m, height) {
        var i :| 0 <= i < |rows| && PositionOf(height, rows[i]) == e;
        assert places[i] == e;
      }
    }
    assert EventsAt(m, height) == set e | e in places;
    DistinctCount(places);
  }

  lemma {:induction false} DistinctCount(places: seq<EventPosition>)
    requires forall i, j :: 0 <= i < j < |places| ==> places[i] != places[j]
    ensures |set e | e in places| == |places|
  {
    if places != [] {
      var n := |places| - 1;
      DistinctCount(places[..n]);
      assert (set e | e in places) == (set e | e in places[..n]) + {places[n]};
    }
  }

  /** The object state root of the tip checkpoint is the root of the stored objects. */
  lemma StateRootTells(p: Protocol, chain: seq<Block>)
    requires Lawful(p) && ValidChain(p, chain) && chain != []
    ensures
      var t, tip := TablesOf(p, chain), chain[|chain| - 1].height;
      && tip in t.checkpoints
      && t.checkpoints[tip].objectStateRoot
         == p.objectStateRoot(p.binding.namespace, Snapshots(CanonOf(p, chain).objects))
      && SnapshotsAre(t.objects, Snapshots(CanonOf(p, chain).objects))
  {
    hide CanonOf, Reduce, ValidChain, WriteBlock, BlockIsStored, ObjectRows, Snapshots, SnapshotsAre;
    var front, last := chain[..|chain| - 1], chain[|chain| - 1];
    assert front + [last] == chain;
    ReplayExtends(p, front, last);
    CheckpointStays(p, chain, |chain| - 1);
    var c := CanonOf(p, front);
    ReducedRoots(p, c.activation, c.root, c.objects, last);
    ObjectRowsAre(p, chain);
    RowsAreSnapshots(p, chain);
  }

  lemma RowsAreSnapshots(p: Protocol, chain: seq<Block>)
    requires Lawful(p) && ValidChain(p, chain)
    ensures SnapshotsAre(ObjectRows(CanonOf(p, chain).objects), Snapshots(CanonOf(p, chain).objects))
  {
    hide CanonOf, StatesOk, ChaptersOk, AllBelow, BlocksMatch, EventsMatch;
    ChainReplays(p, chain);
    var objects := CanonOf(p, chain).objects;
    forall k | k in objects
      ensures IsSnapshot(Snapshot(objects[k]), k, ObjectRowOf(objects[k]))
    {
      assert RecordOk(p, k, objects[k], ChainTxids(chain));
    }
  }

  // ----- what equal roots commit to -----------------------------------------------------------

  /**
   * The event root is collision free on leaves at ascending places, which the package sorts and checks, and the
   * object state root on objects by key.
   */
  ghost predicate RootsCommit(p: Protocol) {
    && (forall n, a, b :: LeavesAscend(a) && LeavesAscend(b) && p.eventRoot(n, a) == p.eventRoot(n, b) ==> a == b)
    && (forall n, a, b :: p.objectStateRoot(n, a) == p.objectStateRoot(n, b) ==> a == b)
  }

  /** A row without what no root holds. */
  function Bare(row: EventRecord): EventRecord {
    row.(markerPayload := None)
  }

  /** Zeros never stand for two things: type and validity tell what is there. */
  lemma ZerosAreClear(p: Protocol, a: EventRecord, b: EventRecord, c: CanonicalEvent, height: nat, blockHash: Hash)
    requires IsShaped(p, a) && IsShaped(p, b)
    requires IsLeaf(c, height, blockHash, a) && IsLeaf(c, height, blockHash, b)
    ensures Bare(a) == Bare(b)
  {
    hide Zeros;
  }

  ghost predicate AllShaped(p: Protocol, m: EventTable) {
    forall e :: e in m ==> IsShaped(p, m[e])
  }

  /** The stored events lie in the chain. */
  lemma EventIsInChain(p: Protocol, chain: seq<Block>, e: EventPosition) returns (i: nat)
    requires Lawful(p) && ValidChain(p, chain) && e in TablesOf(p, chain).events
    ensures i < |chain| && chain[i].height == e.height
  {
    hide CanonOf, ObjectsOk, StatesOk, ChaptersOk, AllBelow;
    ChainReplays(p, chain);
    assert e.height in TablesOf(p, chain).blocks;
    i := e.height - chain[0].height;
  }

  lemma EventsAreShaped(p: Protocol, chain: seq<Block>)
    requires Lawful(p) && ValidChain(p, chain)
    ensures AllShaped(p, TablesOf(p, chain).events)
  {
    hide CanonOf, ValidChain, IsShaped, Describes, IsPlaced, ContextOf, RemainingCandidates, ActivationAt;
    forall e | e in TablesOf(p, chain).events
      ensures IsShaped(p, TablesOf(p, chain).events[e])
    {
      var i := EventIsInChain(p, chain, e);
      EventsAreVerdicts(p, chain, i);
    }
  }

  ghost predicate SameBare(m: EventTable, n: EventTable) {
    m.Keys == n.Keys && forall e :: e in m ==> Bare(m[e]) == Bare(n[e])
  }

  /** Every stored event of a block is one of its leaves. */
  lemma EventHasLeaf(m: EventTable, height: nat, blockHash: Hash, leaves: seq<CanonicalEvent>, e: EventPosition)
    requires LeavesAre(m, height, blockHash, leaves) && e in m && e.height == height
    ensures exists i :: 0 <= i < |leaves| && PlaceOfLeaf(leaves[i]) == e
  {
    var places := seq(|leaves|, i requires 0 <= i < |leaves| => PlaceOfLeaf(leaves[i]));
    var all := set place | place in places;
    forall i, j | 0 <= i < j < |places|
      ensures places[i] != places[j]
    {
      assert LeafBefore(leaves[i], leaves[j]);
    }
    DistinctCount(places);
    assert all <= EventsAt(m, height);
    SubsetOfSameSize(all, EventsAt(m, height));
    assert e in all;
    var i :| 0 <= i < |places| && places[i] == e;
  }

  lemma SubsetOfSameSize(a: set<EventPosition>, b: set<EventPosition>)
    requires a <= b && |a| == |b|
    ensures a == b
  {
    assert b == a + (b - a);
  }

  lemma SameLeavesSameRows(p: Protocol, m: EventTable, n: EventTable, height: nat, blockHash: Hash,
                           leaves: seq<CanonicalEvent>, e: EventPosition)
    requires AllShaped(p, m) && AllShaped(p, n)
    requires LeavesAre(m, height, blockHash, leaves) && LeavesAre(n, height, blockHash, leaves)
    requires e in m && e.height == height
    ensures e in n && Bare(m[e]) == Bare(n[e])
  {
    hide IsShaped, IsLeaf, LeavesAscend;
    EventHasLeaf(m, height, blockHash, leaves, e);
    var i :| 0 <= i < |leaves| && PlaceOfLeaf(leaves[i]) == e;
    ZerosAreClear(p, m[e], n[e], leaves[i], height, blockHash);
  }

  /** Equal event roots at every height mean equal event rows, marker payloads aside. */
  lemma EqualEventRows(p: Protocol, a: seq<Block>, b: seq<Block>, e: EventPosition)
    requires Lawful(p) && RootsCommit(p) && ValidChain(p, a) && ValidChain(p, b)
    requires |a| == |b| && forall i :: 0 <= i < |a| ==> a[i].hash == b[i].hash && a[i].height == b[i].height
    requires TablesOf(p, a).checkpoints == TablesOf(p, b).checkpoints
    requires e in TablesOf(p, a).events
    ensures e in TablesOf(p, b).events && Bare(TablesOf(p, a).events[e]) == Bare(TablesOf(p, b).events[e])
  {
    hide CanonOf, ValidChain, AllShaped, LeavesOf, Bare;
    var i := EventIsInChain(p, a, e);
    EventRootTells(p, a, i);
    EventRootTells(p, b, i);
    EventsAreShaped(p, a);
    EventsAreShaped(p, b);
    assert LeavesOf(p, a, i) == LeavesOf(p, b, i);
    SameLeavesSameRows(p, TablesOf(p, a).events, TablesOf(p, b).events, e.height, a[i].hash, LeavesOf(p, a, i), e);
  }

  /** The status tells which zeros of a snapshot stand for nothing; the key commits to the creating transaction. */
  lemma SnapshotIsClear(p: Protocol, k: Key, r: ObjectRecord, s: ObjectRecord, seen: set<Txid>, known: set<Txid>)
    requires Lawful(p) && RecordOk(p, k, r, seen) && RecordOk(p, k, s, known) && Snapshot(r) == Snapshot(s)
    ensures ObjectRowOf(r) == ObjectRowOf(s)
  {
    hide LawfulVerdict, IsAnswered, Presented, VerdictOf;
  }

  lemma EqualSnapshots(p: Protocol, s: Objects, t: Objects, seen: set<Txid>, known: set<Txid>)
    requires Lawful(p) && ObjectsOk(p, s, seen) && ObjectsOk(p, t, known) && Snapshots(s) == Snapshots(t)
    ensures ObjectRows(s) == ObjectRows(t)
  {
    hide Lawful, RecordOk, Snapshot, ObjectRowOf;
    assert s.Keys == Snapshots(s).Keys == Snapshots(t).Keys == t.Keys;
    forall k | k in s
      ensures ObjectRowOf(s[k]) == ObjectRowOf(t[k])
    {
      assert Snapshots(s)[k] == Snapshots(t)[k];
      SnapshotIsClear(p, k, s[k], t[k], seen, known);
    }
  }

  lemma EqualObjectRows(p: Protocol, a: seq<Block>, b: seq<Block>)
    requires Lawful(p) && ValidChain(p, a) && ValidChain(p, b)
    requires Snapshots(CanonOf(p, a).objects) == Snapshots(CanonOf(p, b).objects)
    ensures TablesOf(p, a).objects == TablesOf(p, b).objects
  {
    hide CanonOf, ObjectsOk, StatesOk, ChaptersOk, AllBelow, BlocksMatch, EventsMatch, Snapshots, ObjectRows, Lawful;
    ChainReplays(p, a);
    ChainReplays(p, b);
    EqualSnapshots(p, CanonOf(p, a).objects, CanonOf(p, b).objects, ChainTxids(a), ChainTxids(b));
  }

  // ----- the other tables follow from the events ----------------------------------------------

  /** Carrier and chapter rows that the same events account for are the same, chapter kinds aside. */
  lemma CarrierFollows(m: EventTable, n: EventTable, s: StateTable, t: StateTable, o: Outpoint)
    requires SameBare(m, n) && CarriersAccounted(m, s) && CarriersAccounted(n, t) && o in s
    ensures o in t && t[o] == s[o].(spent := t[o].spent)
  {
    hide SpentIn, SpentKeys;
    var e :| e in m && Successor(m[e]) == Some(o);
    assert Bare(m[e]) == Bare(n[e]) && Successor(n[e]) == Some(o);
  }

  lemma SpendFollows(m: EventTable, n: EventTable, s: StateTable, t: StateTable, o: Outpoint)
    requires SameBare(m, n) && CarriersAccounted(m, s) && CarriersAccounted(n, t) && o in SpentKeys(s)
    ensures o in SpentKeys(t) && t[o].spent == s[o].spent
  {
    hide MadeBy;
    var e :| e in m && Predecessor(m[e]) == Some(o);
    assert Bare(m[e]) == Bare(n[e]) && Predecessor(n[e]) == Some(o);
  }

  lemma ChapterFollows(m: EventTable, n: EventTable, s: ChapterTable, t: ChapterTable, c: ChapterKey)
    requires SameBare(m, n) && ChaptersAccounted(m, s) && ChaptersAccounted(n, t) && c in s
    ensures c in t && t[c] == s[c].(chapter := s[c].chapter.(kind := t[c].chapter.kind))
  {
    var e :| e in m && Marked(m[e]) == Some(c);
    assert Bare(m[e]) == Bare(n[e]) && Marked(n[e]) == Some(c);
  }

  /** The chapters agree in all but their kinds. */
  ghost predicate SameButKinds(s: ChapterTable, t: ChapterTable) {
    && s.Keys == t.Keys
    && forall c :: c in s ==> t[c] == s[c].(chapter := s[c].chapter.(kind := t[c].chapter.kind))
  }

  lemma EqualEventsEqualTables(p: Protocol, a: seq<Block>, b: seq<Block>)
    requires Lawful(p) && ValidChain(p, a) && ValidChain(p, b) && a != [] && b != []
    requires SameBare(TablesOf(p, a).events, TablesOf(p, b).events)
    ensures TablesOf(p, a).states == TablesOf(p, b).states
    ensures SameButKinds(TablesOf(p, a).chapters, TablesOf(p, b).chapters)
  {
    hide CanonOf, ValidChain, SameBare, CarriersAccounted, ChaptersAccounted;
    CarriersAreBooked(p, a);
    CarriersAreBooked(p, b);
    ChaptersAreMarks(p, a);
    ChaptersAreMarks(p, b);
    var m, n := TablesOf(p, a).events, TablesOf(p, b).events;
    SameBareIsSymmetric(m, n);
    StatesFollow(m, n, TablesOf(p, a).states, TablesOf(p, b).states);
    var s, t := TablesOf(p, a).chapters, TablesOf(p, b).chapters;
    forall c
      ensures c in s <==> c in t
      ensures c in s ==> t[c] == s[c].(chapter := s[c].chapter.(kind := t[c].chapter.kind))
    {
      if c in s {
        ChapterFollows(m, n, s, t, c);
      }
      if c in t {
        ChapterFollows(n, m, t, s, c);
      }
    }
  }

  lemma StatesFollow(m: EventTable, n: EventTable, s: StateTable, t: StateTable)
    requires SameBare(m, n) && SameBare(n, m) && CarriersAccounted(m, s) && CarriersAccounted(n, t)
    ensures s == t
  {
    hide SameBare, CarriersAccounted;
    forall o
      ensures o in s <==> o in t
      ensures o in s ==> s[o] == t[o]
    {
      if o in s {
        CarrierFollows(m, n, s, t, o);
        if s[o].spent.Some? {
          SpendFollows(m, n, s, t, o);
        }
      }
      if o in t {
        CarrierFollows(n, m, t, s, o);
        if t[o].spent.Some? {
          SpendFollows(n, m, t, s, o);
        }
      }
    }
  }

  lemma SameBareIsSymmetric(m: EventTable, n: EventTable)
    requires SameBare(m, n)
    ensures SameBare(n, m)
  {
  }

  /**
   * With collision-free roots, equal chained roots mean equal contents: the objects, carriers, and all events
   * but for marker payloads, and all chapters but for their kinds, which no root holds. Nothing is assumed of
   * block hashes.
   */
  lemma EqualRootsEqualContents(p: Protocol, a: seq<Block>, b: seq<Block>)
    requires Lawful(p) && CollisionFree(p) && RootsCommit(p) && ValidChain(p, a) && ValidChain(p, b)
    requires CanonOf(p, a).root == CanonOf(p, b).root
    ensures
      var s, t := TablesOf(p, a), TablesOf(p, b);
      && s.objects == t.objects && SameBare(s.events, t.events)
      && s.states == t.states && s.carriers == t.carriers && SameButKinds(s.chapters, t.chapters)
  {
    hide CanonOf, ValidChain, CollisionFree, Lawful, Bare, LeavesAscend, Snapshots, SnapshotsAre, CanonOk, CarriersOf;
    EqualRootsEqualHistories(p, a, b);
    if a == [] {
      assert b == a;
    } else {
      var s, t := TablesOf(p, a), TablesOf(p, b);
      forall e
        ensures e in s.events <==> e in t.events
        ensures e in s.events ==> Bare(s.events[e]) == Bare(t.events[e])
      {
        if e in s.events {
          EqualEventRows(p, a, b, e);
        }
        if e in t.events {
          EqualEventRows(p, b, a, e);
        }
      }
      assert SameBare(s.events, t.events);
      EqualEventsEqualTables(p, a, b);
      StateRootTells(p, a);
      StateRootTells(p, b);
      EqualObjectRows(p, a, b);
      CarriersFollowStates(p, a);
      CarriersFollowStates(p, b);
    }
  }

  lemma CarriersFollowStates(p: Protocol, chain: seq<Block>)
    requires Lawful(p) && ValidChain(p, chain)
    ensures TablesOf(p, chain).carriers == CarriersOf(TablesOf(p, chain).states)
  {
    hide CanonOf, ObjectsOk, StatesOk, ChaptersOk, AllBelow, BlocksMatch, EventsMatch;
    ChainReplays(p, chain);
  }
}
