/** What the stored events of a chain account for: every carrier, chapter and object in the tables. */
module StoredLedger {
  import opened Prelude
  import opened Bitcoin
  import opened StateEngine
  import opened Tandem
  import opened Reducer
  import opened Schema
  import opened Written
  import opened Invariants
  import opened History
  import opened Blocks
  import opened Activation
  import opened Chain
  import opened Acceptance
  import opened Ledger
  import opened Balancing
  import opened StoredEvents
  import Conservation

  /** The entries of one block. */
  ghost function BlockJournal(p: Protocol, chain: seq<Block>, block: Block, rows: seq<EventRecord>): seq<Entry> {
    seq(|rows|, i requires 0 <= i < |rows| =>
      Entry(block.height, MarkerFor(p, chain, block, rows[i].txIndex), rows[i]))
  }

  /** The entries of a chain, block after block. */
  ghost function Journal(p: Protocol, chain: seq<Block>): seq<Entry> {
    if chain == [] then []
    else
      var front, last := chain[..|chain| - 1], chain[|chain| - 1];
      Journal(p, front) +
      match ReduceNext(p, CanonOf(p, front), last)
      case Ok(r) => BlockJournal(p, front, last, r.events)
      case Err(_) => []
  }

  // ----- one block ----------------------------------------------------------------------------

  lemma ValidBlockJournal(p: Protocol, chain: seq<Block>, block: Block, rows: seq<EventRecord>)
    requires ActivationAt(p, chain, block).valid
    ensures BlockJournal(p, chain, block, rows)
            == BlockEntries(p, WindowOf(ActivationAt(p, chain, block)), StartOf(CanonOf(p, chain).objects), block.txs,
                            block.height, rows)
  {
    hide ActivationAt, ContextOf, StartOf, CanonOf, WorkAt;
  }

  lemma StartIsBooked(window: Window, j: seq<Entry>, t: Tables, objects: Objects, height: nat)
    requires Balanced(window, j, t.states, t.chapters, objects)
    ensures Booked(window, j, t, height, StartOf(objects))
  {
    hide Balanced, IndexOf;
  }

  /** A later block: all its transactions, or nothing at all. */
  lemma LaterBlockBalances(p: Protocol, chain: seq<Block>, block: Block, j: seq<Entry>)
    requires Lawful(p) && ValidChain(p, chain + [block]) && chain != []
    requires ReduceNext(p, CanonOf(p, chain), block).Ok?
    requires
      var c := CanonOf(p, chain);
      Balanced(WindowOf(ActivationAt(p, chain, block)), j, c.tables.states, c.tables.chapters, c.objects)
    ensures
      var r := ReduceNext(p, CanonOf(p, chain), block).value;
      Booked(WindowOf(r.activation), j + BlockJournal(p, chain, block, r.events), CanonOf(p, chain).tables,
             block.height, r.work)
  {
    hide CanonOf, Inv, InitSafe, ClassifyAll, StartOf, Booked, BlockJournal, BlockEntries, Balanced, TxRows, Snapshots,
      CanonicalEvents, FoundingKeys, ActiveKeys, WellFormed, ActivationOk, ValidChain;
    BlockStarts(p, chain, block);
    var c := CanonOf(p, chain);
    var a, start := c.activation.value, StartOf(c.objects);
    var r := ReduceNext(p, c, block).value;
    assert r.activation == a == ActivationAt(p, chain, block);
    StartObjects(c.objects);
    ValidHasHeights(p, chain, block);
    StartIsBooked(WindowOf(a), j, c.tables, c.objects, block.height);
    if a.valid {
      LaterIsSafe(p, WindowOf(a), block, start.objects);
      WellFormedParts(block);
      BlockBalances(p, WindowOf(a), j, c.tables, c.objects, start, block.txs, block.height, |block.txs|,
                    ChainTxids(chain));
      ValidBlockJournal(p, chain, block, r.events);
      var all := ClassifyAll(p, WindowOf(a), start, block.txs, block.height, |block.txs|).value;
      assert [] + all.events == all.events;
    } else {
      NoEntries(p, chain, block);
      assert j + [] == j;
    }
  }

  lemma NoEntries(p: Protocol, chain: seq<Block>, block: Block)
    ensures BlockJournal(p, chain, block, []) == []
  {
  }

  /** The entries of the activation block: all its transactions after a valid INIT, else the INIT's own rows. */
  lemma ActivationEntries(p: Protocol, base: Tables, root: Hash, block: Block) returns (at: nat)
    requires Lawful(p) && WellFormed(block) && HasTxid(block, p.binding.initTxid)
    requires Inv(p, base, map[], block.height, StartOf(map[]), {})
    requires Reduce(p, None, root, map[], block).Ok?
    requires forall window :: Booked(window, [], base, block.height, StartOf(map[]))
    ensures at < |block.txs|
    ensures
      var r := Reduce(p, None, root, map[], block).value;
      var window := WindowOf(r.activation);
      var marker := VerdictOf(p, Evidence(block.txs[at], block.height),
                              ContextOf(p, window, StartOf(map[]), block.txs[at])).marker;
      if r.activation.valid then
        Booked(window, [] + BlockEntries(p, window, StartOf(map[]), block.txs, block.height, r.events), base,
               block.height, r.work)
      else
        && Booked(window, [] + Entries(block.height, marker, r.events), base, block.height, r.work)
        && forall i :: 0 <= i < |r.events| ==> r.events[i].txIndex == at
  {
    hide Inv, Traces, InitHeights, Classify, StartOf, InOrder, ClassifyAll, TxRows, Booked, BlockEntries, Entries,
      Snapshots, CanonicalEvents, ContextOf;
    at := InitPosition(block.txs, p.binding.initTxid, 0).value;
    var heights := InitHeights(p, block.txs[at]);
    var window, start := InitWindow(block.height, heights), StartOf(map[]);
    StartObjects(map[]);
    InitClassified(p, base, block, {}, at);
    var progress := Classify(p, window, start, block.txs[at], at, block.height).value;
    var r := Reduce(p, None, root, map[], block).value;
    assert WindowOf(r.activation) == window;
    if ActivationOf(p, block, heights, progress.events).valid {
      BlockBalances(p, window, [], base, map[], start, block.txs, block.height, |block.txs|, {});
      var all := ClassifyAll(p, window, start, block.txs, block.height, |block.txs|).value;
      assert [] + all.events == all.events;
    } else {
      TransactionBalances(p, window, [], base, map[], start, block.txs[at], at, block.height, {});
      ClassifiedRowsPlaced(p, window, start, block.txs[at], at, block.height);
    }
  }

  lemma ActivationBlockBalances(p: Protocol, block: Block)
    requires Lawful(p) && ValidChain(p, [block])
    requires ReduceNext(p, CanonOf(p, []), block).Ok?
    ensures
      var r := ReduceNext(p, CanonOf(p, []), block).value;
      Booked(WindowOf(r.activation), BlockJournal(p, [], block, r.events), CanonOf(p, []).tables, block.height, r.work)
  {
    hide CanonOf, Reduce, Inv, StartOf, Booked, BlockEntries, Entries, BlockJournal, ContextOf, WellFormed, HasTxid;
    assert [] + [block] == [block];
    BlockStarts(p, [], block);
    var c := CanonOf(p, []);
    forall window
      ensures Booked(window, [], c.tables, block.height, StartOf(map[]))
    {
      EmptyIsBooked(p, window, block.height);
    }
    var at := ActivationEntries(p, c.tables, c.root, block);
    var r := ReduceNext(p, c, block).value;
    if r.activation.valid {
      ValidBlockJournal(p, [], block, r.events);
      assert [] + BlockJournal(p, [], block, r.events) == BlockJournal(p, [], block, r.events);
    } else {
      FailedInitJournal(p, block, at, r.events);
    }
  }

  lemma EmptyIsBooked(p: Protocol, window: Window, height: nat)
    ensures CanonOf(p, []).objects == map[] && CanonOf(p, []).tables == EMPTY_TABLES
    ensures Booked(window, [], CanonOf(p, []).tables, height, StartOf(map[]))
  {
    hide Balanced;
    NothingBalances(window);
    StartIsBooked(window, [], EMPTY_TABLES, map[], height);
  }

  lemma FailedInitJournal(p: Protocol, block: Block, at: nat, rows: seq<EventRecord>)
    requires at < |block.txs| && !ActivationAt(p, [], block).valid
    requires forall i :: 0 <= i < |rows| ==> rows[i].txIndex == at
    ensures
      var context := ContextOf(p, WindowOf(ActivationAt(p, [], block)), StartOf(CanonOf(p, []).objects), block.txs[at]);
      var marker := VerdictOf(p, Evidence(block.txs[at], block.height), context).marker;
      [] + Entries(block.height, marker, rows) == BlockJournal(p, [], block, rows)
  {
    hide ActivationAt, ContextOf, StartOf, CanonOf, WorkAt;
  }

  /** The next block of a chain keeps the ledger balanced. */
  lemma NextBalances(p: Protocol, chain: seq<Block>, block: Block)
    requires Lawful(p) && ValidChain(p, chain + [block])
    requires chain != [] ==> Balances(p, chain)
    ensures Balances(p, chain + [block])
  {
    hide CanonOf, ReduceNext, ValidChain, WriteBlock, AfterBlock, BlockJournal, Balanced, CanonOk;
    ReplayExtends(p, chain, block);
    ReducedHeight(p, chain, block);
    assert (chain + [block])[..|chain|] == chain && (chain + [block])[|chain|] == block;
    var r := ReduceNext(p, CanonOf(p, chain), block).value;
    if chain == [] {
      assert chain + [block] == [block];
      ActivationBlockBalances(p, block);
      assert Journal(p, [block]) == [] + BlockJournal(p, [], block, r.events);
      assert [] + BlockJournal(p, [], block, r.events) == BlockJournal(p, [], block, r.events);
    } else {
      SameActivation(p, chain, block);
      LaterBlockBalances(p, chain, block, Journal(p, chain));
    }
    AfterBlockBooks(TablesOf(p, chain), r);
  }

  lemma AfterBlockBooks(t: Tables, r: ReducedBlock)
    ensures AfterBlock(t, r).states == StatesAfter(t.states, r.height, r.work)
    ensures AfterBlock(t, r).chapters == ChaptersAfter(t.chapters, r.height, r.work)
  {
  }

  lemma SameActivation(p: Protocol, chain: seq<Block>, block: Block)
    requires Lawful(p) && ValidChain(p, chain + [block]) && chain != []
    ensures ReduceNext(p, CanonOf(p, chain), block).Ok?
    ensures CanonOf(p, chain).activation == Some(ReduceNext(p, CanonOf(p, chain), block).value.activation)
  {
    hide CanonOf, CanonOk, Reduce, Reduces, ActivationOk;
    assert (chain + [block])[..|chain|] == chain;
    ValidPrefix(p, chain + [block], |chain|);
    ChainReplays(p, chain);
    BlockReduces(p, chain, block, CanonOf(p, chain));
  }

  /** The entries of the chain balance with its tables. */
  ghost predicate Balances(p: Protocol, chain: seq<Block>) {
    var c := CanonOf(p, chain);
    && c.activation.Some?
    && Balanced(WindowOf(c.activation.value), Journal(p, chain), c.tables.states, c.tables.chapters, c.objects)
  }

  lemma {:induction false} ChainBalances(p: Protocol, chain: seq<Block>)
    requires Lawful(p) && ValidChain(p, chain) && chain != []
    ensures Balances(p, chain)
  {
    hide Balances;
    var front, last := chain[..|chain| - 1], chain[|chain| - 1];
    assert front + [last] == chain;
    ValidPrefix(p, chain, |chain| - 1);
    if front != [] {
      ChainBalances(p, front);
    }
    NextBalances(p, front, last);
  }

  // ----- the stored events --------------------------------------------------------------------

  function PositionIn(e: Entry): Option<EventPosition> {
    Some(PositionOf(e.height, e.row))
  }

  /** tandem_events holds the entries, one row each. */
  ghost predicate Positioned(j: seq<Entry>, m: EventTable) {
    && Books(j, PositionIn, m.Keys)
    && forall i :: 0 <= i < |j| && PositionOf(j[i].height, j[i].row) in m ==>
         m[PositionOf(j[i].height, j[i].row)] == j[i].row
  }

  lemma PositionedGrows(j: seq<Entry>, m: EventTable, e: Entry)
    requires Positioned(j, m) && PositionOf(e.height, e.row) !in m
    ensures Positioned(j + [e], m[PositionOf(e.height, e.row) := e.row])
  {
    hide PositionOf, Books;
    var at := PositionOf(e.height, e.row);
    BooksGrow(j, PositionIn, m.Keys, e, m[at := e.row].Keys);
    BooksKeep(j, PositionIn, m.Keys);
    assert forall i :: 0 <= i < |j| ==> PositionIn(j[i]).value == PositionOf(j[i].height, j[i].row);
  }

  lemma {:induction false} RowsPositioned(j: seq<Entry>, m: EventTable, height: nat, more: seq<Entry>,
                                          rows: seq<EventRecord>, n: nat)
    requires Positioned(j, m) && n <= |rows| == |more|
    requires forall i :: 0 <= i < |rows| ==> more[i].row == rows[i] && more[i].height == height
    requires forall i, l :: 0 <= i < l < |rows| ==> PositionOf(height, rows[i]) != PositionOf(height, rows[l])
    requires forall e :: e in m ==> e.height != height
    ensures Positioned(j + more[..n], PutEvents(m, height, rows, n))
  {
    hide PositionOf, Positioned;
    if n == 0 {
      assert j + more[..0] == j;
    } else {
      RowsPositioned(j, m, height, more, rows, n - 1);
      Conservation.NextPositionIsNew(m, height, rows, n - 1);
      PositionedGrows(j + more[..n - 1], PutEvents(m, height, rows, n - 1), more[n - 1]);
      assert j + more[..n - 1] + [more[n - 1]] == j + more[..n];
    }
  }

  lemma {:induction false} EventsArePositioned(p: Protocol, chain: seq<Block>)
    requires Lawful(p) && ValidChain(p, chain)
    ensures Positioned(Journal(p, chain), TablesOf(p, chain).events)
  {
    hide CanonOf, ReduceNext, ValidChain, AfterBlock, WriteBlock, BlockJournal, Positioned, PositionOf;
    if chain == [] {
      NothingPositioned(p);
    } else {
      var front, last := chain[..|chain| - 1], chain[|chain| - 1];
      assert front + [last] == chain;
      ReplayExtends(p, front, last);
      EventsArePositioned(p, front);
      Conservation.ReducedCounts(p, front, last);
      Conservation.EventsBelow(p, front, last);
      var r := ReduceNext(p, CanonOf(p, front), last).value;
      Conservation.AfterBlockEvents(TablesOf(p, front), r);
      var more := BlockJournal(p, front, last, r.events);
      BlockJournalRows(p, front, last, r.events);
      RowsPositioned(Journal(p, front), TablesOf(p, front).events, r.height, more, r.events, |r.events|);
      assert more[..|r.events|] == more;
    }
  }

  lemma BlockJournalRows(p: Protocol, chain: seq<Block>, block: Block, rows: seq<EventRecord>)
    ensures
      var more := BlockJournal(p, chain, block, rows);
      && |more| == |rows|
      && forall i :: 0 <= i < |rows| ==> more[i].row == rows[i] && more[i].height == block.height
  {
    hide MarkerFor;
  }

  lemma NothingPositioned(p: Protocol)
    ensures Positioned([], TablesOf(p, []).events)
  {
  }

  // ----- the accounts -------------------------------------------------------------------------

  /** Exactly one stored event has each key of `keys`, and no other event has any. */
  ghost predicate Accounts<K(!new)>(m: EventTable, of: EventRecord -> Option<K>, keys: set<K>) {
    && (forall e :: e in m && of(m[e]).Some? ==> of(m[e]).value in keys)
    && (forall k :: k in keys ==> exists e :: e in m && of(m[e]) == Some(k))
    && (forall e, f :: e in m && f in m && of(m[e]).Some? && of(m[e]) == of(m[f]) ==> e == f)
  }

  lemma BooksAccount<K(!new)>(j: seq<Entry>, m: EventTable, of: Entry -> Option<K>, told: EventRecord -> Option<K>,
                              keys: set<K>)
    requires Positioned(j, m) && Books(j, of, keys)
    requires forall e :: of(e) == told(e.row)
    ensures Accounts(m, told, keys)
  {
    forall e | e in m && told(m[e]).Some?
      ensures told(m[e]).value in keys
    {
      var i := EntryAt(j, m, e);
      assert of(j[i]).Some?;
    }
    forall k | k in keys
      ensures exists e :: e in m && told(m[e]) == Some(k)
    {
      var i :| 0 <= i < |j| && of(j[i]) == Some(k);
      assert PositionIn(j[i]).Some?;
      assert told(m[PositionOf(j[i].height, j[i].row)]) == Some(k);
    }
    forall e, f | e in m && f in m && told(m[e]).Some? && told(m[e]) == told(m[f])
      ensures e == f
    {
      var i := EntryAt(j, m, e);
      var l := EntryAt(j, m, f);
      assert of(j[i]) == of(j[l]);
    }
  }

  /** The entry of a stored event. */
  lemma EntryAt(j: seq<Entry>, m: EventTable, e: EventPosition) returns (i: nat)
    requires Positioned(j, m) && e in m
    ensures i < |j| && PositionOf(j[i].height, j[i].row) == e && j[i].row == m[e] && j[i].height == e.height
  {
    i :| 0 <= i < |j| && PositionIn(j[i]) == Some(e);
  }

  /** Events and carriers correspond: one event makes each carrier, and one spends each spent carrier. */
  ghost predicate CarriersAccounted(m: EventTable, states: StateTable) {
    && Accounts(m, Successor, states.Keys)
    && (forall e :: e in m && m[e].successor.Some? && m[e].successor.value in states ==>
          MadeBy(states[m[e].successor.value], e.height, m[e]))
    && Accounts(m, Predecessor, SpentKeys(states))
    && (forall e :: e in m && m[e].predecessor.Some? && m[e].predecessor.value in states ==>
          SpentIn(states[m[e].predecessor.value], e.height, m[e]))
  }

  /** Events and chapters correspond: each chapter is one MARK. */
  ghost predicate ChaptersAccounted(m: EventTable, chapters: ChapterTable) {
    && Accounts(m, Marked, chapters.Keys)
    && (forall e :: e in m && Marked(m[e]).Some? && Marked(m[e]).value in chapters ==>
          WrittenBy(chapters[Marked(m[e]).value], e.height, m[e]))
  }

  /**
   * Every carrier row is made by exactly one stored event and every event with a successor makes one; every
   * spent carrier is spent by exactly one event, at its height and in its transaction.
   */
  lemma CarriersAreBooked(p: Protocol, chain: seq<Block>)
    requires Lawful(p) && ValidChain(p, chain) && chain != []
    ensures CarriersAccounted(TablesOf(p, chain).events, TablesOf(p, chain).states)
  {
    hide CanonOf, Books, Journal, ChaptersWritten, ObjectsFounded, ObjectsEnded, Positioned, PositionOf, ValidChain;
    ChainBalances(p, chain);
    EventsArePositioned(p, chain);
    var t, j := TablesOf(p, chain), Journal(p, chain);
    BooksAccount(j, t.events, SuccessorOf, Successor, t.states.Keys);
    BooksAccount(j, t.events, PredecessorOf, Predecessor, SpentKeys(t.states));
    forall e | e in t.events
      ensures t.events[e].successor.Some? && t.events[e].successor.value in t.states ==>
                MadeBy(t.states[t.events[e].successor.value], e.height, t.events[e])
      ensures t.events[e].predecessor.Some? && t.events[e].predecessor.value in t.states ==>
                SpentIn(t.states[t.events[e].predecessor.value], e.height, t.events[e])
    {
      var i := EntryAt(j, t.events, e);
      assert Successor(t.events[e]) == t.events[e].successor && Predecessor(t.events[e]) == t.events[e].predecessor;
    }
  }

  /**
   * Every chapter is exactly one stored MARK of its object and sequence, in its transaction and block and with
   * its commitment, and every stored MARK has its chapter.
   */
  lemma ChaptersAreMarks(p: Protocol, chain: seq<Block>)
    requires Lawful(p) && ValidChain(p, chain) && chain != []
    ensures ChaptersAccounted(TablesOf(p, chain).events, TablesOf(p, chain).chapters)
  {
    hide CanonOf, Books, Journal, CarriersMade, CarriersSpent, ObjectsFounded, ObjectsEnded, Positioned, PositionOf,
      ValidChain, IsMark;
    ChainBalances(p, chain);
    EventsArePositioned(p, chain);
    var t, j := TablesOf(p, chain), Journal(p, chain);
    BooksAccount(j, t.events, MarkOf, Marked, t.chapters.Keys);
    forall e | e in t.events && Marked(t.events[e]).Some? && Marked(t.events[e]).value in t.chapters
      ensures WrittenBy(t.chapters[Marked(t.events[e]).value], e.height, t.events[e])
    {
      var i := EntryAt(j, t.events, e);
      assert MarkOf(j[i]) == Marked(t.events[e]);
    }
  }

  /**
   * Every object row was founded by exactly one stored CREATE, inside the window of the stored INIT or not;
   * every terminal one was ended by exactly one stored event, which names its terminal transaction.
   */
  lemma ObjectsAreBooked(p: Protocol, chain: seq<Block>)
    requires Lawful(p) && ValidChain(p, chain) && chain != []
    ensures TablesOf(p, chain).init.Some?
    ensures
      var t := TablesOf(p, chain);
      && Accounts(t.events, Created, t.objects.Keys)
      && (forall e :: e in t.events && Created(t.events[e]).Some? ==>
            FoundedBy(WindowOf(t.init.value), t.objects[Created(t.events[e]).value], e.height, t.events[e]))
      && Accounts(t.events, Finished, EndedRows(t.objects))
      && (forall e :: e in t.events && Finished(t.events[e]).Some? ==>
            EndsBy(t.objects[Finished(t.events[e]).value], t.events[e]))
  {
    hide CanonOf, Books, Journal, CarriersMade, CarriersSpent, ChaptersWritten, ObjectsFounded, ObjectsEnded,
      Positioned,
      Accounts, Created, Finished, ValidChain, FoundedBy, EndsBy, ObjectRows;
    ChainBalances(p, chain);
    EventsArePositioned(p, chain);
    ObjectRowsAre(p, chain);
    var t, j := TablesOf(p, chain), Journal(p, chain);
    FoundedAccount(WindowOf(t.init.value), j, t.events, CanonOf(p, chain).objects);
    EndedAccount(j, t.events, CanonOf(p, chain).objects);
  }

  function EndedRows(objects: ObjectTable): set<Key> {
    set k | k in objects && !objects[k].status.Active?
  }

  lemma FoundedAccount(window: Window, j: seq<Entry>, m: EventTable, objects: Objects)
    requires Positioned(j, m) && ObjectsFounded(window, j, objects)
    ensures Accounts(m, Created, ObjectRows(objects).Keys)
    ensures forall e :: e in m && Created(m[e]).Some? ==>
              && Created(m[e]).value in objects
              && FoundedBy(window, ObjectRows(objects)[Created(m[e]).value], e.height, m[e])
  {
    hide Books, Positioned, PositionOf, IsCreate, FoundedBy;
    assert ObjectRows(objects).Keys == objects.Keys;
    BooksAccount(j, m, CreatedBy, Created, objects.Keys);
    forall e | e in m && Created(m[e]).Some?
      ensures FoundedBy(window, ObjectRows(objects)[Created(m[e]).value], e.height, m[e])
    {
      var i := EntryAt(j, m, e);
      assert CreatedBy(j[i]) == Created(m[e]);
    }
  }

  lemma EndedAccount(j: seq<Entry>, m: EventTable, objects: Objects)
    requires Positioned(j, m) && ObjectsEnded(j, objects)
    ensures Accounts(m, Finished, EndedRows(ObjectRows(objects)))
    ensures forall e :: e in m && Finished(m[e]).Some? ==>
              Finished(m[e]).value in objects && EndsBy(ObjectRows(objects)[Finished(m[e]).value], m[e])
  {
    hide Books, Positioned, PositionOf, EndingOf, EndsBy;
    assert EndedKeys(objects) == EndedRows(ObjectRows(objects));
    BooksAccount(j, m, EndedBy, Finished, EndedKeys(objects));
    forall e | e in m && Finished(m[e]).Some?
      ensures EndsBy(ObjectRows(objects)[Finished(m[e]).value], m[e])
    {
      var i := EntryAt(j, m, e);
      assert EndedBy(j[i]) == Finished(m[e]);
    }
  }

  // ----- chapters and their markers -----------------------------------------------------------

  /** The entries carry the markers of their transactions. */
  lemma {:induction false} EntriesAreMarked(p: Protocol, chain: seq<Block>, i: nat)
    requires Lawful(p) && ValidChain(p, chain) && i < |chain|
    ensures forall n :: 0 <= n < |Journal(p, chain)| && Journal(p, chain)[n].height == chain[i].height ==>
              && Journal(p, chain)[n].marker == MarkerFor(p, chain[..i], chain[i], Journal(p, chain)[n].row.txIndex)
  {
    hide CanonOf, ReduceNext, ValidChain, MarkerFor, WriteBlock;
    var front, last := chain[..|chain| - 1], chain[|chain| - 1];
    assert front + [last] == chain;
    ReplayExtends(p, front, last);
    ValidHeightsDiffer(p, chain);
    EntriesLieInChain(p, front);
    if i < |front| {
      EntriesAreMarked(p, front, i);
      assert front[..i] == chain[..i];
    } else {
      assert chain[..i] == front;
    }
  }

  lemma ValidHeightsDiffer(p: Protocol, chain: seq<Block>)
    requires ValidChain(p, chain)
    ensures forall i, j :: 0 <= i < j < |chain| ==> chain[i].height != chain[j].height
  {
  }

  ghost predicate LiesIn(e: Entry, chain: seq<Block>) {
    exists i :: 0 <= i < |chain| && chain[i].height == e.height
  }

  lemma {:induction false} EntriesLieInChain(p: Protocol, chain: seq<Block>)
    ensures forall n :: 0 <= n < |Journal(p, chain)| ==> LiesIn(Journal(p, chain)[n], chain)
  {
    hide CanonOf, ReduceNext, MarkerFor, LiesIn;
    if chain != [] {
      var front, last := chain[..|chain| - 1], chain[|chain| - 1];
      EntriesLieInChain(p, front);
      forall e: Entry
        ensures LiesIn(e, front) || e.height == last.height ==> LiesIn(e, chain)
      {
        LiesInLonger(e, chain);
      }
    }
  }

  lemma LiesInLonger(e: Entry, chain: seq<Block>)
    requires chain != []
    ensures LiesIn(e, chain[..|chain| - 1]) || e.height == chain[|chain| - 1].height ==> LiesIn(e, chain)
  {
    var front := chain[..|chain| - 1];
    if LiesIn(e, front) {
      var i :| 0 <= i < |front| && front[i].height == e.height;
      assert chain[i].height == e.height;
    }
  }

  /** A stored chapter has the kind and the commitment of the marker in the transaction of its MARK. */
  lemma ChaptersAreOfMarkers(p: Protocol, chain: seq<Block>, i: nat, e: EventPosition)
    requires Lawful(p) && ValidChain(p, chain) && i < |chain|
    requires e in TablesOf(p, chain).events && e.height == chain[i].height
    requires Marked(TablesOf(p, chain).events[e]).Some?
    ensures
      var t := TablesOf(p, chain);
      && Marked(t.events[e]).value in t.chapters
      && HeldBy(t.chapters[Marked(t.events[e]).value].chapter, t.events[e].stateSequence,
                MarkerFor(p, chain[..i], chain[i], e.txIndex))
  {
    hide CanonOf, Books, Journal, CarriersMade, CarriersSpent, ObjectsFounded, ObjectsEnded, Positioned, ValidChain,
      IsMark, MarkerFor;
    ChainBalances(p, chain);
    EventsArePositioned(p, chain);
    EntriesAreMarked(p, chain, i);
    var t, j := TablesOf(p, chain), Journal(p, chain);
    var n := EntryAt(j, t.events, e);
    BooksKeep(j, MarkOf, t.chapters.Keys);
    assert MarkOf(j[n]) == Marked(t.events[e]);
  }

  lemma ObjectRowsAre(p: Protocol, chain: seq<Block>)
    requires Lawful(p) && ValidChain(p, chain)
    ensures TablesOf(p, chain).objects == ObjectRows(CanonOf(p, chain).objects)
    ensures TablesOf(p, chain).init == CanonOf(p, chain).activation
  {
    hide CanonOf, ObjectsOk, StatesOk, ChaptersOk, AllBelow, BlocksMatch, EventsMatch, ObjectRows;
    ChainReplays(p, chain);
  }
}
