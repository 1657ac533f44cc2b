/** What the rows of tandem_blocks, tandem_transactions, tandem_events and tandem_init say of their chain. */
module StoredRows {
  import opened Prelude
  import opened Bitcoin
  import opened Tandem
  import opened Reducer
  import opened Moves
  import opened Schema
  import opened Written
  import opened Invariants
  import opened History
  import opened Blocks
  import opened Appending
  import opened Activation
  import opened Chain
  import opened Acceptance
  import opened StoredEvents
  import StoredLedger
  import Conservation

  // ----- events -------------------------------------------------------------------------------

  /** At this height tandem_events has just these rows. */
  ghost predicate StoresRows(m: EventTable, height: nat, rows: seq<EventRecord>) {
    && (forall i :: 0 <= i < |rows| ==> PositionOf(height, rows[i]) in m && m[PositionOf(height, rows[i])] == rows[i])
    && (forall e :: e in m && e.height == height ==> exists i :: 0 <= i < |rows| && PositionOf(height, rows[i]) == e)
  }

  ghost predicate SameAt(m: EventTable, n: EventTable, height: nat) {
    forall e: EventPosition :: e.height == height ==> Lookup(m, e) == Lookup(n, e)
  }

  lemma PutStoresRows(m: EventTable, height: nat, rows: seq<EventRecord>)
    requires forall i, j :: 0 <= i < j < |rows| ==> PositionOf(height, rows[i]) != PositionOf(height, rows[j])
    requires forall e :: e in m ==> e.height != height
    ensures StoresRows(PutEvents(m, height, rows, |rows|), height, rows)
    ensures forall h :: h != height ==> SameAt(PutEvents(m, height, rows, |rows|), m, h)
  {
    hide PutEvents;
    PutEventsRows(m, height, rows, |rows|);
  }

  lemma TipRowsStored(p: Protocol, chain: seq<Block>, block: Block)
    requires Lawful(p) && ValidChain(p, chain + [block])
    ensures ReduceNext(p, CanonOf(p, chain), block).Ok?
    ensures
      var m := TablesOf(p, chain + [block]).events;
      && StoresRows(m, block.height, ReduceNext(p, CanonOf(p, chain), block).value.events)
      && forall h :: h != block.height ==> SameAt(m, TablesOf(p, chain).events, h)
  {
    hide CanonOf, ReduceNext, ValidChain, AfterBlock, WriteBlock, StoresRows, SameAt, PutEvents, PositionOf;
    ReplayExtends(p, chain, block);
    Conservation.ReducedCounts(p, chain, block);
    Conservation.EventsBelow(p, chain, block);
    var r := ReduceNext(p, CanonOf(p, chain), block).value;
    Conservation.AfterBlockEvents(TablesOf(p, chain), r);
    PutStoresRows(TablesOf(p, chain).events, r.height, r.events);
  }

  /** At the height of each block of a chain tandem_events has just the rows that reducing it recorded. */
  lemma {:induction false} RowsStay(p: Protocol, chain: seq<Block>, i: nat)
    requires Lawful(p) && ValidChain(p, chain) && i < |chain|
    ensures ValidChain(p, chain[..i + 1]) && chain[..i + 1] == chain[..i] + [chain[i]]
    ensures ReduceNext(p, CanonOf(p, chain[..i]), chain[i]).Ok?
    ensures StoresRows(TablesOf(p, chain).events, chain[i].height,
                       ReduceNext(p, CanonOf(p, chain[..i]), chain[i]).value.events)
  {
    hide CanonOf, ReduceNext, ValidChain, StoresRows, SameAt, WriteBlock;
    ValidPrefix(p, chain, i + 1);
    var front, last := chain[..|chain| - 1], chain[|chain| - 1];
    assert front + [last] == chain;
    TipRowsStored(p, front, last);
    if i < |front| {
      ReplayExtends(p, front, last);
      RowsStay(p, front, i);
      assert front[..i] == chain[..i];
      StoredLedger.ValidHeightsDiffer(p, chain);
      SameRowsStored(TablesOf(p, chain).events, TablesOf(p, front).events, chain[i].height,
                     ReduceNext(p, CanonOf(p, chain[..i]), chain[i]).value.events);
    } else {
      assert chain[..i] == front;
    }
  }

  lemma SameRowsStored(m: EventTable, n: EventTable, height: nat, rows: seq<EventRecord>)
    requires StoresRows(n, height, rows) && SameAt(m, n, height)
    ensures StoresRows(m, height, rows)
  {
    assert forall e: EventPosition :: e.height == height ==> (Lookup(m, e).Some? <==> e in m);
    assert forall e: EventPosition :: e.height == height ==> (Lookup(n, e).Some? <==> e in n);
  }

  /** The activation that a block is reduced under is the one stored for the whole chain. */
  lemma {:induction false} ActivationIsStored(p: Protocol, chain: seq<Block>, i: nat)
    requires Lawful(p) && ValidChain(p, chain) && i < |chain|
    ensures TablesOf(p, chain).init == Some(ActivationAt(p, chain[..i], chain[i]))
  {
    hide CanonOf, ReduceNext, ValidChain, WriteBlock, AfterBlock;
    var front, last := chain[..|chain| - 1], chain[|chain| - 1];
    assert front + [last] == chain;
    ReplayExtends(p, front, last);
    StoredLedger.ObjectRowsAre(p, chain);
    if i < |front| {
      ActivationIsStored(p, front, i);
      assert front[..i] == chain[..i];
      StoredLedger.ObjectRowsAre(p, front);
      StoredLedger.SameActivation(p, front, last);
    } else {
      assert chain[..i] == front;
    }
  }

  /**
   * Every stored event is made from what the validator said of the transaction at its place, field by field, and
   * everything it said of the chain's transactions is stored: after a failed INIT, of the INIT alone.
   */
  lemma EventsAreVerdicts(p: Protocol, chain: seq<Block>, i: nat)
    requires Lawful(p) && ValidChain(p, chain) && i < |chain|
    ensures TablesOf(p, chain).init.Some?
    ensures
      var t, front, block := TablesOf(p, chain), chain[..i], chain[i];
      && (forall e :: e in t.events && e.height == block.height ==>
            && e.txIndex < |block.txs| && e == PositionOf(block.height, t.events[e])
            && RowTells(p, WindowOf(t.init.value), VerdictFor(p, front, block, e.txIndex), block.txs[e.txIndex],
                        block.height, t.events[e]))
      && (forall j: nat, k: nat ::
            j < |block.txs| && IsAnswer(VerdictFor(p, front, block, j), k)
            && (t.init.value.valid || block.txs[j].txid == p.binding.initTxid) ==>
              exists e :: e in t.events && e.height == block.height && e.txIndex == j && e.subIndex == k)
  {
    hide CanonOf, ReduceNext, ValidChain, VerdictFor, RowTells, IsAnswer, ActivationAt;
    RowsStay(p, chain, i);
    ActivationIsStored(p, chain, i);
    NextSays(p, chain[..i], chain[i]);
    var t, front, block := TablesOf(p, chain), chain[..i], chain[i];
    var rows := ReduceNext(p, CanonOf(p, front), block).value.events;
    forall j: nat, k: nat | j < |block.txs| && IsAnswer(VerdictFor(p, front, block, j), k)
                            && (t.init.value.valid || block.txs[j].txid == p.binding.initTxid)
      ensures exists e :: e in t.events && e.height == block.height && e.txIndex == j && e.subIndex == k
    {
      assert HasAnswer(rows, j, k);
      var n :| 0 <= n < |rows| && rows[n].txIndex == j && rows[n].subIndex == k;
      assert PositionOf(block.height, rows[n]) in t.events;
    }
  }

  /**
   * The commitment of a stored event: an INIT's is the specification's hash, a MARK's and a CLOSE's the one in
   * the marker of its transaction, and every other event has none.
   */
  lemma CommitmentsTell(p: Protocol, chain: seq<Block>, i: nat, e: EventPosition)
    requires Lawful(p) && ValidChain(p, chain) && i < |chain|
    requires e in TablesOf(p, chain).events && e.height == chain[i].height
    ensures
      var row, marker := TablesOf(p, chain).events[e], MarkerFor(p, chain[..i], chain[i], e.txIndex);
      if !row.validity.ValidOperation? then row.commitment == None
      else
        match row.eventType
        case INIT => row.commitment == Some(p.binding.specHash)
        case MARK => marker.Some? && marker.value.MarkMarker? && row.commitment == Some(marker.value.commitment)
        case CLOSE => marker.Some? && marker.value.CloseMarker? && row.commitment == Some(marker.value.commitment)
        case _ => row.commitment == None
  {
    hide CanonOf, ReduceNext, ValidChain, VerdictFor, IsAnswer, ActivationAt, IsPlaced, RemainingCandidates;
    EventsAreVerdicts(p, chain, i);
  }

  // ----- blocks -------------------------------------------------------------------------------

  function EventsAt(m: EventTable, height: nat): set<EventPosition> {
    set e | e in m && e.height == height
  }

  lemma {:induction false} PutCounts(m: EventTable, height: nat, rows: seq<EventRecord>, n: nat)
    requires n <= |rows|
    requires forall i, j :: 0 <= i < j < |rows| ==> PositionOf(height, rows[i]) != PositionOf(height, rows[j])
    requires forall e :: e in m ==> e.height != height
    ensures |EventsAt(PutEvents(m, height, rows, n), height)| == n
  {
    hide PutEvents;
    PutEventsStep(m, height, rows, n);
    if n == 0 {
      assert EventsAt(m, height) == {};
    } else {
      PutCounts(m, height, rows, n - 1);
      Conservation.NextPositionIsNew(m, height, rows, n - 1);
      var before, at := PutEvents(m, height, rows, n - 1), PositionOf(height, rows[n - 1]);
      assert EventsAt(before[at := rows[n - 1]], height) == EventsAt(before, height) + {at};
    }
  }

  /** The block row repeats the block, counts its events and has the roots of its checkpoint. */
  ghost predicate BlockIsStored(t: Tables, block: Block) {
    && block.height in t.blocks && block.height in t.checkpoints
    && var row, c := t.blocks[block.height], t.checkpoints[block.height];
       && row.hash == block.hash && row.previousHash == block.previousHash && row.time == block.time
       && row.eventCount == |EventsAt(t.events, block.height)|
       && row.eventRoot == c.eventRoot && row.objectStateRoot == c.objectStateRoot && row.chainedRoot == c.chainedRoot
       && c.blockHash == block.hash
  }

  lemma ReducedBlockRow(p: Protocol, activation: Option<InitActivation>, root: Hash, objects: Objects, block: Block)
    requires Reduce(p, activation, root, objects, block).Ok?
    ensures
      var r := Reduce(p, activation, root, objects, block).value;
      && r.hash == block.hash && r.previousHash == block.previousHash && r.time == block.time
      && r.height == block.height && r.transactions == TxRows(block.txs, r.events, |block.txs|)
  {
    hide Activate, ClassifyBlock, StartOf, TxRows, CanonicalEvents, Snapshots, FoundingKeys, ActiveKeys;
  }

  lemma TipBlockStored(p: Protocol, chain: seq<Block>, block: Block)
    requires Lawful(p) && ValidChain(p, chain + [block])
    ensures BlockIsStored(TablesOf(p, chain + [block]), block)
    ensures
      var before, after := TablesOf(p, chain), TablesOf(p, chain + [block]);
      forall h :: h != block.height ==>
        Lookup(after.blocks, h) == Lookup(before.blocks, h) &&
            Lookup(after.checkpoints, h) == Lookup(before.checkpoints, h)
  {
    hide CanonOf, Reduce, ValidChain, WriteBlock, EventsAt, PutEvents, PositionOf;
    ReplayExtends(p, chain, block);
    Conservation.ReducedCounts(p, chain, block);
    Conservation.EventsBelow(p, chain, block);
    var c := CanonOf(p, chain);
    var r := ReduceNext(p, c, block).value;
    ReducedBlockRow(p, c.activation, c.root, c.objects, block);
    PutCounts(c.tables.events, r.height, r.events, |r.events|);
  }

  /** Every block of the chain has its row, with its own fields. */
  lemma {:induction false} BlocksAreStored(p: Protocol, chain: seq<Block>, i: nat)
    requires Lawful(p) && ValidChain(p, chain) && i < |chain|
    ensures BlockIsStored(TablesOf(p, chain), chain[i])
  {
    hide CanonOf, ReduceNext, ValidChain, WriteBlock, BlockIsStored, SameAt, StoresRows;
    var front, last := chain[..|chain| - 1], chain[|chain| - 1];
    assert front + [last] == chain;
    TipBlockStored(p, front, last);
    if i < |front| {
      ReplayExtends(p, front, last);
      BlocksAreStored(p, front, i);
      TipRowsStored(p, front, last);
      StoredLedger.ValidHeightsDiffer(p, chain);
      StaysStored(TablesOf(p, front), TablesOf(p, chain), chain[i]);
    }
  }

  lemma StaysStored(before: Tables, after: Tables, block: Block)
    requires BlockIsStored(before, block) && SameAt(after.events, before.events, block.height)
    requires Lookup(after.blocks, block.height) == Lookup(before.blocks, block.height)
    requires Lookup(after.checkpoints, block.height) == Lookup(before.checkpoints, block.height)
    ensures BlockIsStored(after, block)
  {
    assert forall e: EventPosition :: e.height == block.height ==>
        (e in after.events <==> Lookup(after.events, e).Some?) &&
            (e in before.events <==> Lookup(before.events, e).Some?);
    assert EventsAt(after.events, block.height) == EventsAt(before.events, block.height);
  }

  // ----- transactions -------------------------------------------------------------------------

  /** The row repeats transaction `j` of a block at this height, with its lock time as 32 unsigned bits. */
  predicate Repeats(row: TransactionRow, tx: Tx, j: nat, height: nat) {
    && row.wtxid == tx.wtxid && row.blockHeight == height && row.txIndex == j
    && row.version == tx.version && row.locktime == tx.locktime % 0x1_0000_0000
  }

  lemma {:induction false} PutTransactionsPrefix(m: TransactionTable, height: nat, rows: seq<TxRow>, more: seq<TxRow>,
                                                 n: nat)
    requires n <= |rows|
    ensures PutTransactions(m, height, rows + more, n) == PutTransactions(m, height, rows, n)
  {
    if n > 0 {
      PutTransactionsPrefix(m, height, rows, more, n - 1);
    }
  }

  lemma {:induction false} PutRepeats(m: TransactionTable, height: nat, txs: seq<Tx>, events: seq<EventRecord>, n: nat)
    requires n <= |txs| && DistinctTxids(txs) && forall j :: 0 <= j < |txs| ==> txs[j].txid !in m
    ensures
      var rows := TxRows(txs, events, n);
      var put := PutTransactions(m, height, rows, |rows|);
      && (forall x :: x in m ==> x in put && put[x] == m[x])
      && (forall j :: 0 <= j < n ==> (txs[j].txid in put <==> HasEvent(events, txs[j].txid)))
      && (forall j :: 0 <= j < n && HasEvent(events, txs[j].txid) ==> Repeats(put[txs[j].txid], txs[j], j, height))
      && (forall j :: n <= j < |txs| ==> txs[j].txid !in put)
  {
    hide HasEvent;
    if n > 0 {
      PutRepeats(m, height, txs, events, n - 1);
      var rows, all := TxRows(txs, events, n - 1), TxRows(txs, events, n);
      PutTransactionsPrefix(m, height, rows, all[|rows|..], |rows|);
      assert rows + all[|rows|..] == all;
    }
  }

  /** A transaction of the chain has a row exactly when it has an event, and the row repeats it. */
  ghost predicate TransactionsStored(t: Tables, block: Block) {
    forall j :: 0 <= j < |block.txs| ==>
      && (block.txs[j].txid in t.transactions <==> HasStoredEvent(t.events, block.height, block.txs[j].txid))
      && (block.txs[j].txid in t.transactions ==>
            Repeats(t.transactions[block.txs[j].txid], block.txs[j], j, block.height))
  }

  ghost predicate HasStoredEvent(m: EventTable, height: nat, txid: Txid) {
    exists e :: e in m && e.height == height && m[e].txid == txid
  }

  lemma EventsStoredExactly(m: EventTable, height: nat, rows: seq<EventRecord>, txid: Txid)
    requires StoresRows(m, height, rows)
    ensures HasStoredEvent(m, height, txid) <==> HasEvent(rows, txid)
  {
    if HasEvent(rows, txid) {
      var i :| 0 <= i < |rows| && rows[i].txid == txid;
      assert PositionOf(height, rows[i]) in m;
    }
  }

  lemma TipTransactionsStored(p: Protocol, chain: seq<Block>, block: Block)
    requires Lawful(p) && ValidChain(p, chain + [block])
    ensures TransactionsStored(TablesOf(p, chain + [block]), block)
    ensures forall x :: x in TablesOf(p, chain).transactions ==>
              && x in TablesOf(p, chain + [block]).transactions
              && TablesOf(p, chain + [block]).transactions[x] == TablesOf(p, chain).transactions[x]
    ensures forall x :: x in TablesOf(p, chain + [block]).transactions && x !in TablesOf(p, chain).transactions ==>
              x in Txids(block)
  {
    hide CanonOf, CanonOk, Reduce, ValidChain, WriteBlock, WellFormed, PutTransactions, HasEvent, HasStoredEvent,
      TxRows,
      StoresRows, Repeats, SameAt;
    ReplayExtends(p, chain, block);
    ChainReplays(p, chain);
    TipRowsStored(p, chain, block);
    var c := CanonOf(p, chain);
    NextBlockIsNew(p, chain, block, c);
    WellFormedParts(block);
    var r := ReduceNext(p, c, block).value;
    ReducedBlockRow(p, c.activation, c.root, c.objects, block);
    PutRepeats(c.tables.transactions, block.height, block.txs, r.events, |block.txs|);
    OnlyOwnTransactions(c.tables.transactions, block.height, block, r.events);
    AfterBlockTransactions(c.tables, r);
    var after := TablesOf(p, chain + [block]);
    forall j | 0 <= j < |block.txs|
      ensures HasStoredEvent(after.events, block.height, block.txs[j].txid) <==> HasEvent(r.events, block.txs[j].txid)
    {
      EventsStoredExactly(after.events, block.height, r.events, block.txs[j].txid);
    }
  }

  lemma AfterBlockTransactions(t: Tables, r: ReducedBlock)
    ensures AfterBlock(t, r).transactions == PutTransactions(t.transactions, r.height, r.transactions, |r.transactions|)
  {
  }

  lemma OnlyOwnTransactions(m: TransactionTable, height: nat, block: Block, events: seq<EventRecord>)
    requires DistinctTxids(block.txs)
    ensures
      var rows := TxRows(block.txs, events, |block.txs|);
      forall x :: x in PutTransactions(m, height, rows, |rows|) && x !in m ==> x in Txids(block)
  {
    hide PutTransactions;
    var rows := TxRows(block.txs, events, |block.txs|);
    PutTransactionsRows(m, height, rows, |rows|);
    TxRowsOrdered(block.txs, events, |block.txs|);
  }

  /** tandem_transactions has the rows of the chain's transactions with events, and repeats them. */
  lemma {:induction false} TransactionsAreStored(p: Protocol, chain: seq<Block>, i: nat)
    requires Lawful(p) && ValidChain(p, chain) && i < |chain|
    ensures TransactionsStored(TablesOf(p, chain), chain[i])
  {
    hide CanonOf, ReduceNext, WriteBlock, TransactionsStored, SameAt, StoresRows, Linked, HasTxid, Sound;
    var front, last := chain[..|chain| - 1], chain[|chain| - 1];
    assert front + [last] == chain;
    TipTransactionsStored(p, front, last);
    if i < |front| {
      ReplayExtends(p, front, last);
      TransactionsAreStored(p, front, i);
      TipRowsStored(p, front, last);
      StoredLedger.ValidHeightsDiffer(p, chain);
      assert Txids(chain[i]) !! Txids(last);
      TransactionsStay(TablesOf(p, front), TablesOf(p, chain), chain[i], last);
    }
  }

  lemma TransactionsStay(before: Tables, after: Tables, block: Block, last: Block)
    requires TransactionsStored(before, block) && SameAt(after.events, before.events, block.height)
    requires Txids(block) !! Txids(last)
    requires forall x :: x in before.transactions ==>
               x in after.transactions && after.transactions[x] == before.transactions[x]
    requires forall x :: x in after.transactions && x !in before.transactions ==> x in Txids(last)
    ensures TransactionsStored(after, block)
  {
    hide Repeats;
    forall j | 0 <= j < |block.txs|
      ensures block.txs[j].txid in after.transactions <==> block.txs[j].txid in before.transactions
      ensures HasStoredEvent(after.events, block.height, block.txs[j].txid) <==>
              HasStoredEvent(before.events, block.height, block.txs[j].txid)
    {
      assert block.txs[j].txid in Txids(block);
      SameStoredEvents(before.events, after.events, block.height, block.txs[j].txid);
    }
  }

  lemma SameStoredEvents(m: EventTable, n: EventTable, height: nat, txid: Txid)
    requires SameAt(n, m, height)
    ensures HasStoredEvent(n, height, txid) <==> HasStoredEvent(m, height, txid)
  {
    assert forall e: EventPosition :: e.height == height ==>
        (e in n <==> Lookup(n, e).Some?) && (e in m <==> Lookup(m, e).Some?);
  }

  // ----- the INIT row -------------------------------------------------------------------------

  /** The INIT alone is answered by one event, which opens the founding window if it is valid. */
  lemma InitIsAnswered(p: Protocol, window: Window, tx: Tx, height: nat)
    requires Lawful(p) && tx.txid == p.binding.initTxid
    ensures
      var v := VerdictOf(p, Evidence(tx, height), ContextOf(p, window, StartOf(map[]), tx));
      && v.relevant && |v.events| == 1
      && (v.events[0].validity.ValidOperation? ==>
            && window.openHeight >= window.height + INIT_LEAD
            && window.closeHeight == window.openHeight + FOUNDING_WINDOW)
  {
    hide StartOf, RemainingCandidates;
    StartObjects(map[]);
    NothingConsumed(StartOf(map[]), tx.inputs, |tx.inputs|);
    var c := ContextOf(p, window, StartOf(map[]), tx);
    assert c.carriers == [];
    assert Presented(p, Evidence(tx, height), c);
    var v := VerdictOf(p, Evidence(tx, height), c);
    assert LawfulVerdict(p, Evidence(tx, height), c, v) && IsAnswered(p, Evidence(tx, height), c, v);
    assert CarrierlessEvent(Evidence(tx, height), c, v.events[0]);
  }

  /** What the activation of a block says, by what the validator said of its INIT. */
  ghost predicate Decides(p: Protocol, block: Block, at: nat, v: Verdict, a: InitActivation)
    requires at < |block.txs|
  {
    && a.txid == p.binding.initTxid && a.height == block.height && a.blockHash == block.hash
    && (a.openHeight.Some? <==> a.closeHeight.Some?)
    && InitHeights(p, block.txs[at]) ==
       (if a.openHeight.Some? && a.closeHeight.Some? then Some((a.openHeight.value, a.closeHeight.value)) else None)
    && IsAnswer(v, 0) && a.reason == v.events[0].reason && (a.valid <==> v.events[0].validity.ValidOperation?)
    && (a.valid ==>
          && a.openHeight.Some? && a.openHeight.value >= a.height + 1008
          && a.closeHeight == Some(a.openHeight.value + 4320))
  }

  /** The first row of the INIT has the reason and validity of the validator's one event about it. */
  lemma InitRowTells(p: Protocol, base: Tables, block: Block, at: nat, window: Window)
    requires Lawful(p) && WellFormed(block) && at < |block.txs| && block.txs[at].txid == p.binding.initTxid
    requires Inv(p, base, map[], block.height, StartOf(map[]), {})
    requires window == InitWindow(block.height, InitHeights(p, block.txs[at]))
    ensures Classify(p, window, StartOf(map[]), block.txs[at], at, block.height).Ok?
    ensures
      var rows := Classify(p, window, StartOf(map[]), block.txs[at], at, block.height).value.events;
      var v := VerdictOf(p, Evidence(block.txs[at], block.height),
                         ContextOf(p, window, StartOf(map[]), block.txs[at]));
      && rows != [] && v.events != [] && rows[0].reason == v.events[0].reason
      && rows[0].validity == v.events[0].validity
      && (rows[0].validity.ValidOperation? ==> InitHeights(p, block.txs[at]).Some?)
  {
    hide Inv, Traces, InitHeights, Classify, StartOf, InOrder, ContextOf, RemainingCandidates;
    StartObjects(map[]);
    InitClassified(p, base, block, {}, at);
    TransactionTells(p, window, base, map[], StartOf(map[]), block.txs[at], at, block.height, {});
    InitIsAnswered(p, window, block.txs[at], block.height);
    var rows := Classify(p, window, StartOf(map[]), block.txs[at], at, block.height).value.events;
    assert HasAnswer(rows, at, 0);
  }

  /** Before the window opens no transaction ahead of the INIT changes the working state. */
  lemma InitFindsNothing(p: Protocol, base: Tables, block: Block, at: nat, window: Window)
    requires Lawful(p) && WellFormed(block) && at < |block.txs| && block.height < window.openHeight
    requires Inv(p, base, map[], block.height, StartOf(map[]), {})
    ensures WorkAt(p, window, StartOf(map[]), block.txs, block.height, at) == StartOf(map[])
  {
    hide Inv, StartOf, Processed, ClassifyAll;
    StartObjects(map[]);
    BlockProcessed(p, window, base, map[], StartOf(map[]), block.txs, block.height, at, {});
    EarlyBlockIdles(p, window, StartOf(map[]), block.txs, block.height, at);
  }

  lemma InitDecides(p: Protocol, base: Tables, root: Hash, block: Block) returns (at: nat)
    requires Lawful(p) && WellFormed(block) && HasTxid(block, p.binding.initTxid)
    requires Inv(p, base, map[], block.height, StartOf(map[]), {})
    requires Reduce(p, None, root, map[], block).Ok?
    ensures at < |block.txs| && block.txs[at].txid == p.binding.initTxid
    ensures
      var a := Reduce(p, None, root, map[], block).value.activation;
      var v := VerdictOf(p, Evidence(block.txs[at], block.height),
                         ContextOf(p, WindowOf(a), StartOf(map[]), block.txs[at]));
      && Decides(p, block, at, v, a)
      && (a.valid ==> WorkAt(p, WindowOf(a), StartOf(map[]), block.txs, block.height, at) == StartOf(map[]))
  {
    hide Inv, InitHeights, Classify, StartOf, ClassifyAll, TxRows, Snapshots, CanonicalEvents, ContextOf, WellFormed,
      WorkAt, VerdictOf;
    at := InitPosition(block.txs, p.binding.initTxid, 0).value;
    var window := InitWindow(block.height, InitHeights(p, block.txs[at]));
    InitRowTells(p, base, block, at, window);
    InitIsAnswered(p, window, block.txs[at], block.height);
    var a := Reduce(p, None, root, map[], block).value.activation;
    assert WindowOf(a) == window;
    if a.valid {
      InitFindsNothing(p, base, block, at, window);
    }
  }

  /**
   * tandem_init names the first block and the configured INIT. It is valid, and has the reason, exactly as the
   * validator's first event about the INIT; its heights are the ones of the INIT's own marker.
   */
  lemma InitIsStored(p: Protocol, chain: seq<Block>) returns (at: nat)
    requires Lawful(p) && ValidChain(p, chain) && chain != []
    ensures TablesOf(p, chain).init.Some?
    ensures at < |chain[0].txs| && chain[0].txs[at].txid == p.binding.initTxid
    ensures Decides(p, chain[0], at, VerdictFor(p, [], chain[0], at), TablesOf(p, chain).init.value)
  {
    hide CanonOf, Reduce, Inv, StartOf, WellFormed, HasTxid, ValidChain, Decides, ContextOf, WorkAt;
    ValidPrefix(p, chain, 1);
    assert chain[..1] == [chain[0]] == [] + [chain[0]] && chain[..0] == [];
    BlockStarts(p, [], chain[0]);
    ActivationIsStored(p, chain, 0);
    var c := CanonOf(p, []);
    at := InitDecides(p, c.tables, c.root, chain[0]);
  }
}
