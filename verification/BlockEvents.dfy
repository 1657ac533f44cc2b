/** Reading a block's events page by page (src/api/block-events.service.ts). */
module BlockEventPages {
  import opened Prelude
  import opened Bitcoin
  import opened Tandem
  import opened Reducer
  import opened Schema
  import opened Written
  import opened Blocks
  import opened Chain
  import opened Keyset
  import opened Alphabets
  import opened Regrouping
  import Cursors = BlockEventsCursors
  import opened Invariants
  import Conservation
  import ChainTheorems

  datatype EventPage = EventPage(
    blockHash: Option<Cursors.HashText>, indexed: bool, events: seq<Position>,
    nextCursor: Option<string>, complete: bool)

  /** A hash in display hex. */
  function HashTextOf(h: Hash): Cursors.HashText {
    DigitsFit(h, 4, 64);
    assert Pow2(4) == 16;
    Spell(HEX, Digits(h, 4, 64))
  }

  predicate IsShown(row: EventRecord) {
    row.validity.ValidOperation? || row.validity.TerminalNoncanonical?
  }

  function PlaceOf(row: EventRecord): Position {
    Position(row.txIndex, row.eventIndex, row.subIndex)
  }

  /** The rows of the query: events of one height that changed an object or validated the INIT. */
  ghost function EventRows(events: EventTable, height: nat): set<Position> {
    set e | e in events && e.height == height && IsShown(events[e]) :: Position(e.txIndex, e.eventIndex, e.subIndex)
  }

  /** Some checkpoint is at least this high. */
  ghost predicate Reached(t: Tables, height: nat) {
    exists h :: h in t.checkpoints && height <= h
  }

  function CheckedCursor(raw: Option<string>, height: nat): Result<Option<Cursors.BlockEventsCursor>> {
    match raw
    case None => Ok(None)
    case Some(text) =>
      match Cursors.Decode(text)
      case None => Err(BadCursor)
      case Some(c) => if c.height != height then Err(BadCursor) else Ok(Some(c))
  }

  function PlaceOfCursor(c: Option<Cursors.BlockEventsCursor>): Option<Position> {
    match c
    case None => None
    case Some(c) => Some(Position(c.txIndex, c.eventIndex, c.subIndex))
  }

  predicate IsPlace(p: Position) {
    p.first >= 0 && p.second >= 0 && p.third >= 0
  }

  function CursorText(height: nat, hash: Cursors.HashText, last: Position): string
    requires IsPlace(last)
  {
    Cursors.Encode(Cursors.BlockEventsCursor(height, hash, last.first, last.second, last.third))
  }

  /** One request: at most `limit` events of the block at a height, after the cursor. */
  ghost function BlockEvents(t: Tables, height: nat, limit: nat, raw: Option<string>): Result<EventPage>
    requires limit > 0
  {
    var cursor :- CheckedCursor(raw, height);
    if t.checkpoints == map[] then Err(NothingIndexed)
    else if !Reached(t, height) then
      if cursor.Some? then Err(BadCursor) else Ok(EventPage(None, false, [], None, false))
    else
      var blockHash := if height in t.blocks then Some(HashTextOf(t.blocks[height].hash)) else None;
      if cursor.Some? && Some(cursor.value.blockHash) != blockHash then Err(BadCursor)
      else
        var rows := Query(EventRows(t.events, height), PlaceOfCursor(cursor), limit + 1);
        QueryIsPart(EventRows(t.events, height), PlaceOfCursor(cursor), limit + 1);
        RowsArePlaces(t.events, height);
        var page := Take(rows, limit);
        var next :=
          if |rows| > limit && blockHash.Some? then Some(CursorText(height, blockHash.value, page[|page| - 1]))
          else None;
        Ok(EventPage(blockHash, true, page, next, |rows| <= limit))
  }

  lemma RowsArePlaces(events: EventTable, height: nat)
    ensures forall p :: p in EventRows(events, height) ==> IsPlace(p)
  {
  }

  /** The cursor parameter of the `k`-th request of a client that starts without one; None when it has finished. */
  ghost function CursorOf(t: Tables, height: nat, limit: nat, k: nat): Option<Option<string>>
    requires limit > 0
  {
    if k == 0 then Some(None)
    else
      match CursorOf(t, height, limit, k - 1)
      case None => None
      case Some(raw) =>
        match BlockEvents(t, height, limit, raw)
        case Err(_) => None
        case Ok(page) => if page.nextCursor.Some? then Some(page.nextCursor) else None
  }

  /** Event places fit their INT UNSIGNED columns, and every event has its block row. */
  ghost predicate EventColumnsOk(t: Tables) {
    forall e :: e in t.events ==>
      && e.txIndex <= U32_MAX && e.eventIndex <= U32_MAX && e.subIndex <= U32_MAX
      && e.height in t.blocks
  }

  /** After `k` pages the cursor stands at the last event of the `k`-th slice. */
  ghost predicate StandsAt(t: Tables, height: nat, limit: nat, k: nat, raw: Option<string>)
    requires limit > 0
  {
    var all := Ordered(EventRows(t.events, height));
    var cursor := CheckedCursor(raw, height);
    && k * limit <= |all|
    && cursor.Ok?
    && (cursor.value.Some? ==>
          height in t.blocks && cursor.value.value.blockHash == HashTextOf(t.blocks[height].hash))
    && Ordered(After(EventRows(t.events, height), PlaceOfCursor(cursor.value))) == Left(all, limit, k)
  }

  /** The cursor a page hands out reads back as the place of its last event. */
  lemma CursorReadsBack(t: Tables, height: nat, last: Position)
    requires EventColumnsOk(t) && height < 10_000_000_000 && last in EventRows(t.events, height) && IsPlace(last)
    ensures height in t.blocks
    ensures
      var cursor := CheckedCursor(Some(CursorText(height, HashTextOf(t.blocks[height].hash), last)), height);
      && cursor.Ok? && cursor.value.Some?
      && cursor.value.value.blockHash == HashTextOf(t.blocks[height].hash)
      && PlaceOfCursor(cursor.value) == Some(last)
  {
    var hash := HashTextOf(t.blocks[height].hash);
    var c := Cursors.BlockEventsCursor(height, hash, last.first, last.second, last.third);
    Cursors.CursorRoundTrip(CursorText(height, hash, last), c);
  }

  lemma PageIsSlice(t: Tables, height: nat, limit: nat, k: nat, raw: Option<string>)
    requires limit > 0 && height < 10_000_000_000 && EventColumnsOk(t) && Reached(t, height)
    requires StandsAt(t, height, limit, k, raw)
    ensures
      var all := Ordered(EventRows(t.events, height));
      var more := (k + 1) * limit < |all|;
      match BlockEvents(t, height, limit, raw)
      case Err(_) => false
      case Ok(page) =>
        && page.indexed && page.events == Slice(all, limit, k)
        && page.complete == !more && page.nextCursor.Some? == more
        && (more ==> StandsAt(t, height, limit, k + 1, page.nextCursor))
  {
    hide EventRows, Ordered, After, CheckedCursor, HashTextOf, CursorText, Query, Slice, IsPlace, EventColumnsOk;
    var rows := EventRows(t.events, height);
    var cursor := PlaceOfCursor(CheckedCursor(raw, height).value);
    SliceIsPage(rows, cursor, limit, k);
    RowsArePlaces(t.events, height);
    if (k + 1) * limit < |Ordered(rows)| {
      CursorReadsBack(t, height, Page(rows, cursor, limit)[limit - 1]);
    }
  }

  lemma {:induction false} ClientStandsAt(t: Tables, height: nat, limit: nat, k: nat)
    requires limit > 0 && height < 10_000_000_000 && EventColumnsOk(t) && Reached(t, height)
    ensures
      var n := |EventRows(t.events, height)|;
      match CursorOf(t, height, limit, k)
      case None => k >= PageCount(n, limit)
      case Some(raw) => k < PageCount(n, limit) && StandsAt(t, height, limit, k, raw)
  {
    hide BlockEvents, StandsAt, EventRows, Ordered;
    var rows := EventRows(t.events, height);
    PagesFit(|rows|, limit, k);
    if k == 0 {
      StandsAtStart(t, height, limit);
    } else {
      ClientStandsAt(t, height, limit, k - 1);
      PagesFit(|rows|, limit, k - 1);
      if CursorOf(t, height, limit, k - 1).Some? {
        PageIsSlice(t, height, limit, k - 1, CursorOf(t, height, limit, k - 1).value);
      } else {
        LessPages(k - 1, k, limit);
      }
    }
  }

  lemma StandsAtStart(t: Tables, height: nat, limit: nat)
    requires limit > 0
    ensures StandsAt(t, height, limit, 0, None)
  {
  }

  /**
   * Over unchanged tables a client that follows the cursors gets the slices of the block's shown events
   * in order, one per page; no cursor is refused, and the last page is the one that says so.
   */
  lemma PagingIsComplete(t: Tables, height: nat, limit: nat, k: nat)
    requires limit > 0 && height < 10_000_000_000 && EventColumnsOk(t) && Reached(t, height)
    ensures
      var all := Ordered(EventRows(t.events, height));
      var pages := PageCount(|all|, limit);
      && (CursorOf(t, height, limit, k).Some? <==> k < pages)
      && (k < pages ==>
            k * limit <= |all| &&
            match BlockEvents(t, height, limit, CursorOf(t, height, limit, k).value)
            case Err(_) => false
            case Ok(page) => page.events == Slice(all, limit, k) && page.complete == (k == pages - 1))
      && Joined(all, limit, 0) == all
  {
    hide BlockEvents, EventRows, Ordered, CursorOf, StandsAt, Slice, Joined, PageCount, EventColumnsOk, Reached;
    var all := Ordered(EventRows(t.events, height));
    ClientStandsAt(t, height, limit, k);
    PagesFit(|all|, limit, k);
    PagesFit(|all|, limit, k + 1);
    SlicesJoin(all, limit, 0);
    assert all[0 * limit..] == all;
    if k < PageCount(|all|, limit) {
      PageIsSlice(t, height, limit, k, CursorOf(t, height, limit, k).value);
    }
  }

  // ----- what the pages of a stored block show ------------------------------------------------

  /** The places of the shown events of a block, in the order the engine recorded them. */
  function Shown(rows: seq<EventRecord>): seq<Position> {
    if rows == [] then []
    else
      var n := |rows| - 1;
      Shown(rows[..n]) + if IsShown(rows[n]) then [PlaceOf(rows[n])] else []
  }

  lemma {:induction false} ShownMembers(rows: seq<EventRecord>, p: Position)
    ensures p in Shown(rows) <==> exists i :: 0 <= i < |rows| && IsShown(rows[i]) && PlaceOf(rows[i]) == p
  {
    if rows != [] {
      ShownMembers(rows[..|rows| - 1], p);
    }
  }

  lemma {:induction false} ShownAscends(rows: seq<EventRecord>)
    requires forall i, j :: 0 <= i < j < |rows| ==> Before(rows[i], rows[j])
    ensures IsAscending(Shown(rows))
  {
    if rows != [] {
      var n := |rows| - 1;
      ShownAscends(rows[..n]);
      var front := Shown(rows[..n]);
      forall i | 0 <= i < |front| && IsShown(rows[n])
        ensures Precedes(front[i], PlaceOf(rows[n]))
      {
        ShownMembers(rows[..n], front[i]);
        var j :| 0 <= j < n && PlaceOf(rows[j]) == front[i];
        assert Before(rows[j], rows[n]);
      }
    }
  }

  /** The event table of a chain holds, at the height of a block, just what reducing the block recorded. */
  lemma TipRows(p: Protocol, chain: seq<Block>, block: Block)
    requires Lawful(p) && ValidChain(p, chain + [block])
    ensures ReduceNext(p, CanonOf(p, chain), block).Ok?
    ensures
      var shown := Shown(ReduceNext(p, CanonOf(p, chain), block).value.events);
      && Ordered(EventRows(TablesOf(p, chain + [block]).events, block.height)) == shown
      && forall h :: h != block.height ==>
           EventRows(TablesOf(p, chain + [block]).events, h) == EventRows(TablesOf(p, chain).events, h)
  {
    hide CanonOf, ReduceNext, ValidChain, AfterBlock, WriteBlock, Ordered, EventRows;
    ReplayExtends(p, chain, block);
    ChainTheorems.BlockTraces(p, chain, block);
    ReducedHeight(p, chain, block);
    Conservation.EventsBelow(p, chain, block);
    var r := ReduceNext(p, CanonOf(p, chain), block).value;
    Conservation.AfterBlockEvents(TablesOf(p, chain), r);
    WrittenRows(TablesOf(p, chain).events, block.height, r.events);
    OrderIsUnique(Ordered(EventRows(TablesOf(p, chain + [block]).events, block.height)), Shown(r.events));
  }

  lemma WrittenRows(m: EventTable, height: nat, rows: seq<EventRecord>)
    requires forall i, j :: 0 <= i < j < |rows| ==> Before(rows[i], rows[j])
    requires forall e :: e in m ==> e.height != height
    ensures IsAscending(Shown(rows))
    ensures EventRows(PutEvents(m, height, rows, |rows|), height) == SetOf(Shown(rows))
    ensures forall h :: h != height ==> EventRows(PutEvents(m, height, rows, |rows|), h) == EventRows(m, h)
  {
    hide PutEvents, Precedes, IsAscending, Shown, Before, IsShown;
    var after := PutEvents(m, height, rows, |rows|);
    Appending.OrderedPositionsDiffer(height, rows);
    Appending.PutEventsRows(m, height, rows, |rows|);
    ShownAscends(rows);
    forall place
      ensures place in EventRows(after, height) <==> place in Shown(rows)
    {
      ShownMembers(rows, place);
      if place in Shown(rows) {
        var i :| 0 <= i < |rows| && IsShown(rows[i]) && PlaceOf(rows[i]) == place;
        assert PositionOf(height, rows[i]) in after;
      }
    }
    forall h | h != height
      ensures EventRows(after, h) == EventRows(m, h)
    {
    }
  }

  /**
   * For every block of a stored chain, following the cursors at its height yields exactly the shown events
   * that reducing the block recorded, in the order it recorded them.
   */
  lemma {:induction false} PagesShowTheBlock(p: Protocol, chain: seq<Block>, i: nat)
    requires Lawful(p) && ValidChain(p, chain) && i < |chain|
    ensures ValidChain(p, chain[..i]) && ReduceNext(p, CanonOf(p, chain[..i]), chain[i]).Ok?
    ensures Ordered(EventRows(TablesOf(p, chain).events, chain[i].height))
         == Shown(ReduceNext(p, CanonOf(p, chain[..i]), chain[i]).value.events)
    ensures Reached(TablesOf(p, chain), chain[i].height) && chain[i].height in TablesOf(p, chain).blocks
  {
    hide CanonOf, ReduceNext, Ordered, EventRows, Shown;
    StoredHeight(p, chain, i);
    var front, last := chain[..|chain| - 1], chain[|chain| - 1];
    assert front + [last] == chain;
    TipRows(p, front, last);
    if i < |front| {
      ReplayExtends(p, front, last);
      PagesShowTheBlock(p, front, i);
      assert front[..i] == chain[..i];
      assert chain[i].height != last.height;
    } else {
      ReplayExtends(p, front, last);
      assert chain[..i] == front;
    }
  }

  lemma StoredColumns(p: Protocol, chain: seq<Block>)
    requires Lawful(p) && ValidChain(p, chain)
    ensures EventColumnsOk(TablesOf(p, chain))
  {
    hide CanonOf, ObjectsOk, StatesOk, ChaptersOk, AllBelow, BlocksMatch, ValidChain;
    ChainReplays(p, chain);
  }

  /**
   * End to end: over the tables of any stored chain, a client that asks for any of its blocks and follows the
   * cursors gets exactly the shown events that reducing the block recorded, in slices of the limit and in the
   * order recorded, until the page that says it is complete.
   */
  lemma BlockPagesAreComplete(p: Protocol, chain: seq<Block>, i: nat, limit: nat, k: nat)
    requires Lawful(p) && ValidChain(p, chain) && i < |chain|
    requires limit > 0 && chain[i].height < 10_000_000_000
    ensures ReduceNext(p, CanonOf(p, chain[..i]), chain[i]).Ok?
    ensures
      var t, height := TablesOf(p, chain), chain[i].height;
      var shown := Shown(ReduceNext(p, CanonOf(p, chain[..i]), chain[i]).value.events);
      var pages := PageCount(|shown|, limit);
      && (CursorOf(t, height, limit, k).Some? <==> k < pages)
      && (k < pages ==>
            k * limit <= |shown| &&
            match BlockEvents(t, height, limit, CursorOf(t, height, limit, k).value)
            case Err(_) => false
            case Ok(page) => page.events == Slice(shown, limit, k) && page.complete == (k == pages - 1))
      && Joined(shown, limit, 0) == shown
  {
    hide CanonOf, ReduceNext, Ordered, EventRows, Shown, BlockEvents, CursorOf, Slice, Joined, PageCount,
      EventColumnsOk,
      Reached, ValidChain;
    PagesShowTheBlock(p, chain, i);
    StoredColumns(p, chain);
    PagingIsComplete(TablesOf(p, chain), chain[i].height, limit, k);
  }

  lemma StoredHeight(p: Protocol, chain: seq<Block>, i: nat)
    requires Lawful(p) && ValidChain(p, chain) && i < |chain|
    ensures Reached(TablesOf(p, chain), chain[i].height) && chain[i].height in TablesOf(p, chain).blocks
  {
    hide CanonOf, ObjectsOk, StatesOk, ChaptersOk;
    ChainReplays(p, chain);
    var t := TablesOf(p, chain);
    assert chain[i].height in t.blocks && chain[i].height in t.checkpoints;
  }
}
