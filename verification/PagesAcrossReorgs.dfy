/** A client that pages through a block's events while the stored chain changes under it. */
module PagesAcrossReorgs {
  import opened Prelude
  import opened Bitcoin
  import opened Tandem
  import opened Schema
  import opened Invariants
  import opened Chain
  import opened Keyset
  import opened Regrouping
  import opened Alphabets
  import opened Node
  import opened BlockEventPages
  import opened Contents
  import Cursors = BlockEventsCursors

  // ----- hash texts ---------------------------------------------------------------------------

  /** Hashes of 32 bytes are told apart by their 64 digits. */
  lemma HashTextsDiffer(g: Hash, h: Hash)
    requires g < Pow2(256) && h < Pow2(256) && HashTextOf(g) == HashTextOf(h)
    ensures g == h
  {
    hide Pow2, Digits, Number, Read, Spell;
    DigitsFit(g, 4, 64);
    DigitsFit(h, 4, 64);
    NumberOfDigits(g, 4, 64);
    NumberOfDigits(h, 4, 64);
    HexIsDistinct();
    assert Pow2(4) == 16 by { SixteenIs(); }
    SpellThenRead(HEX, Digits(g, 4, 64));
    SpellThenRead(HEX, Digits(h, 4, 64));
  }

  lemma SixteenIs()
    ensures Pow2(4) == 16
  {
  }

  // ----- what is shown ------------------------------------------------------------------------

  /** The shown events are those that name an object, and so changed one, and the valid INIT's. */
  lemma ShownChangeObjects(p: Protocol, chain: seq<Block>, e: EventPosition)
    requires Lawful(p) && ValidChain(p, chain) && e in TablesOf(p, chain).events
    ensures
      var row := TablesOf(p, chain).events[e];
      IsShown(row) <==> row.objectKey.Some? || (row.validity.ValidOperation? && row.eventType == INIT)
  {
    hide CanonOf, ValidChain;
    EventsAreShaped(p, chain);
  }

  // ----- one cursor ---------------------------------------------------------------------------

  /** What a page's next cursor reads back as, if as anything: a place in the block that the page is of. */
  lemma HandedOutCursor(t: Tables, height: nat, limit: nat, raw: Option<string>)
    requires limit > 0
    requires BlockEvents(t, height, limit, raw).Ok? && BlockEvents(t, height, limit, raw).value.nextCursor.Some?
    ensures height in t.blocks
    ensures
      var cursor := CheckedCursor(BlockEvents(t, height, limit, raw).value.nextCursor, height);
      match cursor
      case Ok(Some(c)) => c.blockHash == HashTextOf(t.blocks[height].hash)
      case Ok(None) => false
      case Err(e) => e == BadCursor
    ensures height < 10_000_000_000 && EventColumnsOk(t) ==>
              CheckedCursor(BlockEvents(t, height, limit, raw).value.nextCursor, height).Ok?
  {
    hide EventRows, CheckedCursor, HashTextOf, CursorText, Query, IsPlace, EventColumnsOk, Take, Reached;
    var rows := Query(EventRows(t.events, height), PlaceOfCursor(CheckedCursor(raw, height).value), limit + 1);
    QueryIsPart(EventRows(t.events, height), PlaceOfCursor(CheckedCursor(raw, height).value), limit + 1);
    RowsArePlaces(t.events, height);
    var last := LastTaken(rows, limit);
    var hash := HashTextOf(t.blocks[height].hash);
    assert BlockEvents(t, height, limit, raw).value.nextCursor == Some(CursorText(height, hash, last));
    ReadsBackOrNot(height, hash, last);
    if height < 10_000_000_000 && EventColumnsOk(t) {
      CursorReadsBack(t, height, last);
    }
  }

  lemma LastTaken(rows: seq<Position>, limit: nat) returns (last: Position)
    requires 0 < limit < |rows|
    ensures |Take(rows, limit)| == limit && last == Take(rows, limit)[limit - 1] && last in rows
  {
    last := rows[limit - 1];
  }

  lemma ReadsBackOrNot(height: nat, hash: Cursors.HashText, last: Position)
    requires IsPlace(last)
    ensures match CheckedCursor(Some(CursorText(height, hash, last)), height)
            case Ok(Some(c)) => c.blockHash == hash
            case Ok(None) => false
            case Err(e) => e == BadCursor
  {
    hide Cursors.Decode, Cursors.Encode;
    var text := CursorText(height, hash, last);
    var own := Cursors.BlockEventsCursor(height, hash, last.first, last.second, last.third);
    Cursors.CursorRoundTrip(text, own);
    match Cursors.Decode(text)
    case None =>
    case Some(c) =>
      Cursors.CursorRoundTrip(text, c);
      Cursors.EncodingsDiffer(own, c);
  }

  lemma StoredIsReached(p: Protocol, chain: seq<Block>, height: nat)
    requires Lawful(p) && ValidChain(p, chain)
    ensures height in TablesOf(p, chain).blocks ==> Reached(TablesOf(p, chain), height) && chain != []
    ensures chain == [] <==> TablesOf(p, chain).checkpoints == map[]
  {
    hide CanonOf, ObjectsOk, StatesOk, ChaptersOk, AllBelow;
    ChainReplays(p, chain);
    if chain != [] {
      assert chain[0].height in TablesOf(p, chain).blocks;
    }
  }

  /** Both tables have a block at the height, and its digits are the same. */
  ghost predicate SameText(s: Tables, t: Tables, height: nat) {
    && height in s.blocks && height in t.blocks
    && HashTextOf(s.blocks[height].hash) == HashTextOf(t.blocks[height].hash)
  }

  /**
   * A cursor handed out over one stored chain is good over another exactly if that stores the same block at
   * the height: over any other chain it is refused, whatever the page size.
   */
  lemma CursorBelongsToBlock(p: Protocol, a: seq<Block>, b: seq<Block>, height: nat, limit: nat, raw: Option<string>,
                             more: nat)
    requires Lawful(p) && ValidChain(p, a) && ValidChain(p, b) && limit > 0 && more > 0
    requires
      var page := BlockEvents(TablesOf(p, a), height, limit, raw);
      page.Ok? && page.value.nextCursor.Some?
    ensures height in TablesOf(p, a).blocks
    ensures
      var cursor := BlockEvents(TablesOf(p, a), height, limit, raw).value.nextCursor;
      var again := BlockEvents(TablesOf(p, b), height, more, cursor);
      && (!SameText(TablesOf(p, a), TablesOf(p, b), height) && b != [] ==> again == Err(BadCursor))
      && (b == [] ==> again.Err?)
      && (SameText(TablesOf(p, a), TablesOf(p, b), height) && height < 10_000_000_000 ==> again.Ok?)
  {
    hide CanonOf, EventRows, CheckedCursor, HashTextOf, CursorText, Query, Take, Reached, ValidChain, IsPlace,
      EventColumnsOk;
    HandedOutCursor(TablesOf(p, a), height, limit, raw);
    StoredIsReached(p, b, height);
    StoredColumns(p, a);
    var cursor := BlockEvents(TablesOf(p, a), height, limit, raw).value.nextCursor;
    assert cursor.Some?;
    HasCursor(TablesOf(p, b), height, more, cursor);
  }

  /** The cursor names the block stored at its height. */
  ghost predicate IsCurrent(t: Tables, height: nat, c: Cursors.BlockEventsCursor) {
    Reached(t, height) && height in t.blocks && HashTextOf(t.blocks[height].hash) == c.blockHash
  }

  /** A request with a cursor. */
  lemma HasCursor(t: Tables, height: nat, limit: nat, raw: Option<string>)
    requires limit > 0 && raw.Some?
    ensures CheckedCursor(raw, height).Err? ==> BlockEvents(t, height, limit, raw) == Err(BadCursor)
    ensures match CheckedCursor(raw, height)
            case Ok(Some(c)) =>
              if t.checkpoints == map[] then BlockEvents(t, height, limit, raw) == Err(NothingIndexed)
              else if IsCurrent(t, height, c) then BlockEvents(t, height, limit, raw).Ok?
              else BlockEvents(t, height, limit, raw) == Err(BadCursor)
            case _ => true
  {
    hide EventRows, HashTextOf, CursorText, Query, Take, Reached, IsPlace, Cursors.Decode;
  }

  /** A cursor of one height is refused at every other, over any tables. */
  lemma CursorBelongsToHeight(t: Tables, u: Tables, height: nat, other: nat, limit: nat, raw: Option<string>, more: nat)
    requires limit > 0 && more > 0 && other != height
    requires BlockEvents(t, height, limit, raw).Ok? && BlockEvents(t, height, limit, raw).value.nextCursor.Some?
    ensures BlockEvents(u, other, more, BlockEvents(t, height, limit, raw).value.nextCursor) == Err(BadCursor)
  {
    hide EventRows, HashTextOf, CursorText, Query, IsPlace, Take, Reached, CheckedCursor;
    var rows := Query(EventRows(t.events, height), PlaceOfCursor(CheckedCursor(raw, height).value), limit + 1);
    QueryIsPart(EventRows(t.events, height), PlaceOfCursor(CheckedCursor(raw, height).value), limit + 1);
    RowsArePlaces(t.events, height);
    var last := LastTaken(rows, limit);
    ReadsBackElsewhere(height, HashTextOf(t.blocks[height].hash), last, other);
  }

  lemma ReadsBackElsewhere(height: nat, hash: Cursors.HashText, last: Position, other: nat)
    requires IsPlace(last) && other != height
    ensures CheckedCursor(Some(CursorText(height, hash, last)), other) == Err(BadCursor)
  {
    hide Cursors.Decode, Cursors.Encode;
    var text := CursorText(height, hash, last);
    var own := Cursors.BlockEventsCursor(height, hash, last.first, last.second, last.third);
    match Cursors.Decode(text)
    case None =>
    case Some(c) =>
      Cursors.CursorRoundTrip(text, c);
      Cursors.EncodingsDiffer(own, c);
  }

  /** Above the tip a height is not indexed yet; below the INIT block it is, and has no block and no event. */
  lemma OtherHeights(p: Protocol, chain: seq<Block>, height: nat, limit: nat)
    requires Lawful(p) && ValidChain(p, chain) && chain != [] && limit > 0
    ensures height > chain[|chain| - 1].height ==>
              BlockEvents(TablesOf(p, chain), height, limit, None) == Ok(EventPage(None, false, [], None, false))
    ensures height < chain[0].height ==>
              BlockEvents(TablesOf(p, chain), height, limit, None) == Ok(EventPage(None, true, [], None, true))
  {
    hide CanonOf, ObjectsOk, StatesOk, ChaptersOk, AllBelow, HashTextOf, CursorText, Linked;
    ChainReplays(p, chain);
    var t := TablesOf(p, chain);
    assert chain[0].height in t.blocks && chain[0].height in t.checkpoints;
    if height < chain[0].height {
      assert Reached(t, height);
      assert EventRows(t.events, height) == {};
      NothingToQuery(limit);
    }
  }

  lemma NothingToQuery(limit: nat)
    ensures Query({}, None, limit + 1) == []
  {
    assert After({}, None) == {};
  }

  // ----- chains that share a block ------------------------------------------------------------

  /** A chain of known blocks from the INIT block on. */
  ghost predicate IsKnown(p: Protocol, world: iset<Block>, chain: seq<Block>) {
    ValidChain(p, chain) && LinkedIn(world, chain)
  }

  lemma {:induction false} SameBlockSamePast(p: Protocol, world: iset<Block>, a: seq<Block>, b: seq<Block>, i: nat,
                                             j: nat)
    requires HashesCommit(world) && IsKnown(p, world, a) && IsKnown(p, world, b)
    requires i < |a| && j < |b| && a[i].hash == b[j].hash
    ensures i == j && a[..i + 1] == b[..i + 1]
  {
    hide Sound;
    assert a[i] in world && b[j] in world && a[i] == b[j];
    if i == 0 {
      OneHoldsInit(p, b, j);
    } else if j == 0 {
      OneHoldsInit(p, a, i);
    } else {
      assert a[i].previousHash == Some(a[i - 1].hash) && b[j].previousHash == Some(b[j - 1].hash);
      SameBlockSamePast(p, world, a, b, i - 1, j - 1);
      assert a[..i + 1] == a[..i] + [a[i]] && b[..i + 1] == b[..i] + [b[i]];
    }
  }

  lemma OneHoldsInit(p: Protocol, chain: seq<Block>, i: nat)
    requires ValidChain(p, chain) && i < |chain| && HasTxid(chain[i], p.binding.initTxid)
    ensures i == 0
  {
    hide Sound, Linked;
    var k :| 0 <= k < |chain[i].txs| && chain[i].txs[k].txid == p.binding.initTxid;
    assert p.binding.initTxid in Txids(chain[i]);
    var m :| 0 <= m < |chain[0].txs| && chain[0].txs[m].txid == p.binding.initTxid;
    assert p.binding.initTxid in Txids(chain[0]);
  }

  /** Over chains that share a block every request for it is answered alike. */
  lemma SameBlockSamePages(p: Protocol, a: seq<Block>, b: seq<Block>, i: nat, limit: nat, raw: Option<string>)
    requires Lawful(p) && ValidChain(p, a) && ValidChain(p, b) && limit > 0
    requires i < |a| && i < |b| && a[..i + 1] == b[..i + 1]
    ensures BlockEvents(TablesOf(p, a), a[i].height, limit, raw) == BlockEvents(TablesOf(p, b), a[i].height, limit, raw)
    ensures SameText(TablesOf(p, a), TablesOf(p, b), a[i].height)
  {
    hide CanonOf, EventRows, CheckedCursor, HashTextOf, CursorText, Query, Take, Reached, ValidChain, IsPlace, Ordered,
      ReduceNext, Shown;
    assert a[i] == a[..i + 1][i] == b[i] && a[..i] == a[..i + 1][..i] == b[..i];
    PagesShowTheBlock(p, a, i);
    PagesShowTheBlock(p, b, i);
    StoredIsReached(p, a, a[i].height);
    StoredIsReached(p, b, a[i].height);
    StoredHashes(p, a, i);
    StoredHashes(p, b, i);
    var s, t := TablesOf(p, a), TablesOf(p, b);
    assert EventRows(s.events, a[i].height) == SetOf(Ordered(EventRows(s.events, a[i].height)));
    assert EventRows(t.events, a[i].height) == SetOf(Ordered(EventRows(t.events, a[i].height)));
    SameRowsSamePage(s, t, a[i].height, limit, raw);
  }

  lemma SameRowsSamePage(s: Tables, t: Tables, height: nat, limit: nat, raw: Option<string>)
    requires limit > 0 && EventRows(s.events, height) == EventRows(t.events, height)
    requires s.checkpoints != map[] && t.checkpoints != map[] && Reached(s, height) && Reached(t, height)
    requires height in s.blocks && height in t.blocks && s.blocks[height].hash == t.blocks[height].hash
    ensures BlockEvents(s, height, limit, raw) == BlockEvents(t, height, limit, raw)
  {
    hide EventRows, CheckedCursor, HashTextOf, CursorText, Query, Take, Reached, IsPlace;
  }

  lemma StoredHashes(p: Protocol, chain: seq<Block>, i: nat)
    requires Lawful(p) && ValidChain(p, chain) && i < |chain|
    ensures chain[i].height in TablesOf(p, chain).blocks
    ensures TablesOf(p, chain).blocks[chain[i].height].hash == chain[i].hash
    ensures TablesOf(p, chain).checkpoints != map[]
  {
    hide CanonOf, ObjectsOk, StatesOk, ChaptersOk, AllBelow, EventsMatch;
    ChainReplays(p, chain);
    assert chain[i].height in TablesOf(p, chain).checkpoints;
  }

  // ----- a session ----------------------------------------------------------------------------

  /**
   * The cursor parameter of the `k`-th request of a client that starts without one and follows the cursors,
   * when request `j` is answered over the chain stored then; None once it was refused or has finished.
   */
  ghost function RequestOf(p: Protocol, chains: nat -> seq<Block>, height: nat, limit: nat,
                           k: nat): Option<Option<string>>
    requires limit > 0
  {
    if k == 0 then Some(None)
    else
      match RequestOf(p, chains, height, limit, k - 1)
      case None => None
      case Some(raw) =>
        match BlockEvents(TablesOf(p, chains(k - 1)), height, limit, raw)
        case Err(_) => None
        case Ok(page) => if page.nextCursor.Some? then Some(page.nextCursor) else None
  }

  /** Every chain stored meanwhile is a known one; a hash commits to its block and has 32 bytes. */
  ghost predicate IsHistory(p: Protocol, world: iset<Block>, chains: nat -> seq<Block>) {
    && HashesCommit(world) && (forall b :: b in world ==> b.hash < Pow2(256))
    && forall n :: IsKnown(p, world, chains(n))
  }

  /** The answer to the `k`-th request. */
  ghost function AnswerTo(p: Protocol, chains: nat -> seq<Block>, height: nat, limit: nat, k: nat): Result<EventPage>
    requires limit > 0 && RequestOf(p, chains, height, limit, k).Some?
  {
    BlockEvents(TablesOf(p, chains(k)), height, limit, RequestOf(p, chains, height, limit, k).value)
  }

  /** Equal digits at a height mean the same block there, and so the same chain up to it. */
  lemma TextTellsBlock(p: Protocol, world: iset<Block>, a: seq<Block>, b: seq<Block>, i: nat)
    requires Lawful(p) && HashesCommit(world) && (forall c :: c in world ==> c.hash < Pow2(256))
    requires IsKnown(p, world, a) && IsKnown(p, world, b) && i < |a|
    ensures SameText(TablesOf(p, a), TablesOf(p, b), a[i].height) <==> i < |b| && a[..i + 1] == b[..i + 1]
  {
    hide CanonOf, ValidChain, Lawful, BlockEvents, Pow2, HashTextOf;
    var height := a[i].height;
    StoredHashes(p, a, i);
    if SameText(TablesOf(p, a), TablesOf(p, b), height) {
      var j := StoredPlace(p, b, height);
      StoredHashes(p, b, j);
      assert a[i] in world && b[j] in world;
      HashTextsDiffer(a[i].hash, b[j].hash);
      SameBlockSamePast(p, world, a, b, i, j);
    }
    if i < |b| && a[..i + 1] == b[..i + 1] {
      SameBlockSamePages(p, a, b, i, 1, None);
    }
  }

  lemma StoredPlace(p: Protocol, chain: seq<Block>, height: nat) returns (j: nat)
    requires Lawful(p) && ValidChain(p, chain) && height in TablesOf(p, chain).blocks
    ensures j < |chain| && chain[j].height == height
  {
    hide CanonOf, ObjectsOk, StatesOk, ChaptersOk, AllBelow, EventsMatch;
    ChainReplays(p, chain);
    j := height - chain[0].height;
  }

  /**
   * Every request of a session gets the cursor that unchanged tables would have handed out, and it is answered
   * exactly if the chain stored then still holds the block that the session began with.
   */
  lemma {:induction false} AnsweredOverOneBlock(p: Protocol, world: iset<Block>, chains: nat -> seq<Block>, i: nat,
                                                limit: nat, k: nat)
    requires Lawful(p) && IsHistory(p, world, chains) && limit > 0
    requires i < |chains(0)| && chains(0)[i].height < 10_000_000_000
    requires RequestOf(p, chains, chains(0)[i].height, limit, k).Some?
    ensures RequestOf(p, chains, chains(0)[i].height, limit, k)
         == CursorOf(TablesOf(p, chains(0)), chains(0)[i].height, limit, k)
    ensures AnswerTo(p, chains, chains(0)[i].height, limit, k).Ok? <==>
            i < |chains(k)| && chains(k)[..i + 1] == chains(0)[..i + 1]
  {
    hide CanonOf, BlockEvents, ValidChain, LinkedIn, Lawful, Pow2, SameText, HashesCommit;
    var height := chains(0)[i].height;
    assert IsKnown(p, world, chains(0)) && IsKnown(p, world, chains(k));
    if k == 0 {
      FirstIsAnswered(p, chains(0), i, limit);
    } else {
      AnsweredOverOneBlock(p, world, chains, i, limit, k - 1);
      assert IsKnown(p, world, chains(k - 1));
      var raw := RequestOf(p, chains, height, limit, k - 1).value;
      assert chains(k - 1)[i] == chains(k - 1)[..i + 1][i] == chains(0)[..i + 1][i] == chains(0)[i];
      SameBlockSamePages(p, chains(0), chains(k - 1), i, limit, raw);
      CursorBelongsToBlock(p, chains(k - 1), chains(k), height, limit, raw, limit);
      TextTellsBlock(p, world, chains(k - 1), chains(k), i);
    }
  }

  lemma FirstIsAnswered(p: Protocol, chain: seq<Block>, i: nat, limit: nat)
    requires Lawful(p) && ValidChain(p, chain) && i < |chain| && limit > 0
    ensures BlockEvents(TablesOf(p, chain), chain[i].height, limit, None).Ok?
  {
    hide CanonOf, EventRows, HashTextOf, CursorText, Query, Take, Reached, ValidChain, IsPlace;
    StoredHashes(p, chain, i);
    StoredIsReached(p, chain, chain[i].height);
  }

  /**
   * A session under reorgs: every answered page is the next slice of the events of one block, the one that the
   * session began with, so no event is missed or shown twice; a page that says it is complete ends them. Once
   * another block is stored at the height, the next cursor is refused.
   */
  lemma SessionShowsOneBlock(p: Protocol, world: iset<Block>, chains: nat -> seq<Block>, i: nat, limit: nat, k: nat)
    requires Lawful(p) && IsHistory(p, world, chains) && limit > 0
    requires i < |chains(0)| && chains(0)[i].height < 10_000_000_000
    requires RequestOf(p, chains, chains(0)[i].height, limit, k).Some?
    ensures ReduceNext(p, CanonOf(p, chains(0)[..i]), chains(0)[i]).Ok?
    ensures
      var shown := Shown(ReduceNext(p, CanonOf(p, chains(0)[..i]), chains(0)[i]).value.events);
      k < PageCount(|shown|, limit) && k * limit <= |shown| &&
      match AnswerTo(p, chains, chains(0)[i].height, limit, k)
      case Ok(page) =>
        && i < |chains(k)| && chains(k)[..i + 1] == chains(0)[..i + 1]
        && page.events == Slice(shown, limit, k) && page.complete == (k == PageCount(|shown|, limit) - 1)
      case Err(_) => !(i < |chains(k)| && chains(k)[..i + 1] == chains(0)[..i + 1])
  {
    hide CanonOf, BlockEvents, ValidChain, LinkedIn, Lawful, Pow2, HashesCommit, ReduceNext, Shown, CursorOf, Slice,
      PageCount, Joined;
    assert IsKnown(p, world, chains(0)) && IsKnown(p, world, chains(k));
    AnsweredOverOneBlock(p, world, chains, i, limit, k);
    BlockPagesAreComplete(p, chains(0), i, limit, k);
    if i < |chains(k)| && chains(k)[..i + 1] == chains(0)[..i + 1] {
      SameBlockSamePages(p, chains(0), chains(k), i, limit, RequestOf(p, chains, chains(0)[i].height, limit, k).value);
    }
  }
}
