/** The paged catalog of all objects, newest first (src/api/tandem-catalog.service.ts). */
module Catalog {
  import opened Prelude
  import opened Bitcoin
  import opened StateEngine
  import opened Tandem
  import opened Reducer
  import opened Schema
  import opened Invariants
  import opened Written
  import opened Activation
  import opened Chain
  import opened Keyset
  import Conservation

  /** The signed checkpoint a page is read against. */
  datatype Verification = Verification(
    height: nat, blockHash: Hash, eventRoot: Hash, objectStateRoot: Hash, chainedRoot: Hash,
    foundingCreated: nat, allObjects: nat, activeObjects: nat)

  datatype CatalogCursor = CatalogCursor(snapshot: Hash, limit: nat, height: nat, key: Key, offset: nat)

  datatype CatalogPage = CatalogPage(
    snapshot: Hash, offset: nat, items: seq<Position>, hasMore: bool, nextCursor: Option<CatalogCursor>)

  /** ORDER BY create_height DESC, object_key ASC. */
  function PlaceOf(createHeight: nat, key: Key): Position {
    Position(0 - createHeight, key, 0)
  }

  ghost function Listing(objects: ObjectTable): set<Position> {
    set k | k in objects :: PlaceOf(objects[k].createHeight, k)
  }

  function Founding(objects: ObjectTable): set<Key> {
    set k | k in objects && objects[k].founding
  }

  function Active(objects: ObjectTable): set<Key> {
    set k | k in objects && objects[k].status.Active?
  }

  /** The tip block and the counts in the tables are the ones the checkpoint was signed for. */
  ghost predicate Agrees(t: Tables, v: Verification) {
    && v.height in t.blocks && (forall h :: h in t.blocks ==> h <= v.height)
    && t.blocks[v.height].hash == v.blockHash && t.blocks[v.height].eventRoot == v.eventRoot
    && t.blocks[v.height].objectStateRoot == v.objectStateRoot && t.blocks[v.height].chainedRoot == v.chainedRoot
    && |t.objects| == v.allObjects && |Founding(t.objects)| == v.foundingCreated
    && |Active(t.objects)| == v.activeObjects
  }

  /** The checks on single items: created by the tip, strictly after the item before. */
  predicate ItemsInOrder(items: seq<Position>, tip: nat) {
    forall i :: 0 <= i < |items| ==>
      && 0 - items[i].first <= tip
      && (i > 0 ==>
            items[i].first >= items[i - 1].first
            && (items[i].first == items[i - 1].first ==> items[i].second > items[i - 1].second))
  }

  function PlaceOfCursor(cursor: Option<CatalogCursor>): Option<Position> {
    match cursor
    case None => None
    case Some(c) => Some(PlaceOf(c.height, c.key))
  }

  function OffsetOf(cursor: Option<CatalogCursor>): nat {
    match cursor case None => 0 case Some(c) => c.offset
  }

  /** The next cursor names the last item and counts the items handed out. */
  function NextCursor(snapshot: Hash, limit: nat, offset: nat, items: seq<Position>): CatalogCursor
    requires items != [] && IsPlace(items[|items| - 1])
  {
    var last := items[|items| - 1];
    CatalogCursor(snapshot, limit, 0 - last.first, last.second, offset + |items|)
  }

  lemma CursorNamesLast(p: Position)
    requires IsPlace(p)
    ensures PlaceOf(0 - p.first, p.second) == p
  {
  }

  predicate IsPlace(p: Position) {
    p.first <= 0 && p.second >= 0 && p.third == 0
  }

  lemma ListedPlaces(objects: ObjectTable)
    ensures forall p :: p in Listing(objects) ==> IsPlace(p)
  {
  }

  /**
   * One request. `digest` is the snapshot hash over the checkpoint, the reorg epoch and the count; a cursor
   * here is one that passed its authentication.
   */
  ghost function CatalogRequest(t: Tables, v: Verification, digest: (Verification, nat, nat) -> Hash, epoch: nat,
                                limit: nat,
                      cursor: Option<CatalogCursor>): Result<CatalogPage>
    requires limit > 0
  {
    var snapshot := digest(v, epoch, |t.objects|);
    if cursor.Some? && (cursor.value.limit != limit || cursor.value.offset < 1) then Err(BadCursor)
    else if !Agrees(t, v) then Err(StateDiffers)
    else if cursor.Some? && (cursor.value.snapshot != snapshot || cursor.value.offset >= |t.objects|) then
      Err(SnapshotChanged)
    else
      var rows := Query(Listing(t.objects), PlaceOfCursor(cursor), limit + 1);
      QueryIsPart(Listing(t.objects), PlaceOfCursor(cursor), limit + 1);
      ListedPlaces(t.objects);
      var items := Take(rows, limit);
      var offset, hasMore := OffsetOf(cursor), |rows| > limit;
      if offset + |items| > |t.objects| || hasMore != (offset + |items| < |t.objects|)
         || !ItemsInOrder(items, v.height)
      then Err(PageInconsistent)
      else
        Ok(CatalogPage(snapshot, offset, items, hasMore,
                       if hasMore then Some(NextCursor(snapshot, limit, offset, items)) else None))
  }

  /** The cursor of the `k`-th request of a client that starts without one; None when it has finished. */
  ghost function CursorOf(t: Tables, v: Verification, digest: (Verification, nat, nat) -> Hash, epoch: nat, limit: nat,
                          k: nat): Option<Option<CatalogCursor>>
    requires limit > 0
  {
    if k == 0 then Some(None)
    else
      match CursorOf(t, v, digest, epoch, limit, k - 1)
      case None => None
      case Some(cursor) =>
        match CatalogRequest(t, v, digest, epoch, limit, cursor)
        case Err(_) => None
        case Ok(page) => if page.nextCursor.Some? then Some(page.nextCursor) else None
  }

  ghost predicate CreatedBy(objects: ObjectTable, tip: nat) {
    forall k :: k in objects ==> objects[k].createHeight <= tip
  }

  function Without(objects: ObjectTable, k: Key): ObjectTable {
    map j | j in objects && j != k :: objects[j]
  }

  lemma ListingWithout(objects: ObjectTable, k: Key)
    requires k in objects
    ensures Listing(objects) == Listing(Without(objects, k)) + {PlaceOf(objects[k].createHeight, k)}
    ensures PlaceOf(objects[k].createHeight, k) !in Listing(Without(objects, k))
    ensures |objects| == |Without(objects, k)| + 1
  {
    var rest := Without(objects, k);
    forall p
      ensures p in Listing(objects) <==> p in Listing(rest) || p == PlaceOf(objects[k].createHeight, k)
    {
      if p in Listing(objects) {
        var j :| j in objects && PlaceOf(objects[j].createHeight, j) == p;
        assert j != k ==> j in rest && rest[j] == objects[j];
      }
      if p in Listing(rest) {
        var j :| j in rest && PlaceOf(rest[j].createHeight, j) == p;
        assert j in objects && rest[j] == objects[j];
      }
    }
    assert objects.Keys == rest.Keys + {k};
    assert |objects| == |objects.Keys| && |rest| == |rest.Keys|;
  }

  lemma {:induction false} ListingHasAll(objects: ObjectTable)
    ensures |Listing(objects)| == |objects|
    decreases |objects|
  {
    hide PlaceOf, Without;
    if objects == map[] {
      assert Listing(objects) == {};
    } else {
      var k :| k in objects;
      ListingWithout(objects, k);
      ListingHasAll(Without(objects, k));
    }
  }

  /** After `k` pages the cursor stands at the last object of the `k`-th slice and has counted them. */
  ghost predicate StandsAt(t: Tables, v: Verification, digest: (Verification, nat, nat) -> Hash, epoch: nat, limit: nat,
                           k: nat, cursor: Option<CatalogCursor>)
  {
    var all := Ordered(Listing(t.objects));
    && k * limit <= |all| && OffsetOf(cursor) == k * limit
    && (cursor.Some? ==>
          cursor.value.limit == limit && cursor.value.offset >= 1 && k * limit < |all|
          && cursor.value.snapshot == digest(v, epoch, |t.objects|))
    && Ordered(After(Listing(t.objects), PlaceOfCursor(cursor))) == Left(all, limit, k)
  }

  lemma SliceInOrder(rows: set<Position>, limit: nat, k: nat, tip: nat)
    requires k * limit <= |Ordered(rows)| && forall p :: p in rows ==> IsPlace(p) && 0 - p.first <= tip
    ensures ItemsInOrder(Slice(Ordered(rows), limit, k), tip)
  {
    hide Ordered;
    var all := Ordered(rows);
    var items := Slice(all, limit, k);
    forall i | 0 <= i < |items|
      ensures 0 - items[i].first <= tip
      ensures i > 0 ==> items[i].first >= items[i - 1].first
      ensures i > 0 && items[i].first == items[i - 1].first ==> items[i].second > items[i - 1].second
    {
      assert items[i] == all[k * limit + i] && all[k * limit + i] in SetOf(all);
      if i > 0 {
        assert items[i - 1] == all[k * limit + (i - 1)] && all[k * limit + (i - 1)] in SetOf(all);
        assert Precedes(items[i - 1], items[i]);
      }
    }
  }

  lemma PageIsSlice(t: Tables, v: Verification, digest: (Verification, nat, nat) -> Hash, epoch: nat, limit: nat,
                    k: nat, cursor: Option<CatalogCursor>)
    requires limit > 0 && Agrees(t, v) && CreatedBy(t.objects, v.height)
    requires StandsAt(t, v, digest, epoch, limit, k, cursor)
    ensures
      var all := Ordered(Listing(t.objects));
      var more := (k + 1) * limit < |all|;
      match CatalogRequest(t, v, digest, epoch, limit, cursor)
      case Err(_) => false
      case Ok(page) =>
        && page.items == Slice(all, limit, k) && page.offset == k * limit && page.hasMore == more
        && page.nextCursor.Some? == more
        && (more ==> StandsAt(t, v, digest, epoch, limit, k + 1, page.nextCursor))
  {
    hide Agrees, Listing, Ordered, After, Query, Slice, CreatedBy, ItemsInOrder, IsPlace;
    var rows := Listing(t.objects);
    SliceIsPage(rows, PlaceOfCursor(cursor), limit, k);
    ListingHasAll(t.objects);
    AllListed(t.objects, v.height);
    SliceInOrder(rows, limit, k, v.height);
    SliceEnds(Ordered(rows), limit, k);
    if (k + 1) * limit < |Ordered(rows)| {
      CursorNamesLast(Page(rows, PlaceOfCursor(cursor), limit)[limit - 1]);
    }
  }

  lemma AllListed(objects: ObjectTable, tip: nat)
    requires CreatedBy(objects, tip)
    ensures forall p :: p in Listing(objects) ==> IsPlace(p) && 0 - p.first <= tip
  {
  }

  lemma SliceEnds(s: seq<Position>, limit: nat, k: nat)
    requires k * limit <= |s|
    ensures (k + 1) * limit == k * limit + limit
    ensures k * limit + |Slice(s, limit, k)| <= |s|
    ensures (k + 1) * limit < |s| <==> k * limit + |Slice(s, limit, k)| < |s|
    ensures (k + 1) * limit < |s| ==> |Slice(s, limit, k)| == limit
  {
  }

  lemma {:induction false} ClientStandsAt(t: Tables, v: Verification, digest: (Verification, nat, nat) -> Hash,
                                          epoch: nat, limit: nat, k: nat)
    requires limit > 0 && Agrees(t, v) && CreatedBy(t.objects, v.height)
    ensures
      match CursorOf(t, v, digest, epoch, limit, k)
      case None => k >= PageCount(|t.objects|, limit)
      case Some(cursor) => k < PageCount(|t.objects|, limit) && StandsAt(t, v, digest, epoch, limit, k, cursor)
  {
    hide CatalogRequest, StandsAt, Listing, Ordered, Agrees, CreatedBy;
    ListingHasAll(t.objects);
    PagesFit(|t.objects|, limit, k);
    if k == 0 {
      StandsAtStart(t, v, digest, epoch, limit);
    } else {
      ClientStandsAt(t, v, digest, epoch, limit, k - 1);
      PagesFit(|t.objects|, limit, k - 1);
      if CursorOf(t, v, digest, epoch, limit, k - 1).Some? {
        PageIsSlice(t, v, digest, epoch, limit, k - 1, CursorOf(t, v, digest, epoch, limit, k - 1).value);
      } else {
        LessPages(k - 1, k, limit);
      }
    }
  }

  lemma StandsAtStart(t: Tables, v: Verification, digest: (Verification, nat, nat) -> Hash, epoch: nat, limit: nat)
    ensures StandsAt(t, v, digest, epoch, limit, 0, None)
  {
  }

  /**
   * Over unchanged tables that agree with the signed checkpoint, a client that follows the cursors gets
   * the objects in order, one slice per page; no request is refused as stale or inconsistent.
   */
  lemma PagingIsComplete(t: Tables, v: Verification, digest: (Verification, nat, nat) -> Hash, epoch: nat, limit: nat,
                         k: nat)
    requires limit > 0 && Agrees(t, v) && CreatedBy(t.objects, v.height)
    ensures
      var all := Ordered(Listing(t.objects));
      var pages := PageCount(|t.objects|, limit);
      && (CursorOf(t, v, digest, epoch, limit, k).Some? <==> k < pages)
      && (k < pages ==>
            k * limit <= |all| &&
            match CatalogRequest(t, v, digest, epoch, limit, CursorOf(t, v, digest, epoch, limit, k).value)
            case Err(_) => false
            case Ok(page) => page.items == Slice(all, limit, k) && page.hasMore == (k < pages - 1))
      && Joined(all, limit, 0) == all
  {
    hide CatalogRequest, Listing, Ordered, CursorOf, Agrees, CreatedBy, StandsAt, Slice, Joined, PageCount;
    var all := Ordered(Listing(t.objects));
    ListingHasAll(t.objects);
    ClientStandsAt(t, v, digest, epoch, limit, k);
    PagesFit(|all|, limit, k);
    PagesFit(|all|, limit, k + 1);
    SlicesJoin(all, limit, 0);
    assert all[0 * limit..] == all;
    if k < PageCount(|all|, limit) {
      PageIsSlice(t, v, digest, epoch, limit, k, CursorOf(t, v, digest, epoch, limit, k).value);
    }
  }

  /**
   * No page that contradicts its own snapshot is ever served, whatever the tables and the cursor hold: the tip row
   * and all counts are the checkpoint's.
   */
  lemma ServedPagesAreConsistent(t: Tables, v: Verification, digest: (Verification, nat, nat) -> Hash, epoch: nat,
                                 limit: nat, cursor: Option<CatalogCursor>)
    requires limit > 0 && CatalogRequest(t, v, digest, epoch, limit, cursor).Ok?
    ensures
      var page := CatalogRequest(t, v, digest, epoch, limit, cursor).value;
      && page.snapshot == digest(v, epoch, |t.objects|)
      && TipIs(t, v.height, v.blockHash, v.eventRoot, v.objectStateRoot, v.chainedRoot)
      && |t.objects| == v.allObjects && |set k | k in t.objects && t.objects[k].founding| == v.foundingCreated
      && |set k | k in t.objects && t.objects[k].status == StateEngine.Active| == v.activeObjects
      && page.offset + |page.items| <= v.allObjects && |page.items| <= limit
      && (page.hasMore <==> page.offset + |page.items| < v.allObjects) && (page.hasMore <==> page.nextCursor.Some?)
      && (forall i :: 0 <= i < |page.items| ==>
            IsListed(t.objects, page.items[i]) && t.objects[page.items[i].second].createHeight <= v.height)
      && (cursor.Some? ==> cursor.value.limit == limit && 1 <= cursor.value.offset == page.offset)
  {
    hide Agrees, Query, Take, Listing, IsListed, IsPlace, PlaceOf;
    AgreedCount(t, v);
    QueriedAreListed(t.objects, PlaceOfCursor(cursor), limit);
  }

  lemma QueriedAreListed(objects: ObjectTable, place: Option<Position>, limit: nat)
    ensures
      var items := Take(Query(Listing(objects), place, limit + 1), limit);
      && |items| <= limit
      && forall i :: 0 <= i < |items| ==>
           IsListed(objects, items[i]) && objects[items[i].second].createHeight == 0 - items[i].first
  {
    hide Query;
    var rows := Query(Listing(objects), place, limit + 1);
    QueryIsPart(Listing(objects), place, limit + 1);
    var items := Take(rows, limit);
    forall i | 0 <= i < |items|
      ensures IsListed(objects, items[i]) && objects[items[i].second].createHeight == 0 - items[i].first
    {
      assert items[i] == rows[i] && items[i] in Listing(objects);
    }
  }

  predicate IsListed(objects: ObjectTable, p: Position) {
    p.second >= 0 && p.second in objects && p == PlaceOf(objects[p.second].createHeight, p.second)
  }

  /** The highest block row, with its roots. */
  ghost predicate TipIs(t: Tables, height: nat, hash: Hash, eventRoot: Hash, stateRoot: Hash, chainedRoot: Hash) {
    && height in t.blocks && (forall h :: h in t.blocks ==> h <= height)
    && var row := t.blocks[height];
       row.hash == hash && row.eventRoot == eventRoot && row.objectStateRoot == stateRoot
       && row.chainedRoot == chainedRoot
  }

  lemma AgreedCount(t: Tables, v: Verification)
    requires Agrees(t, v)
    ensures TipIs(t, v.height, v.blockHash, v.eventRoot, v.objectStateRoot, v.chainedRoot)
    ensures |t.objects| == v.allObjects && |set k | k in t.objects && t.objects[k].founding| == v.foundingCreated
    ensures |set k | k in t.objects && t.objects[k].status == StateEngine.Active| == v.activeObjects
  {
    assert Founding(t.objects) == set k | k in t.objects && t.objects[k].founding;
    assert Active(t.objects) == set k | k in t.objects && t.objects[k].status == StateEngine.Active;
  }

  /** Newest first: the listing descends by creation height and ascends by key within one. */
  lemma NewestFirst(objects: ObjectTable, i: nat, j: nat) returns (k: Key, l: Key)
    requires i < j < |Ordered(Listing(objects))|
    ensures k in objects && Ordered(Listing(objects))[i] == PlaceOf(objects[k].createHeight, k)
    ensures l in objects && Ordered(Listing(objects))[j] == PlaceOf(objects[l].createHeight, l)
    ensures objects[k].createHeight > objects[l].createHeight ||
            (objects[k].createHeight == objects[l].createHeight && k < l)
  {
    hide Ordered;
    var all := Ordered(Listing(objects));
    assert all[i] in SetOf(all) && all[j] in SetOf(all);
    k :| k in objects && all[i] == PlaceOf(objects[k].createHeight, k);
    l :| l in objects && all[j] == PlaceOf(objects[l].createHeight, l);
    assert Precedes(all[i], all[j]);
  }

  // ----- the stored checkpoint is such a checkpoint -------------------------------------------

  function VerificationOf(height: nat, c: CheckpointRow): Verification {
    Verification(height, c.blockHash, c.eventRoot, c.objectStateRoot, c.chainedRoot,
                 c.foundingCreated, c.allObjects, c.activeObjects)
  }

  lemma {:induction false} ObjectsCreatedBy(p: Protocol, chain: seq<Block>, k: Key)
    requires Lawful(p) && ValidChain(p, chain) && k in CanonOf(p, chain).objects
    ensures chain != [] && chain[0].height <= CanonOf(p, chain).objects[k].createHeight <= chain[|chain| - 1].height
  {
    hide CanonOf, CanonOk, Reduce, Inv, Blocks.InOrder, History.Traces, ActivationOk, TxRows, Coherent, AfterBlock,
      WriteBlock;
    if chain == [] {
      EmptyHasNone(p, k);
    } else {
      var front, last := chain[..|chain| - 1], chain[|chain| - 1];
      assert front + [last] == chain;
      ReplayExtends(p, front, last);
      ChainReplays(p, front);
      var c := CanonOf(p, front);
      BlockReduces(p, front, last, c);
      InvParts(p, c.tables, c.objects, last.height, ReduceNext(p, c, last).value.work, ChainTxids(front) + Txids(last));
      HeightsGrow(chain);
      if k in c.objects {
        ObjectsCreatedBy(p, front, k);
      }
    }
  }

  lemma EmptyHasNone(p: Protocol, k: Key)
    ensures k !in CanonOf(p, []).objects
  {
  }

  lemma HeightsGrow(chain: seq<Block>)
    requires Coherent(chain)
    ensures forall i, j :: 0 <= i < j < |chain| ==> chain[i].height < chain[j].height
  {
  }

  lemma TipRowsMatch(t: Tables, r: ReducedBlock)
    ensures r.height in AfterBlock(t, r).blocks && AfterBlock(t, r).blocks[r.height] == BlockRowOf(r)
    ensures r.height in AfterBlock(t, r).checkpoints && AfterBlock(t, r).checkpoints[r.height] == CheckpointOf(r)
  {
  }

  lemma SameCounts(objects: Objects)
    ensures |ObjectRows(objects)| == |objects|
    ensures Founding(ObjectRows(objects)) == FoundingKeys(objects)
    ensures Active(ObjectRows(objects)) == ActiveKeys(objects)
  {
    assert ObjectRows(objects).Keys == objects.Keys;
    assert |objects| == |objects.Keys| && |ObjectRows(objects)| == |ObjectRows(objects).Keys|;
  }

  /** In every stored chain the tables agree with their own tip checkpoint, so the catalog pages completely. */
  lemma StoredChainPages(p: Protocol, chain: seq<Block>)
    requires Lawful(p) && ValidChain(p, chain) && chain != []
    ensures
      var t, tip := TablesOf(p, chain), chain[|chain| - 1].height;
      && tip in t.checkpoints
      && Agrees(t, VerificationOf(tip, t.checkpoints[tip])) && CreatedBy(t.objects, tip)
  {
    hide CanonOf, Reduce, AfterBlock, WriteBlock, ObjectsOk, StatesOk, ChaptersOk, ObjectRows, AllBelow, EventsMatch,
         RootMatches, InitMatches, FoundingKeys, ActiveKeys, Founding, Active, Coherent, Linked;
    var front, last := chain[..|chain| - 1], chain[|chain| - 1];
    assert front + [last] == chain;
    ReplayExtends(p, front, last);
    ChainReplays(p, chain);
    var c := CanonOf(p, chain);
    Conservation.ReducedCounts(p, front, last);
    TipRowsMatch(TablesOf(p, front), ReduceNext(p, CanonOf(p, front), last).value);
    SameCounts(c.objects);
    LastIsHighest(chain);
    forall k | k in c.objects
      ensures c.objects[k].createHeight <= last.height
    {
      ObjectsCreatedBy(p, chain, k);
    }
    RowHeights(c.objects);
  }

  lemma LastIsHighest(chain: seq<Block>)
    requires Coherent(chain) && chain != []
    ensures chain[0].height + |chain| == chain[|chain| - 1].height + 1
  {
  }

  lemma RowHeights(objects: Objects)
    ensures forall k :: k in ObjectRows(objects) <==> k in objects
    ensures forall k :: k in objects ==> ObjectRows(objects)[k].createHeight == objects[k].createHeight
  {
  }
}
