/** A client that pages through the catalog while the stored chain, the agreement or the reorg epoch changes. */
module CatalogSnapshots {
  import opened Prelude
  import opened Bitcoin
  import opened Tandem
  import opened Reducer
  import opened Schema
  import opened Invariants
  import opened Chain
  import opened Keyset
  import opened Catalog
  import opened Contents
  import opened StoredRows

  type Digest = (Verification, nat, nat) -> Hash

  /** The snapshot hash is collision free. */
  ghost predicate DigestCommits(digest: Digest) {
    forall v, e, n, w, f, m :: digest(v, e, n) == digest(w, f, m) ==> v == w && e == f && n == m
  }

  /** A cursor is good for one limit, checkpoint, epoch and count; anything else is refused, each for its reason. */
  lemma CursorBelongsToSnapshot(s: Tables, t: Tables, v: Verification, w: Verification, digest: Digest, e: nat, f: nat,
                                limit: nat, more: nat, cursor: Option<CatalogCursor>)
    requires DigestCommits(digest) && limit > 0 && more > 0
    requires
      var page := CatalogRequest(s, v, digest, e, limit, cursor);
      page.Ok? && page.value.nextCursor.Some?
    ensures
      var next := CatalogRequest(s, v, digest, e, limit, cursor).value.nextCursor;
      var again := CatalogRequest(t, w, digest, f, more, next);
      if more != limit then again == Err(BadCursor)
      else if !Agrees(t, w) then again == Err(StateDiffers)
      else if w != v || f != e || |t.objects| != |s.objects| then again == Err(SnapshotChanged)
      else again.Ok? || again == Err(PageInconsistent)
  {
    hide Agrees, Listing, Query, Take, ItemsInOrder, IsPlace;
    var page := CatalogRequest(s, v, digest, e, limit, cursor).value;
    NextCursorCounts(s, v, digest, e, limit, cursor);
  }

  /** The next cursor names the request's limit and snapshot, and counts at least one item and not all. */
  lemma NextCursorCounts(t: Tables, v: Verification, digest: Digest, e: nat, limit: nat, cursor: Option<CatalogCursor>)
    requires limit > 0
    requires
      var page := CatalogRequest(t, v, digest, e, limit, cursor);
      page.Ok? && page.value.nextCursor.Some?
    ensures
      var next := CatalogRequest(t, v, digest, e, limit, cursor).value.nextCursor.value;
      next.limit == limit && next.snapshot == digest(v, e, |t.objects|) && 1 <= next.offset < |t.objects|
  {
    hide Agrees, Listing, Query, ItemsInOrder, IsPlace;
  }

  // ----- one object list ----------------------------------------------------------------------

  /** The tables of two chains that agree with one checkpoint hold the same objects. */
  lemma SameAgreementSameObjects(p: Protocol, a: seq<Block>, b: seq<Block>, v: Verification)
    requires Lawful(p) && RootsCommit(p) && ValidChain(p, a) && ValidChain(p, b)
    requires Agrees(TablesOf(p, a), v) && Agrees(TablesOf(p, b), v)
    ensures TablesOf(p, a).objects == TablesOf(p, b).objects
  {
    hide CanonOf, ValidChain, Lawful, Snapshots, SnapshotsAre, LeavesAscend, Founding, Active;
    AgreedRoot(p, a, v);
    AgreedRoot(p, b, v);
    EqualObjectRows(p, a, b);
  }

  /** The agreed object state root is the root of the stored objects. */
  lemma AgreedRoot(p: Protocol, chain: seq<Block>, v: Verification)
    requires Lawful(p) && ValidChain(p, chain) && Agrees(TablesOf(p, chain), v)
    ensures v.objectStateRoot == p.objectStateRoot(p.binding.namespace, Snapshots(CanonOf(p, chain).objects))
  {
    hide CanonOf, ValidChain, Lawful, Snapshots, SnapshotsAre, Founding, Active;
    AgreedHeight(p, chain, v);
    StateRootTells(p, chain);
    BlocksAreStored(p, chain, |chain| - 1);
  }

  lemma AgreedHeight(p: Protocol, chain: seq<Block>, v: Verification)
    requires Lawful(p) && ValidChain(p, chain) && Agrees(TablesOf(p, chain), v)
    ensures chain != [] && v.height == chain[|chain| - 1].height
  {
    hide CanonOf, ObjectsOk, StatesOk, ChaptersOk, AllBelow, EventsMatch, Founding, Active, Linked;
    ChainReplays(p, chain);
    assert v.height in TablesOf(p, chain).blocks;
    LastIsHighest(chain);
    assert chain[|chain| - 1].height in TablesOf(p, chain).blocks;
  }

  lemma SameObjectsSamePage(s: Tables, t: Tables, v: Verification, digest: Digest, e: nat, limit: nat,
                            cursor: Option<CatalogCursor>)
    requires limit > 0 && s.objects == t.objects && Agrees(s, v) && Agrees(t, v)
    ensures CatalogRequest(s, v, digest, e, limit, cursor) == CatalogRequest(t, v, digest, e, limit, cursor)
  {
    hide Agrees, Listing, Query, Take, ItemsInOrder, IsPlace;
  }

  // ----- a session ----------------------------------------------------------------------------

  /** What request `k` of a session meets: the stored chain, the signed checkpoint and the reorg epoch. */
  datatype Moment = Moment(chain: seq<Block>, checkpoint: Verification, epoch: nat)

  ghost function Answer(p: Protocol, m: Moment, digest: Digest, limit: nat, cursor: Option<CatalogCursor>)
    : Result<CatalogPage>
    requires limit > 0
  {
    CatalogRequest(TablesOf(p, m.chain), m.checkpoint, digest, m.epoch, limit, cursor)
  }

  /** The cursor of the `k`-th request of a client that starts without one; None once it was refused or finished. */
  ghost function RequestOf(p: Protocol, moments: nat -> Moment, digest: Digest, limit: nat, k: nat)
    : Option<Option<CatalogCursor>>
    requires limit > 0
  {
    if k == 0 then Some(None)
    else
      match RequestOf(p, moments, digest, limit, k - 1)
      case None => None
      case Some(cursor) =>
        match Answer(p, moments(k - 1), digest, limit, cursor)
        case Err(_) => None
        case Ok(page) => if page.nextCursor.Some? then Some(page.nextCursor) else None
  }

  /** The chain agrees with the checkpoint that the session began with, at the same epoch. */
  ghost predicate SameSnapshot(p: Protocol, first: Moment, now: Moment) {
    now.checkpoint == first.checkpoint && now.epoch == first.epoch && Agrees(TablesOf(p, now.chain), now.checkpoint)
  }

  ghost predicate AreStored(p: Protocol, moments: nat -> Moment) {
    forall n :: ValidChain(p, moments(n).chain)
  }

  /**
   * Every request of a session gets the cursor that unchanged tables would have handed out, and it is answered
   * exactly if nothing the snapshot names has changed since the session began.
   */
  lemma {:induction false} AnsweredOverOneSnapshot(p: Protocol, moments: nat -> Moment, digest: Digest, limit: nat,
                                                   k: nat)
    requires Lawful(p) && RootsCommit(p) && DigestCommits(digest) && AreStored(p, moments) && limit > 0
    requires Agrees(TablesOf(p, moments(0).chain), moments(0).checkpoint)
    requires RequestOf(p, moments, digest, limit, k).Some?
    ensures RequestOf(p, moments, digest, limit, k)
         == CursorOf(TablesOf(p, moments(0).chain), moments(0).checkpoint, digest, moments(0).epoch, limit, k)
    ensures
      var answer := Answer(p, moments(k), digest, limit, RequestOf(p, moments, digest, limit, k).value);
      if SameSnapshot(p, moments(0), moments(k)) then
        answer == Answer(p, moments(0), digest, limit, RequestOf(p, moments, digest, limit, k).value) && answer.Ok?
      else k > 0 ==> answer == Err(StateDiffers) || answer == Err(SnapshotChanged)
  {
    hide CanonOf, CatalogRequest, ValidChain, Lawful, RootsCommit, DigestCommits, Agrees;
    var first, now := moments(0), moments(k);
    assert ValidChain(p, first.chain) && ValidChain(p, now.chain);
    if k > 0 {
      AnsweredOverOneSnapshot(p, moments, digest, limit, k - 1);
      var before, cursor := moments(k - 1), RequestOf(p, moments, digest, limit, k - 1).value;
      assert ValidChain(p, before.chain);
      StoppedIfRefused(p, moments, digest, limit, k);
      SameAgreementSameObjects(p, first.chain, before.chain, first.checkpoint);
      CursorBelongsToSnapshot(TablesOf(p, before.chain), TablesOf(p, now.chain), before.checkpoint, now.checkpoint,
                              digest, before.epoch, now.epoch, limit, limit, cursor);
    }
    if SameSnapshot(p, first, now) {
      SameAgreementSameObjects(p, first.chain, now.chain, first.checkpoint);
      SameObjectsSamePage(TablesOf(p, first.chain), TablesOf(p, now.chain), first.checkpoint, digest, first.epoch,
          limit,
                          RequestOf(p, moments, digest, limit, k).value);
      StoredPages(p, first, digest, limit, k);
    }
  }

  /** A further request means that the one before was answered. */
  lemma StoppedIfRefused(p: Protocol, moments: nat -> Moment, digest: Digest, limit: nat, k: nat)
    requires limit > 0 && k > 0 && RequestOf(p, moments, digest, limit, k).Some?
    ensures RequestOf(p, moments, digest, limit, k - 1).Some?
    ensures
      var answer := Answer(p, moments(k - 1), digest, limit, RequestOf(p, moments, digest, limit, k - 1).value);
      answer.Ok? && answer.value.nextCursor.Some?
      && RequestOf(p, moments, digest, limit, k) == Some(answer.value.nextCursor)
  {
    hide CanonOf, CatalogRequest;
  }

  /** Over the tables of one chain, following the cursors, every request is answered with the next slice. */
  lemma StoredPages(p: Protocol, m: Moment, digest: Digest, limit: nat, k: nat)
    requires Lawful(p) && ValidChain(p, m.chain) && Agrees(TablesOf(p, m.chain), m.checkpoint) && limit > 0
    requires CursorOf(TablesOf(p, m.chain), m.checkpoint, digest, m.epoch, limit, k).Some?
    ensures
      var t := TablesOf(p, m.chain);
      var all := Ordered(Listing(t.objects));
      k < PageCount(|t.objects|, limit) && k * limit <= |all| &&
      match Answer(p, m, digest, limit, CursorOf(t, m.checkpoint, digest, m.epoch, limit, k).value)
      case Ok(page) => page.items == Slice(all, limit, k) && page.hasMore == (k < PageCount(|t.objects|, limit) - 1)
      case Err(_) => false
  {
    hide CanonOf, CatalogRequest, ValidChain, Lawful, Agrees, Listing, Ordered, Slice, PageCount, CursorOf;
    AgreedHeight(p, m.chain, m.checkpoint);
    StoredChainPages(p, m.chain);
    PagingIsComplete(TablesOf(p, m.chain), m.checkpoint, digest, m.epoch, limit, k);
  }

  /**
   * All pages of one session come from one snapshot: every answered page is the next slice of the objects listed
   * when the session began, and a change of checkpoint, epoch or count refuses the next cursor.
   */
  lemma SessionShowsOneSnapshot(p: Protocol, moments: nat -> Moment, digest: Digest, limit: nat, k: nat)
    requires Lawful(p) && RootsCommit(p) && DigestCommits(digest) && AreStored(p, moments) && limit > 0
    requires Agrees(TablesOf(p, moments(0).chain), moments(0).checkpoint)
    requires RequestOf(p, moments, digest, limit, k).Some?
    ensures
      var t := TablesOf(p, moments(0).chain);
      var all := Ordered(Listing(t.objects));
      k < PageCount(|t.objects|, limit) && k * limit <= |all| &&
      match Answer(p, moments(k), digest, limit, RequestOf(p, moments, digest, limit, k).value)
      case Ok(page) =>
        && SameSnapshot(p, moments(0), moments(k)) && TablesOf(p, moments(k).chain).objects == t.objects
        && page.items == Slice(all, limit, k) && page.hasMore == (k < PageCount(|t.objects|, limit) - 1)
      case Err(e) => !SameSnapshot(p, moments(0), moments(k)) && (e == StateDiffers || e == SnapshotChanged)
  {
    hide CanonOf, CatalogRequest, ValidChain, Lawful, RootsCommit, DigestCommits, Agrees, Listing, Ordered, Slice,
      PageCount, CursorOf;
    var first, now := moments(0), moments(k);
    assert ValidChain(p, first.chain) && ValidChain(p, now.chain);
    AnsweredOverOneSnapshot(p, moments, digest, limit, k);
    StoredPages(p, first, digest, limit, k);
    if SameSnapshot(p, first, now) {
      SameAgreementSameObjects(p, first.chain, now.chain, first.checkpoint);
    }
  }
}
