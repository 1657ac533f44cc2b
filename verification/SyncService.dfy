/**
 * The driving loop (src/indexer/sync.service.ts) against a node whose best chain may change at every
 * call. `chain` is a ghost: the blocks whose replay the store holds.
 */
module Sync {
  import opened Prelude
  import opened Bitcoin
  import opened Tandem
  import opened Reducer
  import opened Schema
  import opened Chain
  import opened Reorg
  import opened WorkingStates
  import opened IndexerStores
  import opened Runs
  import opened Node
  import opened Acceptance

  /** A chain the store may hold: linked blocks the node has served, from the INIT block on. */
  ghost predicate Held(p: Protocol, world: iset<Block>, chain: seq<Block>) {
    LinkedIn(world, chain) && ValidChain(p, chain)
  }

  /** What `connectBatch` carries from block to block. */
  datatype Cursor = Cursor(activation: Option<InitActivation>, previousHash: Option<Hash>, previousRoot: Hash,
                           objects: Objects)

  ghost predicate CursorAt(p: Protocol, chain: seq<Block>, cursor: Cursor) {
    var c := CanonOf(p, chain);
    && cursor.activation == c.activation && cursor.previousRoot == c.root && cursor.objects == c.objects
    && cursor.previousHash == (if chain == [] then None else Some(chain[|chain| - 1].hash))
  }

  /** The block that `connectBatch` accepts next. */
  predicate Follows(p: Protocol, cursor: Cursor, block: Block) {
    && (cursor.previousHash.Some? ==> block.previousHash == cursor.previousHash)
    && (cursor.activation.None? ==> HasTxid(block, p.binding.initTxid))
  }

  lemma HeldGrows(p: Protocol, world: iset<Block>, chain: seq<Block>, cursor: Cursor, block: Block)
    requires Lawful(p) && Consensus(world, p.binding.initTxid) && Held(p, world, chain) && CursorAt(p, chain, cursor)
    requires block in world && Follows(p, cursor, block)
    ensures Held(p, world, chain + [block])
  {
    hide CanonOf, Coherent, Sound, Lawful, ValidChain, HashesCommit, HeightsFit;
    HeldIsValid(p, world, chain);
    ActivationTells(p, chain);
    LinksGrow(world, chain, block);
    if chain != [] {
      FirstHoldsInit(p, chain);
    }
    var all := chain + [block];
    assert chain != [] ==> all[0] == chain[0];
    assert all != [] && HasTxid(all[0], p.binding.initTxid);
    LinkedFromInitIsValid(p, world, all);
  }

  lemma FirstHoldsInit(p: Protocol, chain: seq<Block>)
    requires ValidChain(p, chain) && chain != []
    ensures HasTxid(chain[0], p.binding.initTxid)
  {
  }

  lemma LinkedFromInitIsValid(p: Protocol, world: iset<Block>, chain: seq<Block>)
    requires Consensus(world, p.binding.initTxid) && LinkedIn(world, chain)
    requires chain != [] && HasTxid(chain[0], p.binding.initTxid)
    ensures ValidChain(p, chain)
  {
    hide Coherent, Sound, HasTxid;
  }

  lemma LinksGrow(world: iset<Block>, chain: seq<Block>, block: Block)
    requires LinkedIn(world, chain) && block in world
    requires chain != [] ==> block.previousHash == Some(chain[|chain| - 1].hash)
    ensures LinkedIn(world, chain + [block])
  {
    var all := chain + [block];
    forall i | 0 < i < |all|
      ensures all[i].previousHash == Some(all[i - 1].hash)
    {
      if i < |chain| {
        assert all[i] == chain[i] && all[i - 1] == chain[i - 1];
      }
    }
  }

  lemma ActivationTells(p: Protocol, chain: seq<Block>)
    requires Lawful(p) && ValidChain(p, chain)
    ensures CanonOf(p, chain).activation.Some? <==> chain != []
    ensures chain != [] ==> CanonOf(p, chain).activation.value.height == chain[0].height
    ensures TablesOf(p, chain).init == CanonOf(p, chain).activation
  {
    hide CanonOf;
    ChainReplays(p, chain);
  }

  /** Reducing a block that extends a held chain never fails. */
  lemma NextReduces(p: Protocol, world: iset<Block>, chain: seq<Block>, cursor: Cursor, block: Block)
    requires Lawful(p) && Held(p, world, chain + [block]) && CursorAt(p, chain, cursor)
    ensures DistinctActive(cursor.objects)
    ensures DistinctTxids(block.txs) && CoinbaseFirst(block.txs)
    ensures Reduce(p, cursor.activation, cursor.previousRoot, cursor.objects, block) ==
              ReduceNext(p, CanonOf(p, chain), block)
    ensures ReduceNext(p, CanonOf(p, chain), block).Ok?
    ensures
      var r := ReduceNext(p, CanonOf(p, chain), block).value;
      CursorAt(p, chain + [block], Cursor(Some(r.activation), Some(r.hash), r.chainedRoot, r.work.objects))
  {
    hide CanonOf, Reduce, DistinctActive, CanonOk;
    ReplayExtends(p, chain, block);
    ChainReplays(p, chain);
    ActiveAreDistinct(p, chain, CanonOf(p, chain));
    ReducedHeight(p, chain, block);
    assert (chain + [block])[|chain|] == block && WellFormed((chain + [block])[|chain|]);
  }

  lemma ReducedGrows(p: Protocol, base: seq<Block>, grown: seq<Block>, batch: seq<ReducedBlock>, block: Block,
                     r: ReducedBlock)
    requires ReducedFrom(p, base, grown, batch)
    requires ReduceNext(p, CanonOf(p, base + grown), block) == Ok(r)
    ensures ReducedFrom(p, base, grown + [block], batch + [r])
  {
    hide CanonOf, ReduceNext;
    var all := grown + [block];
    forall i | 0 <= i < |all|
      ensures ReduceNext(p, CanonOf(p, base + all[..i]), all[i]) == Ok((batch + [r])[i])
    {
      assert all[..i] == if i < |grown| then grown[..i] else grown;
    }
  }

  /** The part of the chain the node also has: a prefix, given by its length. */
  ghost predicate OnNode(v: seq<Block>, chain: seq<Block>) {
    chain != [] ==> chain[0].height + |chain| <= |v| && chain == v[chain[0].height..chain[0].height + |chain|]
  }

  function Least(a: int, b: int): int {
    if a < b then a else b
  }

  lemma ReducedFromNothing(p: Protocol, base: seq<Block>)
    ensures ReducedFrom(p, base, [], [])
  {
  }

  lemma HeldIsValid(p: Protocol, world: iset<Block>, chain: seq<Block>)
    requires Held(p, world, chain)
    ensures ValidChain(p, chain)
  {
  }

  /** The tip row, the INIT row and the objects read from the tables are where the stored chain ends. */
  lemma StartsAtTip(p: Protocol, world: iset<Block>, chain: seq<Block>, tip: Option<CanonicalTip>, cursor: Cursor)
    requires Lawful(p) && Held(p, world, chain) && IsTip(TablesOf(p, chain), tip)
    requires cursor == Cursor(TablesOf(p, chain).init, if tip.Some? then Some(tip.value.hash) else None,
                              if tip.Some? then tip.value.chainedRoot else p.initialRoot(p.binding.namespace),
                              CanonOf(p, chain).objects)
    ensures CursorAt(p, chain, cursor)
  {
    hide CanonOf;
    ChainReplays(p, chain);
    TipIsLast(p, chain, CanonOf(p, chain), tip);
    ActivationTells(p, chain);
  }

  /** The blocks taken so far are the node's own, up to but not including this height. */
  ghost predicate Along(v: seq<Block>, base: seq<Block>, grown: seq<Block>, firstHeight: nat, height: nat) {
    && firstHeight <= height <= |v|
    && grown == v[firstHeight..height]
    && (base != [] ==> firstHeight == base[0].height + |base| && base == v[base[0].height..firstHeight])
  }

  lemma AlongIsSlice(v: seq<Block>, base: seq<Block>, grown: seq<Block>, firstHeight: nat, height: nat)
    requires Along(v, base, grown, firstHeight, height)
    ensures base + grown == v[(if base == [] then firstHeight else base[0].height)..height]
  {
  }

  lemma AlongGrows(v: seq<Block>, base: seq<Block>, grown: seq<Block>, firstHeight: nat, start: nat, end: nat)
    requires Along(v, base, grown, firstHeight, start) && start <= end <= |v|
    ensures Along(v, base, grown + v[start..end], firstHeight, end)
  {
  }

  lemma AlongIsOnNode(v: seq<Block>, base: seq<Block>, grown: seq<Block>, firstHeight: nat, height: nat)
    requires Along(v, base, grown, firstHeight, height)
    requires forall i :: 0 <= i < |v| ==> v[i].height == i
    ensures OnNode(v, base + grown)
  {
    AlongIsSlice(v, base, grown, firstHeight, height);
  }

  /** On a steady node the next block always follows. */
  lemma SteadyFollows(p: Protocol, world: iset<Block>, v: seq<Block>, base: seq<Block>, grown: seq<Block>,
                      cursor: Cursor, firstHeight: nat, height: nat)
    requires Lawful(p) && Held(p, world, base + grown) && CursorAt(p, base + grown, cursor)
    requires Linked(v) && height < |v|
    requires Along(v, base, grown, firstHeight, height)
    requires base == [] ==> HasTxid(v[firstHeight], p.binding.initTxid)
    ensures Follows(p, cursor, v[height])
  {
    hide CanonOf, Coherent, HasTxid, Along;
    HeldIsValid(p, world, base + grown);
    ActivationTells(p, base + grown);
    AlongIsSlice(v, base, grown, firstHeight, height);
    AlongBounds(v, base, grown, firstHeight, height);
    var all := base + grown;
    if all != [] {
      assert all[|all| - 1] == v[height - 1];
    }
  }

  lemma AlongBounds(v: seq<Block>, base: seq<Block>, grown: seq<Block>, firstHeight: nat, height: nat)
    requires Along(v, base, grown, firstHeight, height)
    ensures base + grown == [] ==> base == [] && firstHeight == height
    ensures (if base == [] then firstHeight else base[0].height) + |base + grown| == height
  {
  }

  /** A block shared with the node's chain shares everything below it: the hash commits to the parent. */
  lemma {:induction false} SharedBelow(world: iset<Block>, chain: seq<Block>, v: seq<Block>, i: nat)
    requires HashesCommit(world) && LinkedIn(world, chain) && IsBestChain(world, v)
    requires i < |chain| && chain[i].height == chain[0].height + i && chain[0].height + i < |v|
    requires forall j :: 0 <= j < |chain| ==> chain[j].height == chain[0].height + j
    requires v[chain[0].height + i].hash == chain[i].hash
    ensures chain[..i + 1] == v[chain[0].height..chain[0].height + i + 1]
  {
    hide Coherent;
    var h := chain[0].height + i;
    assert chain[i] in world && v[h] in world;
    if i > 0 {
      assert chain[i].previousHash == Some(chain[i - 1].hash);
      assert v[h].previousHash == Some(v[h - 1].hash);
      SharedBelow(world, chain, v, i - 1);
      assert chain[..i + 1] == chain[..i] + [chain[i]];
      assert v[chain[0].height..h + 1] == v[chain[0].height..h] + [v[h]];
    }
  }

  lemma HeldHeights(p: Protocol, world: iset<Block>, chain: seq<Block>)
    requires Held(p, world, chain)
    ensures LinkedIn(world, chain)
    ensures forall j :: 0 <= j < |chain| ==> chain[j].height == chain[0].height + j
  {
  }

  /** The stored block at this height is not the node's. */
  predicate Differs(v: seq<Block>, chain: seq<Block>, height: nat)
    requires chain != [] && chain[0].height <= height < chain[0].height + |chain|
  {
    height >= |v| || v[height].hash != chain[height - chain[0].height].hash
  }

  lemma OnNodeShares(v: seq<Block>, chain: seq<Block>, k: nat)
    requires 0 < k <= |chain| && OnNode(v, chain[..k])
    ensures !Differs(v, chain, chain[0].height + k - 1)
  {
    assert chain[..k][k - 1] == v[chain[0].height..chain[0].height + k][k - 1];
  }

  lemma DifferingIsOff(v: seq<Block>, chain: seq<Block>, k: nat)
    requires 0 < k <= |chain| && Differs(v, chain, chain[0].height + k - 1)
    ensures !OnNode(v, chain[..k])
  {
    hide OnNode, Differs;
    if OnNode(v, chain[..k]) {
      OnNodeShares(v, chain, k);
    }
  }

  /** The stored chain is on the node exactly when its tip is. */
  lemma TipDecides(p: Protocol, world: iset<Block>, chain: seq<Block>, v: seq<Block>)
    requires Consensus(world, p.binding.initTxid) && Held(p, world, chain) && IsBestChain(world, v) && chain != []
    ensures OnNode(v, chain) <==> !Differs(v, chain, chain[0].height + |chain| - 1)
  {
    hide Consensus, ValidChain, HashesCommit, HeightsFit;
    ConsensusCommits(world, p.binding.initTxid);
    HeldHeights(p, world, chain);
    assert chain[..|chain|] == chain;
    if Differs(v, chain, chain[0].height + |chain| - 1) {
      DifferingIsOff(v, chain, |chain|);
    } else {
      SharedBelow(world, chain, v, |chain| - 1);
    }
  }

  /** What the tables know of the chain: its hashes by height, its tip, no row below the INIT. */
  ghost predicate KnowsChain(t: Tables, chain: seq<Block>, tip: CanonicalTip)
    requires chain != []
  {
    && tip.height == chain[0].height + |chain| - 1 <= U32_MAX
    && tip.hash == chain[|chain| - 1].hash
    && (forall h: nat :: h in t.blocks <==> chain[0].height <= h <= tip.height)
    && (forall h: nat :: chain[0].height <= h <= tip.height ==>
          h in t.blocks && t.blocks[h].hash == chain[h - chain[0].height].hash)
  }

  lemma CanonKnowsChain(p: Protocol, chain: seq<Block>, c: Canon, tip: CanonicalTip)
    requires ValidChain(p, chain) && CanonOk(p, chain, c) && chain != []
    requires IsTip(c.tables, Some(tip)) && tip.height <= U32_MAX
    ensures KnowsChain(c.tables, chain, tip)
  {
    hide ValidChain, CanonOk, IsTip;
    TipIsLast(p, chain, c, Some(tip));
    forall h: nat
      ensures h in c.tables.blocks <==> chain[0].height <= h <= tip.height
      ensures chain[0].height <= h <= tip.height ==> c.tables.blocks[h].hash == chain[h - chain[0].height].hash
    {
      StoredHash(p, chain, c, h);
    }
  }

  lemma TablesKnowChain(p: Protocol, world: iset<Block>, chain: seq<Block>, tip: CanonicalTip)
    requires Lawful(p) && Consensus(world, p.binding.initTxid) && Held(p, world, chain) && chain != []
    requires IsTip(TablesOf(p, chain), Some(tip))
    ensures KnowsChain(TablesOf(p, chain), chain, tip)
  {
    hide CanonOf, ValidChain, CanonOk, IsTip, Consensus, Lawful, Linked, KnowsChain, HashesCommit, HeightsFit;
    ConsensusCommits(world, p.binding.initTxid);
    HeldIsValid(p, world, chain);
    ChainReplays(p, chain);
    TipIsLast(p, chain, CanonOf(p, chain), Some(tip));
    LastHeightFits(world, chain);
    CanonKnowsChain(p, chain, CanonOf(p, chain), tip);
  }

  lemma LastHeightFits(world: iset<Block>, chain: seq<Block>)
    requires HeightsFit(world) && LinkedIn(world, chain) && chain != []
    ensures chain[|chain| - 1].height <= U32_MAX
  {
    hide Coherent;
    assert chain[|chain| - 1] in world;
  }

  /** A plan to a stored ancestor, or to below the INIT, passes the store's checks. */
  lemma PlanIsCurrent(t: Tables, chain: seq<Block>, tip: CanonicalTip, plan: ReorgPlan, journal: Journal)
    requires chain != [] && KnowsChain(t, chain, tip)
    requires plan.oldTipHeight == tip.height && journal.oldTipHash == tip.hash
    requires chain[0].height - 1 <= plan.ancestorHeight < tip.height
    requires plan.ancestorHeight >= chain[0].height ==>
              journal.ancestorHash == chain[plan.ancestorHeight - chain[0].height].hash
    ensures MayRollBack(t, plan, journal)
  {
    assert tip.height in t.blocks;
    if plan.ancestorHeight in t.blocks {
      var h: nat := plan.ancestorHeight;
      assert t.blocks[h].hash == chain[h - chain[0].height].hash;
    }
  }

  lemma AncestorIsStored(t: Tables, chain: seq<Block>, tip: CanonicalTip, height: nat)
    requires chain != [] && KnowsChain(t, chain, tip) && chain[0].height <= height <= tip.height
    ensures height - chain[0].height < |chain|
    ensures height in t.blocks && t.blocks[height].hash == chain[height - chain[0].height].hash
  {
  }

  lemma TipHeightIs(p: Protocol, world: iset<Block>, chain: seq<Block>, tip: CanonicalTip)
    requires Held(p, world, chain) && chain != [] && Consensus(world, p.binding.initTxid) && Lawful(p)
    requires IsTip(TablesOf(p, chain), Some(tip))
    ensures chain[|chain| - 1].height == tip.height
  {
    hide TablesOf, CanonOf, IsTip, Held, Consensus, Lawful;
    TablesKnowChain(p, world, chain, tip);
    HeldHeights(p, world, chain);
  }

  lemma AlongFits(v: seq<Block>, base: seq<Block>, firstHeight: nat)
    requires Along(v, base, [], firstHeight, firstHeight)
    ensures firstHeight <= |v|
  {
  }

  lemma AlongEnds(world: iset<Block>, v: seq<Block>, base: seq<Block>, grown: seq<Block>, firstHeight: nat, height: nat)
    requires IsBestChain(world, v) && Along(v, base, grown, firstHeight, height)
    ensures OnNode(v, base + grown) && firstHeight <= height <= |v| && grown == v[firstHeight..height]
  {
    AlongIsOnNode(v, base, grown, firstHeight, height);
  }

  lemma AlongStarts(p: Protocol, world: iset<Block>, v: seq<Block>, base: seq<Block>, firstHeight: nat)
    requires Held(p, world, base) && OnNode(v, base)
    requires base != [] ==> firstHeight == NextHeight(base)
    requires base == [] ==> firstHeight < |v|
    ensures firstHeight <= |v| && Along(v, base, [], firstHeight, firstHeight)
  {
    if base != [] {
      assert base[|base| - 1].height == base[0].height + |base| - 1;
    }
  }

  lemma BestIsLinked(world: iset<Block>, v: seq<Block>)
    requires IsBestChain(world, v)
    ensures Linked(v)
  {
  }

  lemma TipTells(p: Protocol, world: iset<Block>, chain: seq<Block>, tip: Option<CanonicalTip>)
    requires Lawful(p) && Held(p, world, chain) && IsTip(TablesOf(p, chain), tip)
    ensures tip.Some? <==> chain != []
    ensures tip.Some? ==> tip.value.height + 1 == NextHeight(chain)
    ensures TablesOf(p, chain).init.Some? <==> chain != []
    ensures chain != [] ==> TablesOf(p, chain).init.value.height == chain[0].height
  {
    hide CanonOf, ValidChain, CanonOk, IsTip;
    HeldIsValid(p, world, chain);
    ChainReplays(p, chain);
    TipIsLast(p, chain, CanonOf(p, chain), tip);
    ActivationTells(p, chain);
  }

  lemma EmptyIsOnNode(v: seq<Block>, chain: seq<Block>)
    ensures chain == [] ==> OnNode(v, chain)
  {
  }

  lemma CacheIsTables(p: Protocol, world: iset<Block>, chain: seq<Block>)
    requires Lawful(p) && Held(p, world, chain)
    ensures LoadedObjects(TablesOf(p, chain)) == CanonOf(p, chain).objects
  {
    hide CanonOf, ValidChain, CanonOk, LoadedObjects;
    HeldIsValid(p, world, chain);
    ChainReplays(p, chain);
    CacheAgrees(p, chain, CanonOf(p, chain));
  }

  /** The INIT confirms in one block of the node's chain, so a stored chain on the node starts there. */
  lemma OnNodeStart(p: Protocol, world: iset<Block>, v: seq<Block>, chain: seq<Block>, init: nat)
    requires Consensus(world, p.binding.initTxid) && Held(p, world, chain) && IsBestChain(world, v)
    requires init < |v| && HasTxid(v[init], p.binding.initTxid)
    ensures OnNode(v, chain) && chain != [] ==>
              chain[0].height == init && NextHeight(chain) == init + |chain| <= |v| &&
                  chain == v[init..NextHeight(chain)]
  {
    if OnNode(v, chain) && chain != [] {
      var h := chain[0].height;
      assert chain[0] == v[h];
      InitConfirmsOnce(world, p.binding.initTxid, v, init, h);
      InitConfirmsOnce(world, p.binding.initTxid, v, h, init);
      HeldHeights(p, world, chain);
    }
  }

  lemma BatchExtendsNode(v: seq<Block>, chain: seq<Block>, init: nat, next: nat, end: nat)
    requires init <= next <= end <= |v|
    requires if chain == [] then next == init else chain == v[init..next]
    ensures chain + v[next..end] == v[init..end]
  {
  }

  lemma HoldsTxid(block: Block, txid: Txid)
    requires HasTxid(block, txid)
    ensures txid in Txids(block)
  {
  }

  lemma ConsensusCommits(world: iset<Block>, initTxid: Txid)
    requires Consensus(world, initTxid)
    ensures HashesCommit(world) && HeightsFit(world)
  {
  }

  /** Above the block that confirms the INIT no block of a linked chain holds it again. */
  lemma InitConfirmsOnce(world: iset<Block>, initTxid: Txid, v: seq<Block>, i: nat, j: nat)
    requires Consensus(world, initTxid) && LinkedIn(world, v)
    requires i < |v| && j < |v| && HasTxid(v[i], initTxid) && HasTxid(v[j], initTxid)
    ensures j <= i
  {
    if i < j {
      var c := v[i..];
      assert Linked(c) by {
        forall k | 0 < k < |c|
          ensures c[k].previousHash == Some(c[k - 1].hash)
        {
          assert c[k] == v[i + k] && c[k - 1] == v[i + k - 1];
        }
      }
      assert LinkedIn(world, c) && Coherent(c);
      assert Txids(c[0]) !! Txids(c[j - i]);
      HoldsTxid(c[0], initTxid);
      HoldsTxid(c[j - i], initTxid);
    }
  }

  class SyncService {
    const p: Protocol
    const store: IndexerStore
    const rpc: BitcoinRpc
    const batchBlocks: nat
    const fetchConcurrency: nat
    /** `locateInit` and the shutdown flag, by number of node calls made so far. */
    const locateInit: nat -> Option<nat>
    const stopping: nat -> bool
    var objects: Option<Objects>
    ghost const world: iset<Block>
    ghost var chain: seq<Block>

    ghost predicate Sane()
    {
      Lawful(p) && Consensus(world, p.binding.initTxid) && rpc.Serves(world) && batchBlocks >= 1 &&
          fetchConcurrency >= 1
    }

    /** The tables are those of one replay of the stored chain. */
    ghost predicate Stored()
      reads this, store
    {
      && Sane()
      && Held(p, world, chain) && Accepted(p, chain)
      && store.db == TablesOf(p, chain)
    }

    /** And the cache, when present, is what that replay carries. */
    ghost predicate Valid()
      reads this, store
    {
      Stored() && (objects.Some? ==> objects.value == CanonOf(p, chain).objects)
    }

    constructor (p: Protocol, rpc: BitcoinRpc, batchBlocks: nat, fetchConcurrency: nat,
                 locateInit: nat -> Option<nat>, stopping: nat -> bool, fate: nat -> Fate, ghost world: iset<Block>)
      requires Lawful(p) && Consensus(world, p.binding.initTxid) && rpc.Serves(world)
      requires batchBlocks >= 1 && fetchConcurrency >= 1
      ensures Valid() && chain == [] && fresh(store)
      ensures this.p == p && this.rpc == rpc && this.world == world
      ensures this.batchBlocks == batchBlocks && this.fetchConcurrency == fetchConcurrency
      ensures this.locateInit == locateInit && this.stopping == stopping && store.fate == fate
    {
      this.p, this.rpc, this.world := p, rpc, world;
      this.batchBlocks, this.fetchConcurrency := batchBlocks, fetchConcurrency;
      this.locateInit, this.stopping := locateInit, stopping;
      store := new IndexerStore(fate);
      objects, chain := None, [];
    }

    lemma SaneHolds()
      requires Sane()
      ensures Lawful(p) && Consensus(world, p.binding.initTxid) && batchBlocks >= 1
    {
    }

    /** Reads the objects from the tables unless they are cached. */
    method LoadObjects() returns (loaded: Objects)
      requires Valid()
      modifies this`objects
      ensures Valid() && objects == Some(loaded) && loaded == CanonOf(p, chain).objects
      ensures loaded == LoadedObjects(store.db)
    {
      hide CanonOf, ValidChain, CanonOk, Accepted, Lawful, Consensus, LoadedObjects;
      ChainReplays(p, chain);
      CacheAgrees(p, chain, CanonOf(p, chain));
      if objects.None? {
        objects := Some(LoadedObjects(store.db));
      }
      loaded := objects.value;
    }

    /** Fetches the blocks of a range of heights; any failed call fails the whole range. */
    method FetchBlocks(start: nat, end: nat, ghost v: Option<seq<Block>>) returns (r: Result<seq<Block>>)
      requires Sane() && start <= end
      requires v.Some? ==> rpc.Steady(v.value, rpc.calls) && end < |v.value|
      modifies rpc
      ensures rpc.calls >= old(rpc.calls)
      ensures r.Ok? ==> |r.value| == end - start + 1 && forall i :: 0 <= i < |r.value| ==>
                          r.value[i] in world && r.value[i].height == start + i
      ensures v.Some? ==> r == Ok(v.value[start..end + 1])
    {
      hide Lawful, Consensus;
      var blocks := [];
      for height := start to end + 1
        invariant rpc.calls >= old(rpc.calls)
        invariant |blocks| == height - start
        invariant forall i :: 0 <= i < |blocks| ==> blocks[i] in world && blocks[i].height == start + i
        invariant v.Some? ==> blocks == v.value[start..height]
      {
        ghost var now := rpc.view(rpc.calls);
        assert IsBestChain(world, now);
        var block := rpc.GetBlockAt(height);
        if block.Err? {
          return Err(block.error);
        }
        assert v.Some? ==> v.value[start..height] + [v.value[height]] == v.value[start..height + 1];
        blocks := blocks + [block.value];
      }
      return Ok(blocks);
    }

    /** The node has one chain from now on, no shutdown is requested, and the stored chain lies on it. */
    ghost predicate SteadyOn(v: seq<Block>)
      reads this, rpc
    {
      && rpc.Steady(v, rpc.calls) && IsBestChain(world, v) && OnNode(v, chain)
      && (forall n :: rpc.calls <= n ==> !stopping(n))
    }

    /** One round of fetches, reduced onto the cursor. */
    method ConnectChunk(cursor: Cursor, batch: seq<ReducedBlock>, start: nat, end: nat, ghost firstHeight: nat,
                        ghost grown: seq<Block>, ghost v: Option<seq<Block>>)
        returns (r: Result<(Cursor, seq<ReducedBlock>, bool)>, ghost more: seq<Block>)
      requires Sane() && start <= end
      requires Held(p, world, chain + grown) && CursorAt(p, chain + grown, cursor) &&
                ReducedFrom(p, chain, grown, batch)
      requires v.Some? ==>
                 && rpc.Steady(v.value, rpc.calls) && IsBestChain(world, v.value) && end < |v.value|
                 && Along(v.value, chain, grown, firstHeight, start)
                 && (chain == [] ==> HasTxid(v.value[firstHeight], p.binding.initTxid))
      modifies rpc
      ensures rpc.calls >= old(rpc.calls)
      ensures r.Ok? ==>
                && Held(p, world, chain + more) && CursorAt(p, chain + more, r.value.0)
                && ReducedFrom(p, chain, more, r.value.1)
      ensures v.Some? ==> r.Ok? && !r.value.2 && Along(v.value, chain, more, firstHeight, end + 1)
    {
      hide CanonOf, ReducedFrom, Held, CursorAt, Coherent, Linked, Follows, Along;
      more := grown;
      var fetched := FetchBlocks(start, end, v);
      if fetched.Err? {
        return Err(fetched.error), more;
      }
      var blocks := fetched.value;
      var next, longer, broken, taken := ConnectBlocks(p, cursor, batch, blocks, world, chain, grown);
      more := grown + blocks[..taken];
      if v.Some? {
        AlongGrows(v.value, chain, grown, firstHeight, start, start + taken);
        assert blocks[..taken] == v.value[start..start + taken];
        if broken {
          BestIsLinked(world, v.value);
          assert blocks[taken] == v.value[start + taken];
          SteadyFollows(p, world, v.value, chain, more, next, firstHeight, start + taken);
        }
      }
      return Ok((next, longer, broken)), more;
    }

    /**
     * Stores a reduced batch and keeps its objects as the cache. Only a column too narrow for one of its rows
     * refuses it, as a whole; a failed transaction may have stored it or not.
     */
    method Commit(batch: seq<ReducedBlock>, cursor: Cursor, ghost grown: seq<Block>) returns (r: Result<()>)
      requires Valid() && Held(p, world, chain + grown)
      requires CursorAt(p, chain + grown, cursor) && ReducedFrom(p, chain, grown, batch)
      modifies this`objects, this`chain, store`db, store`transactions
      ensures Stored() && store.transactions >= old(store.transactions)
      ensures r.Ok? ==> Valid() && chain == old(chain) + grown
      ensures r.Err? ==> r.error == StoreFailed || r.error == ColumnTooNarrow
      ensures r == Err(StoreFailed) ==> chain == old(chain) || chain == old(chain) + grown
      ensures r == Err(ColumnTooNarrow) ==> Valid() && chain == old(chain)
      ensures r == Err(ColumnTooNarrow) ==> !Accepted(p, chain + grown)
      ensures old(store.Healthy()) ==> r == if Accepted(p, old(chain) + grown) then Ok(()) else Err(ColumnTooNarrow)
    {
      hide CanonOf, ReducedFrom, WriteBlocks, BatchFits, Accepted, Held;
      BatchLength(p, chain, grown, batch);
      assert grown[..|grown|] == grown;
      HeldIsValid(p, world, chain + grown);
      if |batch| > 0 {
        BatchExtendsChain(p, chain, grown, batch, |batch|);
        ghost var fate := store.fate(store.transactions);
        r := store.AppendBlocks(batch);
        if r.Err? {
          if BatchFits(batch, |batch|) && fate == Lost {
            chain := chain + grown;
          }
          return;
        }
        objects := Some(cursor.objects);
        chain := chain + grown;
      } else {
        assert chain + grown == chain;
        r := Ok(());
      }
    }

    /** What a steady node lets `connectBatch` rely on. */
    ghost predicate SteadyFrom(v: seq<Block>, firstHeight: nat, nodeHeight: nat)
      reads this, rpc, store
    {
      && SteadyOn(v) && nodeHeight == |v| - 1 && store.Healthy()
      && (chain == [] ==> firstHeight < |v| && HasTxid(v[firstHeight], p.binding.initTxid))
    }

    /**
     * Fetches, reduces and stores up to `batchBlocks` blocks. Whatever the node does meanwhile, the
     * stored chain only grows; against a steady node it takes exactly the next blocks of its chain, unless a
     * row of one of them is too wide, which refuses them all.
     */
    method ConnectBatch(activation: Option<InitActivation>, tip: Option<CanonicalTip>, firstHeight: nat,
                        nodeHeight: nat,
                        ghost v: Option<seq<Block>>) returns (r: Result<bool>)
      requires Valid() && activation == store.db.init && IsTip(store.db, tip)
      requires chain != [] ==> firstHeight == NextHeight(chain)
      requires v.Some? ==> SteadyFrom(v.value, firstHeight, nodeHeight)
      modifies this`objects, this`chain, rpc, store`db, store`transactions
      ensures Stored() && rpc.calls >= old(rpc.calls) && store.transactions >= old(store.transactions)
      ensures r == Err(StoreFailed) || Valid()
      ensures old(chain) <= chain
      ensures r.Err? && r.error != StoreFailed ==> chain == old(chain)
      ensures v.Some? ==>
                && firstHeight <= Least(|v.value|, firstHeight + batchBlocks)
                && OnNode(v.value, chain)
                && var longer := old(chain) + v.value[firstHeight..Least(|v.value|, firstHeight + batchBlocks)];
                   if Accepted(p, longer) then r == Ok(firstHeight + batchBlocks < |v.value|) && chain == longer
                   else r == Err(ColumnTooNarrow) && chain == old(chain)
    {
      hide CanonOf, TablesOf, ReducedFrom, Held, CursorAt, Along, HasTxid, Lawful, Consensus, OnNode, LoadedObjects,
        IsTip, NextHeight, ValidChain, LinkedIn, IsBestChain, Accepted, Sane;
      SaneHolds();
      var lastHeight: int :=
        if nodeHeight < firstHeight + batchBlocks - 1 then nodeHeight else firstHeight + batchBlocks - 1;
      var loaded := LoadObjects();
      var cursor := Cursor(activation, if tip.Some? then Some(tip.value.hash) else None,
                           if tip.Some? then tip.value.chainedRoot else p.initialRoot(p.binding.namespace), loaded);
      StartsAtTip(p, world, chain, tip, cursor);
      if v.Some? {
        AlongStarts(p, world, v.value, chain, firstHeight);
        AlongFits(v.value, chain, firstHeight);
      }
      var reduced, grown := ReduceRange(cursor, firstHeight, lastHeight, v);
      if reduced.Err? {
        return Err(reduced.error);
      }
      var (current, batch, broken) := reduced.value;
      if v.Some? {
        AlongEnds(world, v.value, chain, grown, firstHeight, lastHeight + 1);
      }
      var committed := Commit(batch, current, grown);
      if committed.Err? {
        return Err(committed.error);
      }
      if broken {
        return Ok(current.activation.Some?);
      }
      return Ok(lastHeight < nodeHeight);
    }

    /** The rounds of fetches from a height to another, reduced onto the cursor. */
    method ReduceRange(from: Cursor, firstHeight: nat, lastHeight: int, ghost v: Option<seq<Block>>)
        returns (r: Result<(Cursor, seq<ReducedBlock>, bool)>, ghost grown: seq<Block>)
      requires Sane() && Held(p, world, chain) && CursorAt(p, chain, from)
      requires v.Some? ==>
                 && SteadyOn(v.value) && Along(v.value, chain, [], firstHeight, firstHeight)
                 && firstHeight <= lastHeight + 1 <= |v.value|
                 && (chain == [] ==> firstHeight < |v.value| && HasTxid(v.value[firstHeight], p.binding.initTxid))
      modifies rpc
      ensures rpc.calls >= old(rpc.calls)
      ensures r.Ok? ==>
                && Held(p, world, chain + grown) && CursorAt(p, chain + grown, r.value.0)
                && ReducedFrom(p, chain, grown, r.value.1)
      ensures v.Some? ==> r.Ok? && !r.value.2 && Along(v.value, chain, grown, firstHeight, lastHeight + 1)
    {
      hide CanonOf, ReducedFrom, Held, CursorAt, Along, HasTxid, Lawful, Consensus, OnNode, LinkedIn;
      var cursor, batch := from, [];
      grown := [];
      assert chain + grown == chain;
      ReducedFromNothing(p, chain);
      var broken, start := false, firstHeight;
      while start <= lastHeight && !broken && !stopping(rpc.calls)
        invariant rpc.calls >= old(rpc.calls) && start >= firstHeight
        invariant Held(p, world, chain + grown) && CursorAt(p, chain + grown, cursor)
        invariant ReducedFrom(p, chain, grown, batch)
        invariant v.Some? ==> !broken && start <= lastHeight + 1 && Along(v.value, chain, grown, firstHeight, start)
        decreases lastHeight - start, !broken
      {
        var end := if lastHeight < start + fetchConcurrency - 1 then lastHeight else start + fetchConcurrency - 1;
        var connected, more := ConnectChunk(cursor, batch, start, end, firstHeight, grown, v);
        if connected.Err? {
          return Err(connected.error), grown;
        }
        cursor, batch, broken := connected.value.0, connected.value.1, connected.value.2;
        grown := more;
        start := end + 1;
      }
      return Ok((cursor, batch, broken)), grown;
    }

    /** The heights of a rollback plan are the top heights of the chain, highest first. */
    lemma PlanCutsChain(ancestor: int, heights: seq<nat>)
      requires Valid() && chain != []
      requires chain[0].height - 1 <= ancestor < chain[0].height + |chain| - 1
      requires heights == Descending(chain[0].height + |chain| - 1, ancestor)
      ensures RollbackHeights(store.db, heights, |heights|) == TablesOf(p, chain[..ancestor - chain[0].height + 1])
      ensures |heights| == |chain| - (ancestor - chain[0].height + 1)
    {
      hide TablesOf, CanonOf, Accepted, RollbackHeights, ValidChain, Lawful, Consensus;
      HeldHeights(p, world, chain);
      HeldIsValid(p, world, chain);
      RollbackCutsChain(p, chain, heights, |heights|);
    }

    lemma PrefixIsHeld(k: nat)
      requires Held(p, world, chain) && Accepted(p, chain) && k <= |chain|
      ensures Held(p, world, chain[..k]) && Accepted(p, chain[..k])
    {
      hide Accepted;
      ValidPrefix(p, chain, k);
      AcceptedPrefix(p, chain, k);
    }

    /** Searches down from below the tip for a stored block the node also has. */
    method FindAncestor(tip: CanonicalTip, initHeight: nat, ghost v: Option<seq<Block>>) returns (ancestor: int)
      requires Valid() && chain != [] && IsTip(store.db, Some(tip)) && initHeight == chain[0].height
      requires v.Some? ==> rpc.Steady(v.value, rpc.calls)
      modifies rpc
      ensures rpc.calls >= old(rpc.calls)
      ensures initHeight - 1 <= ancestor < tip.height == initHeight + |chain| - 1
      ensures v.Some? && ancestor >= initHeight ==> !Differs(v.value, chain, ancestor)
      ensures v.Some? ==> forall h :: ancestor < h < tip.height ==> Differs(v.value, chain, h)
    {
      hide TablesOf, CanonOf, Accepted, Held, Lawful, Consensus, IsTip, NextHeight;
      TablesKnowChain(p, world, chain, tip);
      ancestor := initHeight - 1;
      var height: int := tip.height - 1;
      while height >= initHeight
        invariant initHeight - 1 <= height < tip.height && rpc.calls >= old(rpc.calls)
        invariant v.Some? ==> forall h :: height < h < tip.height ==> Differs(v.value, chain, h)
      {
        var stored := store.BlockHash(height);
        var nodeHash := rpc.GetBlockHash(height);
        if stored.Some? && nodeHash == Ok(stored.value) {
          ancestor := height;
          return;
        }
        height := height - 1;
      }
    }

    /** The journal has one more row exactly if the chain was cut. */
    ghost predicate Journaled(before: seq<Block>, after: seq<Block>, rows: seq<JournalRow>, now: seq<JournalRow>,
                              row: JournalRow)
    {
      now == if after == before then rows else rows + [row]
    }

    /** A cut has one journal row, which tells both tips, where they part and how many blocks went. */
    ghost predicate TellsCut(before: seq<Block>, after: seq<Block>, rows: seq<JournalRow>, now: seq<JournalRow>) {
      if before <= after then now == rows
      else
        && |now| == |rows| + 1 && now[..|rows|] == rows
        && var row, tip := now[|rows|], before[|before| - 1];
           && row.oldTipHeight == tip.height && row.journal.oldTipHash == tip.hash
           && row.rolledBackBlocks == |before| - |after| && row.ancestorHeight == tip.height - row.rolledBackBlocks
           && row.journal.ancestorHash == if after == [] then 0 else after[|after| - 1].hash
    }

    lemma CutCounts(before: seq<Block>, after: seq<Block>, rows: seq<JournalRow>, now: seq<JournalRow>)
      requires TellsCut(before, after, rows, now)
      ensures |now| == |rows| + if before <= after then 0 else 1
    {
    }

    lemma NothingCut(before: seq<Block>, after: seq<Block>, rows: seq<JournalRow>)
      requires before <= after
      ensures TellsCut(before, after, rows, rows)
    {
    }

    lemma CutIsTold(before: seq<Block>, after: seq<Block>, rows: seq<JournalRow>, now: seq<JournalRow>, t: Tables,
                    tip: CanonicalTip, ancestor: int, ancestorHash: Hash, newTipHash: Hash)
      requires before != [] && KnowsChain(t, before, tip)
      requires before[|before| - 1].height == tip.height
      requires before[0].height - 1 <= ancestor < tip.height
      requires ancestorHash == if ancestor >= before[0].height then before[ancestor - before[0].height].hash else 0
      requires after == before || after == before[..ancestor - before[0].height + 1]
      requires Journaled(before, after, rows, now,
                         JournalRow(tip.height, ancestor, Journal(tip.hash, ancestorHash, newTipHash),
                                    |before| - |after|))
      ensures TellsCut(before, after, rows, now)
      ensures after != before ==> now != [] && now[|now| - 1].journal.newTipHash == newTipHash
    {
    }

    function BestHash(view: seq<Block>): Hash
      requires view != []
    {
      view[|view| - 1].hash
    }

    /** Plans and runs the rollback to a stored height, or to below the INIT. The plan is always accepted. */
    method RollbackTo(tip: CanonicalTip, ancestor: int, initHeight: nat, ancestorHash: Hash, newTipHash: Hash)
        returns (r: Result<()>)
      requires Valid() && chain != [] && KnowsChain(store.db, chain, tip) && initHeight == chain[0].height
      requires initHeight - 1 <= ancestor < tip.height
      requires ancestor >= initHeight ==> ancestorHash == chain[ancestor - initHeight].hash
      modifies this`objects, this`chain, store
      ensures Stored() && store.transactions >= old(store.transactions)
      ensures r.Ok? ==> Valid() && objects.None? && chain == old(chain)[..ancestor - initHeight + 1]
      ensures r.Err? ==> r.error == StoreFailed
      ensures chain == old(chain) || chain == old(chain)[..ancestor - initHeight + 1]
      ensures old(store.Healthy()) ==> r.Ok?
      ensures Journaled(old(chain), chain, old(store.reorgs), store.reorgs,
                        JournalRow(tip.height, ancestor, Journal(tip.hash, ancestorHash, newTipHash),
                                   |old(chain)| - |chain|))
    {
      hide TablesOf, Held, Lawful, Consensus, RollbackHeights, MayRollBack, Descending, CanonOf, Accepted, LinkedIn,
        Coherent, PlanOf;
      var plan := PlanReorgRollback(tip.height, ancestor, initHeight);
      PlanCutsChain(ancestor, plan.value.rollbackHeights);
      PrefixIsHeld(ancestor - initHeight + 1);
      ghost var fate := store.fate(store.transactions);
      PlanIsCurrent(store.db, chain, tip, plan.value, Journal(tip.hash, ancestorHash, newTipHash));
      r := store.Rollback(plan.value, Journal(tip.hash, ancestorHash, newTipHash));
      if fate != Fails {
        chain := chain[..ancestor - initHeight + 1];
      }
      if r.Err? {
        return Err(StoreFailed);
      }
      objects := None;
    }

    /** The stored hash of the ancestor, or 64 zeros below the INIT. */
    method AncestorHash(tip: CanonicalTip, ancestor: int, initHeight: nat) returns (hash: Hash)
      requires chain != [] && KnowsChain(store.db, chain, tip) && initHeight == chain[0].height
      requires initHeight - 1 <= ancestor < tip.height == initHeight + |chain| - 1
      ensures hash == if ancestor >= initHeight then chain[ancestor - initHeight].hash else 0
    {
      hash := 0;
      if ancestor >= initHeight {
        AncestorIsStored(store.db, chain, tip, ancestor);
        var stored := store.BlockHash(ancestor);
        hash := if stored.Some? then stored.value else 0;
      }
    }

    /** Rolls back to a stored height and tells the journal: its hash, and the node's best one by then. */
    method CutTo(tip: CanonicalTip, ancestor: int, initHeight: nat) returns (r: Result<()>)
      requires Valid() && chain != [] && KnowsChain(store.db, chain, tip) && initHeight == chain[0].height
      requires chain[|chain| - 1].height == tip.height == initHeight + |chain| - 1
      requires initHeight - 1 <= ancestor < tip.height
      modifies this`objects, this`chain, rpc, store
      ensures Stored() && rpc.calls == old(rpc.calls) + 1 && store.transactions >= old(store.transactions)
      ensures r == Err(StoreFailed) || Valid()
      ensures r.Err? && r.error != StoreFailed ==> chain == old(chain)
      ensures chain == old(chain) || chain == old(chain)[..ancestor - initHeight + 1]
      ensures r.Ok? ==> chain == old(chain)[..ancestor - initHeight + 1] && objects.None?
      ensures old(store.Healthy()) && !rpc.fails(old(rpc.calls)) ==> r.Ok?
      ensures TellsCut(old(chain), chain, old(store.reorgs), store.reorgs)
      ensures chain != old(chain) ==>
                && store.reorgs != [] && rpc.view(old(rpc.calls)) != []
                && store.reorgs[|store.reorgs| - 1].journal.newTipHash == BestHash(rpc.view(old(rpc.calls)))
    {
      hide TablesOf, CanonOf, Held, Consensus, Lawful, IsTip, Accepted, Journaled, TellsCut, KnowsChain, LinkedIn;
      NothingCut(chain, chain, store.reorgs);
      var ancestorHash := AncestorHash(tip, ancestor, initHeight);
      assert rpc.view(rpc.calls) != [] by {
        assert IsBestChain(world, rpc.view(rpc.calls));
      }
      var info := rpc.GetBlockchainInfo();
      if info.Err? {
        return Err(info.error);
      }
      ghost var db := store.db;
      r := RollbackTo(tip, ancestor, initHeight, ancestorHash, info.value.bestBlockHash);
      CutIsTold(old(chain), chain, old(store.reorgs), store.reorgs, db, tip, ancestor, ancestorHash,
                info.value.bestBlockHash);
    }

    /**
     * Rolls the store back to the highest block it shares with the node, or to nothing. Against a steady
     * node that is the fork point; only a failed node call or transaction stops it.
     */
    method RollbackToCommonAncestor(tip: CanonicalTip, initHeight: nat,
                                    ghost v: Option<seq<Block>>) returns (r: Result<()>)
      requires Valid() && chain != [] && IsTip(store.db, Some(tip)) && initHeight == chain[0].height
      requires v.Some? ==>
                 && rpc.Steady(v.value, rpc.calls) && store.Healthy()
                 && IsBestChain(world, v.value) && !OnNode(v.value, chain)
      modifies this`objects, this`chain, rpc, store
      ensures Stored() && rpc.calls >= old(rpc.calls) && store.transactions >= old(store.transactions)
      ensures r == Err(StoreFailed) || Valid()
      ensures r.Err? && r.error != StoreFailed ==> chain == old(chain)
      ensures chain == old(chain) || (|chain| < |old(chain)| && chain == old(chain)[..|chain|])
      ensures r.Ok? ==> chain != old(chain) && objects.None?
      ensures v.Some? ==>
                && r.Ok? && OnNode(v.value, chain)
                && forall k :: |chain| < k <= |old(chain)| ==> !OnNode(v.value, old(chain)[..k])
      ensures TellsCut(old(chain), chain, old(store.reorgs), store.reorgs)
      ensures chain != old(chain) ==>
                && rpc.calls > 0 && rpc.view(rpc.calls - 1) != [] && store.reorgs != []
                && store.reorgs[|store.reorgs| - 1].journal.newTipHash == BestHash(rpc.view(rpc.calls - 1))
    {
      hide TablesOf, CanonOf, Held, Consensus, Lawful, IsTip, OnNode, Differs, Accepted, TellsCut, ValidChain, LinkedIn,
        BestHash;
      TipHeightIs(p, world, chain, tip);
      TablesKnowChain(p, world, chain, tip);
      var ancestor := FindAncestor(tip, initHeight, v);
      if v.Some? {
        ForkPoint(v.value, ancestor - initHeight + 1);
      }
      r := CutTo(tip, ancestor, initHeight);
    }

    /** The highest stored height that does not differ is where the stored chain leaves the node's. */
    lemma ForkPoint(v: seq<Block>, kept: nat)
      requires Valid() && chain != [] && IsBestChain(world, v) && !OnNode(v, chain)
      requires kept < |chain|
      requires kept > 0 ==> !Differs(v, chain, chain[0].height + kept - 1)
      requires forall h :: chain[0].height + kept <= h < chain[0].height + |chain| - 1 ==> Differs(v, chain, h)
      ensures OnNode(v, chain[..kept])
      ensures forall k :: kept < k <= |chain| ==> !OnNode(v, chain[..k])
    {
      hide TablesOf, CanonOf, Accepted, Lawful, ValidChain, Consensus, HashesCommit, HeightsFit;
      ConsensusCommits(world, p.binding.initTxid);
      HeldHeights(p, world, chain);
      TipDecides(p, world, chain, v);
      if kept > 0 {
        SharedBelow(world, chain, v, kept - 1);
      }
      forall k | kept < k <= |chain|
        ensures !OnNode(v, chain[..k])
      {
        DifferingIsOff(v, chain, k);
      }
    }

    /** A steady node whose chain holds the INIT, which `locateInit` finds. */
    ghost predicate SteadyInit(v: seq<Block>, init: nat)
      reads this, rpc, store
    {
      && rpc.Steady(v, rpc.calls) && store.Healthy() && IsBestChain(world, v)
      && init < |v| && HasTxid(v[init], p.binding.initTxid)
      && (forall n :: rpc.calls <= n ==> locateInit(n) == Some(init) && !stopping(n))
    }

    /** Where the next batch starts. */
    ghost function Next(init: nat): nat
      reads this
    {
      if chain == [] then init else NextHeight(chain)
    }

    /** The stored tip, asked of the node: whether the chain must be rolled back. */
    method TipIsStale(tip: CanonicalTip, nodeHeight: nat, ghost v: Option<seq<Block>>) returns (r: Result<bool>)
      requires Valid() && chain != [] && IsTip(store.db, Some(tip))
      requires v.Some? ==> rpc.Steady(v.value, rpc.calls) && IsBestChain(world, v.value) && nodeHeight == |v.value| - 1
      modifies rpc
      ensures rpc.calls >= old(rpc.calls)
      ensures v.Some? ==> r == Ok(!OnNode(v.value, chain))
    {
      hide TablesOf, CanonOf, Accepted, Held, Consensus, Lawful, IsTip, OnNode;
      TablesKnowChain(p, world, chain, tip);
      if v.Some? {
        TipDecides(p, world, chain, v.value);
      }
      if tip.height > nodeHeight {
        return Ok(true);
      }
      var nodeHash := rpc.GetBlockHash(tip.height);
      if nodeHash.Err? {
        return Err(nodeHash.error);
      }
      return Ok(nodeHash.value != tip.hash);
    }

    lemma TheNodeServes()
      requires Valid()
      ensures rpc.view(rpc.calls) != [] && IsBestChain(world, rpc.view(rpc.calls))
      ensures Stored()
    {
      hide TablesOf, CanonOf, Held, Consensus, Lawful, Accepted;
      assert rpc.view(rpc.calls) != [] by {
        assert IsBestChain(world, rpc.view(rpc.calls));
      }
    }

    /** What the stored tip and INIT row say of the stored chain. */
    lemma TipParts(tip: Option<CanonicalTip>)
      requires Valid() && IsTip(store.db, tip)
      ensures tip.Some? <==> chain != []
      ensures tip.Some? ==> tip.value.height + 1 == NextHeight(chain)
      ensures store.db.init.Some? <==> chain != []
      ensures chain != [] ==> store.db.init.value.height == chain[0].height
    {
      hide TablesOf, CanonOf, Held, Consensus, Lawful, Accepted, IsTip, NextHeight;
      TipTells(p, world, chain, tip);
    }

    /**
     * One bounded step: a rollback if the stored tip left the node's chain, otherwise a batch. Whatever
     * the node answers, the tables stay those of one replay of a stored chain; only a failed transaction can
     * leave the cache behind them. A batch with a row too wide for its column is refused.
     */
    method SyncOnce(ghost v: Option<seq<Block>>, ghost init: nat) returns (r: Result<bool>)
      requires Valid()
      requires v.Some? ==> SteadyInit(v.value, init)
      modifies this`objects, this`chain, rpc, store
      ensures Stored() && rpc.calls >= old(rpc.calls) && store.transactions >= old(store.transactions)
      ensures r == Err(StoreFailed) || Valid()
      ensures r.Err? && r.error != StoreFailed ==> chain == old(chain)
      ensures old(chain) <= chain || (chain <= old(chain) && chain != old(chain))
      ensures TellsCut(old(chain), chain, old(store.reorgs), store.reorgs)
      ensures v.Some? && !OnNode(v.value, old(chain)) ==>
                && r == Ok(true) && OnNode(v.value, chain) && |chain| < |old(chain)|
                && forall k :: |chain| < k <= |old(chain)| ==> !OnNode(v.value, old(chain)[..k])
      ensures v.Some? && OnNode(v.value, old(chain)) ==>
                && OnNode(v.value, chain)
                && old(Next(init)) <= Least(|v.value|, old(Next(init)) + batchBlocks)
                && var longer := old(chain) + v.value[old(Next(init))..Least(|v.value|, old(Next(init)) + batchBlocks)];
                   if Accepted(p, longer) then r == Ok(old(Next(init)) + batchBlocks < |v.value|) && chain == longer
                   else r == Err(ColumnTooNarrow) && chain == old(chain)
    {
      hide TablesOf, CanonOf, Held, Consensus, Lawful, IsTip, OnNode, HasTxid, ValidChain, LinkedIn, NextHeight,
        Coherent, LoadedObjects, Accepted, TellsCut, Valid, Stored;
      NothingCut(chain, chain, store.reorgs);
      TheNodeServes();
      var info := rpc.GetBlockchainInfo();
      if info.Err? {
        return Err(info.error);
      }
      var activation := store.db.init;
      var tip := store.ReadTip();
      var resume: nat := if tip.Some? then tip.value.height + 1 else if activation.Some? then activation.value.height
          else 0;
      TipParts(tip);
      if tip.Some? && activation.Some? {
        var stale := TipIsStale(tip.value, info.value.blocks, v);
        if stale.Err? {
          return Err(stale.error);
        }
        if stale.value {
          var rolled := RollbackToCommonAncestor(tip.value, activation.value.height, v);
          if rolled.Err? {
            return Err(rolled.error);
          }
          return Ok(true);
        }
      } else if v.Some? {
        EmptyIsOnNode(v.value, chain);
      }
      var nextHeight;
      if activation.None? {
        var located := locateInit(rpc.calls);
        if located.None? {
          return Ok(false);
        }
        nextHeight := located.value;
      } else {
        nextHeight := resume;
      }
      r := ConnectBatch(activation, tip, nextHeight, info.value.blocks, v);
      NothingCut(old(chain), chain, store.reorgs);
    }

    /** A timer tick: an error drops the cache and is retried later. */
    method Tick() returns (more: bool)
      requires Valid()
      modifies this`objects, this`chain, rpc, store
      ensures Valid()
      ensures old(chain) <= chain || (chain <= old(chain) && chain != old(chain))
      ensures TellsCut(old(chain), chain, old(store.reorgs), store.reorgs)
    {
      hide TablesOf, CanonOf, Accepted, Held, Lawful, Consensus, OnNode, IsBestChain, TellsCut;
      var r := SyncOnce(None, 0);
      more := r.Ok? && r.value;
      if r.Err? {
        objects := None;
      }
    }

    /**
     * Any number of ticks against any node: the tables still are those of a single replay of the stored
     * chain, and what the cache holds is what would be read back from them.
     */
    method Run(ticks: nat)
      requires Valid()
      modifies this`objects, this`chain, rpc, store
      ensures Valid()
      ensures objects.Some? ==> objects.value == LoadedObjects(store.db)
    {
      hide TablesOf, CanonOf, Held, Accepted, Lawful, Consensus;
      for i := 0 to ticks
        invariant Valid()
      {
        var _ := Tick();
      }
      CacheIsTables(p, world, chain);
    }

    /** Where the stored chain stands on a steady node's. */
    lemma SteadyParts(v: seq<Block>, init: nat)
      requires Valid() && SteadyInit(v, init)
      ensures batchBlocks >= 1 && init < |v| && Accepted(p, chain)
      ensures OnNode(v, chain) && chain != [] ==>
                chain[0].height == init && NextHeight(chain) == init + |chain| <= |v| &&
                    chain == v[init..NextHeight(chain)]
    {
      hide TablesOf, CanonOf, Held, Consensus, Lawful, HasTxid, LinkedIn, OnNode, NextHeight, IsBestChain, Accepted;
      OnNodeStart(p, world, v, chain, init);
    }

    /** A step against a steady node: the one rollback to its chain, the next batch, or a refused one. */
    method SteadyStep(ghost v: seq<Block>, ghost init: nat) returns (r: Result<bool>)
      requires Valid() && SteadyInit(v, init)
      modifies this`objects, this`chain, rpc, store
      ensures Valid() && SteadyInit(v, init) && OnNode(v, chain)
      ensures |store.reorgs| == |old(store.reorgs)| + if OnNode(v, old(chain)) then 0 else 1
      ensures !OnNode(v, old(chain)) ==> r == Ok(true)
      ensures OnNode(v, old(chain)) && r.Ok? ==>
                && chain != [] && Next(init) == Least(|v|, old(Next(init)) + batchBlocks)
                && r.value == (Next(init) < |v|) && (r.value ==> Next(init) > old(Next(init)))
      ensures r.Err? ==> r.error == ColumnTooNarrow && chain == old(chain) && BatchIsRefused(v, init)
      ensures OnNode(v, old(chain)) && old(BatchIsRefused(v, init)) ==> r.Err?
    {
      hide TablesOf, CanonOf, Held, Consensus, Lawful, HasTxid, LinkedIn, OnNode, NextHeight, IsBestChain, Accepted,
        TellsCut, ValidChain, Valid;
      SteadyParts(v, init);
      ghost var was, before := chain, Next(init);
      r := SyncOnce(Some(v), init);
      CutCounts(was, chain, old(store.reorgs), store.reorgs);
      SteadyParts(v, init);
      if OnNode(v, was) {
        BatchExtendsNode(v, was, init, before, Least(|v|, before + batchBlocks));
      }
    }

    /**
     * Against a steady node that holds the INIT, repeated steps roll back at most once, then append. They end
     * with the node's chain from the INIT on exactly when the rows of all its blocks fit their columns; else at
     * a batch that holds a block whose rows do not.
     */
    method Converge(ghost v: seq<Block>, ghost init: nat) returns (r: Result<()>, ghost rollbacks: nat)
      requires Valid() && SteadyInit(v, init)
      modifies this`objects, this`chain, rpc, store
      ensures Valid() && SteadyInit(v, init) && rollbacks <= 1 && |store.reorgs| == |old(store.reorgs)| + rollbacks
      ensures r == if Accepted(p, v[init..]) then Ok(()) else Err(ColumnTooNarrow)
      ensures r.Ok? ==> chain == v[init..]
      ensures r.Err? ==> OnNode(v, chain) && BatchIsRefused(v, init)
    {
      hide TablesOf, CanonOf, Held, Consensus, Lawful, HasTxid, LinkedIn, OnNode, NextHeight, IsBestChain, Accepted,
        TellsCut, ValidChain, Valid, SteadyInit;
      SteadyParts(v, init);
      rollbacks := 0;
      var more := true;
      while more
        invariant Valid() && SteadyInit(v, init)
        invariant rollbacks <= 1 && (rollbacks == 1 ==> OnNode(v, chain))
        invariant |store.reorgs| == |old(store.reorgs)| + rollbacks
        invariant !more ==> OnNode(v, chain) && chain != [] && Next(init) == |v|
        decreases more, !OnNode(v, chain), |v| - Next(init)
      {
        ghost var on := OnNode(v, chain);
        var step := SteadyStep(v, init);
        if step.Err? {
          RefusedBatchRefuses(v, init);
          return Err(step.error), rollbacks;
        }
        more := step.value;
        if !on {
          rollbacks := rollbacks + 1;
        }
      }
      SteadyParts(v, init);
      assert v[init..|v|] == v[init..];
      r := Ok(());
    }

    /** The next batch ends in a chain with a block whose rows do not fit. */
    ghost predicate BatchIsRefused(v: seq<Block>, init: nat)
      reads this
    {
      init <= Least(|v|, Next(init) + batchBlocks) && !Accepted(p, v[init..Least(|v|, Next(init) + batchBlocks)])
    }

    lemma RefusedBatchRefuses(v: seq<Block>, init: nat)
      requires BatchIsRefused(v, init)
      ensures init <= |v| && !Accepted(p, v[init..])
    {
      hide Accepted;
      var all, end := v[init..], Least(|v|, Next(init) + batchBlocks);
      assert all[..end - init] == v[init..end];
      if Accepted(p, all) {
        AcceptedPrefix(p, all, end - init);
      }
    }

    /** From there no number of further steps stores a block: each one fails the same way. */
    method Stall(ghost v: seq<Block>, ghost init: nat, steps: nat)
      requires Valid() && SteadyInit(v, init) && OnNode(v, chain) && BatchIsRefused(v, init)
      modifies this`objects, this`chain, rpc, store
      ensures Valid() && chain == old(chain)
    {
      hide TablesOf, CanonOf, Held, Consensus, Lawful, HasTxid, LinkedIn, OnNode, NextHeight, IsBestChain, Accepted,
        Valid, SteadyInit;
      for i := 0 to steps
        invariant Valid() && SteadyInit(v, init) && chain == old(chain)
      {
        var step := SteadyStep(v, init);
        assert step == Err(ColumnTooNarrow);
      }
    }
  }

  /**
   * On a node whose chain has, after a valid INIT, a block with a marked transaction too wide for its columns,
   * no stored chain ever reaches that block.
   */
  lemma WideBlockIsNeverStored(p: Protocol, world: iset<Block>, v: seq<Block>, chain: seq<Block>, init: nat, h: nat,
                               i: nat)
    requires Lawful(p) && Consensus(world, p.binding.initTxid) && Held(p, world, chain) && Accepted(p, chain)
    requires IsBestChain(world, v) && OnNode(v, chain)
    requires init < h < |v| && HasTxid(v[init], p.binding.initTxid)
    requires CanonOf(p, v[init..h]).activation.Some? && CanonOf(p, v[init..h]).activation.value.valid
    requires i < |v[h].txs| && IsTooWide(p, v[h].txs[i])
    ensures chain != [] ==> NextHeight(chain) <= h
  {
    hide CanonOf, Consensus, Lawful, Accepted, IsTooWide, IsBestChain, OnNode, Held, ValidChain, HasTxid, NextHeight,
      NextFits, WriteBlock, ReduceNext;
    OnNodeStart(p, world, v, chain, init);
    if chain != [] && NextHeight(chain) > h {
      var before := chain[..h - init];
      PrefixIsNodes(v, chain, init, h);
      HeldIsValid(p, world, chain);
      ValidPrefix(p, chain, h - init + 1);
      AcceptedPrefix(p, chain, h - init + 1);
      WideMarkerIsRefused(p, before, v[h], i);
      assert false;
    }
  }

  lemma PrefixIsNodes(v: seq<Block>, chain: seq<Block>, init: nat, h: nat)
    requires init < h < init + |chain| <= |v| && chain == v[init..init + |chain|]
    ensures chain[..h - init] == v[init..h] && chain[..h - init + 1] == chain[..h - init] + [v[h]]
  {
  }

  /**
   * Reduces fetched blocks one after the other onto the cursor, until one does not follow. No block
   * that follows fails to reduce.
   */
  method ConnectBlocks(p: Protocol, cursor: Cursor, batch: seq<ReducedBlock>, blocks: seq<Block>,
                       ghost world: iset<Block>, ghost base: seq<Block>, ghost grown: seq<Block>)
      returns (next: Cursor, longer: seq<ReducedBlock>, broken: bool, ghost taken: nat)
    requires Lawful(p) && Consensus(world, p.binding.initTxid) && Held(p, world, base + grown)
    requires CursorAt(p, base + grown, cursor) && ReducedFrom(p, base, grown, batch)
    requires forall i :: 0 <= i < |blocks| ==> blocks[i] in world
    ensures taken <= |blocks| && (broken <==> taken < |blocks|)
    ensures Held(p, world, base + (grown + blocks[..taken]))
    ensures CursorAt(p, base + (grown + blocks[..taken]), next)
    ensures ReducedFrom(p, base, grown + blocks[..taken], longer)
    ensures broken ==> !Follows(p, next, blocks[taken])
    ensures batch <= longer && |longer| == |batch| + taken
    ensures broken <==> |longer| < |batch| + |blocks|
  {
    hide CanonOf, Reduce, ReduceNext, ReduceFrom, IsStart, ReducedFrom, Held, CursorAt, DistinctActive, Lawful,
      Consensus,
      DistinctTxids, CoinbaseFirst, HasTxid;
    next, longer, broken, taken := cursor, batch, false, 0;
    assert grown + blocks[..0] == grown;
    for i := 0 to |blocks|
      invariant taken == i && !broken
      invariant batch <= longer && |longer| == |batch| + i
      invariant Held(p, world, base + (grown + blocks[..i]))
      invariant CursorAt(p, base + (grown + blocks[..i]), next)
      invariant ReducedFrom(p, base, grown + blocks[..i], longer)
    {
      var block := blocks[i];
      if next.previousHash.Some? && block.previousHash != next.previousHash {
        broken := true;
        return;
      }
      if next.activation.None? && !HasTxid(block, p.binding.initTxid) {
        broken := true;
        return;
      }
      BlockConnects(p, world, base, grown + blocks[..i], longer, next, block);
      assert (grown + blocks[..i]) + [block] == grown + blocks[..i + 1];
      var reduced := ReduceBlock(p, next.activation, next.previousRoot, next.objects, block);
      longer := longer + [reduced.value];
      next := Cursor(Some(reduced.value.activation), Some(reduced.value.hash), reduced.value.chainedRoot,
                     reduced.value.work.objects);
      taken := i + 1;
    }
    assert blocks[..|blocks|] == blocks;
  }

  /** One more block that follows is reduced onto the cursor. */
  lemma BlockConnects(p: Protocol, world: iset<Block>, base: seq<Block>, grown: seq<Block>, batch: seq<ReducedBlock>,
                      cursor: Cursor, block: Block)
    requires Lawful(p) && Consensus(world, p.binding.initTxid) && Held(p, world, base + grown)
    requires CursorAt(p, base + grown, cursor) && ReducedFrom(p, base, grown, batch)
    requires block in world && Follows(p, cursor, block)
    ensures DistinctActive(cursor.objects) && DistinctTxids(block.txs) && CoinbaseFirst(block.txs)
    ensures Held(p, world, base + (grown + [block]))
    ensures
      match Reduce(p, cursor.activation, cursor.previousRoot, cursor.objects, block)
      case Err(_) => false
      case Ok(r) =>
        && CursorAt(p, base + (grown + [block]),
                    Cursor(Some(r.activation), Some(r.hash), r.chainedRoot, r.work.objects))
        && ReducedFrom(p, base, grown + [block], batch + [r])
  {
    hide CanonOf, Reduce, ReducedFrom, Held, CursorAt, DistinctActive, Lawful, Consensus, Follows;
    var now := base + grown;
    assert now + [block] == base + (grown + [block]);
    HeldGrows(p, world, now, cursor, block);
    NextReduces(p, world, now, cursor, block);
    ReducedGrows(p, base, grown, batch, block, ReduceNext(p, CanonOf(p, now), block).value);
  }
}
