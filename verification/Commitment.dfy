/** What the chained root of a checkpoint commits to. */
module Commitment {
  import opened Prelude
  import opened Bitcoin
  import opened Tandem
  import opened Reducer
  import opened Schema
  import opened Written
  import opened Chain
  import opened Node

  /** The block root is collision free, and never the root from before the INIT block. */
  ghost predicate CollisionFree(p: Protocol) {
    && (forall a, b :: p.chainedRoot(a) == p.chainedRoot(b) ==> a == b)
    && (forall a :: p.chainedRoot(a) != p.initialRoot(p.binding.namespace))
  }

  /** What a checkpoint's root is computed from. */
  function RootInput(p: Protocol, previousRoot: Hash, height: nat, row: CheckpointRow): BlockRootInput {
    BlockRootInput(p.binding.namespace, previousRoot, row.blockHash, height, row.eventRoot, row.objectStateRoot,
                   row.foundingCreated, row.allObjects, row.activeObjects)
  }

  lemma ReducedRoot(p: Protocol, activation: Option<InitActivation>, root: Hash, objects: Objects, block: Block)
    requires Reduce(p, activation, root, objects, block).Ok?
    ensures
      var r := Reduce(p, activation, root, objects, block).value;
      r.chainedRoot == p.chainedRoot(RootInput(p, root, r.height, CheckpointOf(r)))
  {
    hide Activate, ClassifyBlock, StartOf, TxRows, CanonicalEvents, Snapshots, FoundingKeys, ActiveKeys;
  }

  /**
   * Each stored checkpoint's chained root is built from the root of the checkpoint before it, or from
   * the initial root, whatever batches and rollbacks led to the chain.
   */
  lemma RootChains(p: Protocol, chain: seq<Block>, block: Block)
    requires Lawful(p) && ValidChain(p, chain + [block])
    ensures
      var before, after := TablesOf(p, chain), TablesOf(p, chain + [block]);
      && block.height in after.checkpoints
      && after.checkpoints == before.checkpoints[block.height := after.checkpoints[block.height]]
      && after.checkpoints[block.height].chainedRoot == CanonOf(p, chain + [block]).root
      && after.checkpoints[block.height].chainedRoot
         == p.chainedRoot(RootInput(p, CanonOf(p, chain).root, block.height, after.checkpoints[block.height]))
      && after.checkpoints[block.height].blockHash == block.hash
  {
    hide CanonOf, Reduce, ValidChain, WriteBlock, RootInput;
    ReplayExtends(p, chain, block);
    ReducedHeight(p, chain, block);
    var c := CanonOf(p, chain);
    ReducedRoot(p, c.activation, c.root, c.objects, block);
    AfterBlockCheckpoints(c.tables, ReduceNext(p, c, block).value);
  }

  lemma AfterBlockCheckpoints(t: Tables, r: ReducedBlock)
    ensures AfterBlock(t, r).checkpoints == t.checkpoints[r.height := CheckpointOf(r)]
  {
  }

  /** The root before the INIT block is the initial root. */
  lemma GenesisRoot(p: Protocol)
    ensures CanonOf(p, []).root == p.initialRoot(p.binding.namespace) && TablesOf(p, []).checkpoints == map[]
  {
  }

  /**
   * Equal chained roots commit to equal histories: the chains have the same length, the same block
   * hashes, and every checkpoint from the INIT up is the same row.
   */
  lemma {:induction false} EqualRootsEqualHistories(p: Protocol, a: seq<Block>, b: seq<Block>)
    requires Lawful(p) && CollisionFree(p) && ValidChain(p, a) && ValidChain(p, b)
    requires CanonOf(p, a).root == CanonOf(p, b).root
    ensures |a| == |b|
    ensures forall i :: 0 <= i < |a| ==> a[i].hash == b[i].hash && a[i].height == b[i].height
    ensures TablesOf(p, a).checkpoints == TablesOf(p, b).checkpoints
  {
    hide CanonOf, TablesOf, ValidChain, ReduceNext, Lawful;
    GenesisRoot(p);
    if a != [] {
      LastRoot(p, a);
    }
    if b != [] {
      LastRoot(p, b);
    }
    if a != [] && b != [] {
      var n, m := |a| - 1, |b| - 1;
      EqualRootsEqualHistories(p, a[..n], b[..m]);
    }
  }

  lemma LastRoot(p: Protocol, chain: seq<Block>)
    requires Lawful(p) && ValidChain(p, chain) && chain != []
    ensures ValidChain(p, chain[..|chain| - 1])
    ensures
      var front, last, t := chain[..|chain| - 1], chain[|chain| - 1], TablesOf(p, chain);
      && last.height in t.checkpoints && t.checkpoints[last.height].blockHash == last.hash
      && t.checkpoints == TablesOf(p, front).checkpoints[last.height := t.checkpoints[last.height]]
      && t.checkpoints[last.height].chainedRoot == CanonOf(p, chain).root
      && CanonOf(p, chain).root
         == p.chainedRoot(RootInput(p, CanonOf(p, front).root, last.height, t.checkpoints[last.height]))
  {
    hide CanonOf, TablesOf, ValidChain, Lawful;
    var front, last := chain[..|chain| - 1], chain[|chain| - 1];
    assert front + [last] == chain;
    ReplayExtends(p, front, last);
    RootChains(p, front, last);
  }

  /** With block hashes that commit to their blocks, equal chained roots mean equal chains and equal tables. */
  lemma EqualRootsEqualChains(p: Protocol, world: iset<Block>, a: seq<Block>, b: seq<Block>)
    requires Lawful(p) && CollisionFree(p) && ValidChain(p, a) && ValidChain(p, b)
    requires HashesCommit(world) && LinkedIn(world, a) && LinkedIn(world, b)
    requires CanonOf(p, a).root == CanonOf(p, b).root
    ensures a == b && TablesOf(p, a) == TablesOf(p, b)
  {
    hide CanonOf, TablesOf, ValidChain, Lawful, CollisionFree, Coherent, Linked;
    EqualRootsEqualHistories(p, a, b);
    forall i | 0 <= i < |a|
      ensures a[i] == b[i]
    {
      assert a[i] in world && b[i] in world;
    }
  }
}
