/**
 * The Bitcoin node: at each call it answers from the best chain it has at that moment, or fails. The
 * best chain may be another one at every call.
 */
module Node {
  import opened Prelude
  import opened Bitcoin

  /** A chain of known blocks, each naming its parent. */
  ghost predicate LinkedIn(world: iset<Block>, chain: seq<Block>) {
    Linked(chain) && forall i :: 0 <= i < |chain| ==> chain[i] in world
  }

  /** A hash commits to its block and so to the parent. */
  ghost predicate HashesCommit(world: iset<Block>) {
    forall a, b :: a in world && b in world && a.hash == b.hash ==> a == b
  }

  /** Heights fit the 32-bit column that stores them. */
  ghost predicate HeightsFit(world: iset<Block>) {
    forall b :: b in world ==> b.height <= U32_MAX
  }

  /**
   * What consensus promises about all blocks the node can ever serve. Linked blocks are sound; from the
   * block that confirms the configured INIT on, no hash and no txid repeats. Below it they may: Bitcoin's
   * own main chain repeats two coinbase txids.
   */
  ghost predicate Consensus(world: iset<Block>, initTxid: Txid) {
    && HashesCommit(world) && HeightsFit(world)
    && (forall c: seq<Block> :: LinkedIn(world, c) ==> Sound(c))
    && (forall c: seq<Block> :: LinkedIn(world, c) && c != [] && HasTxid(c[0], initTxid) ==> Coherent(c))
  }

  /** A best chain from the genesis block on. */
  ghost predicate IsBestChain(world: iset<Block>, view: seq<Block>) {
    && view != [] && LinkedIn(world, view)
    && forall i :: 0 <= i < |view| ==> view[i].height == i
  }

  datatype ChainInfo = ChainInfo(blocks: nat, bestBlockHash: Hash)

  class BitcoinRpc {
    /** The best chain, and whether the call fails, by number of the call. */
    const view: nat -> seq<Block>
    const fails: nat -> bool
    var calls: nat

    constructor (view: nat -> seq<Block>, fails: nat -> bool)
      ensures this.view == view && this.fails == fails && calls == 0
    {
      this.view, this.fails := view, fails;
      calls := 0;
    }

    ghost predicate Serves(world: iset<Block>) {
      forall n :: IsBestChain(world, view(n))
    }

    /** From this call on the node has one best chain and every call succeeds. */
    ghost predicate Steady(v: seq<Block>, from: nat) {
      forall n :: from <= n ==> view(n) == v && !fails(n)
    }

    method GetBlockchainInfo() returns (r: Result<ChainInfo>)
      requires view(calls) != []
      modifies this
      ensures calls == old(calls) + 1
      ensures r == if fails(old(calls)) then Err(RpcFailed)
                   else Ok(ChainInfo(|view(old(calls))| - 1, view(old(calls))[|view(old(calls))| - 1].hash))
    {
      var now := view(calls);
      r := if fails(calls) then Err(RpcFailed) else Ok(ChainInfo(|now| - 1, now[|now| - 1].hash));
      calls := calls + 1;
    }

    method GetBlockHash(height: nat) returns (r: Result<Hash>)
      modifies this
      ensures calls == old(calls) + 1
      ensures r == if fails(old(calls)) || height >= |view(old(calls))| then Err(RpcFailed)
                   else Ok(view(old(calls))[height].hash)
    {
      var now := view(calls);
      r := if fails(calls) || height >= |now| then Err(RpcFailed) else Ok(now[height].hash);
      calls := calls + 1;
    }

    /** `getBlock(getBlockHash(height))`: a node keeps every block whose hash it has given out. */
    method GetBlockAt(height: nat) returns (r: Result<Block>)
      modifies this
      ensures calls == old(calls) + 1
      ensures r == if fails(old(calls)) || height >= |view(old(calls))| then Err(RpcFailed)
                   else Ok(view(old(calls))[height])
    {
      var now := view(calls);
      r := if fails(calls) || height >= |now| then Err(RpcFailed) else Ok(now[height]);
      calls := calls + 1;
    }
  }
}
