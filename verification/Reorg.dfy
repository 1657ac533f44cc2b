/** The rollback plan (src/indexer/reorg.service.ts). */
module Reorg {
  import opened Prelude

  const MAX_SAFE_INTEGER: int := 0x1f_ffff_ffff_ffff

  datatype ReorgPlan = ReorgPlan(oldTipHeight: nat, ancestorHeight: int, rollbackHeights: seq<nat>)

  predicate IsSafeInteger(n: int) {
    -MAX_SAFE_INTEGER <= n <= MAX_SAFE_INTEGER
  }

  /** Every height above the ancestor up to the tip, highest first. */
  function Descending(tip: int, ancestor: int): (r: seq<int>)
    requires ancestor <= tip
  {
    seq(tip - ancestor, i => tip - i)
  }

  /** The plan, or the first check it fails. */
  function PlanOf(oldTipHeight: nat, ancestorHeight: int, initHeight: nat): Result<ReorgPlan> {
    if !(IsSafeInteger(oldTipHeight) && IsSafeInteger(ancestorHeight) && IsSafeInteger(initHeight)) then
        Err(UnsafeHeights)
    else if ancestorHeight < initHeight - 1 then Err(CrossesInit)
    else if ancestorHeight >= oldTipHeight then Err(AncestorNotBelowTip)
    else Ok(ReorgPlan(oldTipHeight, ancestorHeight, Descending(oldTipHeight, ancestorHeight)))
  }

  /**
   * A plan exists exactly when the ancestor is below the tip and not more than one below the INIT. It
   * then lists every height above the ancestor once, highest first, and none below the INIT.
   */
  method PlanReorgRollback(oldTipHeight: nat, ancestorHeight: int, initHeight: nat) returns (r: Result<ReorgPlan>)
    ensures r == PlanOf(oldTipHeight, ancestorHeight, initHeight)
    ensures r.Ok? <==> IsSafeInteger(oldTipHeight) && IsSafeInteger(ancestorHeight) && IsSafeInteger(initHeight)
                       && initHeight - 1 <= ancestorHeight < oldTipHeight
    ensures r.Ok? ==>
              && r.value.oldTipHeight == oldTipHeight && r.value.ancestorHeight == ancestorHeight
              && r.value.rollbackHeights == Descending(oldTipHeight, ancestorHeight)
              && (forall h: nat :: h in r.value.rollbackHeights <==> ancestorHeight < h <= oldTipHeight)
              && (forall h :: h in r.value.rollbackHeights ==> initHeight <= h)
    ensures r.Err? && r.error == CrossesInit ==> ancestorHeight < initHeight - 1
    ensures r.Err? && r.error == AncestorNotBelowTip ==>
              initHeight - 1 <= ancestorHeight && oldTipHeight <= ancestorHeight
  {
    if !(IsSafeInteger(oldTipHeight) && IsSafeInteger(ancestorHeight) && IsSafeInteger(initHeight)) {
      return Err(UnsafeHeights);
    }
    if ancestorHeight < initHeight - 1 {
      return Err(CrossesInit);
    }
    if ancestorHeight >= oldTipHeight {
      return Err(AncestorNotBelowTip);
    }
    var rollbackHeights: seq<nat> := [];
    var height: int := oldTipHeight;
    while height > ancestorHeight
      invariant ancestorHeight <= height <= oldTipHeight
      invariant rollbackHeights == Descending(oldTipHeight, height)
    {
      rollbackHeights := rollbackHeights + [height];
      height := height - 1;
    }
    forall h: nat
      ensures h in rollbackHeights <==> ancestorHeight < h <= oldTipHeight
    {
      if ancestorHeight < h <= oldTipHeight {
        assert rollbackHeights[oldTipHeight - h] == h;
      }
    }
    return Ok(ReorgPlan(oldTipHeight, ancestorHeight, rollbackHeights));
  }
}
