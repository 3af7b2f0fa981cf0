/**
 * The zcash store variant. Its block, pointer and cache operations are the
 * same code as the zavax store's and are modelled by `Store.BlockState`; its
 * node query is `SourceChain.QueryData`. What differs is `GetBlockByHeight`,
 * which answers with the snapshot itself and turns every failure into the
 * zero snapshot.
 */
module Zcash {
  import opened Types
  import opened Store
  import opened Chain
  import opened Vm

  /**
   * `GetBlockByHeight` of the zcash store: from the last accepted block,
   * decode every payload (an empty or undecodable one, or a failed lookup,
   * gives the zero snapshot) until one has the target height or a block of
   * height 0 has been visited; then the snapshot when it matches, the zero
   * snapshot when not. A target of 0 gives the zero snapshot without a walk.
   */
  method GetBlockByHeight(vm: VM, hgt: u64) returns (r: Snapshot)
    requires HeightsDecrease(vm.Chain())
    modifies vm.state`cache, vm.state`dbReads, vm.state`lastAccepted
    ensures r == ZcashLookup(old(vm.Chain()), old(vm.state.LastAcceptedView()), vm.json, hgt)
    ensures SameChain(old(vm.Chain()), vm.Chain())
    ensures vm.state.LastAcceptedView() == old(vm.state.LastAcceptedView())
  {
    ghost var c0 := vm.Chain();
    ghost var la0 := vm.state.LastAcceptedView();
    var expectedHeight := ToI64(hgt);
    var result: i64 := 0;
    var lastAccepted := vm.state.GetLastAccepted();
    var zblock := ZeroSnapshot;
    if lastAccepted.Err? {
      return zblock;
    }
    var id := lastAccepted.value;
    while expectedHeight != result
      invariant vm.Chain().verified == c0.verified
      invariant SameChain(c0, vm.Chain())
      invariant vm.state.LastAcceptedView() == la0
      invariant result == zblock.height
      invariant expectedHeight == result ==> ZcashLookup(c0, la0, vm.json, hgt) == zblock
      invariant expectedHeight != result ==> ZcashLookup(c0, la0, vm.json, hgt) == ZcashWalk(c0, vm.json, id, expectedHeight)
      decreases Rank(c0, id)
    {
      var block := vm.GetBlock(id);
      if block.Err? {
        return ZeroSnapshot;
      }
      var decoded := vm.json.Unmarshal(block.value.dt);
      if decoded.None? {
        return ZeroSnapshot;
      }
      zblock := decoded.value;
      id := block.value.prntID;
      result := zblock.height;
      if block.value.hght == 0 {
        break;
      }
    }
    if expectedHeight != result {
      return ZeroSnapshot;
    }
    r := zblock;
  }
}
