/**
 * The JSON-RPC service of the VM: block lookup by ID, lookup by source-chain
 * height with backfill of missing heights through the mempool, and
 * reconciliation. Replies are objects whose fields the handlers write.
 */
module Service {
  import opened Types
  import opened SourceChain
  import opened Chain
  import opened Vm
  import opened Tracker

  /** The fields of a `GetBlockReply`, as one value. */
  datatype ReplyFields = ReplyFields(timestamp: u64, data: Snapshot, height: u64, id: ID, parentID: ID)

  /**
   * The snapshot shown for a non-empty payload: it is decoded into a fresh
   * zero value and a decoding error is ignored, which leaves the zero value.
   */
  function ShownData(json: Json, data: Bytes): (z: Snapshot)
    ensures json.Unmarshal(data).Some? ==> z == json.Unmarshal(data).value
    ensures json.Unmarshal(data).None? ==> z == ZeroSnapshot
  {
    match json.Unmarshal(data)
    case Some(s) => s
    case None => ZeroSnapshot
  }

  /**
   * The reply after `assignValues(reply, block)` on a reply holding `before`:
   * timestamp, height, ID and parent ID come from the block; the data is
   * replaced only when the block carries a payload.
   */
  function Assigned(before: ReplyFields, b: Block, json: Json): (after: ReplyFields)
    ensures after.timestamp == ToU64(b.tmstmp) && after.height == b.hght
    ensures after.id == b.id && after.parentID == b.prntID
    ensures |b.dt| == 0 ==> after.data == before.data
    ensures |b.dt| != 0 ==> after.data == ShownData(json, b.dt)
  {
    ReplyFields(ToU64(b.tmstmp), if |b.dt| != 0 then ShownData(json, b.dt) else before.data, b.hght, b.id, b.prntID)
  }

  /** Assigning the same block twice shows what assigning it once shows. */
  lemma AssignIsIdempotent(before: ReplyFields, b: Block, json: Json)
    ensures Assigned(Assigned(before, b, json), b, json) == Assigned(before, b, json)
  {
  }

  class GetBlockReply {
    var timestamp: u64
    var data: Snapshot
    var height: u64
    var id: ID
    var parentID: ID

    function Fields(): ReplyFields
      reads this
    {
      ReplyFields(timestamp, data, height, id, parentID)
    }

    constructor ()
      ensures Fields() == ReplyFields(0, ZeroSnapshot, 0, EmptyID, EmptyID)
    {
      timestamp, data, height, id, parentID := 0, ZeroSnapshot, 0, EmptyID, EmptyID;
    }
  }

  class GetReconcileReply {
    /** `Height`: `None` is the nil slice. */
    var height: Option<seq<u64>>

    constructor ()
      ensures height == None
    {
      height := None;
    }
  }

  /** `assignValues`: fills the reply from the block. */
  method AssignValues(reply: GetBlockReply, block: Block, json: Json)
    modifies reply
    ensures reply.Fields() == Assigned(old(reply.Fields()), block, json)
  {
    reply.timestamp := ToU64(block.tmstmp);
    var data := block.dt;
    if |data| != 0 {
      var zblock := ShownData(json, data);
      reply.data := zblock;
    }
    reply.height := block.hght;
    reply.id := block.id;
    reply.parentID := block.prntID;
  }

  /** The heights as `uint64`, in the same order: the reply of `ReconcileBlocks`. */
  method ConvertHeights(misMatchedHeights: seq<i64>) returns (heights: seq<u64>)
    ensures |heights| == |misMatchedHeights|
    ensures forall i :: 0 <= i < |heights| ==> heights[i] == ToU64(misMatchedHeights[i])
    ensures forall i :: 0 <= i < |heights| ==> ToI64(heights[i]) == misMatchedHeights[i]
  {
    var a := new u64[|misMatchedHeights|];
    for i := 0 to |misMatchedHeights|
      invariant forall j :: 0 <= j < i ==> a[j] == ToU64(misMatchedHeights[j])
      invariant forall j :: 0 <= j < i ==> ToI64(a[j]) == misMatchedHeights[j]
    {
      a[i] := ToU64(misMatchedHeights[i]);
      I64RoundTrip(misMatchedHeights[i]);
    }
    heights := a[..];
  }

  class Service {
    const vm: VM
    const tracker: RequestTracker

    constructor (vm: VM, tracker: RequestTracker)
      ensures this.vm == vm && this.tracker == tracker
    {
      this.vm := vm;
      this.tracker := tracker;
    }

    /**
     * `GetBlock`: without an ID, the last accepted block is shown, and a
     * failed pointer read is errCannotGetLastAccepted; a failed lookup is
     * errNoSuchBlock and leaves the reply as it was.
     */
    method GetBlock(argID: Option<ID>, reply: GetBlockReply) returns (err: Option<Error>)
      modifies vm.state`cache, vm.state`dbReads, vm.state`lastAccepted, reply
      ensures argID.None? && old(vm.state.LastAcceptedView()).Err? ==>
        err == Some(CannotGetLastAccepted) && reply.Fields() == old(reply.Fields())
      ensures argID.Some? || old(vm.state.LastAcceptedView()).Ok? ==>
        var id := if argID.Some? then argID.value else old(vm.state.LastAcceptedView()).value;
        match Resolve(old(vm.Chain()), id)
        case Err(_) => err == Some(NoSuchBlock) && reply.Fields() == old(reply.Fields())
        case Ok(b) => err == None && reply.Fields() == Assigned(old(reply.Fields()), b, vm.json)
      ensures SameChain(old(vm.Chain()), vm.Chain())
      ensures vm.state.LastAcceptedView() == old(vm.state.LastAcceptedView())
    {
      var id: ID;
      if argID.None? {
        var lastAccepted := vm.state.GetLastAccepted();
        if lastAccepted.Err? {
          return Some(CannotGetLastAccepted);
        }
        id := lastAccepted.value;
      } else {
        id := argID.value;
      }
      var block := vm.GetBlock(id);
      if block.Err? {
        return Some(NoSuchBlock);
      }
      AssignValues(reply, block.value, vm.json);
      err := None;
    }

    /**
     * `GetBlockByHeight`: height 0 is errNoSuchBlock. A block found on the
     * chain is shown. Otherwise (a failed walk counts as "not found") the
     * height is queried from the node through the confirmation gate; a
     * failure is returned; a snapshot (or `null`) is queued as a payload for
     * a new block unless that height is already in flight, marking the
     * height before and completing it after.
     */
    method GetBlockByHeight(argID: u64, reply: GetBlockReply, node: SourceNode, now: int) returns (err: Option<Error>)
      requires HeightsDecrease(vm.Chain())
      modifies vm`mempool, vm.state`cache, vm.state`dbReads, vm.state`lastAccepted
      modifies tracker`processing, tracker`lastResetTime, tracker`channelsMade, reply
      ensures argID == 0 ==>
        && err == Some(NoSuchBlock)
        && reply.Fields() == old(reply.Fields())
        && vm.mempool == old(vm.mempool)
        && unchanged(tracker) && unchanged(vm.state)
      ensures SameChain(old(vm.Chain()), vm.Chain())
      ensures vm.state.LastAcceptedView() == old(vm.state.LastAcceptedView())
      ensures argID != 0 ==>
        var found := HeightLookup(old(vm.Chain()), old(vm.state.LastAcceptedView()), vm.json, argID);
        found.Ok? && found.value.Some? ==>
          && err == None
          && reply.Fields() == Assigned(old(reply.Fields()), found.value.value, vm.json)
          && vm.mempool == old(vm.mempool) && unchanged(tracker)
      ensures argID != 0 ==>
        var found := HeightLookup(old(vm.Chain()), old(vm.state.LastAcceptedView()), vm.json, argID);
        var query := QueryZcashBlock(node, argID, true, vm.confirmHeight);
        !(found.Ok? && found.value.Some?) ==>
          && reply.Fields() == old(reply.Fields())
          && (query.Err? ==> err == Some(query.error) && vm.mempool == old(vm.mempool) && unchanged(tracker))
          && (query.Ok? ==> err == None)
      ensures argID != 0 ==>
        var found := HeightLookup(old(vm.Chain()), old(vm.state.LastAcceptedView()), vm.json, argID);
        var query := QueryZcashBlock(node, argID, true, vm.confirmHeight);
        !(found.Ok? && found.value.Some?) && query.Ok? ==>
          var payload := vm.json.Marshal(query.value);
          && (|payload| == 0 || argID in old(tracker.processing) ==> vm.mempool == old(vm.mempool) && unchanged(tracker))
          && (|payload| != 0 && argID !in old(tracker.processing) ==>
                && vm.mempool == old(vm.mempool) + [payload]
                && tracker.channelsMade == old(tracker.channelsMade) + 1
                && (old(now - tracker.lastResetTime >= ResetPeriod) ==>
                      tracker.processing == map[] && tracker.lastResetTime == now)
                && (old(now - tracker.lastResetTime < ResetPeriod) ==>
                      tracker.processing == old(tracker.processing)[argID := old(tracker.channelsMade)] &&
                      tracker.lastResetTime == old(tracker.lastResetTime)))
    {
      if argID == 0 {
        return Some(NoSuchBlock);
      }
      var id := argID;
      var block := vm.GetBlockByHeight(id);
      if block.Ok? && block.value.Some? {
        AssignValues(reply, block.value.value, vm.json);
        return None;
      }
      var resp := QueryZcashBlock(node, id, true, vm.confirmHeight);
      if resp.Err? {
        return Some(resp.error);
      }
      var byteArray := vm.json.Marshal(resp.value);
      if |byteArray| > 0 {
        var processingCh := tracker.IsProcessing(id);
        if processingCh.None? {
          Backfill(id, byteArray, now);
        }
      }
      err := None;
    }

    /**
     * The backfill goroutine of `GetBlockByHeight`, run to completion: mark
     * the height, queue the payload, complete the height.
     */
    method Backfill(id: u64, byteArray: Bytes, now: int)
      modifies vm`mempool, tracker`processing, tracker`lastResetTime, tracker`channelsMade
      ensures vm.mempool == old(vm.mempool) + [byteArray]
      ensures tracker.channelsMade == old(tracker.channelsMade) + 1
      ensures old(now - tracker.lastResetTime >= ResetPeriod) ==>
        tracker.processing == map[] && tracker.lastResetTime == now
      ensures old(now - tracker.lastResetTime < ResetPeriod) ==>
        tracker.processing == old(tracker.processing)[id := old(tracker.channelsMade)] &&
        tracker.lastResetTime == old(tracker.lastResetTime)
    {
      tracker.MarkProcessing(id);
      var _ := vm.AddZcashBlock(byteArray);
      tracker.CompleteProcessing(id, now);
    }

    /**
     * `ReconcileBlocks`: an error of the walk is returned and leaves the
     * reply as it was; otherwise the reply lists the mismatched heights as
     * `uint64`, in the same order, and stays nil when there are none.
     */
    method ReconcileBlocks(reply: GetReconcileReply, node: SourceNode) returns (err: Option<Error>)
      requires HeightsDecrease(vm.Chain())
      modifies vm.state`cache, vm.state`dbReads, vm.state`lastAccepted, reply
      ensures var expected := Reconcile(old(vm.Chain()), old(vm.state.LastAcceptedView()), vm.json, node, vm.confirmHeight);
        && (expected.Err? ==> err == Some(expected.error) && reply.height == old(reply.height))
        && (expected.Ok? && expected.value.0 == [] ==> err == None && reply.height == old(reply.height))
        && (expected.Ok? && expected.value.0 != [] ==>
              && err == None
              && reply.height.Some?
              && |reply.height.value| == |expected.value.0|
              && forall i :: 0 <= i < |expected.value.0| ==>
                   reply.height.value[i] == ToU64(expected.value.0[i]) &&
                   ToI64(reply.height.value[i]) == expected.value.0[i])
      ensures SameChain(old(vm.Chain()), vm.Chain())
      ensures vm.state.LastAcceptedView() == old(vm.state.LastAcceptedView())
    {
      var misMatchedHeights, _ := vm.ReconcileBlocks(node);
      if misMatchedHeights.Err? {
        return Some(misMatchedHeights.error);
      }
      if misMatchedHeights.value != [] {
        var heights := ConvertHeights(misMatchedHeights.value);
        reply.height := Some(heights);
      }
      err := None;
    }
  }
}
