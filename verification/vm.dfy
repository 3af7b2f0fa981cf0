/**
 * The VM glue that owns state: the FIFO mempool consumed by `BuildBlock`,
 * the verified-blocks-first lookup, block construction, genesis creation,
 * block parsing, the preference and bootstrapping flags, and the two
 * backward walks of the block store (`GetBlockByHeight`, `ReconcileBlocks`),
 * which reach blocks through this lookup.
 */
module Vm {
  import opened Types
  import opened Codec
  import opened Store
  import opened SourceChain
  import opened Chain

  /** Longest genesis data accepted. */
  const DataLen: nat := 32

  /**
   * `NewBlock`: the serialised fields come from the arguments, the status is
   * Processing, and the block is initialised with its own encoding.
   */
  function NewBlock(hash: Bytes -> ID, parentID: ID, height: u64, data: Bytes, timestamp: i64): (r: Result<Block>)
    ensures r.Ok? <==> |data| < TWO_32
    ensures r.Err? ==> r.error == CodecFailure
    ensures r.Ok? ==>
      && BodyOf(r.value) == BlockBody(parentID, height, timestamp, data)
      && r.value.status == Processing
      && Initialized(r.value, hash)
  {
    var body := BlockBody(parentID, height, timestamp, data);
    match EncodeBody(body)
    case Err(e) => Err(e)
    case Ok(bytes) => Ok(Initialize(body, bytes, Processing, hash))
  }

  /** Parsing the bytes of a block built by `NewBlock` rebuilds exactly that block. */
  lemma NewBlockParses(hash: Bytes -> ID, parentID: ID, height: u64, data: Bytes, timestamp: i64)
    requires NewBlock(hash, parentID, height, data, timestamp).Ok?
    ensures var b := NewBlock(hash, parentID, height, data, timestamp).value;
            DecodeBody(b.bytes) == Ok(BodyOf(b)) &&
            Initialize(DecodeBody(b.bytes).value, b.bytes, Processing, hash) == b
  {
    BodyRoundTrip(BlockBody(parentID, height, timestamp, data));
  }

  /** The genesis block: no parent, height 0, timestamp 0 (Unix epoch). */
  function Genesis(hash: Bytes -> ID, data: Bytes): (g: Block)
    requires |data| <= DataLen
    ensures g.prntID == EmptyID && g.hght == 0 && g.tmstmp == 0 && g.dt == data
    ensures g.status == Processing && Initialized(g, hash)
  {
    NewBlock(hash, EmptyID, 0, data, 0).value
  }

  /**
   * What `BuildBlock` produces from a non-empty mempool whose front is
   * `value`: a child of the preferred block, one higher (uint64 addition).
   */
  function Built(c: ChainView, hash: Bytes -> ID, preferred: ID, value: Bytes, now: i64): (r: Result<Block>)
    ensures Resolve(c, preferred).Err? ==> r == Err(PreferredUnavailable(Resolve(c, preferred).error))
    ensures r.Ok? ==>
      && Resolve(c, preferred).Ok?
      && r.value.prntID == preferred
      && r.value.hght == ToU64(Resolve(c, preferred).value.hght + 1)
      && r.value.dt == value
      && r.value.tmstmp == now
      && r.value.status == Processing
      && Initialized(r.value, hash)
    ensures Resolve(c, preferred).Ok? && |value| < TWO_32 ==> r.Ok?
  {
    match Resolve(c, preferred)
    case Err(e) => Err(PreferredUnavailable(e))
    case Ok(p) =>
      match NewBlock(hash, preferred, ToU64(p.hght + 1), value, now)
      case Err(e) => Err(BuildFailed(e))
      case Ok(b) => Ok(b)
  }

  /** A change of cache that answers every read alike leaves the chain as the walks see it. */
  lemma SameLookupsSameChain(verified: map<ID, Block>, v: StoreView, w: StoreView)
    requires SameLookups(v, w)
    ensures SameChain(Over(verified, v), Over(verified, w))
  {
    forall id: ID ensures Resolve(Over(verified, v), id) == Resolve(Over(verified, w), id) {
      assert Lookup(v, id) == Lookup(w, id);
    }
  }

  lemma SameChainKeepsHeightsDecrease(c: ChainView, d: ChainView)
    requires SameChain(c, d) && HeightsDecrease(c)
    ensures HeightsDecrease(d)
  {
    forall id: ID | Resolve(d, id).Ok? && Resolve(d, id).value.hght > 0
      ensures Rank(d, Resolve(d, id).value.prntID) <= Resolve(d, id).value.hght
    {
      assert Resolve(c, id) == Resolve(d, id);
      assert Resolve(c, Resolve(d, id).value.prntID) == Resolve(d, Resolve(d, id).value.prntID);
    }
  }

  class VM {
    const state: BlockState
    /** The JSON boundary for the source-chain snapshots carried as block data. */
    const json: Json
    /** `BlockConfirmHeight` of the configuration. */
    const confirmHeight: i64
    var preferred: ID
    /** Pending payloads, oldest first. */
    var mempool: seq<Bytes>
    /** Blocks that passed verification but are not yet decided. */
    var verifiedBlocks: map<ID, Block>
    var bootstrapped: bool

    /** What `getBlock` answers in the current state. */
    function Chain(): ChainView
      reads this, state
    {
      Over(verifiedBlocks, state.View())
    }

    constructor (state: BlockState, json: Json, confirmHeight: i64)
      ensures this.state == state && this.json == json && this.confirmHeight == confirmHeight
      ensures preferred == EmptyID && mempool == [] && verifiedBlocks == map[] && !bootstrapped
    {
      this.state := state;
      this.json := json;
      this.confirmHeight := confirmHeight;
      preferred := EmptyID;
      mempool := [];
      verifiedBlocks := map[];
      bootstrapped := false;
    }

    /**
     * `getBlock`: a verified block answers without touching the store;
     * otherwise the store's `GetBlock` answers. No later answer changes.
     */
    method GetBlock(id: ID) returns (r: Result<Block>)
      modifies state`cache, state`dbReads
      ensures r == Resolve(old(Chain()), id)
      ensures id in verifiedBlocks ==> state.cache == old(state.cache) && state.dbReads == old(state.dbReads)
      ensures id !in verifiedBlocks ==> r == Lookup(old(state.View()), id)
      ensures SameChain(old(Chain()), Chain())
      ensures old(Coherent(state.View())) ==> Coherent(state.View())
    {
      if id in verifiedBlocks {
        return Ok(verifiedBlocks[id]);
      }
      r := state.GetBlock(id);
      SameLookupsSameChain(verifiedBlocks, old(state.View()), state.View());
    }

    /**
     * `BuildBlock`: an empty mempool fails and changes nothing; otherwise the
     * front payload is removed and becomes the data of a child of the
     * preferred block.
     */
    method BuildBlock(now: i64) returns (r: Result<Block>)
      modifies this`mempool, state`cache, state`dbReads
      ensures old(mempool) == [] ==>
        r == Err(NoPendingBlocks) && mempool == old(mempool) &&
        state.cache == old(state.cache) && state.dbReads == old(state.dbReads)
      ensures old(mempool) != [] ==>
        mempool == old(mempool)[1..] && r == Built(old(Chain()), state.hash, preferred, old(mempool)[0], now)
      ensures SameChain(old(Chain()), Chain())
      ensures old(Coherent(state.View())) ==> Coherent(state.View())
    {
      if |mempool| == 0 {
        return Err(NoPendingBlocks);
      }
      var value := mempool[0];
      mempool := mempool[1..];
      var preferredBlock := GetBlock(preferred);
      if preferredBlock.Err? {
        return Err(PreferredUnavailable(preferredBlock.error));
      }
      var preferredHeight := preferredBlock.value.hght;
      var newBlock := NewBlock(state.hash, preferred, ToU64(preferredHeight as int + 1), value, now);
      if newBlock.Err? {
        return Err(BuildFailed(newBlock.error));
      }
      r := Ok(newBlock.value);
    }

    /** `addZcashBlock`: the payload joins the back of the mempool. */
    method AddZcashBlock(block: Bytes) returns (ok: bool)
      modifies this`mempool
      ensures mempool == old(mempool) + [block]
      ensures ok
    {
      mempool := mempool + [block];
      ok := true;
    }

    /**
     * `initGenesis`: nothing to do once the state is initialised; genesis
     * data longer than `DataLen` is refused; otherwise the genesis block is
     * stored, made the last accepted block and the state marked initialised.
     */
    method InitGenesis(genesisData: Bytes) returns (err: Option<Error>)
      modifies state`cache, state`db, state`lastAccepted, state`initialized
      ensures old(state.initialized) ==>
        err == None && state.cache == old(state.cache) && state.db == old(state.db) &&
        state.lastAccepted == old(state.lastAccepted) && state.initialized
      ensures !old(state.initialized) && |genesisData| > DataLen ==>
        err == Some(BadGenesisBytes) && state.cache == old(state.cache) && state.db == old(state.db) &&
        state.lastAccepted == old(state.lastAccepted) && !state.initialized
      ensures !old(state.initialized) && |genesisData| <= DataLen ==>
        var g := Genesis(state.hash, genesisData);
        && Lookup(state.View(), g.id) == Ok(g)
        && (g.id in state.faults ==> err == Some(DbFailure) && state.lastAccepted == old(state.lastAccepted))
        && (g.id !in state.faults ==> state.lastAccepted == g.id)
        && (err == None <==> g.id !in state.faults && (old(state.lastAccepted) == g.id || LastAcceptedKey !in state.faults))
        && (err == None ==> state.initialized && (g.id != EmptyID ==> state.LastAcceptedView() == Ok(g.id)))
    {
      if state.initialized {
        return None;
      }
      if |genesisData| > DataLen {
        return Some(BadGenesisBytes);
      }
      var genesisBlock := Genesis(state.hash, genesisData);
      err := state.PutBlock(genesisBlock);
      if err.Some? {
        return;
      }
      err := state.SetLastAccepted(genesisBlock.id);
      if err.Some? {
        return;
      }
      state.SetInitialized();
    }

    /**
     * `ParseBlock`: bytes that do not decode are refused; otherwise a block
     * already known under the hash of the bytes is returned, and a new
     * Processing block initialised from the bytes if none is.
     */
    method ParseBlock(bytes: Bytes) returns (r: Result<Block>)
      modifies state`cache, state`dbReads
      ensures DecodeBody(bytes).Err? ==>
        r == Err(DecodeBody(bytes).error) && state.cache == old(state.cache) && state.dbReads == old(state.dbReads)
      ensures DecodeBody(bytes).Ok? ==>
        r == match Resolve(old(Chain()), state.hash(bytes))
             case Ok(known) => Ok(known)
             case Err(_) => Ok(Initialize(DecodeBody(bytes).value, bytes, Processing, state.hash))
      ensures SameChain(old(Chain()), Chain())
      ensures old(Coherent(state.View())) ==> Coherent(state.View())
    {
      var body := DecodeBody(bytes);
      if body.Err? {
        return Err(body.error);
      }
      var block := Initialize(body.value, bytes, Processing, state.hash);
      var known := GetBlock(block.id);
      if known.Ok? {
        return known;
      }
      r := Ok(block);
    }

    method SetPreference(id: ID)
      modifies this`preferred
      ensures preferred == id
    {
      preferred := id;
    }

    method OnBootstrapStarted()
      modifies this`bootstrapped
      ensures !bootstrapped
    {
      bootstrapped := false;
    }

    /** `onNormalOperationsStarted`: sets the flag once; a repeated call changes nothing. */
    method OnNormalOperationsStarted()
      modifies this`bootstrapped
      ensures bootstrapped
      ensures old(bootstrapped) ==> bootstrapped == old(bootstrapped)
    {
      if bootstrapped {
        return;
      }
      bootstrapped := true;
    }

    /**
     * `GetBlockByHeight` of the block store: from the last accepted block,
     * follow parents, keeping the height of the latest payload that decoded,
     * until that height is the target (that block is the answer) or a block
     * of height 0 has been visited (no answer). A target of 0 answers "none"
     * at once; a failed lookup aborts.
     */
    method GetBlockByHeight(hgt: u64) returns (r: Result<Option<Block>>)
      requires HeightsDecrease(Chain())
      modifies state`cache, state`dbReads, state`lastAccepted
      ensures r == HeightLookup(old(Chain()), old(state.LastAcceptedView()), json, hgt)
      ensures SameChain(old(Chain()), Chain())
      ensures state.LastAcceptedView() == old(state.LastAcceptedView())
      ensures old(Coherent(state.View())) ==> Coherent(state.View())
    {
      ghost var c0 := Chain();
      ghost var v0 := state.View();
      ghost var la0 := state.LastAcceptedView();
      var expectedHeight := ToI64(hgt);
      var result: i64 := 0;
      var lastAccepted := state.GetLastAccepted();
      var zblock := ZeroSnapshot;
      if lastAccepted.Err? {
        return Err(lastAccepted.error);
      }
      var id := lastAccepted.value;
      while expectedHeight != result
        invariant Chain().verified == c0.verified
        invariant SameChain(c0, Chain())
        invariant state.LastAcceptedView() == la0
        invariant Coherent(v0) ==> Coherent(state.View())
        invariant result == zblock.height
        invariant expectedHeight == result ==> expectedHeight == 0
        invariant expectedHeight != result ==>
          HeightLookup(c0, la0, json, hgt) == HeightWalk(c0, json, id, expectedHeight, zblock)
        decreases Rank(c0, id)
      {
        var block := GetBlock(id);
        if block.Err? {
          return Err(block.error);
        }
        var b := block.value;
        var data := b.dt;
        if |data| != 0 {
          var decoded := json.Unmarshal(data);
          if decoded.Some? {
            zblock := decoded.value;
          }
          result := zblock.height;
        }
        id := b.prntID;
        if expectedHeight == result {
          return Ok(Some(b));
        }
        if b.hght == 0 {
          break;
        }
      }
      r := Ok(None);
    }

    /**
     * One block of `ReconcileBlocks`: a non-empty payload must decode and
     * carry a hash and a non-zero height; it is recorded as seen (or counted
     * as a duplicate) and, above the confirmation height, compared with the
     * node's current block at that height.
     */
    method ReconcileStep(node: SourceNode, ghost visit: Visitor, b: Block, checkDuplicate: set<Bytes>, dup: nat)
      returns (res: Result<Option<i64>>, checkDuplicate': set<Bytes>, dup': nat)
      requires visit == Visiting(json, node, confirmHeight)
      ensures res == visit(b)
      ensures res.Ok? ==> checkDuplicate' == (if |b.dt| == 0 then checkDuplicate else checkDuplicate + {b.dt})
      ensures res.Ok? ==> dup' == (if |b.dt| != 0 && b.dt in checkDuplicate then dup + 1 else dup)
    {
      checkDuplicate', dup' := checkDuplicate, dup;
      var data := b.dt;
      if |data| == 0 {
        return Ok(None), checkDuplicate', dup';
      }
      var decoded := json.Unmarshal(data);
      if decoded.None? {
        return Err(PayloadUnreadable), checkDuplicate', dup';
      }
      var zcashBlock := decoded.value;
      if zcashBlock.hash == "" || zcashBlock.height == 0 {
        return Err(MissingValidData), checkDuplicate', dup';
      }
      var heightU64 := ToU64(zcashBlock.height);
      if data in checkDuplicate' {
        dup' := dup' + 1;
      } else {
        checkDuplicate' := checkDuplicate' + {data};
      }
      res := Ok(None);
      if heightU64 > ToU64(confirmHeight) {
        var latest := QueryZcashBlock(node, heightU64, false, confirmHeight);
        if latest.Err? {
          return Err(latest.error), checkDuplicate', dup';
        }
        if latest.value.Some? && zcashBlock.hash != latest.value.value.hash {
          res := Ok(Some(zcashBlock.height));
        }
      }
    }

    /**
     * One pass of the loop of `ReconcileBlocks`, at block `id`, after `found`
     * was reported: the lookup, then the step. The walk stops on an error or
     * (`Ok(true)`) after a block of height 0, and otherwise moves to the parent.
     */
    method ReconcilePass(node: SourceNode, ghost c0: ChainView, ghost visit: Visitor,
                         id: ID, checkDuplicate: set<Bytes>, dup: nat, found: seq<i64>)
      returns (r: Result<bool>, parent: ID, checkDuplicate': set<Bytes>, dup': nat, found': seq<i64>)
      requires HeightsDecrease(c0) && SameChain(c0, Chain())
      requires visit == Visiting(json, node, confirmHeight)
      modifies state`cache, state`dbReads
      ensures SameChain(c0, Chain())
      ensures r.Err? ==> After(found, ReconcileWalk(c0, visit, id, checkDuplicate, dup)) == Err(r.error)
      ensures r == Ok(true) ==> After(found, ReconcileWalk(c0, visit, id, checkDuplicate, dup)) == Ok((found', dup'))
      ensures r == Ok(false) ==>
        && Rank(c0, parent) < Rank(c0, id)
        && After(found, ReconcileWalk(c0, visit, id, checkDuplicate, dup))
             == After(found', ReconcileWalk(c0, visit, parent, checkDuplicate', dup'))
    {
      ReconcileWalkStep(c0, visit, id, checkDuplicate, dup, found);
      parent, checkDuplicate', dup', found' := id, checkDuplicate, dup, found;
      var block := GetBlock(id);
      SameChainTransitive(c0, old(Chain()), Chain());
      if block.Err? {
        return Err(block.error), parent, checkDuplicate', dup', found';
      }
      var b := block.value;
      var step;
      step, checkDuplicate', dup' := ReconcileStep(node, visit, b, checkDuplicate, dup);
      if step.Err? {
        return Err(step.error), parent, checkDuplicate', dup', found';
      }
      if step.value.Some? {
        found' := found + [step.value.value];
      }
      assert found' == found + OptionToSeq(step.value);
      parent := b.prntID;
      r := Ok(b.hght == 0);
    }

    /**
     * `ReconcileBlocks` of the block store: the backward walk from the last
     * accepted block, which aborts on any error of a step or a lookup, stops
     * after a block of height 0, and lists the mismatched heights in visit
     * order. `dup` is the duplicate count, which the source only logs.
     */
    method ReconcileBlocks(node: SourceNode) returns (r: Result<seq<i64>>, dup: nat)
      requires HeightsDecrease(Chain())
      modifies state`cache, state`dbReads, state`lastAccepted
      ensures var expected := Reconcile(old(Chain()), old(state.LastAcceptedView()), json, node, confirmHeight);
        && (expected.Err? ==> r == Err(expected.error))
        && (expected.Ok? ==> r == Ok(expected.value.0) && dup == expected.value.1)
      ensures SameChain(old(Chain()), Chain())
      ensures state.LastAcceptedView() == old(state.LastAcceptedView())
    {
      ghost var c0 := Chain();
      ghost var la0 := state.LastAcceptedView();
      ghost var visit := Visiting(json, node, confirmHeight);
      ghost var expected := Reconcile(c0, la0, json, node, confirmHeight);
      var misMatchedHeights: seq<i64> := [];
      dup := 0;
      var lastAccepted := state.GetLastAccepted();
      if lastAccepted.Err? {
        return Err(lastAccepted.error), dup;
      }
      var id := lastAccepted.value;
      var checkDuplicate: set<Bytes> := {};
      match ReconcileWalk(c0, visit, id, checkDuplicate, dup) {
        case Err(_) =>
        case Ok(p) => assert misMatchedHeights + p.0 == p.0;
      }
      while true
        invariant SameChain(c0, Chain())
        invariant state.LastAcceptedView() == la0
        invariant expected == After(misMatchedHeights, ReconcileWalk(c0, visit, id, checkDuplicate, dup))
        decreases Rank(c0, id)
      {
        var done;
        done, id, checkDuplicate, dup, misMatchedHeights :=
          ReconcilePass(node, c0, visit, id, checkDuplicate, dup, misMatchedHeights);
        if done.Err? {
          return Err(done.error), dup;
        }
        if done.value {
          break;
        }
      }
      r := Ok(misMatchedHeights);
    }
  }

  /** The mempool is first in, first out: two additions, then a build consumes the older one. */
  method MempoolIsFifo(vm: VM, x: Bytes, y: Bytes, now: i64) returns (r: Result<Block>)
    requires vm.mempool == []
    modifies vm`mempool, vm.state`cache, vm.state`dbReads
    ensures vm.mempool == [y]
    ensures r.Ok? ==> r.value.dt == x && r.value.prntID == vm.preferred
  {
    var _ := vm.AddZcashBlock(x);
    var _ := vm.AddZcashBlock(y);
    r := vm.BuildBlock(now);
  }
}
