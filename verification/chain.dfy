/**
 * The mirrored chain as the backward walks see it, and what each walk
 * computes. A `ChainView` is everything `VM.getBlock` reads: the verified
 * blocks first, then the store. The walks follow `PrntID` from a start block
 * and stop after a block of height 0; they terminate because heights
 * decrease along parent links (`HeightsDecrease`).
 *
 * Each walk is given twice: as the step-by-step function the loops are
 * proved against (`HeightWalk`, `ReconcileWalk`, `ZcashWalk`), and as a
 * reference over the list of blocks from the start to genesis (`ChainFrom`),
 * with lemmas that the two agree.
 */
module Chain {
  import opened Types
  import opened Codec
  import opened Store
  import opened SourceChain

  /** The verified blocks, and the store's answer to a read of each ID. */
  datatype ChainView = ChainView(verified: map<ID, Block>, stored: ID -> Result<Block>)

  /** The chain over the verified blocks and the store in state `v`. */
  function Over(verified: map<ID, Block>, v: StoreView): (c: ChainView)
    ensures c.verified == verified
    ensures forall id: ID :: c.stored(id) == Lookup(v, id)
  {
    ChainView(verified, (id: ID) => Lookup(v, id))
  }

  /** `VM.getBlock`: a verified block if there is one, otherwise the store's answer. */
  function Resolve(c: ChainView, id: ID): (r: Result<Block>)
    ensures id in c.verified ==> r == Ok(c.verified[id])
    ensures id !in c.verified ==> r == c.stored(id)
  {
    if id in c.verified then Ok(c.verified[id]) else c.stored(id)
  }

  ghost predicate SameChain(c: ChainView, d: ChainView) {
    forall id: ID :: Resolve(c, id) == Resolve(d, id)
  }

  /** One more than the height of the block `id` resolves to; 0 when it does not resolve. */
  function Rank(c: ChainView, id: ID): nat {
    match Resolve(c, id)
    case Ok(b) => b.hght + 1
    case Err(_) => 0
  }

  /** Every resolvable block above genesis has a parent that is missing or lower. */
  ghost predicate HeightsDecrease(c: ChainView) {
    forall id: ID ::
      Resolve(c, id).Ok? && Resolve(c, id).value.hght > 0 ==>
        Rank(c, Resolve(c, id).value.prntID) <= Resolve(c, id).value.hght
  }

  lemma SameChainTransitive(c: ChainView, d: ChainView, e: ChainView)
    requires SameChain(c, d) && SameChain(d, e)
    ensures SameChain(c, e)
  {
  }

  /** The blocks from `id` to a genesis block, each the parent of the one before. */
  ghost predicate LinkedToGenesis(c: ChainView, bs: seq<Block>) {
    && |bs| > 0
    && bs[|bs| - 1].hght == 0
    && forall i :: 0 <= i < |bs| - 1 ==> bs[i].hght > 0 && Resolve(c, bs[i].prntID) == Ok(bs[i + 1])
  }

  /**
   * The path a backward walk takes from `id`: it fails with the first
   * lookup error, and otherwise has at most `height + 1` blocks.
   */
  function ChainFrom(c: ChainView, id: ID): (r: Result<seq<Block>>)
    requires HeightsDecrease(c)
    ensures r.Ok? ==> |r.value| > 0 && Resolve(c, id).Ok? && r.value[0] == Resolve(c, id).value
    ensures r.Ok? ==> LinkedToGenesis(c, r.value)
    ensures r.Ok? ==> |r.value| <= r.value[0].hght + 1
    ensures Resolve(c, id).Err? ==> r == Err(Resolve(c, id).error)
    decreases Rank(c, id)
  {
    match Resolve(c, id)
    case Err(e) => Err(e)
    case Ok(b) =>
      if b.hght == 0 then Ok([b])
      else
        match ChainFrom(c, b.prntID)
        case Err(e) => Err(e)
        case Ok(rest) =>
          assert rest[0].hght + 1 <= b.hght;
          Ok([b] + rest)
  }

  /** The walks depend only on what blocks resolve to. */
  lemma {:induction false} ChainFromDependsOnAnswers(c: ChainView, d: ChainView, id: ID)
    requires HeightsDecrease(c) && HeightsDecrease(d) && SameChain(c, d)
    ensures ChainFrom(c, id) == ChainFrom(d, id)
    decreases Rank(c, id)
  {
    assert Resolve(c, id) == Resolve(d, id);
    if Resolve(c, id).Ok? && Resolve(c, id).value.hght > 0 {
      ChainFromDependsOnAnswers(c, d, Resolve(c, id).value.prntID);
    }
  }

  /**
   * The blocks a backward walk from `id` can reach: up to a block of height
   * 0, or up to the last block before a lookup that fails.
   */
  function PathFrom(c: ChainView, id: ID): (bs: seq<Block>)
    requires HeightsDecrease(c)
    ensures bs == [] <==> Resolve(c, id).Err?
    ensures bs != [] ==> bs[0] == Resolve(c, id).value
    ensures forall i :: 0 <= i < |bs| - 1 ==> bs[i].hght > 0 && Resolve(c, bs[i].prntID) == Ok(bs[i + 1])
    ensures bs != [] && bs[|bs| - 1].hght > 0 ==> Resolve(c, bs[|bs| - 1].prntID).Err?
    decreases Rank(c, id)
  {
    match Resolve(c, id)
    case Err(_) => []
    case Ok(b) =>
      if b.hght == 0 then [b]
      else
        var rest := PathFrom(c, b.prntID);
        assert forall i :: 1 <= i < |rest| + 1 ==> ([b] + rest)[i] == rest[i - 1];
        [b] + rest
  }

  /** An intact chain is the whole reachable path; a broken one is a path that stops short of genesis. */
  lemma {:induction false} ChainFromIsPath(c: ChainView, id: ID)
    requires HeightsDecrease(c)
    ensures ChainFrom(c, id).Ok? ==> ChainFrom(c, id).value == PathFrom(c, id)
    ensures ChainFrom(c, id).Err? <==> PathFrom(c, id) == [] || PathFrom(c, id)[|PathFrom(c, id)| - 1].hght > 0
    decreases Rank(c, id)
  {
    if Resolve(c, id).Ok? && Resolve(c, id).value.hght > 0 {
      var b := Resolve(c, id).value;
      ChainFromIsPath(c, b.prntID);
      var rest := PathFrom(c, b.prntID);
      assert PathFrom(c, id) == [b] + rest;
      if rest != [] {
        assert PathFrom(c, id)[|PathFrom(c, id)| - 1] == rest[|rest| - 1];
      }
    }
  }

  // ---------------------------------------------------------------------
  // Height lookup (zavax): GetBlockByHeight

  /**
   * The snapshot the walk holds after visiting a block: the block's payload
   * when it decodes, the previous one otherwise (the Go loop decodes into
   * one struct that it reuses, and ignores the decoding error).
   */
  function Absorb(json: Json, data: Bytes, z: Snapshot): Snapshot {
    match json.Unmarshal(data)
    case Some(s) => s
    case None => z
  }

  /** The loop of `GetBlockByHeight` from block `id`, holding snapshot `z`. */
  function HeightWalk(c: ChainView, json: Json, id: ID, target: i64, z: Snapshot): (r: Result<Option<Block>>)
    requires HeightsDecrease(c)
    ensures r.Err? ==> ChainFrom(c, id) == Err(r.error)
    decreases Rank(c, id)
  {
    match Resolve(c, id)
    case Err(e) => Err(e)
    case Ok(b) =>
      var z' := Absorb(json, b.dt, z);
      if z'.height == target then Ok(Some(b))
      else if b.hght == 0 then Ok(None)
      else HeightWalk(c, json, b.prntID, target, z')
  }

  /** `GetBlockByHeight(hgt)` given what `GetLastAccepted` answers. */
  function HeightLookup(c: ChainView, lastAccepted: Result<ID>, json: Json, target: u64): (r: Result<Option<Block>>)
    requires HeightsDecrease(c)
    ensures lastAccepted.Err? ==> r == Err(lastAccepted.error)
    ensures lastAccepted.Ok? && r.Err? ==> ChainFrom(c, lastAccepted.value) == Err(r.error)
  {
    match lastAccepted
    case Err(e) => Err(e)
    case Ok(id) =>
      if ToI64(target) == 0 then Ok(None)
      else HeightWalk(c, json, id, ToI64(target), ZeroSnapshot)
  }

  /** The block's own payload decodes to a snapshot of height `target`. */
  predicate Matches(json: Json, b: Block, target: i64) {
    json.Unmarshal(b.dt).Some? && json.Unmarshal(b.dt).value.height == target
  }

  /** Where the first block of `bs` whose payload has height `target` sits; `|bs|` when none does. */
  function FirstMatchAt(json: Json, bs: seq<Block>, target: i64): (r: nat)
    ensures r <= |bs|
    ensures forall j :: 0 <= j < r ==> !Matches(json, bs[j], target)
    ensures r < |bs| ==> Matches(json, bs[r], target)
  {
    if bs == [] then 0
    else if Matches(json, bs[0], target) then 0
    else 1 + FirstMatchAt(json, bs[1..], target)
  }

  /** The newest block of `bs` whose payload has height `target`. */
  function FirstMatch(json: Json, bs: seq<Block>, target: i64): Option<Block> {
    var i := FirstMatchAt(json, bs, target);
    if i < |bs| then Some(bs[i]) else None
  }

  /** The first match of a non-empty list is its head when that matches, otherwise the first match of the rest. */
  lemma FirstMatchStep(json: Json, bs: seq<Block>, target: i64)
    requires |bs| > 0
    ensures FirstMatch(json, bs, target) ==
      if Matches(json, bs[0], target) then Some(bs[0]) else FirstMatch(json, bs[1..], target)
  {
    if !Matches(json, bs[0], target) {
      var i := FirstMatchAt(json, bs[1..], target);
      assert FirstMatchAt(json, bs, target) == 1 + i;
      if i < |bs[1..]| {
        assert bs[1..][i] == bs[i + 1];
      }
    }
  }

  /**
   * A walk that has not yet matched returns the first match on the blocks it
   * can reach; with none, the lookup error that cut the path short, or
   * "none" after genesis.
   */
  lemma {:induction false} HeightWalkIsFirstMatch(c: ChainView, json: Json, id: ID, target: i64, z: Snapshot)
    requires HeightsDecrease(c)
    requires z.height != target
    ensures HeightWalk(c, json, id, target, z) ==
      match FirstMatch(json, PathFrom(c, id), target)
      case Some(b) => Ok(Some(b))
      case None => if ChainFrom(c, id).Err? then Err(ChainFrom(c, id).error) else Ok(None)
    decreases Rank(c, id)
  {
    if Resolve(c, id).Ok? {
      var b := Resolve(c, id).value;
      var bs := PathFrom(c, id);
      var z' := Absorb(json, b.dt, z);
      assert Matches(json, b, target) <==> z'.height == target;
      FirstMatchStep(json, bs, target);
      if z'.height != target {
        if b.hght > 0 {
          HeightWalkIsFirstMatch(c, json, b.prntID, target, z');
          assert bs[1..] == PathFrom(c, b.prntID);
        } else {
          assert bs[1..] == [];
        }
      }
    }
  }

  /** Whatever lies further down the chain, a block the walk returns has the target height. */
  lemma {:induction false} HeightWalkFindsOnlyMatches(c: ChainView, json: Json, id: ID, target: i64, z: Snapshot)
    requires HeightsDecrease(c)
    requires z.height != target
    ensures HeightWalk(c, json, id, target, z).Ok? && HeightWalk(c, json, id, target, z).value.Some? ==>
      Matches(json, HeightWalk(c, json, id, target, z).value.value, target)
    decreases Rank(c, id)
  {
    if Resolve(c, id).Ok? {
      var b := Resolve(c, id).value;
      var z' := Absorb(json, b.dt, z);
      if z'.height != target && b.hght > 0 {
        HeightWalkFindsOnlyMatches(c, json, b.prntID, target, z');
      }
    }
  }

  /**
   * `GetBlockByHeight`: a failed pointer read is returned; target 0 answers
   * "none" without a walk; a found block's payload has the target height; on
   * an intact chain the answer is the newest block with that payload height,
   * or "none" when no block on the chain has it; on a broken chain, a lookup
   * error met before any match is returned.
   */
  lemma HeightLookupMeaning(c: ChainView, lastAccepted: Result<ID>, json: Json, target: u64)
    requires HeightsDecrease(c)
    ensures lastAccepted.Err? ==> HeightLookup(c, lastAccepted, json, target) == Err(lastAccepted.error)
    ensures lastAccepted.Ok? && target == 0 ==> HeightLookup(c, lastAccepted, json, target) == Ok(None)
    ensures HeightLookup(c, lastAccepted, json, target).Ok? && HeightLookup(c, lastAccepted, json, target).value.Some? ==>
      Matches(json, HeightLookup(c, lastAccepted, json, target).value.value, ToI64(target))
    ensures lastAccepted.Ok? && target != 0 && ChainFrom(c, lastAccepted.value).Ok? ==>
      HeightLookup(c, lastAccepted, json, target)
        == Ok(FirstMatch(json, ChainFrom(c, lastAccepted.value).value, ToI64(target)))
    ensures lastAccepted.Ok? && target != 0 && ChainFrom(c, lastAccepted.value).Err? ==>
      HeightLookup(c, lastAccepted, json, target) ==
        match FirstMatch(json, PathFrom(c, lastAccepted.value), ToI64(target))
        case Some(b) => Ok(Some(b))
        case None => Err(ChainFrom(c, lastAccepted.value).error)
    ensures lastAccepted.Ok? && target != 0 && ChainFrom(c, lastAccepted.value).Err? ==>
      HeightLookup(c, lastAccepted, json, target) != Ok(None)
  {
    if lastAccepted.Ok? && ToI64(target) != 0 {
      HeightWalkFindsOnlyMatches(c, json, lastAccepted.value, ToI64(target), ZeroSnapshot);
      HeightWalkIsFirstMatch(c, json, lastAccepted.value, ToI64(target), ZeroSnapshot);
      ChainFromIsPath(c, lastAccepted.value);
    }
  }

  // ---------------------------------------------------------------------
  // Reconciliation: ReconcileBlocks

  function OptionToSeq(o: Option<i64>): (r: seq<i64>)
    ensures |r| <= 1
  {
    match o
    case None => []
    case Some(h) => [h]
  }

  /**
   * One non-empty payload: it must decode and carry a hash and a non-zero
   * height; above the confirmation height the node's current block at that
   * height is fetched (without the gate) and a differing hash is a mismatch.
   */
  function Examine(json: Json, node: SourceNode, confirmHeight: i64, data: Bytes): (r: Result<Option<i64>>)
    ensures r.Ok? && r.value.Some? ==>
      && json.Unmarshal(data).Some?
      && json.Unmarshal(data).value.height == r.value.value
      && r.value.value != 0
      && ToU64(r.value.value) > ToU64(confirmHeight)
      && var fetched := QueryZcashBlock(node, ToU64(r.value.value), false, confirmHeight);
         fetched.Ok? && fetched.value.Some? && fetched.value.value.hash != json.Unmarshal(data).value.hash
    ensures json.Unmarshal(data).None? ==> r == Err(PayloadUnreadable)
    ensures json.Unmarshal(data).Some? &&
            (json.Unmarshal(data).value.hash == "" || json.Unmarshal(data).value.height == 0) ==>
            r == Err(MissingValidData)
    ensures json.Unmarshal(data).Some? ==>
      var z := json.Unmarshal(data).value;
      z.hash != "" && z.height != 0 ==>
        && (ToU64(z.height) <= ToU64(confirmHeight) ==> r == Ok(None))
        && (ToU64(z.height) > ToU64(confirmHeight) ==>
              var q := QueryZcashBlock(node, ToU64(z.height), false, confirmHeight);
              && (q.Err? ==> r == Err(q.error))
              && (q.Ok? ==> r.Ok? && (r.value.Some? <==> q.value.Some? && q.value.value.hash != z.hash)))
  {
    match json.Unmarshal(data)
    case None => Err(PayloadUnreadable)
    case Some(z) =>
      if z.hash == "" || z.height == 0 then Err(MissingValidData)
      else if ToU64(z.height) > ToU64(confirmHeight) then
        match QueryZcashBlock(node, ToU64(z.height), false, confirmHeight)
        case Err(e) => Err(e)
        case Ok(latest) => Ok(if latest.Some? && z.hash != latest.value.hash then Some(z.height) else None)
      else Ok(None)
  }

  /**
   * Block `b` carries a valid payload of height `h`, above the confirmation
   * height, and the node's current block at `h` has a different hash.
   */
  predicate Mismatched(json: Json, node: SourceNode, confirmHeight: i64, b: Block, h: i64) {
    && |b.dt| > 0
    && json.Unmarshal(b.dt).Some?
    && var z := json.Unmarshal(b.dt).value;
       && z.hash != "" && z.height == h && h != 0
       && ToU64(h) > ToU64(confirmHeight)
       && var q := QueryZcashBlock(node, ToU64(h), false, confirmHeight);
          q.Ok? && q.value.Some? && q.value.value.hash != z.hash
  }

  /** A block with an empty payload is skipped; any other is examined. A block is reported exactly when it is mismatched. */
  function Visit(json: Json, node: SourceNode, confirmHeight: i64, b: Block): (r: Result<Option<i64>>)
    ensures |b.dt| == 0 ==> r == Ok(None)
    ensures r.Ok? && r.value.Some? ==> Mismatched(json, node, confirmHeight, b, r.value.value)
    ensures forall h: i64 :: Mismatched(json, node, confirmHeight, b, h) ==> r == Ok(Some(h))
  {
    if |b.dt| == 0 then Ok(None) else Examine(json, node, confirmHeight, b.dt)
  }

  /** The per-block step of a reconciliation walk, as a value. */
  type Visitor = Block -> Result<Option<i64>>

  /** The step `ReconcileBlocks` takes at each block. */
  function Visiting(json: Json, node: SourceNode, confirmHeight: i64): (v: Visitor)
    ensures forall b :: v(b) == Visit(json, node, confirmHeight, b)
  {
    b => Visit(json, node, confirmHeight, b)
  }

  /**
   * The loop of `ReconcileBlocks` from block `id`, with the payloads seen so
   * far and the duplicate count so far: the mismatches of this part of the
   * walk, in visit order, and the final duplicate count.
   */
  function ReconcileWalk(c: ChainView, visit: Visitor, id: ID, seen: set<Bytes>, dup: nat): (r: Result<(seq<i64>, nat)>)
    requires HeightsDecrease(c)
    ensures r.Ok? ==> r.value.1 >= dup && |r.value.0| <= Rank(c, id)
    decreases Rank(c, id)
  {
    match Resolve(c, id)
    case Err(e) => Err(e)
    case Ok(b) =>
      match visit(b)
      case Err(e) => Err(e)
      case Ok(m) =>
        var seen' := if |b.dt| == 0 then seen else seen + {b.dt};
        var dup' := if |b.dt| != 0 && b.dt in seen then dup + 1 else dup;
        if b.hght == 0 then Ok((OptionToSeq(m), dup'))
        else
          match ReconcileWalk(c, visit, b.prntID, seen', dup')
          case Err(e) => Err(e)
          case Ok(rest) => Ok((OptionToSeq(m) + rest.0, rest.1))
  }

  /** The result of a walk whose earlier part already reported `done`. */
  function After(done: seq<i64>, rest: Result<(seq<i64>, nat)>): Result<(seq<i64>, nat)> {
    match rest
    case Err(e) => Err(e)
    case Ok(p) => Ok((done + p.0, p.1))
  }

  /** One step of the reconciliation walk, for the loop that computes it. */
  lemma ReconcileWalkStep(c: ChainView, visit: Visitor, id: ID, seen: set<Bytes>, dup: nat, done: seq<i64>)
    requires HeightsDecrease(c)
    ensures Resolve(c, id).Err? ==> After(done, ReconcileWalk(c, visit, id, seen, dup)) == Err(Resolve(c, id).error)
    ensures Resolve(c, id).Ok? && visit(Resolve(c, id).value).Err? ==>
      After(done, ReconcileWalk(c, visit, id, seen, dup)) == Err(visit(Resolve(c, id).value).error)
    ensures Resolve(c, id).Ok? && visit(Resolve(c, id).value).Ok? ==>
      var b := Resolve(c, id).value;
      var done' := done + OptionToSeq(visit(b).value);
      var seen' := if |b.dt| == 0 then seen else seen + {b.dt};
      var dup' := if |b.dt| != 0 && b.dt in seen then dup + 1 else dup;
      After(done, ReconcileWalk(c, visit, id, seen, dup)) ==
        if b.hght == 0 then Ok((done', dup'))
        else After(done', ReconcileWalk(c, visit, b.prntID, seen', dup'))
  {
    if Resolve(c, id).Ok? && visit(Resolve(c, id).value).Ok? {
      var b := Resolve(c, id).value;
      var here := OptionToSeq(visit(b).value);
      if b.hght != 0 {
        var seen' := if |b.dt| == 0 then seen else seen + {b.dt};
        var dup' := if |b.dt| != 0 && b.dt in seen then dup + 1 else dup;
        match ReconcileWalk(c, visit, b.prntID, seen', dup')
        case Err(_) =>
        case Ok(p) => assert done + (here + p.0) == (done + here) + p.0;
      }
    }
  }

  /** `ReconcileBlocks` given what `GetLastAccepted` answers. */
  function Reconcile(c: ChainView, lastAccepted: Result<ID>, json: Json, node: SourceNode, confirmHeight: i64)
    : (r: Result<(seq<i64>, nat)>)
    requires HeightsDecrease(c)
    ensures lastAccepted.Err? ==> r == Err(lastAccepted.error)
    ensures r.Ok? ==> lastAccepted.Ok? && |r.value.0| <= Rank(c, lastAccepted.value)
  {
    match lastAccepted
    case Err(e) => Err(e)
    case Ok(id) => ReconcileWalk(c, Visiting(json, node, confirmHeight), id, {}, 0)
  }

  /** Reference: the mismatches along a list of blocks, or the first error. */
  function Mismatches(visit: Visitor, bs: seq<Block>): (r: Result<seq<i64>>)
    ensures r.Ok? ==> |r.value| <= |bs|
    ensures r.Ok? ==> forall k :: 0 <= k < |bs| ==> visit(bs[k]).Ok?
    ensures (forall k :: 0 <= k < |bs| ==> visit(bs[k]).Ok?) ==> r.Ok?
  {
    if bs == [] then Ok([])
    else
      match visit(bs[0])
      case Err(e) => Err(e)
      case Ok(m) =>
        match Mismatches(visit, bs[1..])
        case Err(e) => Err(e)
        case Ok(rest) => Ok(OptionToSeq(m) + rest)
  }

  /** Mismatches are reported in visit order: a walk over `xs + ys` lists those of `xs` first. */
  lemma {:induction false} MismatchesInVisitOrder(visit: Visitor, xs: seq<Block>, ys: seq<Block>)
    ensures Mismatches(visit, xs + ys) ==
      match Mismatches(visit, xs)
      case Err(e) => Err(e)
      case Ok(mx) =>
        match Mismatches(visit, ys)
        case Err(e) => Err(e)
        case Ok(my) => Ok(mx + my)
  {
    if xs != [] {
      assert (xs + ys)[0] == xs[0];
      assert (xs + ys)[1..] == xs[1..] + ys;
      MismatchesInVisitOrder(visit, xs[1..], ys);
      match visit(xs[0])
      case Err(_) =>
      case Ok(m) =>
        match Mismatches(visit, xs[1..])
        case Err(_) =>
        case Ok(mx) =>
          match Mismatches(visit, ys)
          case Err(_) =>
          case Ok(my) => assert OptionToSeq(m) + (mx + my) == (OptionToSeq(m) + mx) + my;
    } else {
      assert xs + ys == ys;
      match Mismatches(visit, ys)
      case Err(_) =>
      case Ok(my) => assert [] + my == my;
    }
  }

  /**
   * Every reported height passed the gate: it is non-zero and above the
   * confirmation height as uint64, and the node's current hash differs.
   */
  lemma {:induction false} MismatchesAboveConfirmation(json: Json, node: SourceNode, confirmHeight: i64, bs: seq<Block>)
    ensures var r := Mismatches(Visiting(json, node, confirmHeight), bs);
      r.Ok? ==> forall k :: 0 <= k < |r.value| ==>
        r.value[k] != 0 && ToU64(r.value[k]) > ToU64(confirmHeight) &&
        QueryZcashBlock(node, ToU64(r.value[k]), false, confirmHeight).Ok?
  {
    var visit := Visiting(json, node, confirmHeight);
    if bs != [] {
      MismatchesAboveConfirmation(json, node, confirmHeight, bs[1..]);
      match visit(bs[0])
      case Err(_) =>
      case Ok(m) =>
        match Mismatches(visit, bs[1..])
        case Err(_) =>
        case Ok(rest) =>
          var r := OptionToSeq(m) + rest;
          forall k | 0 <= k < |r|
            ensures r[k] != 0 && ToU64(r[k]) > ToU64(confirmHeight) &&
                    QueryZcashBlock(node, ToU64(r[k]), false, confirmHeight).Ok?
          {
            if k >= |OptionToSeq(m)| {
              assert r[k] == rest[k - |OptionToSeq(m)|];
            }
          }
    }
  }

  /**
   * A successful run reports height `h` exactly when some visited block is
   * mismatched at `h`.
   */
  lemma {:induction false} ReportedIffMismatched(json: Json, node: SourceNode, confirmHeight: i64, bs: seq<Block>)
    ensures var r := Mismatches(Visiting(json, node, confirmHeight), bs);
      r.Ok? ==> forall h: i64 :: h in r.value <==> exists k :: 0 <= k < |bs| && Mismatched(json, node, confirmHeight, bs[k], h)
  {
    var visit := Visiting(json, node, confirmHeight);
    if bs != [] {
      ReportedIffMismatched(json, node, confirmHeight, bs[1..]);
      match visit(bs[0])
      case Err(_) =>
      case Ok(m) =>
        match Mismatches(visit, bs[1..])
        case Err(_) =>
        case Ok(rest) =>
          assert Mismatches(visit, bs) == Ok(OptionToSeq(m) + rest);
          forall h: i64
            ensures h in OptionToSeq(m) + rest <==>
              exists k :: 0 <= k < |bs| && Mismatched(json, node, confirmHeight, bs[k], h)
          {
            if h in rest {
              var k :| 0 <= k < |bs[1..]| && Mismatched(json, node, confirmHeight, bs[1..][k], h);
              assert bs[1..][k] == bs[k + 1];
            }
            if k :| 0 <= k < |bs| && Mismatched(json, node, confirmHeight, bs[k], h) {
              if k > 0 {
                assert bs[1..][k - 1] == bs[k];
              }
            }
          }
    }
  }

  /** A payload at or below the confirmation height (as uint64) is never compared. */
  predicate Recent(json: Json, confirmHeight: i64, b: Block) {
    |b.dt| == 0 ||
    (json.Unmarshal(b.dt).Some? &&
     json.Unmarshal(b.dt).value.hash != "" && json.Unmarshal(b.dt).value.height != 0 &&
     ToU64(json.Unmarshal(b.dt).value.height) <= ToU64(confirmHeight))
  }

  /** When every block is recent, the node is never asked and nothing mismatches. */
  lemma {:induction false} RecentBlocksNeverCompared(json: Json, node: SourceNode, confirmHeight: i64, bs: seq<Block>)
    requires forall i :: 0 <= i < |bs| ==> Recent(json, confirmHeight, bs[i])
    ensures Mismatches(Visiting(json, node, confirmHeight), bs) == Ok([])
  {
    if bs != [] {
      assert Recent(json, confirmHeight, bs[0]);
      RecentBlocksNeverCompared(json, node, confirmHeight, bs[1..]);
    }
  }

  /** The non-empty payloads of `bs`, in order. */
  function Payloads(bs: seq<Block>): (ps: seq<Bytes>)
    ensures |ps| <= |bs|
  {
    if bs == [] then []
    else (if |bs[0].dt| == 0 then [] else [bs[0].dt]) + Payloads(bs[1..])
  }

  function Distinct(ps: seq<Bytes>): (s: set<Bytes>)
    ensures |s| <= |ps|
    ensures forall i :: 0 <= i < |ps| ==> ps[i] in s
  {
    if ps == [] then {} else {ps[0]} + Distinct(ps[1..])
  }

  /** Reference duplicate count: payloads beyond the first copy of each, given those already seen. */
  function DupCount(ps: seq<Bytes>, seen: set<Bytes>): nat {
    assert |Distinct(ps) - seen| <= |Distinct(ps)|;
    |ps| - |Distinct(ps) - seen|
  }

  /** Reference result of a walk over `bs`, given the payloads seen and the duplicates counted so far. */
  function Expected(visit: Visitor, bs: seq<Block>, seen: set<Bytes>, dup: nat): Result<(seq<i64>, nat)> {
    match Mismatches(visit, bs)
    case Err(e) => Err(e)
    case Ok(ms) => Ok((ms, dup + DupCount(Payloads(bs), seen)))
  }

  /** Visiting one payload moves one step of the duplicate count into `dup` and the payload into `seen`. */
  lemma DupCountStep(dt: Bytes, ps: seq<Bytes>, seen: set<Bytes>, dup: nat)
    ensures var here := if |dt| == 0 then [] else [dt];
            var seen' := if |dt| == 0 then seen else seen + {dt};
            var dup' := if |dt| != 0 && dt in seen then dup + 1 else dup;
            dup + DupCount(here + ps, seen) == dup' + DupCount(ps, seen')
  {
    if |dt| > 0 {
      var xs := [dt] + ps;
      assert xs[1..] == ps;
      assert Distinct(xs) == {dt} + Distinct(ps);
      if dt in seen {
        assert Distinct(xs) - seen == Distinct(ps) - seen;
        assert seen + {dt} == seen;
      } else {
        var a := Distinct(ps) - (seen + {dt});
        assert Distinct(xs) - seen == {dt} + a;
        assert dt !in a;
        assert |{dt} + a| == 1 + |a|;
      }
    } else {
      assert [] + ps == ps;
    }
  }

  /** The reference result over `bs` is the first block's step followed by the rest. */
  lemma ExpectedStep(visit: Visitor, bs: seq<Block>, seen: set<Bytes>, dup: nat,
                     m: Option<i64>, seen': set<Bytes>, dup': nat)
    requires |bs| > 0 && visit(bs[0]) == Ok(m)
    requires seen' == if |bs[0].dt| == 0 then seen else seen + {bs[0].dt}
    requires dup' == if |bs[0].dt| != 0 && bs[0].dt in seen then dup + 1 else dup
    ensures Expected(visit, bs, seen, dup) == After(OptionToSeq(m), Expected(visit, bs[1..], seen', dup'))
  {
    var b := bs[0];
    assert Payloads(bs) == (if |b.dt| == 0 then [] else [b.dt]) + Payloads(bs[1..]);
    DupCountStep(b.dt, Payloads(bs[1..]), seen, dup);
    assert dup + DupCount(Payloads(bs), seen) == dup' + DupCount(Payloads(bs[1..]), seen');
    match Mismatches(visit, bs[1..])
    case Err(e) =>
      assert Mismatches(visit, bs) == Err(e);
    case Ok(rest) =>
      assert Mismatches(visit, bs) == Ok(OptionToSeq(m) + rest);
  }

  /**
   * On an intact chain the walk's mismatches are the reference ones, and its
   * duplicate count is the number of repeated payloads: duplicates are
   * counted only and never change the mismatch list.
   */
  lemma {:induction false} ReconcileWalkIsReference(c: ChainView, visit: Visitor, id: ID, seen: set<Bytes>, dup: nat)
    requires HeightsDecrease(c)
    requires ChainFrom(c, id).Ok?
    ensures ReconcileWalk(c, visit, id, seen, dup) == Expected(visit, ChainFrom(c, id).value, seen, dup)
    decreases Rank(c, id)
  {
    var bs := ChainFrom(c, id).value;
    var b := bs[0];
    if visit(b).Ok? {
      var m := visit(b).value;
      var seen' := if |b.dt| == 0 then seen else seen + {b.dt};
      var dup' := if |b.dt| != 0 && b.dt in seen then dup + 1 else dup;
      ExpectedStep(visit, bs, seen, dup, m, seen', dup');
      if b.hght == 0 {
        assert bs[1..] == [];
        assert OptionToSeq(m) + [] == OptionToSeq(m);
        assert DupCount([], seen') == 0;
      } else {
        assert bs[1..] == ChainFrom(c, b.prntID).value;
        ReconcileWalkIsReference(c, visit, b.prntID, seen', dup');
      }
    }
  }

  /** A lookup error anywhere on the path aborts the whole run. */
  lemma {:induction false} ReconcileAbortsOnBrokenChain(c: ChainView, visit: Visitor, id: ID, seen: set<Bytes>, dup: nat)
    requires HeightsDecrease(c)
    requires ChainFrom(c, id).Err?
    ensures ReconcileWalk(c, visit, id, seen, dup).Err?
    decreases Rank(c, id)
  {
    if Resolve(c, id).Ok? {
      var b := Resolve(c, id).value;
      if visit(b).Ok? {
        var seen' := if |b.dt| == 0 then seen else seen + {b.dt};
        var dup' := if |b.dt| != 0 && b.dt in seen then dup + 1 else dup;
        ReconcileAbortsOnBrokenChain(c, visit, b.prntID, seen', dup');
      }
    }
  }

  /**
   * `ReconcileBlocks`: a failed pointer read or any lookup error aborts; on
   * an intact chain the result is the reference mismatch list and the
   * duplicate count is the number of repeated payloads.
   */
  lemma ReconcileMeaning(c: ChainView, lastAccepted: Result<ID>, json: Json, node: SourceNode, confirmHeight: i64)
    requires HeightsDecrease(c)
    ensures lastAccepted.Err? ==> Reconcile(c, lastAccepted, json, node, confirmHeight) == Err(lastAccepted.error)
    ensures lastAccepted.Ok? && ChainFrom(c, lastAccepted.value).Err? ==>
      Reconcile(c, lastAccepted, json, node, confirmHeight).Err?
    ensures lastAccepted.Ok? && ChainFrom(c, lastAccepted.value).Ok? ==>
      Reconcile(c, lastAccepted, json, node, confirmHeight)
        == Expected(Visiting(json, node, confirmHeight), ChainFrom(c, lastAccepted.value).value, {}, 0)
    ensures lastAccepted.Ok? && ChainFrom(c, lastAccepted.value).Ok? && Reconcile(c, lastAccepted, json, node, confirmHeight).Ok? ==>
      var bs := ChainFrom(c, lastAccepted.value).value;
      forall h: i64 :: h in Reconcile(c, lastAccepted, json, node, confirmHeight).value.0 <==>
        exists k :: 0 <= k < |bs| && Mismatched(json, node, confirmHeight, bs[k], h)
  {
    if lastAccepted.Ok? {
      var visit := Visiting(json, node, confirmHeight);
      if ChainFrom(c, lastAccepted.value).Ok? {
        ReconcileWalkIsReference(c, visit, lastAccepted.value, {}, 0);
        ReportedIffMismatched(json, node, confirmHeight, ChainFrom(c, lastAccepted.value).value);
      } else {
        ReconcileAbortsOnBrokenChain(c, visit, lastAccepted.value, {}, 0);
      }
    }
  }

  // ---------------------------------------------------------------------
  // Height lookup (zcash variant): GetBlockByHeight returning a snapshot

  /**
   * The loop of the zcash store's `GetBlockByHeight`: any lookup or decoding
   * failure gives the zero snapshot; otherwise the first payload with the
   * target height, or the zero snapshot after genesis.
   */
  function ZcashWalk(c: ChainView, json: Json, id: ID, target: i64): (r: Snapshot)
    requires HeightsDecrease(c)
    ensures r == ZeroSnapshot || r.height == target
    decreases Rank(c, id)
  {
    match Resolve(c, id)
    case Err(_) => ZeroSnapshot
    case Ok(b) =>
      match json.Unmarshal(b.dt)
      case None => ZeroSnapshot
      case Some(z) =>
        if z.height == target then z
        else if b.hght == 0 then ZeroSnapshot
        else ZcashWalk(c, json, b.prntID, target)
  }

  /** The zcash store's `GetBlockByHeight` given what `GetLastAccepted` answers. */
  function ZcashLookup(c: ChainView, lastAccepted: Result<ID>, json: Json, target: u64): (r: Snapshot)
    requires HeightsDecrease(c)
    ensures r != ZeroSnapshot ==> lastAccepted.Ok? && target != 0 && r.height == ToI64(target)
  {
    match lastAccepted
    case Err(_) => ZeroSnapshot
    case Ok(id) => if ToI64(target) == 0 then ZeroSnapshot else ZcashWalk(c, json, id, ToI64(target))
  }

  /**
   * Where the zcash walk stops on `bs`: the first block whose payload does
   * not decode or has height `target`; `|bs|` when there is none.
   */
  function ZcashStopAt(json: Json, bs: seq<Block>, target: i64): (r: nat)
    ensures r <= |bs|
    ensures forall j :: 0 <= j < r ==> json.Unmarshal(bs[j].dt).Some? && !Matches(json, bs[j], target)
    ensures r < |bs| ==> json.Unmarshal(bs[r].dt).None? || Matches(json, bs[r], target)
  {
    if bs == [] then 0
    else if json.Unmarshal(bs[0].dt).None? || Matches(json, bs[0], target) then 0
    else 1 + ZcashStopAt(json, bs[1..], target)
  }

  /**
   * Reference answer of the zcash walk over the blocks it can reach: the
   * snapshot of the block it stops at when that block matches; the zero
   * snapshot when it stops at a payload that does not decode, or reaches the
   * end of the path (genesis, or a failed lookup) without stopping.
   */
  function ZcashAnswer(json: Json, bs: seq<Block>, target: i64): (r: Snapshot)
    ensures r == ZeroSnapshot || r.height == target
  {
    var i := ZcashStopAt(json, bs, target);
    if i < |bs| && Matches(json, bs[i], target) then json.Unmarshal(bs[i].dt).value else ZeroSnapshot
  }

  /** The reference answer over a non-empty path, by its first block. */
  lemma ZcashAnswerStep(json: Json, bs: seq<Block>, target: i64)
    requires |bs| > 0
    ensures ZcashAnswer(json, bs, target) ==
      match json.Unmarshal(bs[0].dt)
      case None => ZeroSnapshot
      case Some(z) => if z.height == target then z else ZcashAnswer(json, bs[1..], target)
  {
    if json.Unmarshal(bs[0].dt).Some? && !Matches(json, bs[0], target) {
      var i := ZcashStopAt(json, bs[1..], target);
      assert ZcashStopAt(json, bs, target) == 1 + i;
      if i < |bs[1..]| {
        assert bs[1..][i] == bs[i + 1];
      }
    }
  }

  /** The zcash walk computes the reference answer over the blocks reachable from `id`. */
  lemma {:induction false} ZcashWalkIsReference(c: ChainView, json: Json, id: ID, target: i64)
    requires HeightsDecrease(c)
    ensures ZcashWalk(c, json, id, target) == ZcashAnswer(json, PathFrom(c, id), target)
    decreases Rank(c, id)
  {
    if Resolve(c, id).Ok? {
      var b := Resolve(c, id).value;
      var bs := PathFrom(c, id);
      ZcashAnswerStep(json, bs, target);
      if json.Unmarshal(b.dt).Some? && json.Unmarshal(b.dt).value.height != target {
        if b.hght > 0 {
          ZcashWalkIsReference(c, json, b.prntID, target);
          assert bs[1..] == PathFrom(c, b.prntID);
        } else {
          assert bs[1..] == [];
        }
      }
    }
  }

  /**
   * The zcash store's `GetBlockByHeight`: a failed pointer read or target 0
   * gives the zero snapshot; otherwise the reference answer on the blocks
   * reachable from the last accepted one, so a lookup or decoding failure
   * met before the first match gives the zero snapshot.
   */
  lemma ZcashLookupMeaning(c: ChainView, lastAccepted: Result<ID>, json: Json, target: u64)
    requires HeightsDecrease(c)
    ensures lastAccepted.Err? ==> ZcashLookup(c, lastAccepted, json, target) == ZeroSnapshot
    ensures target == 0 ==> ZcashLookup(c, lastAccepted, json, target) == ZeroSnapshot
    ensures lastAccepted.Ok? && target != 0 ==>
      ZcashLookup(c, lastAccepted, json, target) == ZcashAnswer(json, PathFrom(c, lastAccepted.value), ToI64(target))
  {
    if lastAccepted.Ok? && target != 0 {
      ZcashWalkIsReference(c, json, lastAccepted.value, ToI64(target));
    }
  }

  /** When every payload before the first match decodes, the zcash walk stops exactly at the first match. */
  lemma {:induction false} StopAtFirstMatch(json: Json, bs: seq<Block>, target: i64)
    requires forall i :: 0 <= i < FirstMatchAt(json, bs, target) ==> json.Unmarshal(bs[i].dt).Some?
    ensures ZcashStopAt(json, bs, target) == FirstMatchAt(json, bs, target)
  {
    if bs != [] && !Matches(json, bs[0], target) {
      assert json.Unmarshal(bs[0].dt).Some?;
      forall i | 0 <= i < FirstMatchAt(json, bs[1..], target)
        ensures json.Unmarshal(bs[1..][i].dt).Some?
      {
        assert bs[1..][i] == bs[i + 1];
      }
      StopAtFirstMatch(json, bs[1..], target);
    }
  }

  /**
   * On an intact chain whose payloads decode up to the first match, the two
   * store variants find the same block: the zcash one returns its snapshot,
   * or the zero snapshot where the zavax one finds none.
   */
  lemma VariantsAgree(c: ChainView, json: Json, id: ID, target: i64)
    requires HeightsDecrease(c)
    requires ChainFrom(c, id).Ok?
    requires forall i :: 0 <= i < FirstMatchAt(json, ChainFrom(c, id).value, target) ==>
      json.Unmarshal(ChainFrom(c, id).value[i].dt).Some?
    ensures ZcashWalk(c, json, id, target) ==
      match FirstMatch(json, ChainFrom(c, id).value, target)
      case Some(b) => json.Unmarshal(b.dt).value
      case None => ZeroSnapshot
  {
    ChainFromIsPath(c, id);
    ZcashWalkIsReference(c, json, id, target);
    StopAtFirstMatch(json, ChainFrom(c, id).value, target);
  }
}
