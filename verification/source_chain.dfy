/**
 * The source-chain boundary: the three JSON-RPC calls the core makes to the
 * Zcash node (`getblockcount`, `getblockhash`, `getblock`), abstracted as the
 * node's replies, and the logic layered on them: the confirmation gate and
 * the confirmation-gated snapshot query of both store variants.
 */
module SourceChain {
  import opened Types

  /** Reply to `getblockcount`. */
  datatype CountReply = Count(latest: i64) | CountTransportError | CountMalformed

  /** Reply to `getblockhash`: every transport or decoding failure is one failure. */
  datatype HashReply = HashOf(hash: string) | HashFailure

  /** Reply to `getblock`: the `result` member may be JSON `null`. */
  datatype BlockReply = BlockResult(block: Option<Snapshot>) | BlockTransportError | BlockMalformed

  /** The node as the core sees it during one request. */
  datatype SourceNode = SourceNode(
    blockCount: CountReply,
    blockHash: u64 -> HashReply,
    blockByHash: string -> BlockReply)

  /** The threshold test exactly as written: unsigned 64-bit, so the sum can wrap. */
  function ConfirmGateAsWritten(latest: i64, confirmHeight: i64, id: u64): (r: bool)
    ensures ToU64(confirmHeight) + id < TWO_64 ==> (r <==> ToU64(latest) >= ToU64(confirmHeight) + id)
    ensures ToU64(confirmHeight) + id >= TWO_64 ==> (r <==> ToU64(latest) >= ToU64(confirmHeight) + id - TWO_64)
  {
    ToU64(latest) >= (ToU64(confirmHeight) + id) % TWO_64
  }

  /** The intended threshold: `id` lies at least `confirmHeight` blocks below the head. */
  function ConfirmGate(latest: i64, confirmHeight: i64, id: u64): bool {
    latest >= confirmHeight + id
  }

  /** With the wrap, the last uint64 height passes the gate on a node whose head is 100. */
  lemma GateWrapAdmitsUnconfirmedHeight()
    ensures ConfirmGateAsWritten(100, 24, TWO_64 - 1)
    ensures !ConfirmGate(100, 24, TWO_64 - 1)
  {
  }

  /** For every realistic configuration the two gates agree. */
  lemma GatesAgreeWithoutWrap(latest: i64, confirmHeight: i64, id: u64)
    requires 0 <= latest && 0 <= confirmHeight && confirmHeight + id < TWO_64
    ensures ConfirmGateAsWritten(latest, confirmHeight, id) == ConfirmGate(latest, confirmHeight, id)
  {
  }

  /**
   * `validateZcashBlockHeight`: `None` when fetching is allowed. A failed
   * request propagates its error; an undecodable reply gives
   * errBlockHeightNotAllowed; a height too close to the head gives
   * errBlockHeightNotFetch.
   */
  function ValidateZcashBlockHeight(reply: CountReply, id: u64, confirmHeight: i64): (r: Option<Error>)
    ensures r.None? <==> reply.Count? && reply.latest >= confirmHeight + id
    ensures reply.CountTransportError? ==> r == Some(Transport)
    ensures reply.CountMalformed? ==> r == Some(HeightNotAllowed)
    ensures reply.Count? && reply.latest < confirmHeight + id ==> r == Some(HeightNotFetch)
  {
    match reply
    case CountTransportError => Some(Transport)
    case CountMalformed => Some(HeightNotAllowed)
    case Count(latest) => if ConfirmGate(latest, confirmHeight, id) then None else Some(HeightNotFetch)
  }

  /** `getZcashHash` of the zavax store: any failure, and the empty hash, are errBlockHeightNotFound. */
  function GetZcashHash(node: SourceNode, height: u64): (r: Result<string>)
    ensures r.Ok? <==> node.blockHash(height).HashOf? && node.blockHash(height).hash != ""
    ensures r.Ok? ==> r.value == node.blockHash(height).hash
    ensures r.Err? ==> r.error == HeightNotFound
  {
    match node.blockHash(height)
    case HashFailure => Err(HeightNotFound)
    case HashOf(h) => if h == "" then Err(HeightNotFound) else Ok(h)
  }

  /**
   * `QueryZcashBlock(ID, validateConfirm)`: the gate (only when asked), then
   * the hash at `id`, then the block with that hash, which may be `nil`.
   */
  function QueryZcashBlock(node: SourceNode, id: u64, validateConfirm: bool, confirmHeight: i64)
    : (r: Result<Option<Snapshot>>)
    ensures r.Ok? && validateConfirm ==> node.blockCount.Count? && node.blockCount.latest >= confirmHeight + id
    ensures r.Ok? && r.value.Some? ==>
      GetZcashHash(node, id).Ok? && node.blockByHash(GetZcashHash(node, id).value) == BlockResult(r.value)
  {
    var gate := if validateConfirm then ValidateZcashBlockHeight(node.blockCount, id, confirmHeight) else None;
    if gate.Some? then Err(gate.value)
    else
      match GetZcashHash(node, id)
      case Err(e) => Err(e)
      case Ok(h) =>
        match node.blockByHash(h)
        case BlockTransportError => Err(Transport)
        case BlockMalformed => Err(Malformed)
        case BlockResult(b) => Ok(b)
  }

  /**
   * The outcomes of `QueryZcashBlock`: a closed gate returns its error;
   * past the gate, a failed or empty hash is errBlockHeightNotFound and the
   * block fetch gives the node's block, `null` included, or its failure.
   */
  lemma QueryZcashBlockOutcomes(node: SourceNode, id: u64, validateConfirm: bool, confirmHeight: i64)
    ensures var r := QueryZcashBlock(node, id, validateConfirm, confirmHeight);
      && (validateConfirm && ValidateZcashBlockHeight(node.blockCount, id, confirmHeight).Some? ==>
            r == Err(ValidateZcashBlockHeight(node.blockCount, id, confirmHeight).value))
      && ((!validateConfirm || ValidateZcashBlockHeight(node.blockCount, id, confirmHeight).None?) ==>
            match GetZcashHash(node, id)
            case Err(_) => r == Err(HeightNotFound)
            case Ok(h) =>
              match node.blockByHash(h)
              case BlockTransportError => r == Err(Transport)
              case BlockMalformed => r == Err(Malformed)
              case BlockResult(b) => r == Ok(b))
  {
  }

  /** Without the gate, the head height is never consulted. */
  lemma UngatedQueryIgnoresHead(node: SourceNode, other: CountReply, id: u64, confirmHeight: i64)
    ensures QueryZcashBlock(node, id, false, confirmHeight)
         == QueryZcashBlock(node.(blockCount := other), id, false, confirmHeight)
  {
  }

  /**
   * `QueryData` of the zcash store: no gate; an empty or failed hash lookup
   * gives the zero snapshot and no error; a failed block fetch gives the zero
   * snapshot and the error; a `null` result gives the zero snapshot; any
   * other result is the node's block for that hash.
   */
  function QueryData(node: SourceNode, id: u64): (r: (Snapshot, Option<Error>))
    ensures (node.blockHash(id).HashFailure? || node.blockHash(id) == HashOf("")) ==> r == (ZeroSnapshot, None)
    ensures node.blockHash(id).HashOf? && node.blockHash(id).hash != "" ==>
      match node.blockByHash(node.blockHash(id).hash)
      case BlockTransportError => r == (ZeroSnapshot, Some(Transport))
      case BlockMalformed => r == (ZeroSnapshot, Some(Malformed))
      case BlockResult(None) => r == (ZeroSnapshot, None)
      case BlockResult(Some(s)) => r == (s, None)
    ensures r.1.Some? ==> r.0 == ZeroSnapshot && r.1.value in {Transport, Malformed}
  {
    var hash := match node.blockHash(id) case HashFailure => "" case HashOf(h) => h;
    if hash == "" then (ZeroSnapshot, None)
    else
      match node.blockByHash(hash)
      case BlockTransportError => (ZeroSnapshot, Some(Transport))
      case BlockMalformed => (ZeroSnapshot, Some(Malformed))
      case BlockResult(None) => (ZeroSnapshot, None)
      case BlockResult(Some(s)) => (s, None)
  }
}
