/**
 * Shared vocabulary of the ZavaX block-mirroring core: machine integers as
 * subset types, byte strings, block identifiers, the mirrored block, the
 * embedded source-chain snapshot, the error taxonomy and the JSON boundary.
 */
module Types {

  const TWO_32: int := 0x1_0000_0000
  const TWO_63: int := 0x8000_0000_0000_0000
  const TWO_64: int := 0x1_0000_0000_0000_0000

  type byte = x: int | 0 <= x < 256
  type Bytes = seq<byte>
  type u32 = x: int | 0 <= x < 0x1_0000_0000
  type u64 = x: int | 0 <= x < 0x1_0000_0000_0000_0000
  type i64 = x: int | -0x8000_0000_0000_0000 <= x < 0x8000_0000_0000_0000

  /** A content-derived block identifier: 32 bytes (`ids.ID`). */
  type ID = s: Bytes | |s| == 32 witness Zeros32

  const Zeros32: Bytes := [0, 0, 0, 0, 0, 0, 0, 0, 0, 0, 0, 0, 0, 0, 0, 0,
                         0, 0, 0, 0, 0, 0, 0, 0, 0, 0, 0, 0, 0, 0, 0, 0]

  /** `ids.Empty`, the all-zero identifier; parent of the genesis block. */
  const EmptyID: ID := Zeros32

  /** Go's `uint64(x)` on a signed 64-bit value: two's-complement reinterpretation. */
  function ToU64(x: int): (r: u64)
    ensures 0 <= x < TWO_64 ==> r == x
    ensures -TWO_64 <= x < 0 ==> r == x + TWO_64
  {
    x % TWO_64
  }

  /** Go's `int(x)` on an unsigned 64-bit value (int is 64 bits wide). */
  function ToI64(x: u64): (r: i64)
    ensures ToU64(r) == x
  {
    if x < TWO_63 then x else x - TWO_64
  }

  lemma ToI64Injective(x: u64, y: u64)
    ensures ToI64(x) == ToI64(y) <==> x == y
  {
  }

  /** Reinterpreting a signed value as unsigned and back gives it back. */
  lemma I64RoundTrip(x: i64)
    ensures ToI64(ToU64(x)) == x
  {
  }

  datatype Option<+T> = None | Some(value: T)

  /** The errors the core distinguishes. Each stands for one Go error value or family. */
  datatype Error =
    | NotFound                        // database.ErrNotFound
    | DbFailure                       // any other error of the key-value store
    | CodecFailure                    // Codec.Marshal / Codec.Unmarshal failed
    | BadIdLength                     // ids.ToID on bytes that are not 32 long
    | HeightNotFound                  // errBlockHeightNotFound
    | HeightNotAllowed                // errBlockHeightNotAllowed
    | HeightNotFetch                  // errBlockHeightNotFetch
    | Transport                       // HTTP request to the source-chain node failed
    | Malformed                       // the node's reply did not decode
    | PayloadUnreadable               // "json unmarshal error" while reconciling
    | MissingValidData                // "zcashblock is missing valid data"
    | NoSuchBlock                     // errNoSuchBlock
    | CannotGetLastAccepted           // errCannotGetLastAccepted
    | NoPendingBlocks                 // errNoPendingBlocks
    | BadGenesisBytes                 // errBadGenesisBytes
    | PreferredUnavailable(cause: Error)  // "couldn't get preferred block: %w"
    | BuildFailed(cause: Error)           // "couldn't build block: %w"

  datatype Result<+T> = Ok(value: T) | Err(error: Error)

  /** `choices.Status`, persisted as a uint32. */
  type Status = u32
  const Unknown: Status := 0
  const Processing: Status := 1
  const Rejected: Status := 2
  const Accepted: Status := 3

  /**
   * A mirrored block as the VM holds it after `Initialize`: the serialised
   * fields (parent, height, timestamp, data) plus the status, the ID and
   * the byte representation that `Initialize` attaches.
   */
  datatype Block = Block(
    prntID: ID,
    hght: u64,
    tmstmp: i64,
    dt: Bytes,
    status: Status,
    id: ID,
    bytes: Bytes)

  /**
   * The source-chain block summary (`ZcashBlock`). Only the fields that the
   * core reads or that identify the block are kept.
   */
  datatype Snapshot = Snapshot(
    hash: string,
    confirmations: i64,
    size: i64,
    height: i64,
    version: i64,
    merkleRoot: string,
    tx: seq<string>,
    time: i64,
    previousBlockHash: string,
    nextBlockHash: string)

  /** The zero value `ZcashBlock{}`. */
  const ZeroSnapshot: Snapshot := Snapshot("", 0, 0, 0, 0, "", [], 0, "", "")

  /** The four bytes of the JSON literal `null`. */
  const NullJson: Bytes := [110, 117, 108, 108]

  /**
   * The JSON boundary for snapshots: `json.Unmarshal` into a `ZcashBlock`
   * (`decodeText`, consulted only on non-empty input, since empty input is
   * always a JSON error) and `json.Marshal` of a `*ZcashBlock`.
   */
  datatype Json = Json(decodeText: Bytes -> Option<Snapshot>, encodeValue: Snapshot -> Bytes) {

    function Unmarshal(data: Bytes): (r: Option<Snapshot>)
      ensures |data| == 0 ==> r.None?
    {
      if |data| == 0 then None else decodeText(data)
    }

    function Marshal(s: Option<Snapshot>): (r: Bytes)
      ensures s.None? ==> r == NullJson
    {
      match s
      case None => NullJson
      case Some(v) => encodeValue(v)
    }
  }
}
