/**
 * The byte layout of a mirrored block and of the envelope that the store
 * persists: a linear codec with a 2-byte codec version, big-endian fixed-width
 * integers, 32 raw bytes for an ID and a 4-byte length before each byte slice.
 * Decoding rejects a wrong version, a short input and trailing bytes.
 */
module Codec {
  import opened Types

  const CodecVersion: nat := 0

  function Pow256(n: nat): (r: nat)
    ensures r > 0
  {
    if n == 0 then 1 else 256 * Pow256(n - 1)
  }

  lemma Pow256Widths()
    ensures Pow256(2) == 0x1_0000
    ensures Pow256(4) == TWO_32
    ensures Pow256(8) == TWO_64
  {
  }

  /** `n` as `width` big-endian bytes. */
  function EncodeUint(n: nat, width: nat): (r: Bytes)
    requires n < Pow256(width)
    ensures |r| == width
  {
    if width == 0 then [] else EncodeUint(n / 256, width - 1) + [n % 256]
  }

  /** The big-endian value of `s`. */
  function DecodeUint(s: Bytes): (r: nat)
    ensures r < Pow256(|s|)
  {
    if |s| == 0 then 0 else DecodeUint(s[..|s| - 1]) * 256 + s[|s| - 1]
  }

  lemma {:induction false} DecodeEncodeUint(n: nat, width: nat)
    requires n < Pow256(width)
    ensures DecodeUint(EncodeUint(n, width)) == n
  {
    if width > 0 {
      var s := EncodeUint(n, width);
      assert s[..|s| - 1] == EncodeUint(n / 256, width - 1);
      DecodeEncodeUint(n / 256, width - 1);
    }
  }

  /** The serialised fields of a block (`PrntID`, `Hght`, `Tmstmp`, `Dt`). */
  datatype BlockBody = BlockBody(prntID: ID, hght: u64, tmstmp: i64, dt: Bytes)

  /** Version (2) + parent (32) + height (8) + timestamp (8) + data length (4). */
  const BodyHeaderLen: nat := 54

  function EncodeBody(b: BlockBody): (r: Result<Bytes>)
    ensures r.Ok? <==> |b.dt| < TWO_32
    ensures r.Ok? ==> |r.value| == BodyHeaderLen + |b.dt|
  {
    Pow256Widths();
    if |b.dt| >= TWO_32 then Err(CodecFailure)
    else Ok(EncodeUint(CodecVersion, 2) + b.prntID + EncodeUint(b.hght, 8)
            + EncodeUint(ToU64(b.tmstmp), 8) + EncodeUint(|b.dt|, 4) + b.dt)
  }

  function DecodeBody(s: Bytes): (r: Result<BlockBody>)
    ensures r.Ok? ==> |s| == BodyHeaderLen + |r.value.dt|
  {
    Pow256Widths();
    if |s| < BodyHeaderLen || DecodeUint(s[..2]) != CodecVersion then Err(CodecFailure)
    else if |s| != BodyHeaderLen + DecodeUint(s[50..54]) then Err(CodecFailure)
    else Ok(BlockBody(s[2..34], DecodeUint(s[34..42]), ToI64(DecodeUint(s[42..50])), s[54..]))
  }

  /** The fields of a body header sit at fixed offsets. */
  lemma BodySlices(v: Bytes, p: Bytes, h: Bytes, t: Bytes, n: Bytes, d: Bytes)
    requires |v| == 2 && |p| == 32 && |h| == 8 && |t| == 8 && |n| == 4
    ensures var s := v + p + h + t + n + d;
      s[..2] == v && s[2..34] == p && s[34..42] == h && s[42..50] == t && s[50..54] == n && s[54..] == d
  {
    var s := v + p + h + t + n + d;
    assert s == v + (p + (h + (t + (n + d))));
  }

  /** Decoding an encoded body gives back the same fields. */
  lemma {:induction false} BodyRoundTrip(b: BlockBody)
    requires |b.dt| < TWO_32
    ensures DecodeBody(EncodeBody(b).value) == Ok(b)
  {
    Pow256Widths();
    var v := EncodeUint(CodecVersion, 2);
    var h := EncodeUint(b.hght, 8);
    var t := EncodeUint(ToU64(b.tmstmp), 8);
    var n := EncodeUint(|b.dt|, 4);
    var s := v + b.prntID + h + t + n + b.dt;
    assert EncodeBody(b).value == s;
    BodySlices(v, b.prntID, h, t, n, b.dt);
    I64RoundTrip(b.tmstmp);
    DecodeEncodeUint(CodecVersion, 2);
    DecodeEncodeUint(b.hght, 8);
    DecodeEncodeUint(ToU64(b.tmstmp), 8);
    DecodeEncodeUint(|b.dt|, 4);
  }

  /** `blkWrapper`: the block bytes and the status, persisted together. */
  datatype Wrapper = Wrapper(blk: Bytes, status: Status)

  function EncodeWrapper(w: Wrapper): (r: Result<Bytes>)
    ensures r.Ok? <==> |w.blk| < TWO_32
  {
    Pow256Widths();
    if |w.blk| >= TWO_32 then Err(CodecFailure)
    else Ok(EncodeUint(CodecVersion, 2) + EncodeUint(|w.blk|, 4) + w.blk + EncodeUint(w.status, 4))
  }

  /** Accepted bytes are exactly the encoding of what they decode to. */
  function DecodeWrapper(s: Bytes): (r: Result<Wrapper>)
    ensures r.Ok? ==> EncodeWrapper(r.value) == Ok(s)
  {
    Pow256Widths();
    if |s| < 10 || DecodeUint(s[..2]) != CodecVersion then Err(CodecFailure)
    else
      var n := DecodeUint(s[2..6]);
      if |s| != 10 + n then Err(CodecFailure)
      else
        EncodeDecodeUint(s[..2]);
        EncodeDecodeUint(s[2..6]);
        EncodeDecodeUint(s[6 + n..]);
        assert s == s[..2] + s[2..6] + s[6..6 + n] + s[6 + n..];
        Ok(Wrapper(s[6..6 + n], DecodeUint(s[6 + n..])))
  }

  lemma {:induction false} WrapperRoundTrip(w: Wrapper)
    requires |w.blk| < TWO_32
    ensures DecodeWrapper(EncodeWrapper(w).value) == Ok(w)
  {
    Pow256Widths();
    var v := EncodeUint(CodecVersion, 2);
    var n := EncodeUint(|w.blk|, 4);
    var st := EncodeUint(w.status, 4);
    var s := v + n + w.blk + st;
    assert EncodeWrapper(w).value == s;
    assert s[..2] == v;
    assert s[2..6] == n;
    DecodeEncodeUint(CodecVersion, 2);
    DecodeEncodeUint(|w.blk|, 4);
    assert s[6..6 + |w.blk|] == w.blk;
    assert s[6 + |w.blk|..] == st;
    DecodeEncodeUint(w.status, 4);
  }

  function BodyOf(b: Block): BlockBody {
    BlockBody(b.prntID, b.hght, b.tmstmp, b.dt)
  }

  /** `Block.Initialize(bytes, status, vm)`: attach the bytes, the status and the ID hashed from the bytes. */
  function Initialize(body: BlockBody, bytes: Bytes, status: Status, hash: Bytes -> ID): (b: Block)
    ensures BodyOf(b) == body && b.bytes == bytes && b.status == status && b.id == hash(bytes)
  {
    Block(body.prntID, body.hght, body.tmstmp, body.dt, status, hash(bytes), bytes)
  }

  /** A block whose attached bytes are its own encoding and whose ID is the hash of them. */
  ghost predicate Initialized(b: Block, hash: Bytes -> ID) {
    EncodeBody(BodyOf(b)) == Ok(b.bytes) && b.id == hash(b.bytes)
  }

  /** Read back what the store persisted: unwrap the envelope, decode the body, initialise. */
  function DecodeStored(stored: Bytes, hash: Bytes -> ID): (r: Result<Block>)
    ensures r.Ok? ==>
      && DecodeWrapper(stored).Ok?
      && r.value.bytes == DecodeWrapper(stored).value.blk
      && r.value.status == DecodeWrapper(stored).value.status
      && r.value.id == hash(r.value.bytes)
  {
    match DecodeWrapper(stored)
    case Err(e) => Err(e)
    case Ok(w) =>
      match DecodeBody(w.blk)
      case Err(e) => Err(e)
      case Ok(body) => Ok(Initialize(body, w.blk, w.status, hash))
  }

  /** Every block read back from the store is initialised. */
  lemma DecodedIsInitialized(stored: Bytes, hash: Bytes -> ID)
    ensures DecodeStored(stored, hash).Ok? ==> Initialized(DecodeStored(stored, hash).value, hash)
  {
    match DecodeWrapper(stored)
    case Err(_) =>
    case Ok(w) =>
      if DecodeBody(w.blk).Ok? {
        EncodedDecodedBody(w.blk);
      }
  }

  /** Bytes that decode re-encode to themselves, so a decoded block is initialised. */
  lemma {:induction false} EncodedDecodedBody(s: Bytes)
    requires DecodeBody(s).Ok?
    ensures EncodeBody(DecodeBody(s).value) == Ok(s)
  {
    Pow256Widths();
    var b := DecodeBody(s).value;
    EncodeDecodeUint(s[..2]);
    EncodeDecodeUint(s[34..42]);
    EncodeDecodeUint(s[42..50]);
    EncodeDecodeUint(s[50..54]);
    assert ToU64(b.tmstmp) == DecodeUint(s[42..50]);
    assert s == s[..2] + s[2..34] + s[34..42] + s[42..50] + s[50..54] + s[54..];
  }

  lemma {:induction false} EncodeDecodeUint(s: Bytes)
    ensures EncodeUint(DecodeUint(s), |s|) == s
  {
    if |s| > 0 {
      var p := s[..|s| - 1];
      EncodeDecodeUint(p);
      var n := DecodeUint(s);
      assert n / 256 == DecodeUint(p);
      assert n % 256 == s[|s| - 1];
      assert s == p + [s[|s| - 1]];
    }
  }

  /** What the store writes for a block, then reads back, is that block. */
  lemma StoredRoundTrip(b: Block, hash: Bytes -> ID)
    requires Initialized(b, hash)
    requires |b.bytes| < TWO_32
    ensures DecodeStored(EncodeWrapper(Wrapper(b.bytes, b.status)).value, hash) == Ok(b)
  {
    WrapperRoundTrip(Wrapper(b.bytes, b.status));
    BodyRoundTrip(BodyOf(b));
  }
}
