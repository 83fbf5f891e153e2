/** The codecv1 blob: metadata and L2 transactions of up to 15 chunks, padded into 4096 field elements. */
module Blobs {
  import opened Wrappers
  import opened Bytes
  import opened L2Data

  const MAX_NUM_CHUNKS := 15
  const METADATA_LENGTH := 62
  const MAX_PAYLOAD := 126976
  const BLOB_SIZE := 131072
  const BLS_MODULUS := 52435875175126190479447740508185965837690552500527637822603658699938581184513

  // ---------- The payload ----------

  function BlockData(txs: seq<Tx>): Result<seq<byte>> {
    if txs == [] then Ok([])
    else
      var front :- BlockData(txs[..|txs| - 1]);
      match txs[|txs| - 1]
      case L1Message(_, _) => Ok(front)
      case L2Tx(None, _) => Err
      case L2Tx(Some(rlp), _) => Ok(front + rlp)
  }

  /** The L2 transactions of a chunk, end to end. */
  function ChunkData(blocks: seq<Block>): Result<seq<byte>> {
    if blocks == [] then Ok([])
    else
      var front :- ChunkData(blocks[..|blocks| - 1]);
      var last :- BlockData(blocks[|blocks| - 1].txs);
      Ok(front + last)
  }

  function ChunksData(chunks: seq<Chunk>): Result<seq<seq<byte>>> {
    if chunks == [] then Ok([])
    else
      var front :- ChunksData(chunks[..|chunks| - 1]);
      var last :- ChunkData(chunks[|chunks| - 1].blocks);
      Ok(front + [last])
  }

  function Flatten(datas: seq<seq<byte>>): seq<byte> {
    if datas == [] then [] else Flatten(datas[..|datas| - 1]) + datas[|datas| - 1]
  }

  /** The 4-byte sizes of the chunks. */
  function Sizes(datas: seq<seq<byte>>): (bytes: seq<byte>)
    ensures |bytes| == 4 * |datas|
  {
    if datas == [] then [] else Sizes(datas[..|datas| - 1]) + BigEndian(|datas[|datas| - 1]|, 4)
  }

  /** Number of chunks, 15 chunk sizes, chunk data. */
  function Payload(datas: seq<seq<byte>>): (raw: seq<byte>)
    requires |datas| <= MAX_NUM_CHUNKS
    ensures |raw| == METADATA_LENGTH + |Flatten(datas)|
  {
    BigEndian(|datas|, 2) + Sizes(datas) + Zeros(4 * (MAX_NUM_CHUNKS - |datas|)) + Flatten(datas)
  }

  function BlobPayload(chunks: seq<Chunk>): Result<seq<byte>>
    requires |chunks| <= MAX_NUM_CHUNKS
  {
    var datas :- ChunksData(chunks);
    ChunksDataLength(chunks);
    Ok(Payload(datas))
  }

  /** The payload after `datas`, in a batch of `n` chunks: the sizes of the others are still zero. */
  ghost predicate PartialPayload(raw: seq<byte>, n: nat, datas: seq<seq<byte>>) {
    && |datas| <= MAX_NUM_CHUNKS
    && raw == BigEndian(n, 2) + Sizes(datas) + Zeros(4 * (MAX_NUM_CHUNKS - |datas|)) + Flatten(datas)
  }

  method AppendBlock(raw: seq<byte>, txs: seq<Tx>) returns (r: Result<seq<byte>>)
    ensures r == match BlockData(txs) case Ok(data) => Ok(raw + data) case Err => Err
  {
    var bytes := raw;
    for i := 0 to |txs|
      invariant BlockData(txs[..i]).Ok? && bytes == raw + BlockData(txs[..i]).value
    {
      assert txs[..i + 1][..i] == txs[..i];
      if txs[i].L2Tx? {
        if txs[i].rlp.None? {
          BlockErrorStays(txs, i + 1);
          return Err;
        }
        bytes := bytes + txs[i].rlp.value;
      }
    }
    assert txs[..|txs|] == txs;
    return Ok(bytes);
  }

  lemma {:induction false} BlockErrorStays(txs: seq<Tx>, i: nat)
    requires i <= |txs| && BlockData(txs[..i]).Err?
    ensures BlockData(txs).Err?
    decreases |txs| - i
  {
    if i < |txs| {
      assert txs[..i + 1][..i] == txs[..i];
      BlockErrorStays(txs, i + 1);
    } else {
      assert txs[..i] == txs;
    }
  }

  method AppendChunk(raw: seq<byte>, blocks: seq<Block>) returns (r: Result<seq<byte>>)
    ensures r == match ChunkData(blocks) case Ok(data) => Ok(raw + data) case Err => Err
  {
    hide BlockData;
    var bytes := raw;
    for i := 0 to |blocks|
      invariant ChunkData(blocks[..i]).Ok? && bytes == raw + ChunkData(blocks[..i]).value
    {
      assert blocks[..i + 1][..i] == blocks[..i];
      var appended := AppendBlock(bytes, blocks[i].txs);
      if appended.Err? {
        ChunkErrorStays(blocks, i + 1);
        return Err;
      }
      bytes := appended.value;
    }
    assert blocks[..|blocks|] == blocks;
    return Ok(bytes);
  }

  lemma {:induction false} ChunkErrorStays(blocks: seq<Block>, i: nat)
    requires i <= |blocks| && ChunkData(blocks[..i]).Err?
    ensures ChunkData(blocks).Err?
    decreases |blocks| - i
  {
    hide BlockData;
    if i < |blocks| {
      assert blocks[..i + 1][..i] == blocks[..i];
      ChunkErrorStays(blocks, i + 1);
    } else {
      assert blocks[..i] == blocks;
    }
  }

  lemma {:induction false} ChunksErrorStays(chunks: seq<Chunk>, i: nat)
    requires i <= |chunks| && ChunksData(chunks[..i]).Err?
    ensures ChunksData(chunks).Err?
    decreases |chunks| - i
  {
    hide ChunkData;
    if i < |chunks| {
      assert chunks[..i + 1][..i] == chunks[..i];
      ChunksErrorStays(chunks, i + 1);
    } else {
      assert chunks[..i] == chunks;
    }
  }

  /** Overwrites four bytes. */
  function PutUint32(raw: seq<byte>, at: nat, n: nat): seq<byte>
    requires at + 4 <= |raw|
  {
    raw[..at] + BigEndian(n, 4) + raw[at + 4..]
  }

  lemma {:induction false} NextChunk(raw: seq<byte>, n: nat, datas: seq<seq<byte>>, data: seq<byte>)
    requires PartialPayload(raw, n, datas) && |datas| < MAX_NUM_CHUNKS
    ensures |raw| >= METADATA_LENGTH
    ensures PartialPayload(PutUint32(raw + data, 2 + 4 * |datas|, |data|), n, datas + [data])
  {
    hide BigEndian;
    var datas' := datas + [data];
    assert datas'[..|datas|] == datas;
    var at := 2 + 4 * |datas|;
    assert (raw + data)[..at] == BigEndian(n, 2) + Sizes(datas);
    assert (raw + data)[at + 4..] == Zeros(4 * (MAX_NUM_CHUNKS - |datas'|)) + Flatten(datas) + data;
  }

  /** The size of a chunk without data is already zero. */
  lemma {:induction false} NextEmptyChunk(raw: seq<byte>, n: nat, datas: seq<seq<byte>>)
    requires PartialPayload(raw, n, datas) && |datas| < MAX_NUM_CHUNKS
    ensures PartialPayload(raw, n, datas + [[]])
  {
    hide BigEndian;
    NextChunk(raw, n, datas, []);
    NoBytes();
    var at := 2 + 4 * |datas|;
    assert raw + [] == raw;
    assert raw[at..at + 4] == Zeros(4);
    assert raw == PutUint32(raw, at, 0);
  }

  lemma NoBytes()
    ensures BigEndian(0, 4) == Zeros(4)
  {
    assert BigEndian(0, 2) == Zeros(2);
  }

  method ConstructBlobPayload(chunks: seq<Chunk>) returns (r: Result<seq<byte>>)
    requires |chunks| <= MAX_NUM_CHUNKS
    ensures r == BlobPayload(chunks)
  {
    hide BigEndian, ChunkData, Flatten, Sizes, PartialPayload;
    var raw := Zeros(METADATA_LENGTH);
    raw := BigEndian(|chunks|, 2) + raw[2..];
    NoChunksYet(|chunks|);
    ghost var datas: seq<seq<byte>> := [];
    for id := 0 to |chunks|
      invariant ChunksData(chunks[..id]) == Ok(datas) && |datas| == id
      invariant PartialPayload(raw, |chunks|, datas)
    {
      assert chunks[..id + 1][..id] == chunks[..id];
      var start := |raw|;
      var appended := AppendChunk(raw, chunks[id].blocks);
      if appended.Err? {
        ChunksErrorStays(chunks, id + 1);
        return Err;
      }
      ghost var data := ChunkData(chunks[id].blocks).value;
      NextChunk(raw, |chunks|, datas, data);
      NextEmptyChunk(raw, |chunks|, datas);
      raw := appended.value;
      if |raw| - start != 0 {
        raw := PutUint32(raw, 2 + 4 * id, |raw| - start);
      } else {
        assert data == [] && raw == raw[..start];
      }
      datas := datas + [data];
    }
    assert chunks[..|chunks|] == chunks;
    WholePayload(raw, datas);
    return Ok(raw);
  }

  lemma NoChunksYet(n: nat)
    ensures PartialPayload(BigEndian(n, 2) + Zeros(METADATA_LENGTH)[2..], n, [])
  {
    assert Zeros(METADATA_LENGTH)[2..] == Zeros(60);
  }

  lemma WholePayload(raw: seq<byte>, datas: seq<seq<byte>>)
    requires PartialPayload(raw, |datas|, datas)
    ensures raw == Payload(datas)
  {
  }

  lemma {:induction false} ChunksDataLength(chunks: seq<Chunk>)
    requires ChunksData(chunks).Ok?
    ensures |ChunksData(chunks).value| == |chunks|
  {
    if chunks != [] {
      ChunksDataLength(chunks[..|chunks| - 1]);
    }
  }

  // ---------- Field elements ----------

  /** Byte `i` of the canonical blob: a zero in front of every 31 bytes of payload. */
  function CanonicalByte(raw: seq<byte>, i: nat): byte {
    var k := 31 * (i / 32) + i % 32 - 1;
    if i % 32 == 0 || k >= |raw| then 0 else raw[k]
  }

  function Canonical(raw: seq<byte>): (blob: seq<byte>)
    ensures |blob| == BLOB_SIZE
  {
    seq(BLOB_SIZE, i requires 0 <= i => CanonicalByte(raw, i))
  }

  method MakeBlobCanonical(raw: seq<byte>) returns (r: Result<seq<byte>>)
    ensures r == if |raw| > MAX_PAYLOAD then Err else Ok(Canonical(raw))
  {
    if |raw| > MAX_PAYLOAD {
      return Err;
    }
    var blob := new byte[BLOB_SIZE](_ => 0);
    var index, from := 0, 0;
    while from < |raw|
      invariant 0 <= from && index % 32 == 0 && from == 31 * (index / 32)
      invariant forall i :: 0 <= i < index && i < BLOB_SIZE ==> blob[i] == CanonicalByte(raw, i)
      invariant forall i :: index <= i < BLOB_SIZE ==> blob[i] == 0
    {
      var to := if from + 31 > |raw| then |raw| else from + 31;
      CopyElement(blob, index, raw, from, to);
      index := index + 32;
      from := from + 31;
    }
    forall i | index <= i < BLOB_SIZE ensures blob[i] == CanonicalByte(raw, i) {
      PastTheEnd(raw, index, i);
    }
    assert blob[..] == Canonical(raw);
    return Ok(blob[..]);
  }

  method CopyElement(blob: array<byte>, index: nat, raw: seq<byte>, from: nat, to: nat)
    requires blob.Length == BLOB_SIZE && index + 32 <= BLOB_SIZE && index % 32 == 0
    requires from == 31 * (index / 32) && from <= to <= |raw| && to == (if from + 31 > |raw| then |raw| else from + 31)
    requires forall i :: index <= i < BLOB_SIZE ==> blob[i] == 0
    modifies blob
    ensures forall i :: 0 <= i < index ==> blob[i] == old(blob[i])
    ensures forall i :: index <= i < index + 32 ==> blob[i] == CanonicalByte(raw, i)
    ensures forall i :: index + 32 <= i < BLOB_SIZE ==> blob[i] == 0
  {
    ghost var before := blob[..];
    CopyInto(blob, index + 1, raw[from..to]);
    forall i | 0 <= i < BLOB_SIZE
      ensures blob[i] == if index + 1 <= i < index + 1 + (to - from) then raw[from + (i - index - 1)] else before[i]
    {
      assert blob[i] == blob[..][i];
    }
    forall i | index <= i < index + 32 ensures blob[i] == CanonicalByte(raw, i) {
      assert i / 32 == index / 32 && i % 32 == i - index;
    }
  }

  lemma {:induction false} PastTheEnd(raw: seq<byte>, index: nat, i: nat)
    requires index % 32 == 0 && 31 * (index / 32) >= |raw| && index <= i
    ensures CanonicalByte(raw, i) == 0
  {
    assert i / 32 >= index / 32;
  }

  /** Undoes the padding: the first `n` payload bytes of a blob. */
  function Strip(blob: seq<byte>, n: nat): (raw: seq<byte>)
    requires |blob| == BLOB_SIZE && n <= MAX_PAYLOAD
  {
    seq(n, k requires 0 <= k < n => blob[32 * (k / 31) + 1 + k % 31])
  }

  lemma {:induction false} StripCanonical(raw: seq<byte>)
    requires |raw| <= MAX_PAYLOAD
    ensures Strip(Canonical(raw), MAX_PAYLOAD) == raw + Zeros(MAX_PAYLOAD - |raw|)
  {
    var stripped := Strip(Canonical(raw), MAX_PAYLOAD);
    forall k | 0 <= k < MAX_PAYLOAD ensures stripped[k] == (raw + Zeros(MAX_PAYLOAD - |raw|))[k] {
      var i := 32 * (k / 31) + 1 + k % 31;
      assert i / 32 == k / 31 && i % 32 == 1 + k % 31;
      assert 31 * (i / 32) + i % 32 - 1 == k;
    }
  }

  // ---------- Reading a blob back ----------

  function SizeAt(raw: seq<byte>, i: nat): nat
    requires |raw| >= METADATA_LENGTH && i < MAX_NUM_CHUNKS
  {
    FromBigEndian(raw[2 + 4 * i..6 + 4 * i])
  }

  /** Where the data of chunk `i` starts. */
  function OffsetAt(raw: seq<byte>, i: nat): nat
    requires |raw| >= METADATA_LENGTH && i <= MAX_NUM_CHUNKS
  {
    if i == 0 then METADATA_LENGTH else OffsetAt(raw, i - 1) + SizeAt(raw, i - 1)
  }

  /** The data of the first `n` chunks, read from the metadata. */
  function ReadChunks(raw: seq<byte>, n: nat): Result<seq<seq<byte>>>
    requires |raw| >= METADATA_LENGTH && n <= MAX_NUM_CHUNKS
  {
    if n == 0 then Ok([])
    else
      var front :- ReadChunks(raw, n - 1);
      if OffsetAt(raw, n) > |raw| then Err
      else Ok(front + [raw[OffsetAt(raw, n - 1)..OffsetAt(raw, n)]])
  }

  function DecodeBlob(blob: seq<byte>): Result<seq<seq<byte>>>
    requires |blob| == BLOB_SIZE
  {
    var raw := Strip(blob, MAX_PAYLOAD);
    var n := FromBigEndian(raw[..2]);
    if n > MAX_NUM_CHUNKS then Err else ReadChunks(raw, n)
  }

  lemma {:induction false} SizeBytes(datas: seq<seq<byte>>, i: nat)
    requires i < |datas|
    ensures Sizes(datas)[4 * i..4 * i + 4] == BigEndian(|datas[i]|, 4)
  {
    hide BigEndian;
    var front := datas[..|datas| - 1];
    if i < |datas| - 1 {
      SizeBytes(front, i);
      assert Sizes(datas)[4 * i..4 * i + 4] == Sizes(front)[4 * i..4 * i + 4];
    }
  }

  lemma {:induction false} FlattenSlice(datas: seq<seq<byte>>, i: nat)
    requires i < |datas|
    ensures |Flatten(datas[..i + 1])| == |Flatten(datas[..i])| + |datas[i]| <= |Flatten(datas)|
    ensures Flatten(datas)[|Flatten(datas[..i])|..|Flatten(datas[..i + 1])|] == datas[i]
    decreases |datas|
  {
    var front := datas[..|datas| - 1];
    assert datas[..i + 1][..i] == datas[..i];
    if i < |datas| - 1 {
      FlattenSlice(front, i);
      assert front[..i] == datas[..i] && front[..i + 1] == datas[..i + 1];
      var a, b := |Flatten(datas[..i])|, |Flatten(datas[..i + 1])|;
      assert Flatten(datas)[a..b] == Flatten(front)[a..b];
    } else {
      assert datas[..i + 1] == datas;
    }
  }

  lemma {:induction false} ReadSize(datas: seq<seq<byte>>, pad: nat, i: nat)
    requires i < |datas| <= MAX_NUM_CHUNKS && |Flatten(datas)| < TWO_TO_32
    ensures SizeAt(Payload(datas) + Zeros(pad), i) == |datas[i]|
  {
    hide BigEndian, FromBigEndian, Flatten, Sizes;
    var raw := Payload(datas) + Zeros(pad);
    assert raw[2 + 4 * i..6 + 4 * i] == Sizes(datas)[4 * i..4 * i + 4];
    SizeBytes(datas, i);
    FlattenSlice(datas, i);
    WordSizes();
    DecodeEncode(|datas[i]|, 4);
  }

  lemma {:induction false} ReadOffset(datas: seq<seq<byte>>, pad: nat, i: nat)
    requires i <= |datas| <= MAX_NUM_CHUNKS && |Flatten(datas)| < TWO_TO_32
    ensures OffsetAt(Payload(datas) + Zeros(pad), i) == METADATA_LENGTH + |Flatten(datas[..i])|
  {
    hide SizeAt, Payload;
    if i > 0 {
      ReadOffset(datas, pad, i - 1);
      ReadSize(datas, pad, i - 1);
      FlattenSlice(datas, i - 1);
    } else {
      assert Flatten(datas[..0]) == [];
    }
  }

  lemma {:induction false} ReadChunk(datas: seq<seq<byte>>, pad: nat, i: nat)
    requires i < |datas| <= MAX_NUM_CHUNKS && |Flatten(datas)| < TWO_TO_32
    ensures var raw := Payload(datas) + Zeros(pad);
      OffsetAt(raw, i) <= OffsetAt(raw, i + 1) <= |raw| && raw[OffsetAt(raw, i)..OffsetAt(raw, i + 1)] == datas[i]
  {
    hide OffsetAt, Flatten, Sizes, BigEndian;
    ReadOffset(datas, pad, i);
    ReadOffset(datas, pad, i + 1);
    FlattenSlice(datas, i);
    var raw := Payload(datas) + Zeros(pad);
    var a, b := |Flatten(datas[..i])|, |Flatten(datas[..i + 1])|;
    assert raw[62..62 + |Flatten(datas)|] == Flatten(datas);
    SliceOfSlice(raw, 62, 62 + |Flatten(datas)|, a, b);
  }

  lemma {:induction false} ReadPayload(datas: seq<seq<byte>>, pad: nat, n: nat)
    requires n <= |datas| <= MAX_NUM_CHUNKS && |Flatten(datas)| < TWO_TO_32
    ensures ReadChunks(Payload(datas) + Zeros(pad), n) == Ok(datas[..n])
  {
    hide OffsetAt, Payload, Flatten;
    if n > 0 {
      ReadPayload(datas, pad, n - 1);
      ReadChunk(datas, pad, n - 1);
      assert datas[..n] == datas[..n - 1] + [datas[n - 1]];
    }
  }

  /** Every payload that is accepted can be read back from its blob: the data of each chunk, in order. */
  lemma {:induction false} BlobRoundTrip(datas: seq<seq<byte>>)
    requires |datas| <= MAX_NUM_CHUNKS && |Payload(datas)| <= MAX_PAYLOAD
    ensures DecodeBlob(Canonical(Payload(datas))) == Ok(datas)
  {
    hide Canonical, Strip, ReadChunks, Flatten, Sizes, FromBigEndian, BigEndian;
    var raw := Payload(datas);
    StripCanonical(raw);
    var padded := raw + Zeros(MAX_PAYLOAD - |raw|);
    assert padded[..2] == BigEndian(|datas|, 2);
    WordSizes();
    DecodeEncode(|datas|, 2);
    ReadPayload(datas, MAX_PAYLOAD - |raw|, |datas|);
    assert datas[..|datas|] == datas;
  }

  // ---------- Field elements are below the BLS modulus ----------

  lemma {:induction false} EightBytes(k: nat)
    ensures Pow256(k + 8) == TWO_TO_64 * Pow256(k)
  {
    assert Pow256(k + 2) == 65536 * Pow256(k);
    assert Pow256(k + 4) == 65536 * Pow256(k + 2);
    assert Pow256(k + 6) == 65536 * Pow256(k + 4);
  }

  lemma {:induction false} BelowModulus()
    ensures Pow256(31) < BLS_MODULUS
  {
    EightBytes(23);
    EightBytes(15);
    EightBytes(7);
    assert Pow256(7) < TWO_TO_64 / 100;
  }

  lemma {:induction false} LeadingZero(bytes: seq<byte>)
    requires |bytes| > 0 && bytes[0] == 0
    ensures FromBigEndian(bytes) == FromBigEndian(bytes[1..])
  {
    if |bytes| > 1 {
      var front := bytes[..|bytes| - 1];
      LeadingZero(front);
      assert front[1..] == bytes[1..][..|bytes| - 2];
    }
  }

  /** Every 32-byte element of a blob is a valid BLS field element. */
  lemma {:induction false} ElementsBelowModulus(raw: seq<byte>, k: nat)
    requires k < 4096
    ensures FromBigEndian(Canonical(raw)[32 * k..32 * k + 32]) < BLS_MODULUS
  {
    hide FromBigEndian, Pow256;
    var element := Canonical(raw)[32 * k..32 * k + 32];
    LeadingZero(element);
    FromBigEndianBound(element[1..]);
    BelowModulus();
  }
}
