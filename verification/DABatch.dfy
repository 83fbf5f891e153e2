/** Batch headers of both codecs, and the batch built from L2 chunks. */
module DABatches {
  import opened Wrappers
  import opened Bytes
  import opened L2Data
  import opened DAChunks
  import opened SkippedBitmaps
  import opened Blobs

  /** A batch header. codecv0 has no blob: its versioned hash is zero. */
  datatype DABatch = DABatch(version: byte, batchIndex: uint64, l1MessagePopped: uint64, totalL1MessagePopped: uint64,
                             dataHash: Hash, blobVersionedHash: Hash, parentBatchHash: Hash,
                             skippedL1MessageBitmap: seq<byte>)

  // ---------- Header bytes ----------

  function HeaderLength(codec: Codec): nat {
    match codec case V0 => 89 case V1 => 121
  }

  function HeaderBytes(codec: Codec, b: DABatch): (bytes: seq<byte>)
    ensures |bytes| == HeaderLength(codec) + |b.skippedL1MessageBitmap|
  {
    [b.version] + BigEndian(b.batchIndex, 8) + BigEndian(b.l1MessagePopped, 8) + BigEndian(b.totalL1MessagePopped, 8) +
    b.dataHash + (if codec.V1? then b.blobVersionedHash else []) + b.parentBatchHash + b.skippedL1MessageBitmap
  }

  /** The fields that both codecs put first. */
  method EncodePrefix(buffer: array<byte>, b: DABatch) returns (ghost s: seq<byte>)
    requires Written(buffer, []) && buffer.Length >= 89
    modifies buffer
    ensures s == [b.version] + BigEndian(b.batchIndex, 8) + BigEndian(b.l1MessagePopped, 8) +
                 BigEndian(b.totalL1MessagePopped, 8) + b.dataHash
    ensures Written(buffer, s)
  {
    hide BigEndian, Written, Zeros;
    WriteAt(buffer, 0, [b.version], []);
    s := [] + Zeros(0) + [b.version];
    WriteAt(buffer, 1, BigEndian(b.batchIndex, 8), s);
    s := s + Zeros(0) + BigEndian(b.batchIndex, 8);
    WriteAt(buffer, 9, BigEndian(b.l1MessagePopped, 8), s);
    s := s + Zeros(0) + BigEndian(b.l1MessagePopped, 8);
    WriteAt(buffer, 17, BigEndian(b.totalL1MessagePopped, 8), s);
    s := s + Zeros(0) + BigEndian(b.totalL1MessagePopped, 8);
    WriteAt(buffer, 25, b.dataHash, s);
    s := s + Zeros(0) + b.dataHash;
  }

  method EncodeHeader(codec: Codec, b: DABatch) returns (bytes: seq<byte>)
    ensures bytes == HeaderBytes(codec, b)
  {
    hide BigEndian, Written, Zeros;
    var buffer := ZeroedBuffer(HeaderLength(codec) + |b.skippedL1MessageBitmap|);
    ghost var s := EncodePrefix(buffer, b);
    var at := 57;
    if codec.V1? {
      WriteAt(buffer, at, b.blobVersionedHash, s);
      s := s + Zeros(0) + b.blobVersionedHash;
      at := 89;
    }
    WriteAt(buffer, at, b.parentBatchHash, s);
    s := s + Zeros(0) + b.parentBatchHash;
    WriteAt(buffer, at + 32, b.skippedL1MessageBitmap, s);
    s := s + Zeros(0) + b.skippedL1MessageBitmap;
    WholeBuffer(buffer, s);
    bytes := buffer[..];
  }

  function NewDABatchFromBytes(codec: Codec, data: seq<byte>): Result<DABatch> {
    if |data| < HeaderLength(codec) then Err
    else
      var parent := HeaderLength(codec) - 32;
      Ok(DABatch(data[0], ReadUint64(data, 1), ReadUint64(data, 9), ReadUint64(data, 17), data[25..57],
                 if codec.V1? then data[57..89] else ZERO_HASH, data[parent..parent + 32], data[parent + 32..]))
  }

  lemma {:induction false} ReadField(n: uint64, bytes: seq<byte>, at: nat)
    requires at + 8 <= |bytes| && bytes[at..at + 8] == BigEndian(n, 8)
    ensures ReadUint64(bytes, at) == n
  {
    hide BigEndian, FromBigEndian;
    WordSizes();
    DecodeEncode(n, 8);
  }

  /** Decoding a header gives back the batch that was encoded. */
  lemma {:induction false} HeaderRoundTrip(codec: Codec, b: DABatch)
    requires codec.V0? ==> b.blobVersionedHash == ZERO_HASH
    ensures NewDABatchFromBytes(codec, HeaderBytes(codec, b)) == Ok(b)
  {
    hide BigEndian, FromBigEndian, ReadUint64, Zeros;
    var data := HeaderBytes(codec, b);
    assert data[1..9] == BigEndian(b.batchIndex, 8);
    ReadField(b.batchIndex, data, 1);
    assert data[9..17] == BigEndian(b.l1MessagePopped, 8);
    ReadField(b.l1MessagePopped, data, 9);
    assert data[17..25] == BigEndian(b.totalL1MessagePopped, 8);
    ReadField(b.totalL1MessagePopped, data, 17);
    assert data[25..57] == b.dataHash;
    assert codec.V1? ==> data[57..89] == b.blobVersionedHash;
    var parent := HeaderLength(codec) - 32;
    assert data[parent..parent + 32] == b.parentBatchHash;
    assert data[parent + 32..] == b.skippedL1MessageBitmap;
  }

  lemma {:induction false} WrittenField(bytes: seq<byte>, at: nat)
    requires at + 8 <= |bytes|
    ensures BigEndian(ReadUint64(bytes, at), 8) == bytes[at..at + 8]
  {
    EncodeDecode(bytes[at..at + 8]);
  }

  /** Encoding gives back any bytes that decode; exactly the bytes shorter than a header do not. */
  lemma {:induction false} BytesRoundTrip(codec: Codec, data: seq<byte>)
    ensures NewDABatchFromBytes(codec, data).Ok? <==> |data| >= HeaderLength(codec)
    ensures NewDABatchFromBytes(codec, data).Ok? ==> HeaderBytes(codec, NewDABatchFromBytes(codec, data).value) == data
  {
    hide BigEndian, FromBigEndian, ReadUint64, Zeros;
    if |data| >= HeaderLength(codec) {
      WrittenField(data, 1);
      WrittenField(data, 9);
      WrittenField(data, 17);
      var parent := HeaderLength(codec) - 32;
      assert data == [data[0]] + data[1..9] + data[9..17] + data[17..25] + data[25..57] +
                     (if codec.V1? then data[57..89] else []) + data[parent..parent + 32] + data[parent + 32..];
    }
  }

  /** The counter after the parent batch, read from its stored header. */
  function GetTotalL1MessagePoppedBeforeBatch(parentBatchBytes: seq<byte>, codec: Codec): Result<uint64> {
    var parent :- NewDABatchFromBytes(codec, parentBatchBytes);
    Ok(parent.totalL1MessagePopped)
  }

  /** The counter is read back with the codec that wrote it. With the other codec it is read back too,
      except from a codecv0 header without any bitmap word, which codecv1 finds too short. */
  lemma {:induction false} CounterFromHeader(writer: Codec, reader: Codec, b: DABatch)
    ensures GetTotalL1MessagePoppedBeforeBatch(HeaderBytes(writer, b), reader) ==
      if writer.V0? && reader.V1? && |b.skippedL1MessageBitmap| < 32 then Err else Ok(b.totalL1MessagePopped)
  {
    hide BigEndian, FromBigEndian, ReadUint64, Zeros;
    var data := HeaderBytes(writer, b);
    assert data[17..25] == BigEndian(b.totalL1MessagePopped, 8);
    ReadField(b.totalL1MessagePopped, data, 17);
  }

  // ---------- From L2 chunks ----------

  /** The hash functions: Keccak-256, and the versioned hash of a blob's KZG commitment. */
  datatype Crypto = Crypto(keccak: seq<byte> -> Hash, versionedHash: seq<byte> -> Hash)

  function HashOfChunk(codec: Codec, chunk: Chunk, before: uint64, crypto: Crypto): Result<Hash> {
    var daChunk :- DAChunkOf(codec, chunk, before);
    ChunkHash(codec, daChunk, crypto.keccak)
  }

  /** The chunk hashes end to end; every chunk sees the counter left by the chunks before it. */
  function ChunkHashes(codec: Codec, chunks: seq<Chunk>, before: uint64, crypto: Crypto): Result<seq<byte>> {
    if chunks == [] then Ok([])
    else
      var front := chunks[..|chunks| - 1];
      var hashes :- ChunkHashes(codec, front, before, crypto);
      var hash :- HashOfChunk(codec, chunks[|chunks| - 1], ThreadChunks(front, before), crypto);
      Ok(hashes + hash)
  }

  predicate ChunkCountAccepted(codec: Codec, n: nat) {
    codec.V0? || 1 <= n <= MAX_NUM_CHUNKS
  }

  /** The versioned hash of the batch's blob, or an error for a transaction without encoding or an oversized payload. */
  function BlobHashOf(codec: Codec, chunks: seq<Chunk>, crypto: Crypto): Result<Hash>
    requires ChunkCountAccepted(codec, |chunks|)
  {
    match codec
    case V0 => Ok(ZERO_HASH)
    case V1 =>
      var raw :- BlobPayload(chunks);
      if |raw| > MAX_PAYLOAD then Err else Ok(crypto.versionedHash(Canonical(raw)))
  }

  function VersionOf(codec: Codec): byte {
    match codec case V0 => 0 case V1 => 1
  }

  function DABatchOf(codec: Codec, batch: Batch, crypto: Crypto): Result<DABatch> {
    var before := batch.totalL1MessagePoppedBefore;
    if !ChunkCountAccepted(codec, |batch.chunks|) then Err
    else
      var hashes :- ChunkHashes(codec, batch.chunks, before, crypto);
      var (bitmap, after) :- SkippedBitmap(batch.chunks, before);
      var blobHash :- BlobHashOf(codec, batch.chunks, crypto);
      QueueOrderConcat(before, ChunksIndices(batch.chunks), []);
      Ok(DABatch(VersionOf(codec), batch.index, after - before, after, crypto.keccak(hashes), blobHash,
                 batch.parentBatchHash, bitmap))
  }

  lemma {:induction false} HashErrorStays(codec: Codec, chunks: seq<Chunk>, before: uint64, crypto: Crypto, i: nat)
    requires i <= |chunks| && ChunkHashes(codec, chunks[..i], before, crypto).Err?
    ensures ChunkHashes(codec, chunks, before, crypto).Err?
    decreases |chunks| - i
  {
    hide HashOfChunk, ThreadChunks;
    if i < |chunks| {
      assert chunks[..i + 1][..i] == chunks[..i];
      HashErrorStays(codec, chunks, before, crypto, i + 1);
    } else {
      assert chunks[..i] == chunks;
    }
  }

  method ComputeChunkHashes(codec: Codec, chunks: seq<Chunk>, totalL1MessagePoppedBefore: uint64, crypto: Crypto)
    returns (r: Result<seq<byte>>)
    ensures r == ChunkHashes(codec, chunks, totalL1MessagePoppedBefore, crypto)
  {
    hide Wrap, ChunkHash, DAChunkOf, BlocksL1Messages;
    var dataBytes, before := [], totalL1MessagePoppedBefore;
    for i := 0 to |chunks|
      invariant ChunkHashes(codec, chunks[..i], totalL1MessagePoppedBefore, crypto) == Ok(dataBytes)
      invariant before == ThreadChunks(chunks[..i], totalL1MessagePoppedBefore)
    {
      assert chunks[..i + 1][..i] == chunks[..i];
      var daChunk := NewDAChunk(codec, chunks[i], before);
      if daChunk.Err? || ChunkHash(codec, daChunk.value, crypto.keccak).Err? {
        HashErrorStays(codec, chunks, totalL1MessagePoppedBefore, crypto, i + 1);
        return Err;
      }
      var popped := NumL1MessagesOfChunk(chunks[i], before);
      before := Wrap((before as int) + popped);
      dataBytes := dataBytes + ChunkHash(codec, daChunk.value, crypto.keccak).value;
    }
    assert chunks[..|chunks|] == chunks;
    return Ok(dataBytes);
  }

  method ComputeBlobHash(codec: Codec, chunks: seq<Chunk>, crypto: Crypto) returns (r: Result<Hash>)
    requires ChunkCountAccepted(codec, |chunks|)
    ensures r == BlobHashOf(codec, chunks, crypto)
  {
    hide BlobPayload, Canonical, Zeros;
    if codec.V0? {
      return Ok(ZERO_HASH);
    }
    var raw := ConstructBlobPayload(chunks);
    if raw.Err? {
      return Err;
    }
    var blob := MakeBlobCanonical(raw.value);
    if blob.Err? {
      return Err;
    }
    return Ok(crypto.versionedHash(blob.value));
  }

  method NewDABatch(codec: Codec, batch: Batch, crypto: Crypto) returns (r: Result<DABatch>)
    ensures r == DABatchOf(codec, batch, crypto)
  {
    hide ChunkHashes, SkippedBitmap, BlobHashOf, ChunksIndices, Zeros;
    if codec.V1? && |batch.chunks| > MAX_NUM_CHUNKS {
      return Err;
    }
    if codec.V1? && |batch.chunks| == 0 {
      return Err;
    }
    var before := batch.totalL1MessagePoppedBefore;
    var hashes := ComputeChunkHashes(codec, batch.chunks, before, crypto);
    if hashes.Err? {
      return Err;
    }
    var bitmap := ConstructSkippedBitmap(batch.chunks, before);
    if bitmap.Err? {
      return Err;
    }
    var blobHash := ComputeBlobHash(codec, batch.chunks, crypto);
    if blobHash.Err? {
      return Err;
    }
    BitmapAfter(batch.chunks, before);
    return Ok(DABatch(VersionOf(codec), batch.index, bitmap.value.1 - before, bitmap.value.1,
                      crypto.keccak(hashes.value), blobHash.value, batch.parentBatchHash, bitmap.value.0));
  }

  lemma {:induction false} BitmapAfter(chunks: seq<Chunk>, before: uint64)
    requires SkippedBitmap(chunks, before).Ok?
    ensures before <= SkippedBitmap(chunks, before).value.1 == ThreadChunks(chunks, before)
  {
    hide ThreadChunks, ChunksIndices, EncodeWords, SkippedWords;
    ChunksCounter(chunks, before);
  }

  // ---------- Metadata ----------

  datatype BatchMetadata = BatchMetadata(batchHash: Hash, batchBytes: seq<byte>, startChunkHash: Hash,
      endChunkHash: Hash)

  function MetadataOf(codec: Codec, batch: Batch, crypto: Crypto): Result<BatchMetadata>
    requires |batch.chunks| > 0
  {
    var n, before := |batch.chunks|, batch.totalL1MessagePoppedBefore;
    var daBatch :- DABatchOf(codec, batch, crypto);
    var start :- HashOfChunk(codec, batch.chunks[0], before, crypto);
    var end :- HashOfChunk(codec, batch.chunks[n - 1], ThreadChunks(batch.chunks[..n - 1], before), crypto);
    Ok(BatchMetadata(crypto.keccak(HeaderBytes(codec, daBatch)), HeaderBytes(codec, daBatch), start, end))
  }

  method GetBatchMetadata(codec: Codec, batch: Batch, crypto: Crypto) returns (r: Result<BatchMetadata>)
    requires |batch.chunks| > 0
    ensures r == MetadataOf(codec, batch, crypto)
  {
    hide Wrap, ChunkHash, DAChunkOf, BlocksL1Messages, DABatchOf, HeaderBytes;
    var n := |batch.chunks|;
    var before := batch.totalL1MessagePoppedBefore;
    for i := 0 to n - 1
      invariant before == ThreadChunks(batch.chunks[..i], batch.totalL1MessagePoppedBefore)
    {
      assert batch.chunks[..i + 1][..i] == batch.chunks[..i];
      var popped := NumL1MessagesOfChunk(batch.chunks[i], before);
      before := Wrap((before as int) + popped);
    }
    var daBatch := NewDABatch(codec, batch, crypto);
    if daBatch.Err? {
      return Err;
    }
    var bytes := EncodeHeader(codec, daBatch.value);
    var startChunk := NewDAChunk(codec, batch.chunks[0], batch.totalL1MessagePoppedBefore);
    if startChunk.Err? || ChunkHash(codec, startChunk.value, crypto.keccak).Err? {
      return Err;
    }
    var endChunk := NewDAChunk(codec, batch.chunks[n - 1], before);
    if endChunk.Err? || ChunkHash(codec, endChunk.value, crypto.keccak).Err? {
      return Err;
    }
    return Ok(BatchMetadata(crypto.keccak(bytes), bytes, ChunkHash(codec, startChunk.value, crypto.keccak).value,
                            ChunkHash(codec, endChunk.value, crypto.keccak).value));
  }

  /** Every chunk of a batch has a hash at its own counter. */
  lemma {:induction false} ChunkHashAt(codec: Codec, chunks: seq<Chunk>, before: uint64, crypto: Crypto, i: nat)
    requires ChunkHashes(codec, chunks, before, crypto).Ok? && i < |chunks|
    ensures HashOfChunk(codec, chunks[i], ThreadChunks(chunks[..i], before), crypto).Ok?
    decreases |chunks|
  {
    hide HashOfChunk, ThreadChunks;
    var front := chunks[..|chunks| - 1];
    if i < |front| {
      ChunkHashAt(codec, front, before, crypto, i);
      assert front[..i] == chunks[..i];
    }
  }

  /** A batch that can be built has metadata: hashing its first and last chunk cannot fail on its own. */
  lemma {:induction false} MetadataIff(codec: Codec, batch: Batch, crypto: Crypto)
    requires |batch.chunks| > 0
    ensures MetadataOf(codec, batch, crypto).Ok? <==> DABatchOf(codec, batch, crypto).Ok?
  {
    hide HashOfChunk, ThreadChunks, SkippedBitmap, BlobHashOf, HeaderBytes;
    if DABatchOf(codec, batch, crypto).Ok? {
      var before := batch.totalL1MessagePoppedBefore;
      ChunkHashAt(codec, batch.chunks, before, crypto, 0);
      NothingThreaded(batch.chunks, before);
      ChunkHashAt(codec, batch.chunks, before, crypto, |batch.chunks| - 1);
    }
  }

  lemma NothingThreaded(chunks: seq<Chunk>, before: uint64)
    ensures ThreadChunks(chunks[..0], before) == before
  {
  }

  /** The counter of a new batch: the messages of every chunk are counted once, none wraps, and the
      counter before the last chunk plus its messages is the counter after the batch. */
  lemma {:induction false} BatchCounters(codec: Codec, batch: Batch, crypto: Crypto)
    requires |batch.chunks| > 0 && DABatchOf(codec, batch, crypto).Ok?
    ensures var b, n, before := DABatchOf(codec, batch, crypto).value, |batch.chunks|, batch.totalL1MessagePoppedBefore;
      var beforeEnd := ThreadChunks(batch.chunks[..n - 1], before);
      && b.totalL1MessagePopped == ThreadChunks(batch.chunks, before)
      && before + b.l1MessagePopped == b.totalL1MessagePopped
      && beforeEnd + BlocksL1Messages(batch.chunks[n - 1].blocks, beforeEnd) == b.totalL1MessagePopped
      && InQueueOrder(before, ChunksIndices(batch.chunks))
      && b.totalL1MessagePopped == After(before, ChunksIndices(batch.chunks))
  {
    hide ChunkHashes, BlobHashOf, Wrap, BlocksL1Messages, BlocksIndices, EncodeWords, SkippedWords, InQueueOrder;
    var before, chunks := batch.totalL1MessagePoppedBefore, batch.chunks;
    var front, last := chunks[..|chunks| - 1], chunks[|chunks| - 1];
    ChunksCounter(chunks, before);
    QueueOrderConcat(before, ChunksIndices(front), BlocksIndices(last.blocks));
    ChunksCounter(front, before);
    BlocksCounter(last.blocks, After(before, ChunksIndices(front)));
  }
}
