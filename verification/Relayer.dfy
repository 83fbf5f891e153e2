/** The relayer's commit payloads, rebuilt from the rollup database. */
module Relayers {
  import opened Wrappers
  import opened Bytes
  import opened L2Data
  import opened DAChunks
  import opened DABatches
  import opened Forks
  import opened RollupTables
  import opened Blobs
  import opened Proposers
  import SkippedBitmaps

  /** The arguments of a commitBatch transaction, and its blob. */
  datatype Commit = Commit(version: byte, parentHeader: seq<byte>, chunks: seq<seq<byte>>, bitmap: seq<byte>,
                           blob: Option<seq<byte>>)

  // ---------- Rebuilding ----------

  /** The batch that the relayer rebuilds from the rows of batch `b`. */
  function RebuiltInput(contents: seq<Chunk>, rows: seq<ChunkRow>, batches: seq<BatchRow>, b: nat): Batch
    requires 0 < b < |batches| && batches[b].startChunkIndex <= batches[b].endChunkIndex < |rows| == |contents|
  {
    var s, e := batches[b].startChunkIndex, batches[b].endChunkIndex;
    Batch(batches[b].index, rows[s].poppedBefore, batches[b - 1].hash, contents[s..e + 1])
  }

  /** The rebuilt batch is the batch whose header is stored. */
  lemma {:induction false} RebuiltHeader(cfg: ChainConfig, contents: seq<Chunk>, rows: seq<ChunkRow>,
      batches: seq<BatchRow>, b: nat)
    requires BatchesTiled(rows, batches) && |rows| == |contents| && 0 < b < |batches|
    requires ChunksRecorded(cfg, contents, rows) && BatchRecorded(cfg, contents, rows, batches[b]) && Chained(batches)
    ensures HeaderRecorded(BatchCodec(cfg, rows, batches[b]), RebuiltInput(contents, rows, batches, b), cfg.crypto,
        batches[b])
  {
    hide HeaderRecorded, ThreadChunks, BlocksL1Messages, HashOfChunk, NoForkWithin;
    var s := batches[b].startChunkIndex;
    assert ChunkRecorded(cfg, contents[..s], contents[s], rows[s]);
    assert batches[b].parentBatchHash == batches[b - 1].hash;
  }

  /** A recorded chunk can be encoded with its codec. */
  lemma {:induction false} ChunkEncodes(cfg: ChainConfig, contents: seq<Chunk>, rows: seq<ChunkRow>, i: nat)
    requires ChunksRecorded(cfg, contents, rows) && i < |rows|
    ensures DAChunkOf(ChunkCodec(cfg, rows[i]), contents[i], rows[i].poppedBefore).Ok?
    ensures ChunkBytes(ChunkCodec(cfg, rows[i]),
        DAChunkOf(ChunkCodec(cfg, rows[i]), contents[i], rows[i].poppedBefore).value).Ok?
  {
    hide ThreadChunks, BlocksL1Messages, DAChunkOf, BlocksBytes, Payloads, NoForkWithin;
    assert ChunkRecorded(cfg, contents[..i], contents[i], rows[i]);
  }

  /** All chunks of a batch have its codec. */
  lemma {:induction false} ChunksShareCodec(cfg: ChainConfig, blocks: seq<Block>, contents: seq<Chunk>,
      rows: seq<ChunkRow>, batch: BatchRow, i: nat)
    requires ValidConfig(cfg) && Tiled(blocks, rows) && |rows| == |contents| && batch.index > 0
    requires 0 < batch.startChunkIndex <= i <= batch.endChunkIndex < |rows| && BatchRecorded(cfg, contents, rows, batch)
    ensures ChunkCodec(cfg, rows[i]) == BatchCodec(cfg, rows, batch)
    ensures ChunkCodec(cfg, rows[i]) == CodecAt(cfg, rows[batch.startChunkIndex].startBlock)
  {
    hide HeaderRecorded, NoForkWithin;
    RowsAscend(blocks, rows, batch.startChunkIndex, i);
    RowsAscend(blocks, rows, i, batch.endChunkIndex);
    NarrowRange(cfg.forks, rows[batch.startChunkIndex].startBlock, rows[i].startBlock,
        rows[batch.endChunkIndex].endBlock);
    SameCodec(cfg, rows[batch.startChunkIndex].startBlock, rows[i].startBlock);
  }

  lemma NarrowRange(forks: seq<uint64>, a: nat, b: nat, c: nat)
    requires b <= c && NoForkWithin(forks, a, c)
    ensures NoForkWithin(forks, a, b)
  {
  }

  // ---------- What is committed ----------

  /** Chunk `i` of the payload is chunk row `s + i`, encoded. */
  ghost predicate EncodesRows(codec: Codec, encoded: seq<seq<byte>>, contents: seq<Chunk>, rows: seq<ChunkRow>,
      s: nat) {
    && s + |encoded| <= |rows| == |contents|
    && forall i :: 0 <= i < |encoded| ==> EncodesRow(codec, encoded[i], contents[s + i], rows[s + i])
  }

  ghost predicate EncodesRow(codec: Codec, bytes: seq<byte>, chunk: Chunk, row: ChunkRow) {
    && DAChunkOf(codec, chunk, row.poppedBefore).Ok?
    && Encodes(codec, bytes, DAChunkOf(codec, chunk, row.poppedBefore).value)
  }

  /** The payload commits the stored batch: its header's version and bitmap, its parent's header, its chunks,
      and for codecv1 the blob whose hash is in the header and whose content is the L2 transactions of the chunks. */
  ghost predicate Commits(codec: Codec, crypto: Crypto, contents: seq<Chunk>, rows: seq<ChunkRow>, parent: BatchRow,
      batch: BatchRow, p: Commit)
    requires batch.startChunkIndex <= batch.endChunkIndex < |rows| == |contents|
  {
    var header := NewDABatchFromBytes(codec, batch.header);
    && header.Ok? && p.version == header.value.version == VersionOf(codec)
    && p.bitmap == header.value.skippedL1MessageBitmap
    && header.value.parentBatchHash == parent.hash && p.parentHeader == parent.header
    && |p.chunks| == batch.endChunkIndex + 1 - batch.startChunkIndex
    && EncodesRows(codec, p.chunks, contents, rows, batch.startChunkIndex)
    && p.blob.Some? == codec.V1?
    && (codec.V1? ==> CommitsBlob(crypto, contents[batch.startChunkIndex..batch.endChunkIndex + 1],
                                  header.value.blobVersionedHash, p.blob.value))
  }

  ghost predicate CommitsBlob(crypto: Crypto, chunks: seq<Chunk>, hash: Hash, blob: seq<byte>) {
    |blob| == BLOB_SIZE && crypto.versionedHash(blob) == hash && DecodeBlob(blob) == ChunksData(chunks)
  }

  /** The header of a recorded batch decodes to the batch that was built. */
  lemma {:induction false} HeaderDecodes(codec: Codec, input: Batch, crypto: Crypto, batch: BatchRow)
    requires HeaderRecorded(codec, input, crypto, batch)
    ensures DABatchOf(codec, input, crypto).Ok?
    ensures NewDABatchFromBytes(codec, batch.header) == DABatchOf(codec, input, crypto)
    ensures DABatchOf(codec, input, crypto).value.version == VersionOf(codec)
    ensures DABatchOf(codec, input, crypto).value.parentBatchHash == input.parentBatchHash
  {
    hide NewDABatchFromBytes, HeaderBytes, ChunkHashes, SkippedBitmaps.SkippedBitmap, ChunksIndices;
    HeaderRoundTrip(codec, DABatchOf(codec, input, crypto).value);
  }

  /** The blob of a codecv1 batch exists, has the hash in the header and reads back as the L2 transactions. */
  lemma {:induction false} BlobOfBatch(input: Batch, crypto: Crypto)
    requires DABatchOf(V1, input, crypto).Ok?
    ensures 0 < |input.chunks| <= MAX_NUM_CHUNKS && BlobPayload(input.chunks).Ok?
    ensures |BlobPayload(input.chunks).value| <= MAX_PAYLOAD
    ensures CommitsBlob(crypto, input.chunks, DABatchOf(V1, input, crypto).value.blobVersionedHash,
                        Canonical(BlobPayload(input.chunks).value))
  {
    hide ChunkHashes, SkippedBitmaps.SkippedBitmap, ChunksIndices, ChunksData, Canonical, DecodeBlob, Payload;
    ChunksDataLength(input.chunks);
    BlobRoundTrip(ChunksData(input.chunks).value);
  }

  // ---------- Building the payload ----------

  method EncodeRows(codec: Codec, contents: seq<Chunk>, rows: seq<ChunkRow>, s: nat,
      n: nat) returns (r: Result<seq<seq<byte>>>)
    requires s + n <= |rows| == |contents|
    ensures r.Ok? ==> |r.value| == n && EncodesRows(codec, r.value, contents, rows, s)
    ensures r.Err? ==> exists i :: s <= i < s + n && !Encodable(codec, contents[i], rows[i])
  {
    hide DAChunkOf, ChunkBytes;
    var encoded := [];
    for i := 0 to n
      invariant |encoded| == i && EncodesRows(codec, encoded, contents, rows, s)
    {
      var daChunk := NewDAChunk(codec, contents[s + i], rows[s + i].poppedBefore);
      if daChunk.Err? {
        assert !Encodable(codec, contents[s + i], rows[s + i]);
        return Err;
      }
      var bytes := EncodeChunk(codec, daChunk.value);
      if bytes.Err? {
        assert !Encodable(codec, contents[s + i], rows[s + i]);
        return Err;
      }
      encoded := encoded + [bytes.value];
    }
    return Ok(encoded);
  }

  ghost predicate Encodable(codec: Codec, chunk: Chunk, row: ChunkRow) {
    var daChunk := DAChunkOf(codec, chunk, row.poppedBefore);
    daChunk.Ok? && ChunkBytes(codec, daChunk.value).Ok?
  }

  /** The batch of a row in a valid database, in the relayer's terms. */
  lemma {:induction false} CommittedRows(cfg: ChainConfig, blocks: seq<Block>, rows: seq<ChunkRow>,
      batchHashes: seq<Option<Hash>>,
                                         batches: seq<BatchRow>, b: nat)
    requires ValidConfig(cfg) && ValidTables(cfg, blocks, rows, batchHashes, batches) && 0 < b < |batches|
    ensures var s, e := batches[b].startChunkIndex, batches[b].endChunkIndex;
      && 0 < s <= e < |rows| && batches[b].index == b && InRange(blocks, rows)
      && (forall i :: s <= i <= e ==> Encodable(CodecAt(cfg, rows[s].startBlock), Contents(blocks, rows)[i], rows[i]))
      && HeaderRecorded(CodecAt(cfg, rows[s].startBlock), RebuiltInput(Contents(blocks, rows), rows, batches, b),
                        cfg.crypto, batches[b])
  {
    hide Contents, ChunkRecorded, BatchRecorded, HashesSet, Numbered, DAChunkOf, ChunkBytes, ChunkCodec, CodecAt;
    var contents, batch := Contents(blocks, rows), batches[b];
    assert batch.startChunkIndex == batches[b - 1].endChunkIndex + 1;
    RebuiltHeader(cfg, contents, rows, batches, b);
    ChunksShareCodec(cfg, blocks, contents, rows, batch, batch.startChunkIndex);
    forall i | batch.startChunkIndex <= i <= batch.endChunkIndex
      ensures Encodable(CodecAt(cfg, rows[batch.startChunkIndex].startBlock), contents[i], rows[i])
    {
      ChunksShareCodec(cfg, blocks, contents, rows, batch, i);
      ChunkEncodes(cfg, contents, rows, i);
    }
  }

  /** The payload that commits batch `b`. The genesis batch is refused; for every other batch of a valid
      database the payload can be built, and it commits what is stored. */
  method ConstructCommitPayload(rollup: Rollup, b: nat) returns (r: Result<Commit>)
    requires rollup.Valid() && b < |rollup.batches|
    ensures r.Err? <==> b == 0
    ensures b > 0 ==> IsCommit(rollup.cfg, rollup.blocks, rollup.chunks, rollup.batches, b, r)
  {
    hide ValidTables, Monotone, Contents, ThreadChunks, InRange, HeaderRecorded, Encodable, CodecAt, EncodesRows,
         DABatchOf, NewDABatchFromBytes;
    if b == 0 {
      return Err;
    }
    CommittedRows(rollup.cfg, rollup.blocks, rollup.chunks, rollup.batchHashes, rollup.batches, b);
    var batch, parent, rows := rollup.batches[b], rollup.batches[b - 1], rollup.chunks;
    var s, e := batch.startChunkIndex, batch.endChunkIndex;
    var contents := rollup.GetDAChunks(0, |rows|);
    assert contents == Contents(rollup.blocks, rows);
    var codec := CodecAt(rollup.cfg, rows[s].startBlock);
    var encoded := EncodeRows(codec, contents, rows, s, e + 1 - s);
    if encoded.Err? {
      return Err;
    }
    ghost var input := RebuiltInput(contents, rows, rollup.batches, b);
    HeaderDecodes(codec, input, rollup.cfg.crypto, batch);
    if codec.V0? {
      var daBatch := NewDABatchFromBytes(V0, batch.header);
      if daBatch.Err? {
        return Err;
      }
      return Ok(Commit(daBatch.value.version, parent.header, encoded.value, daBatch.value.skippedL1MessageBitmap,
          None));
    }
    var rebuilt := Batch(batch.index, rows[s].poppedBefore, parent.hash, contents[s..e + 1]);
    var daBatch, blob := RebuildV1(rebuilt, rollup.cfg.crypto);
    if daBatch.Err? {
      return Err;
    }
    return Ok(Commit(daBatch.value.version, parent.header, encoded.value, daBatch.value.skippedL1MessageBitmap,
        Some(blob)));
  }

  /** The rebuilt codecv1 batch and its blob. */
  method RebuildV1(batch: Batch, crypto: Crypto) returns (daBatch: Result<DABatch>, blob: seq<byte>)
    ensures daBatch == DABatchOf(V1, batch, crypto)
    ensures daBatch.Ok? ==> CommitsBlob(crypto, batch.chunks, daBatch.value.blobVersionedHash, blob)
  {
    hide DABatchOf, CommitsBlob, BlobPayload, Canonical;
    daBatch := NewDABatch(V1, batch, crypto);
    blob := [];
    if daBatch.Ok? {
      BlobOfBatch(batch, crypto);
      var raw := ConstructBlobPayload(batch.chunks);
      var made := MakeBlobCanonical(raw.value);
      blob := made.value;
    }
  }

  ghost predicate IsCommit(cfg: ChainConfig, blocks: seq<Block>, rows: seq<ChunkRow>, batches: seq<BatchRow>, b: nat,
      r: Result<Commit>) {
    && 0 < b < |batches| && InRange(blocks, rows) && r.Ok?
    && batches[b].startChunkIndex <= batches[b].endChunkIndex < |rows|
    && Commits(CodecAt(cfg, rows[batches[b].startChunkIndex].startBlock), cfg.crypto, Contents(blocks, rows), rows,
               batches[b - 1], batches[b], r.value)
  }

  // ---------- Reading the range back ----------

  /** The block range that the bridge history reads from a commit transaction is the range of the batch,
      exactly when the last chunk has at most 255 blocks. */
  lemma {:induction false} CommittedBlockRange(cfg: ChainConfig, blocks: seq<Block>, rows: seq<ChunkRow>,
                                               batches: seq<BatchRow>, b: nat, r: Result<Commit>)
    requires Numbered(blocks) && IsCommit(cfg, blocks, rows, batches, b, r)
    ensures var first, last := rows[batches[b].startChunkIndex], rows[batches[b].endChunkIndex];
      var range := GetBatchRange(r.value.chunks);
      (range.Range? && range.startBlock == first.startBlock && range.finishBlock == last.endBlock)
        <==> last.endBlock - last.startBlock + 1 <= 255
  {
    hide DAChunkOf, ChunkBytes, GetBatchRange, DABatchOf, NewDABatchFromBytes, CodecAt, CommitsBlob;
    var s, e, contents, chunks := batches[b].startChunkIndex, batches[b].endChunkIndex, Contents(blocks, rows),
        r.value.chunks;
    var codec := CodecAt(cfg, rows[s].startBlock);
    assert EncodesRow(codec, chunks[0], contents[s], rows[s]);
    assert EncodesRow(codec, chunks[|chunks| - 1], contents[e], rows[e]);
    RowBlocks(blocks, rows[s]);
    RowBlocks(blocks, rows[e]);
    CommittedRange(codec, chunks, contents[s], rows[s].poppedBefore, contents[e], rows[e].poppedBefore);
  }

  lemma RowBlocks(blocks: seq<Block>, row: ChunkRow)
    requires Numbered(blocks) && row.startBlock <= row.endBlock < |blocks|
    ensures var bs := blocks[row.startBlock..row.endBlock + 1];
      && |bs| == row.endBlock - row.startBlock + 1
      && bs[0].number == row.startBlock && bs[|bs| - 1].number == row.endBlock
      && forall i, j :: 0 <= i < j < |bs| ==> bs[i].number < bs[j].number
  {
  }
}
