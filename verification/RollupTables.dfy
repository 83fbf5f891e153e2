/** The L2 block, chunk and batch tables, and what every row of a well-formed database records. */
module RollupTables {
  import opened Wrappers
  import opened Bytes
  import opened L2Data
  import opened DAChunks
  import opened DABatches
  import opened Forks
  import SkippedBitmaps

  datatype ChunkRow = ChunkRow(index: nat, hash: Hash, startBlock: nat, endBlock: nat,
                               poppedBefore: uint64, poppedInChunk: uint64)

  datatype BatchRow = BatchRow(index: uint64, hash: Hash, startChunkIndex: nat, startChunkHash: Hash,
                               endChunkIndex: nat, endChunkHash: Hash, parentBatchHash: Hash, header: seq<byte>)

  /** The chain configuration: the Bernoulli height and all fork heights. */
  datatype ChainConfig = ChainConfig(bernoulli: Option<uint64>, forks: seq<uint64>, crypto: Crypto)

  ghost predicate ValidConfig(cfg: ChainConfig) {
    Increasing(cfg.forks) && (cfg.bernoulli.Some? ==> cfg.bernoulli.value in cfg.forks)
  }

  predicate IsBernoulli(cfg: ChainConfig, number: nat) {
    cfg.bernoulli.Some? && cfg.bernoulli.value <= number
  }

  function CodecAt(cfg: ChainConfig, number: nat): Codec {
    if IsBernoulli(cfg, number) then V1 else V0
  }

  /** No codec change without a fork. */
  lemma SameCodec(cfg: ChainConfig, a: nat, b: nat)
    requires ValidConfig(cfg) && a <= b && NoForkWithin(cfg.forks, a, b)
    ensures CodecAt(cfg, a) == CodecAt(cfg, b)
  {
  }

  // ---------- Chunks ----------

  /** Block numbers are positions; block 0 is the genesis block. */
  ghost predicate Numbered(blocks: seq<Block>) {
    |blocks| > 0 && forall i :: 0 <= i < |blocks| ==> blocks[i].number == i
  }

  ghost predicate InRange(blocks: seq<Block>, rows: seq<ChunkRow>) {
    forall i :: 0 <= i < |rows| ==> rows[i].startBlock <= rows[i].endBlock < |blocks|
  }

  /** The chunks follow each other from the genesis block, without gap or overlap. */
  ghost predicate Tiled(blocks: seq<Block>, rows: seq<ChunkRow>) {
    && |rows| > 0 && InRange(blocks, rows)
    && rows[0].startBlock == 0 && rows[0].endBlock == 0
    && (forall i :: 0 <= i < |rows| ==> rows[i].index == i)
    && (forall i, j :: 0 <= i && i + 1 == j < |rows| ==> rows[j].startBlock == rows[i].endBlock + 1)
  }

  /** The blocks of every chunk, read back from the block table. */
  ghost function Contents(blocks: seq<Block>, rows: seq<ChunkRow>): (chunks: seq<Chunk>)
    requires InRange(blocks, rows)
    ensures |chunks| == |rows|
  {
    seq(|rows|, i requires 0 <= i < |rows| => Chunk(blocks[rows[i].startBlock..rows[i].endBlock + 1]))
  }

  /** The genesis chunk is codecv0, every other follows the Bernoulli fork. */
  function ChunkCodec(cfg: ChainConfig, row: ChunkRow): Codec {
    if row.index == 0 then V0 else CodecAt(cfg, row.startBlock)
  }

  /** What a chunk row records about its blocks `chunk`, which come after `before`. */
  ghost predicate ChunkRecorded(cfg: ChainConfig, before: seq<Chunk>, chunk: Chunk, row: ChunkRow) {
    && row.poppedBefore == ThreadChunks(before, 0)
    && row.poppedInChunk == BlocksL1Messages(chunk.blocks, row.poppedBefore)
    && HashOfChunk(ChunkCodec(cfg, row), chunk, row.poppedBefore, cfg.crypto) == Ok(row.hash)
    && NoForkWithin(cfg.forks, row.startBlock, row.endBlock)
  }

  ghost predicate ChunksRecorded(cfg: ChainConfig, contents: seq<Chunk>, rows: seq<ChunkRow>) {
    |contents| == |rows| && forall i :: 0 <= i < |rows| ==> ChunkRecorded(cfg, contents[..i], contents[i], rows[i])
  }

  // ---------- Batches ----------

  /** The batches follow each other from the first chunk, without gap or overlap. */
  ghost predicate BatchesTiled(rows: seq<ChunkRow>, batches: seq<BatchRow>) {
    && |batches| > 0 && batches[0].startChunkIndex == 0 && batches[0].endChunkIndex == 0
    && (forall b :: 0 <= b < |batches| ==>
        batches[b].index == b && batches[b].startChunkIndex <= batches[b].endChunkIndex < |rows|)
    && (forall a, b :: 0 <= a && a + 1 == b < |batches| ==> batches[b].startChunkIndex == batches[a].endChunkIndex + 1)
  }

  /** The genesis batch is codecv0, every other follows the Bernoulli fork at its first block. */
  function BatchCodec(cfg: ChainConfig, rows: seq<ChunkRow>, batch: BatchRow): Codec
    requires batch.startChunkIndex < |rows|
  {
    if batch.index == 0 then V0 else CodecAt(cfg, rows[batch.startChunkIndex].startBlock)
  }

  /** The batch that a row stands for: its chunks, the counter before them and the parent's hash. */
  function BatchInput(contents: seq<Chunk>, batch: BatchRow): Batch
    requires batch.startChunkIndex <= batch.endChunkIndex < |contents|
  {
    Batch(batch.index, ThreadChunks(contents[..batch.startChunkIndex], 0), batch.parentBatchHash,
          contents[batch.startChunkIndex..batch.endChunkIndex + 1])
  }

  /** The stored header and hash are those of the batch that the row stands for. */
  ghost predicate HeaderRecorded(codec: Codec, input: Batch, crypto: Crypto, batch: BatchRow) {
    && DABatchOf(codec, input, crypto).Ok?
    && batch.header == HeaderBytes(codec, DABatchOf(codec, input, crypto).value)
    && batch.hash == crypto.keccak(batch.header)
  }

  ghost predicate BatchRecorded(cfg: ChainConfig, contents: seq<Chunk>, rows: seq<ChunkRow>, batch: BatchRow)
    requires batch.startChunkIndex <= batch.endChunkIndex < |rows| == |contents|
  {
    && HeaderRecorded(BatchCodec(cfg, rows, batch), BatchInput(contents, batch), cfg.crypto, batch)
    && batch.startChunkHash == rows[batch.startChunkIndex].hash
    && batch.endChunkHash == rows[batch.endChunkIndex].hash
    && NoForkWithin(cfg.forks, rows[batch.startChunkIndex].startBlock, rows[batch.endChunkIndex].endBlock)
  }

  ghost predicate BatchesRecorded(cfg: ChainConfig, contents: seq<Chunk>, rows: seq<ChunkRow>, batches: seq<BatchRow>)
    requires BatchesTiled(rows, batches) && |contents| == |rows|
  {
    forall b :: 0 <= b < |batches| ==> BatchRecorded(cfg, contents, rows, batches[b])
  }

  /** Every batch names its parent's hash. */
  ghost predicate Chained(batches: seq<BatchRow>) {
    && |batches| > 0 && batches[0].parentBatchHash == ZERO_HASH
    && forall a, b :: 0 <= a && a + 1 == b < |batches| ==> batches[b].parentBatchHash == batches[a].hash
  }

  /** Exactly the chunks covered by a batch carry a batch hash, and it is that batch's. */
  ghost predicate HashesSet(rows: seq<ChunkRow>, batchHashes: seq<Option<Hash>>, batches: seq<BatchRow>)
    requires BatchesTiled(rows, batches)
  {
    && |batchHashes| == |rows|
    && (forall b, i :: 0 <= b < |batches| && batches[b].startChunkIndex <= i <= batches[b].endChunkIndex ==>
        batchHashes[i] == Some(batches[b].hash))
    && (forall i :: batches[|batches| - 1].endChunkIndex < i < |rows| ==> batchHashes[i] == None)
  }

  ghost predicate ValidTables(cfg: ChainConfig, blocks: seq<Block>, rows: seq<ChunkRow>,
                              batchHashes: seq<Option<Hash>>, batches: seq<BatchRow>)
  {
    && Numbered(blocks) && Tiled(blocks, rows) && BatchesTiled(rows, batches)
    && ChunksRecorded(cfg, Contents(blocks, rows), rows)
    && BatchesRecorded(cfg, Contents(blocks, rows), rows, batches)
    && Chained(batches) && HashesSet(rows, batchHashes, batches)
  }

  /** The parts of a valid database that the proposers read directly. */
  lemma TablesShape(cfg: ChainConfig, blocks: seq<Block>, rows: seq<ChunkRow>,
                    batchHashes: seq<Option<Hash>>, batches: seq<BatchRow>)
    requires ValidTables(cfg, blocks, rows, batchHashes, batches)
    ensures Numbered(blocks) && |rows| > 0 && rows[|rows| - 1].index == |rows| - 1
    ensures rows[|rows| - 1].endBlock < |blocks|
    ensures InRange(blocks, rows) && ChunksRecorded(cfg, Contents(blocks, rows), rows)
    ensures |batches| > 0 && batches[|batches| - 1].index == |batches| - 1
    ensures batches[|batches| - 1].endChunkIndex < |rows|
  {
    hide ChunksRecorded, BatchesRecorded, Chained, HashesSet, Contents;
  }

  // ---------- Growing the tables ----------

  lemma {:induction false} ThreadConcat(a: seq<Chunk>, b: seq<Chunk>, before: uint64)
    ensures ThreadChunks(a + b, before) == ThreadChunks(b, ThreadChunks(a, before))
  {
    hide Wrap, BlocksL1Messages;
    if b == [] {
      assert a + b == a;
    } else {
      ThreadConcat(a, b[..|b| - 1], before);
      assert (a + b)[..|a + b| - 1] == a + b[..|b| - 1];
    }
  }

  lemma {:induction false} ContentsKept(blocks: seq<Block>, block: Block, rows: seq<ChunkRow>)
    requires InRange(blocks, rows)
    ensures Contents(blocks + [block], rows) == Contents(blocks, rows)
  {
    var contents, contents' := Contents(blocks, rows), Contents(blocks + [block], rows);
    forall i | 0 <= i < |rows| ensures contents'[i] == contents[i] {
      var s, e := rows[i].startBlock, rows[i].endBlock + 1;
      assert (blocks + [block])[s..e] == blocks[s..e];
    }
  }

  lemma {:induction false} ContentsSnoc(blocks: seq<Block>, rows: seq<ChunkRow>, row: ChunkRow)
    requires InRange(blocks, rows) && row.startBlock <= row.endBlock < |blocks|
    ensures InRange(blocks, rows + [row])
    ensures Contents(blocks, rows + [row]) == Contents(blocks, rows) + [Chunk(blocks[row.startBlock..row.endBlock + 1])]
  {
  }

  /** A new block changes no record. */
  lemma {:induction false} BlockAppended(cfg: ChainConfig, blocks: seq<Block>, block: Block, rows: seq<ChunkRow>,
                                         batchHashes: seq<Option<Hash>>, batches: seq<BatchRow>)
    requires ValidTables(cfg, blocks, rows, batchHashes, batches) && block.number == |blocks|
    ensures ValidTables(cfg, blocks + [block], rows, batchHashes, batches)
  {
    hide ChunksRecorded, BatchesRecorded, HashesSet, Chained, Contents;
    ContentsKept(blocks, block, rows);
  }

  /** A recorded batch stays recorded when a chunk is appended. */
  lemma {:induction false} BatchStays(cfg: ChainConfig, contents: seq<Chunk>, chunk: Chunk,
                                      rows: seq<ChunkRow>, row: ChunkRow, batch: BatchRow)
    requires batch.startChunkIndex <= batch.endChunkIndex < |rows| == |contents|
    requires BatchRecorded(cfg, contents, rows, batch)
    ensures BatchRecorded(cfg, contents + [chunk], rows + [row], batch)
  {
    hide HeaderRecorded, ThreadChunks, NoForkWithin;
    var s, e := batch.startChunkIndex, batch.endChunkIndex + 1;
    assert (contents + [chunk])[..s] == contents[..s] && (contents + [chunk])[s..e] == contents[s..e];
  }

  lemma {:induction false} ChunkAppended(cfg: ChainConfig, blocks: seq<Block>, rows: seq<ChunkRow>, row: ChunkRow,
                                         batchHashes: seq<Option<Hash>>, batches: seq<BatchRow>)
    requires ValidTables(cfg, blocks, rows, batchHashes, batches)
    requires row.index == |rows| && row.startBlock == rows[|rows| - 1].endBlock + 1 <= row.endBlock < |blocks|
    requires ChunkRecorded(cfg, Contents(blocks, rows), Chunk(blocks[row.startBlock..row.endBlock + 1]), row)
    ensures ValidTables(cfg, blocks, rows + [row], batchHashes + [None], batches)
  {
    hide Contents, ChunkRecorded, BatchRecorded, Chained;
    var contents, chunk := Contents(blocks, rows), Chunk(blocks[row.startBlock..row.endBlock + 1]);
    ContentsSnoc(blocks, rows, row);
    RecordsSnoc(cfg, contents, chunk, rows, row);
    forall b | 0 <= b < |batches| ensures BatchRecorded(cfg, contents + [chunk], rows + [row], batches[b]) {
      BatchStays(cfg, contents, chunk, rows, row, batches[b]);
    }
  }

  lemma {:induction false} RecordsSnoc(cfg: ChainConfig, contents: seq<Chunk>, chunk: Chunk, rows: seq<ChunkRow>,
      row: ChunkRow)
    requires ChunksRecorded(cfg, contents, rows) && ChunkRecorded(cfg, contents, chunk, row)
    ensures ChunksRecorded(cfg, contents + [chunk], rows + [row])
  {
    hide ChunkRecorded;
    forall i | 0 <= i < |rows| + 1
      ensures ChunkRecorded(cfg, (contents + [chunk])[..i], (contents + [chunk])[i], (rows + [row])[i])
    {
      if i < |rows| {
        assert (contents + [chunk])[..i] == contents[..i];
      } else {
        assert (contents + [chunk])[..i] == contents;
      }
    }
  }

  /** The counter after the last chunk row is the counter after all chunks. */
  lemma {:induction false} LastCounter(cfg: ChainConfig, contents: seq<Chunk>, rows: seq<ChunkRow>)
    requires ChunksRecorded(cfg, contents, rows) && |rows| > 0
    ensures var last := rows[|rows| - 1]; Wrap(last.poppedBefore + last.poppedInChunk) == ThreadChunks(contents, 0)
  {
    hide Wrap, BlocksL1Messages, HashOfChunk, NoForkWithin;
    assert ChunkRecorded(cfg, contents[..|rows| - 1], contents[|rows| - 1], rows[|rows| - 1]);
  }

  // ---------- A new batch ----------

  function SetRange(hashes: seq<Option<Hash>>, start: nat, end: nat, hash: Hash): (r: seq<Option<Hash>>)
    ensures |r| == |hashes|
  {
    seq(|hashes|, i requires 0 <= i < |hashes| => if start <= i <= end then Some(hash) else hashes[i])
  }

  lemma {:induction false} BatchAppended(cfg: ChainConfig, blocks: seq<Block>, rows: seq<ChunkRow>,
                                         batchHashes: seq<Option<Hash>>, batches: seq<BatchRow>, batch: BatchRow)
    requires ValidTables(cfg, blocks, rows, batchHashes, batches)
    requires batch.index == |batches|
    requires batch.startChunkIndex == batches[|batches| - 1].endChunkIndex + 1 <= batch.endChunkIndex < |rows|
    requires batch.parentBatchHash == batches[|batches| - 1].hash
    requires BatchRecorded(cfg, Contents(blocks, rows), rows, batch)
    ensures ValidTables(cfg, blocks, rows,
        SetRange(batchHashes, batch.startChunkIndex, batch.endChunkIndex, batch.hash),
                        batches + [batch])
  {
    hide Contents, ChunksRecorded, BatchRecorded, HashesSet;
    HashesExtended(rows, batchHashes, batches, batch);
  }

  lemma {:induction false} BatchesBefore(rows: seq<ChunkRow>, batches: seq<BatchRow>, b: nat)
    requires BatchesTiled(rows, batches) && b < |batches|
    ensures batches[b].endChunkIndex <= batches[|batches| - 1].endChunkIndex
    decreases |batches| - b
  {
    if b < |batches| - 1 {
      BatchesBefore(rows, batches, b + 1);
    }
  }

  lemma {:induction false} HashesExtended(rows: seq<ChunkRow>, batchHashes: seq<Option<Hash>>,
                                          batches: seq<BatchRow>, batch: BatchRow)
    requires BatchesTiled(rows, batches) && BatchesTiled(rows, batches + [batch])
    requires HashesSet(rows, batchHashes, batches)
    ensures HashesSet(rows, SetRange(batchHashes, batch.startChunkIndex, batch.endChunkIndex, batch.hash),
        batches + [batch])
  {
    var batches' := batches + [batch];
    var hashes := SetRange(batchHashes, batch.startChunkIndex, batch.endChunkIndex, batch.hash);
    assert batches'[|batches| - 1] == batches[|batches| - 1] && batches'[|batches|] == batch;
    forall b, i | 0 <= b < |batches'| && batches'[b].startChunkIndex <= i <= batches'[b].endChunkIndex
      ensures hashes[i] == Some(batches'[b].hash)
    {
      if b < |batches| {
        BatchesBefore(rows, batches, b);
      }
    }
  }

  // ---------- The parent's counter and codec ----------

  /** The counter in a recorded header is the counter after all chunks up to the end of that batch. */
  lemma {:induction false} HeaderCounter(cfg: ChainConfig, contents: seq<Chunk>, rows: seq<ChunkRow>, batch: BatchRow)
    requires batch.startChunkIndex <= batch.endChunkIndex < |rows| == |contents|
    requires BatchRecorded(cfg, contents, rows, batch)
    ensures GetTotalL1MessagePoppedBeforeBatch(batch.header, BatchCodec(cfg, rows, batch))
         == Ok(ThreadChunks(contents[..batch.endChunkIndex + 1], 0))
  {
    hide ThreadChunks, DABatchOf, HeaderBytes, GetTotalL1MessagePoppedBeforeBatch, BlocksL1Messages, NoForkWithin,
         InQueueOrder;
    var codec, input := BatchCodec(cfg, rows, batch), BatchInput(contents, batch);
    BatchCounters(codec, input, cfg.crypto);
    CounterFromHeader(codec, codec, DABatchOf(codec, input, cfg.crypto).value);
    var s, e := batch.startChunkIndex, batch.endChunkIndex + 1;
    ThreadConcat(contents[..s], contents[s..e], 0);
    assert contents[..s] + contents[s..e] == contents[..e];
  }

  /** The last chunk of a recorded batch does not wrap the counter. */
  lemma {:induction false} NoWrapAtEnd(cfg: ChainConfig, contents: seq<Chunk>, rows: seq<ChunkRow>, batch: BatchRow)
    requires batch.startChunkIndex <= batch.endChunkIndex < |rows| == |contents|
    requires BatchRecorded(cfg, contents, rows, batch) && ChunksRecorded(cfg, contents, rows)
    ensures var end := rows[batch.endChunkIndex];
      end.poppedBefore + end.poppedInChunk == ThreadChunks(contents[..batch.endChunkIndex + 1], 0)
  {
    hide ThreadChunks, DABatchOf, HeaderBytes, BlocksL1Messages, NoForkWithin, InQueueOrder, HashOfChunk;
    var s, e := batch.startChunkIndex, batch.endChunkIndex;
    BatchCounters(BatchCodec(cfg, rows, batch), BatchInput(contents, batch), cfg.crypto);
    assert ChunkRecorded(cfg, contents[..e], contents[e], rows[e]);
    ThreadConcat(contents[..s], contents[s..e + 1], 0);
    ThreadConcat(contents[..s], contents[s..e], 0);
    assert contents[..s] + contents[s..e + 1] == contents[..e + 1];
    assert contents[..s] + contents[s..e] == contents[..e];
    assert contents[s..e + 1][..e - s] == contents[s..e];
  }

  /** Across batches: the header's counter is the counter of its last chunk row plus its messages, without
      wrap-around, and the counter before the next batch's first chunk. */
  lemma {:induction false} CountersAcrossBatches(cfg: ChainConfig, blocks: seq<Block>, rows: seq<ChunkRow>,
      batchHashes: seq<Option<Hash>>,
                                                 batches: seq<BatchRow>, a: nat)
    requires ValidTables(cfg, blocks, rows, batchHashes, batches) && a < |batches|
    ensures var end := rows[batches[a].endChunkIndex];
      (end.poppedBefore as nat) + end.poppedInChunk < TWO_TO_64 &&
      GetTotalL1MessagePoppedBeforeBatch(batches[a].header, BatchCodec(cfg, rows, batches[a])) ==
        Ok((end.poppedBefore as nat) + end.poppedInChunk)
    ensures a + 1 < |batches| ==>
      GetTotalL1MessagePoppedBeforeBatch(batches[a].header, BatchCodec(cfg, rows, batches[a])) ==
        Ok(rows[batches[a + 1].startChunkIndex].poppedBefore)
  {
    hide BatchRecorded, HashesSet, Chained, Numbered, Contents, GetTotalL1MessagePoppedBeforeBatch, BatchCodec,
         HashOfChunk, BlocksL1Messages, ThreadChunks;
    var contents, e := Contents(blocks, rows), batches[a].endChunkIndex;
    HeaderCounter(cfg, contents, rows, batches[a]);
    NoWrapAtEnd(cfg, contents, rows, batches[a]);
    if a + 1 < |batches| {
      assert batches[a + 1].startChunkIndex == e + 1;
      assert ChunkRecorded(cfg, contents[..e + 1], contents[e + 1], rows[e + 1]);
    }
  }

  /** All blocks of a recorded batch lie in one fork's block range. */
  lemma {:induction false} OneBlockRange(cfg: ChainConfig, contents: seq<Chunk>, rows: seq<ChunkRow>, batch: BatchRow,
      x: uint64, y: uint64,
                                         from: uint64, to: uint64, from': uint64, to': uint64)
    requires batch.startChunkIndex <= batch.endChunkIndex < |rows| == |contents|
    requires BatchRecorded(cfg, contents, rows, batch)
    requires rows[batch.startChunkIndex].startBlock <= x <= y <= rows[batch.endChunkIndex].endBlock
    requires IsRange(x, cfg.forks, from, to) && IsRange(y, cfg.forks, from', to')
    ensures from == from' && to == to'
  {
    hide HeaderRecorded, IsRange;
    SameRange(x, y, cfg.forks, from, to, from', to');
  }

  /** How the proposer picks the codec of the parent's header: by the last block of the parent. */
  function ParentCodec(cfg: ChainConfig, parent: BatchRow, firstBlock: nat): Codec
    requires firstBlock > 0
  {
    if parent.index > 0 && IsBernoulli(cfg, firstBlock - 1) then V1 else V0
  }

  /** The parent's header is read with the codec that wrote it, also when the new batch is the first after a fork. */
  lemma {:induction false} ParentCodecIsWriter(cfg: ChainConfig, contents: seq<Chunk>, rows: seq<ChunkRow>,
      parent: BatchRow)
    requires ValidConfig(cfg) && parent.startChunkIndex <= parent.endChunkIndex < |rows| == |contents|
    requires rows[parent.startChunkIndex].startBlock <= rows[parent.endChunkIndex].endBlock
    requires BatchRecorded(cfg, contents, rows, parent)
    ensures ParentCodec(cfg, parent, rows[parent.endChunkIndex].endBlock + 1) == BatchCodec(cfg, rows, parent)
  {
    hide HeaderRecorded;
    SameCodec(cfg, rows[parent.startChunkIndex].startBlock, rows[parent.endChunkIndex].endBlock);
  }

  // ---------- No fork inside a batch ----------

  lemma {:induction false} RowsAscend(blocks: seq<Block>, rows: seq<ChunkRow>, i: nat, j: nat)
    requires Tiled(blocks, rows) && i <= j < |rows|
    ensures rows[i].startBlock <= rows[j].startBlock && rows[i].endBlock <= rows[j].endBlock
    decreases j
  {
    if i < j {
      RowsAscend(blocks, rows, i, j - 1);
    }
  }

  lemma {:induction false} NoForkInBatch(cfg: ChainConfig, blocks: seq<Block>, rows: seq<ChunkRow>, s: nat, e: nat)
    requires Tiled(blocks, rows) && s <= e < |rows| && ChunksRecorded(cfg, Contents(blocks, rows), rows)
    requires forall i :: s < i <= e ==> rows[i].startBlock !in cfg.forks
    ensures NoForkWithin(cfg.forks, rows[s].startBlock, rows[e].endBlock)
    decreases e
  {
    hide Contents, ThreadChunks, BlocksL1Messages, HashOfChunk;
    assert ChunkRecorded(cfg, Contents(blocks, rows)[..e], Contents(blocks, rows)[e], rows[e]);
    if s < e {
      NoForkInBatch(cfg, blocks, rows, s, e - 1);
    }
  }

  // ---------- Recording a new batch ----------

  /** The row written for the chunks `start..end` after the last batch. */
  predicate IsNewRow(cfg: ChainConfig, contents: seq<Chunk>, rows: seq<ChunkRow>, batch: BatchRow)
    requires batch.startChunkIndex <= batch.endChunkIndex < |rows| == |contents|
  {
    var meta := MetadataOf(CodecAt(cfg, rows[batch.startChunkIndex].startBlock), BatchInput(contents, batch),
        cfg.crypto);
    meta == Ok(BatchMetadata(batch.hash, batch.header, batch.startChunkHash, batch.endChunkHash))
  }

  /** A chunk of the batch hashes, at its place in the batch, to what its own row recorded. */
  lemma {:induction false} SameChunkHash(cfg: ChainConfig, contents: seq<Chunk>, rows: seq<ChunkRow>, s: nat, i: nat,
      codec: Codec)
    requires s <= i < |rows| == |contents| && ChunksRecorded(cfg, contents, rows) && codec == ChunkCodec(cfg, rows[i])
    ensures HashOfChunk(codec, contents[i], ThreadChunks(contents[s..i], ThreadChunks(contents[..s], 0)), cfg.crypto)
         == Ok(rows[i].hash)
  {
    hide ThreadChunks, HashOfChunk, BlocksL1Messages, NoForkWithin;
    assert ChunkRecorded(cfg, contents[..i], contents[i], rows[i]);
    ThreadConcat(contents[..s], contents[s..i], 0);
    assert contents[..s] + contents[s..i] == contents[..i];
  }

  lemma {:induction false} NewBatchRecorded(cfg: ChainConfig, blocks: seq<Block>, rows: seq<ChunkRow>, batch: BatchRow)
    requires ValidConfig(cfg) && Tiled(blocks, rows) && ChunksRecorded(cfg, Contents(blocks, rows), rows)
    requires 0 < batch.index && 0 < batch.startChunkIndex <= batch.endChunkIndex < |rows|
    requires forall i :: batch.startChunkIndex < i <= batch.endChunkIndex ==> rows[i].startBlock !in cfg.forks
    requires IsNewRow(cfg, Contents(blocks, rows), rows, batch)
    ensures BatchRecorded(cfg, Contents(blocks, rows), rows, batch)
  {
    hide Contents, ChunksRecorded, ThreadChunks, HashOfChunk, DABatchOf, HeaderBytes, NoForkWithin;
    var s, e := batch.startChunkIndex, batch.endChunkIndex;
    var contents := Contents(blocks, rows);
    NoForkInBatch(cfg, blocks, rows, s, e);
    BatchEndCodec(cfg, blocks, rows, s, e);
    var codec := CodecAt(cfg, rows[s].startBlock);
    SameChunkHash(cfg, contents, rows, s, s, codec);
    SameChunkHash(cfg, contents, rows, s, e, codec);
    assert contents[s..s] == [];
    NothingThreaded([], ThreadChunks(contents[..s], 0));
    assert contents[s..e + 1][..e - s] == contents[s..e];
  }

  lemma {:induction false} BatchEndCodec(cfg: ChainConfig, blocks: seq<Block>, rows: seq<ChunkRow>, s: nat, e: nat)
    requires ValidConfig(cfg) && Tiled(blocks, rows) && 0 < s <= e < |rows|
    requires NoForkWithin(cfg.forks, rows[s].startBlock, rows[e].endBlock)
    ensures ChunkCodec(cfg, rows[s]) == ChunkCodec(cfg, rows[e]) == CodecAt(cfg, rows[s].startBlock)
  {
    RowsAscend(blocks, rows, s, e);
    SameCodec(cfg, rows[s].startBlock, rows[e].startBlock);
  }

  // ---------- Genesis ----------

  /** The genesis chunk and batch can always be encoded. */
  lemma {:induction false} GenesisEncodes(genesis: Block, crypto: Crypto)
    requires genesis.number == 0 && genesis.txs == []
    ensures HashOfChunk(V0, Chunk([genesis]), 0, crypto).Ok?
    ensures MetadataOf(V0, Batch(0, 0, ZERO_HASH, [Chunk([genesis])]), crypto).Ok?
  {
    hide HashOfChunk, DABatchOf, MetadataOf;
    GenesisHash(genesis, crypto);
    GenesisBatch(genesis, crypto);
    MetadataIff(V0, Batch(0, 0, ZERO_HASH, [Chunk([genesis])]), crypto);
  }

  lemma {:induction false} GenesisChunk(genesis: Block)
    requires genesis.number == 0 && genesis.txs == []
    ensures DAChunkOf(V0, Chunk([genesis]), 0).Ok?
    ensures DAChunkOf(V0, Chunk([genesis]), 0).value.transactions == [[]]
  {
    hide BlockL1Messages;
    var blocks := [genesis];
    assert blocks[..0] == [];
    assert DABlocksOf([], 0) == Ok([]) && TransactionsOf([]) == [];
    assert BlocksL1Messages([], 0) == 0;
    WrapSmall(0);
    NoMessages();
    assert NewDABlock(genesis, 0).Ok?;
    assert TransactionsOf(blocks) == [] + [genesis.txs];
  }

  lemma NoMessages()
    ensures BlockL1Messages([], 0) == 0
  {
  }

  lemma {:induction false} GenesisHash(genesis: Block, crypto: Crypto)
    requires genesis.number == 0 && genesis.txs == []
    ensures HashOfChunk(V0, Chunk([genesis]), 0, crypto).Ok?
  {
    hide SlicedContexts, BlocksBytes, DAChunkOf;
    GenesisChunk(genesis);
    var none: seq<seq<Tx>> := [[]];
    assert none[..0] == [];
    assert Payloads(none) == Ok([] + []);
    assert AllHashes(none) == Ok([] + [] + []);
  }

  lemma {:induction false} GenesisBatch(genesis: Block, crypto: Crypto)
    requires genesis.number == 0 && genesis.txs == []
    requires HashOfChunk(V0, Chunk([genesis]), 0, crypto).Ok?
    ensures DABatchOf(V0, Batch(0, 0, ZERO_HASH, [Chunk([genesis])]), crypto).Ok?
  {
    hide HashOfChunk, SkippedBitmaps.EncodeWords, SkippedBitmaps.SkippedWords;
    var chunks := [Chunk([genesis])];
    assert chunks[..0] == [] && chunks[0].blocks[..0] == [];
    assert ChunkHashes(V0, chunks, 0, crypto).Ok?;
    assert BlocksIndices(chunks[0].blocks) == [];
    assert ChunksIndices(chunks) == [];
  }
}
