/** The chunk and batch proposers over the rollup database. */
module Proposers {
  import opened Wrappers
  import opened Bytes
  import opened L2Data
  import opened DAChunks
  import opened DABatches
  import opened Forks
  import opened RollupTables
  import opened Estimates
  import Blobs

  // ---------- Limits ----------

  /** The proposers' limits. A gas estimate is compared after `overChunk` or `overBatch`, the product with the
      configured multiplier; `crcMax` is the largest row consumption of a chunk, if known. */
  datatype Limits = Limits(maxBlocksPerChunk: nat, maxTxsPerChunk: nat, maxGasPerChunk: nat, maxCalldataPerChunk: nat,
                           maxRowsPerChunk: nat, chunkTimeout: uint64, overChunk: nat -> nat,
                           crcMax: seq<Block> -> Result<nat>,
                           maxChunksPerBatch: nat, maxGasPerBatch: nat, maxCalldataPerBatch: nat, batchTimeout: uint64,
                           overBatch: nat -> nat)

  ghost predicate Monotone(f: nat -> nat) {
    forall a, b :: a <= b ==> f(a) <= f(b)
  }

  function ChunkFits(limits: Limits, codec: Codec, blocks: seq<Block>): Result<bool> {
    var crc :- limits.crcMax(blocks);
    var common := NumTransactions(blocks) <= limits.maxTxsPerChunk && crc <= limits.maxRowsPerChunk;
    match codec
    case V0 =>
      var size :- EstimateChunkL1CommitCalldataSize(Chunk(blocks));
      var gas :- EstimateChunkL1CommitGas(Chunk(blocks));
      Ok(common && size <= limits.maxCalldataPerChunk && limits.overChunk(gas) <= limits.maxGasPerChunk)
    case V1 =>
      var blob :- EstimateChunkL1CommitBlobSize(Chunk(blocks));
      Ok(common && blob <= Blobs.BLOB_SIZE)
  }

  function BatchFits(limits: Limits, codec: Codec, chunks: seq<Chunk>, before: uint64): Result<bool> {
    match codec
    case V0 =>
      var gas :- BatchGas(chunks, before);
      var size :- EstimateBatchL1CommitCalldataSize(chunks);
      Ok(size <= limits.maxCalldataPerBatch && limits.overBatch(gas) <= limits.maxGasPerBatch)
    case V1 =>
      var blob :- EstimateBatchL1CommitBlobSize(chunks);
      Ok(blob <= Blobs.BLOB_SIZE)
  }

  /** A batch within the limits stays within them when chunks are dropped from its end. */
  lemma {:induction false} ShorterFits(limits: Limits, codec: Codec, chunks: seq<Chunk>, before: uint64, i: nat)
    requires Monotone(limits.overBatch) && i <= |chunks|
    requires BatchFits(limits, codec, chunks, before) == Ok(true)
    ensures BatchFits(limits, codec, chunks[..i], before) == Ok(true)
  {
    hide BatchGas, Total, EstimateBatchL1CommitBlobSize;
    match codec
    case V0 =>
      BatchGasGrows(chunks, before, i);
      TotalGrows(EstimateChunkL1CommitCalldataSize, chunks, i);
    case V1 =>
      BlobSizeGrows(chunks, i);
  }

  // ---------- The greedy loop ----------

  /** How far the loop got: an error, a prefix closed by the limits, or all candidates within the limits. */
  datatype Growth = Failed | Closed(n: nat) | Open(n: nat)

  /** The prefix at which the loop gives up: it cannot be measured, or it is the first one and too large. */
  ghost predicate Fails<T(!new)>(i: nat, candidates: seq<T>, fits: seq<T> -> Result<bool>)
    requires i <= |candidates|
  {
    && (fits(candidates[..i]).Err? || (i == 1 && fits(candidates[..i]) == Ok(false)))
    && forall j :: 0 < j < i ==> fits(candidates[..j]) == Ok(true)
  }

  ghost predicate IsGrowth<T(!new)>(r: Growth, candidates: seq<T>, fits: seq<T> -> Result<bool>) {
    match r
    case Failed => exists i :: 0 < i <= |candidates| && Fails(i, candidates, fits)
    case Closed(n) =>
      && 0 < n < |candidates| && fits(candidates[..n + 1]) == Ok(false)
      && forall i :: 0 < i <= n ==> fits(candidates[..i]) == Ok(true)
    case Open(n) => n == |candidates| && forall i :: 0 < i <= n ==> fits(candidates[..i]) == Ok(true)
  }

  /** Adds candidates one by one until the limits are exceeded; the first candidate alone must fit. */
  method Grow<T(!new)>(candidates: seq<T>, fits: seq<T> -> Result<bool>) returns (r: Growth)
    ensures IsGrowth(r, candidates, fits)
  {
    var taken := [];
    for i := 0 to |candidates|
      invariant taken == candidates[..i]
      invariant forall j :: 0 < j <= i ==> fits(candidates[..j]) == Ok(true)
    {
      taken := taken + [candidates[i]];
      assert taken == candidates[..i + 1];
      var within := fits(taken);
      if within.Err? || (!within.value && i == 0) {
        assert Fails(i + 1, candidates, fits);
        return Failed;
      }
      if !within.value {
        taken := taken[..|taken| - 1];
        return Closed(|taken|);
      }
    }
    return Open(|taken|);
  }

  /** The closed batch is the longest prefix of the candidates that is within the limits. */
  ghost predicate Longest(limits: Limits, codec: Codec, candidates: seq<Chunk>, before: uint64, n: nat) {
    && 0 < n <= |candidates| && BatchFits(limits, codec, candidates[..n], before) == Ok(true)
    && forall j :: n < j <= |candidates| ==> BatchFits(limits, codec, candidates[..j], before) != Ok(true)
  }

  lemma {:induction false} GrowthIsLongest(limits: Limits, codec: Codec, candidates: seq<Chunk>, before: uint64,
      r: Growth)
    requires Monotone(limits.overBatch) && candidates != [] && !r.Failed?
    requires IsGrowth(r, candidates, (chunks: seq<Chunk>) => BatchFits(limits, codec, chunks, before))
    ensures Longest(limits, codec, candidates, before, r.n)
  {
    hide BatchFits, Monotone;
    forall j | r.n < j <= |candidates| ensures BatchFits(limits, codec, candidates[..j], before) != Ok(true) {
      assert candidates[..j][..r.n + 1] == candidates[..r.n + 1];
      if BatchFits(limits, codec, candidates[..j], before) == Ok(true) {
        ShorterFits(limits, codec, candidates[..j], before, r.n + 1);
      }
    }
  }

  // ---------- Cutting at forks ----------

  /** A query limit; zero means no limit. */
  function Limited(available: nat, limit: nat): nat {
    if 0 < limit < available then limit else available
  }

  function MaxBlocksThisChunk(height: uint64, maxBlocks: nat, forks: seq<uint64>): nat {
    var n := UntilFork(height, forks);
    if n != 0 && n < maxBlocks then n else maxBlocks
  }

  /** The blocks selected for a chunk never cross a fork exactly when the chunk size is limited or no fork is to
      come. */
  lemma {:induction false} ForkCutIff(height: uint64, maxBlocks: nat, forks: seq<uint64>)
    requires Increasing(forks)
    ensures (forall n :: 0 < n ==>
        NoForkWithin(forks, height, height + Limited(n, MaxBlocksThisChunk(height, maxBlocks, forks)) - 1))
      <==> maxBlocks > 0 || UntilFork(height, forks) == 0
  {
    hide UntilFork, Increasing;
    UntilForkIsNext(height, forks);
    var u: nat := UntilFork(height, forks);
    if maxBlocks == 0 && u != 0 {
      assert !NoForkWithin(forks, height, height + Limited(u + 1, MaxBlocksThisChunk(height, maxBlocks, forks)) - 1);
    }
  }

  lemma {:induction false} ChunkStaysBeforeFork(height: uint64, maxBlocks: nat, forks: seq<uint64>, available: nat,
      n: nat)
    requires Increasing(forks) && maxBlocks > 0
    requires 0 < n <= Limited(available, MaxBlocksThisChunk(height, maxBlocks, forks))
    ensures NoForkWithin(forks, height, height + n - 1)
  {
    hide UntilFork, Increasing;
    UntilForkIsNext(height, forks);
  }

  /** The number of chunks considered for a batch that starts at chunk `first`: as many as the limit allows,
      up to the first later chunk that starts at a fork. */
  ghost predicate Considered(forks: seq<uint64>, rows: seq<ChunkRow>, first: nat, maxChunks: nat, n: nat) {
    && first <= |rows| && n <= Limited(|rows| - first, maxChunks)
    && (forall i :: first < i < first + n ==> rows[i].startBlock !in forks)
    && (n == Limited(|rows| - first, maxChunks) || (0 < n && rows[first + n].startBlock in forks))
  }

  // ---------- The database ----------

  /** What a proposer decides: to take the first `size` of the `considered` candidates, or why not. */
  datatype Plan = Empty | Wait | Fail | Take(size: nat, considered: nat, codec: Codec)

  /** What a round of a proposer did. */
  datatype Outcome = Nothing | Waiting | Error | Inserted(size: nat, considered: nat)

  /** Chunk `i` is within the limits. */
  ghost predicate ChunkWithin(limits: Limits, cfg: ChainConfig, contents: seq<Chunk>, rows: seq<ChunkRow>, i: nat) {
    && i < |rows| == |contents|
    && ChunkFits(limits, CodecAt(cfg, rows[i].startBlock), contents[i].blocks) == Ok(true)
  }

  /** A batch is within the limits. */
  ghost predicate BatchWithin(limits: Limits, cfg: ChainConfig, contents: seq<Chunk>, rows: seq<ChunkRow>,
      batch: BatchRow) {
    && batch.startChunkIndex <= batch.endChunkIndex < |rows| == |contents|
    && BatchFits(limits, CodecAt(cfg, rows[batch.startChunkIndex].startBlock),
                 contents[batch.startChunkIndex..batch.endChunkIndex + 1],
                 ThreadChunks(contents[..batch.startChunkIndex], 0)) == Ok(true)
  }

  /** All chunks and batches but the genesis ones are. */
  ghost predicate AllWithin(limits: Limits, cfg: ChainConfig, blocks: seq<Block>, rows: seq<ChunkRow>,
                            batches: seq<BatchRow>)
  {
    && InRange(blocks, rows)
    && (forall i :: 0 < i < |rows| ==> ChunkWithin(limits, cfg, Contents(blocks, rows), rows, i))
    && (forall b :: 0 < b < |batches| ==> BatchWithin(limits, cfg, Contents(blocks, rows), rows, batches[b]))
  }

  class Rollup {
    const cfg: ChainConfig
    const limits: Limits
    var blocks: seq<Block>
    var chunks: seq<ChunkRow>
    var batchHashes: seq<Option<Hash>>
    var batches: seq<BatchRow>

    ghost predicate Valid()
      reads this
    {
      && ValidConfig(cfg) && limits.maxBlocksPerChunk > 0 && Monotone(limits.overBatch)
      && |blocks| < TWO_TO_64 && |batches| < TWO_TO_64
      && ValidTables(cfg, blocks, chunks, batchHashes, batches)
    }

    /** Every stored chunk and batch but the genesis ones is within the limits. */
    ghost predicate Within()
      reads this
    {
      AllWithin(limits, cfg, blocks, chunks, batches)
    }

    /** Imports the genesis block as chunk 0 and batch 0, both codecv0. */
    constructor (cfg: ChainConfig, limits: Limits, genesis: Block)
      requires ValidConfig(cfg) && limits.maxBlocksPerChunk > 0 && Monotone(limits.overBatch)
      requires genesis.number == 0 && genesis.txs == []
      ensures Valid() && Within() && this.cfg == cfg && this.limits == limits && blocks == [genesis]
      ensures |chunks| == 1 && |batches| == 1
    {
      var chunk := Chunk([genesis]);
      GenesisEncodes(genesis, cfg.crypto);
      var daChunk := NewDAChunk(V0, chunk, 0);
      var chunkHash := ChunkHash(V0, daChunk.value, cfg.crypto.keccak).value;
      var popped := NumL1MessagesOfChunk(chunk, 0);
      var row := ChunkRow(0, chunkHash, 0, 0, 0, popped);
      var meta := GetBatchMetadata(V0, Batch(0, 0, ZERO_HASH, [chunk]), cfg.crypto);
      var m := meta.value;
      var batch := BatchRow(0, m.batchHash, 0, m.startChunkHash, 0, m.endChunkHash, ZERO_HASH, m.batchBytes);
      GenesisValid(cfg, genesis, row, batch);
      this.cfg, this.limits := cfg, limits;
      blocks, chunks, batchHashes, batches := [genesis], [row], [Some(m.batchHash)], [batch];
    }

    /** The watcher stores the next L2 block. */
    method AppendBlock(block: Block)
      requires Valid() && block.number == |blocks| && |blocks| + 1 < TWO_TO_64
      modifies this`blocks
      ensures Valid() && (old(Within()) ==> Within()) && blocks == old(blocks) + [block]
    {
      hide AllWithin, ValidTables, ValidConfig, Monotone;
      BlockAppended(cfg, blocks, block, chunks, batchHashes, batches);
      if Within() {
        WithinAfterBlock(limits, cfg, blocks, block, chunks, batches);
      }
      blocks := blocks + [block];
    }

    /** The first block that is in no chunk. */
    function UnchunkedBlockHeight(): nat
      reads this
    {
      if |chunks| == 0 then 1 else chunks[|chunks| - 1].endBlock + 1
    }

    /** Inserts the chunk of all blocks from the first unchunked one to `end`. */
    method InsertChunk(end: nat, codec: Codec, dbFails: bool) returns (ok: bool)
      requires Valid() && UnchunkedBlockHeight() <= end < |blocks|
      requires codec == CodecAt(cfg, UnchunkedBlockHeight()) && NoForkWithin(cfg.forks, UnchunkedBlockHeight(), end)
      modifies this`chunks, this`batchHashes
      ensures Valid()
      ensures ok ==> |chunks| == |old(chunks)| + 1 && chunks[..|old(chunks)|] == old(chunks)
      ensures ok ==>
          chunks[|old(chunks)|].startBlock == old(UnchunkedBlockHeight()) && chunks[|old(chunks)|].endBlock == end
      ensures !ok ==> chunks == old(chunks) && batchHashes == old(batchHashes)
      ensures !ok ==> dbFails || Unhashable(cfg, blocks, chunks, UnchunkedBlockHeight(), end)
    {
      hide ValidTables, Wrap, BlocksL1Messages, ChunkHash, DAChunkOf, ThreadChunks, NoForkWithin, Monotone, Contents,
           Numbered, InRange, ChunksRecorded;
      TablesShape(cfg, blocks, chunks, batchHashes, batches);
      var parent := chunks[|chunks| - 1];
      var start := parent.endBlock + 1;
      var chunk := Chunk(blocks[start..end + 1]);
      var before := Wrap((parent.poppedBefore as int) + parent.poppedInChunk);
      LastCounter(cfg, Contents(blocks, chunks), chunks);
      var daChunk := NewDAChunk(codec, chunk, before);
      if daChunk.Err? || ChunkHash(codec, daChunk.value, cfg.crypto.keccak).Err? || dbFails {
        return false;
      }
      var popped := NumL1MessagesOfChunk(chunk, before);
      var row := ChunkRow(parent.index + 1, ChunkHash(codec, daChunk.value, cfg.crypto.keccak).value, start, end,
          before, popped);
      ChunkAppended(cfg, blocks, chunks, row, batchHashes, batches);
      chunks := chunks + [row];
      batchHashes := batchHashes + [None];
      return true;
    }

    /** What the chunk proposer decides at time `now`. */
    method PlanChunk(now: uint64) returns (plan: Plan)
      requires Valid()
      ensures plan.Empty? <==> UnchunkedBlockHeight() == |blocks|
      ensures plan.Wait? ==> ChunkWaits(limits, cfg, blocks, UnchunkedBlockHeight(), now)
      ensures plan.Fail? ==> ChunkLoopFails(limits, cfg, blocks, UnchunkedBlockHeight())
      ensures plan.Take? ==>
        && IsProposedChunk(limits, cfg, blocks, UnchunkedBlockHeight(), plan.size, plan.considered, now)
        && plan.codec == CodecAt(cfg, UnchunkedBlockHeight())
        && NoForkWithin(cfg.forks, UnchunkedBlockHeight(), UnchunkedBlockHeight() + plan.size - 1)
    {
      hide ValidTables, ChunkFits, NoForkWithin, Monotone, UntilFork, Contents, InRange, ChunksRecorded, Wrap, IsGrowth;
      TablesShape(cfg, blocks, chunks, batchHashes, batches);
      var height := UnchunkedBlockHeight();
      var maxBlocks := limits.maxBlocksPerChunk;
      var untilFork := BlocksUntilFork(height, cfg.forks);
      if untilFork != 0 && untilFork < maxBlocks {
        maxBlocks := untilFork;
      }
      var n := Limited(|blocks| - height, maxBlocks);
      if n == 0 {
        return Empty;
      }
      var candidates := blocks[height..height + n];
      var codec := if IsBernoulli(cfg, candidates[0].number) then V1 else V0;
      var growth := Grow(candidates, (bs: seq<Block>) => ChunkFits(limits, codec, bs));
      if growth.Failed? {
        return Fail;
      }
      ProposedChunk(limits, codec, blocks, height, n, growth);
      if growth.Open? && !(Wrap((candidates[0].time as int) + limits.chunkTimeout) < now || n == maxBlocks) {
        return Wait;
      }
      ChunkStaysBeforeFork(height, limits.maxBlocksPerChunk, cfg.forks, |blocks| - height, growth.n);
      return Take(growth.n, n, codec);
    }

    /** One round of the chunk proposer at time `now`. */
    method ProposeChunk(now: uint64, dbFails: bool) returns (r: Outcome)
      requires Valid()
      modifies this`chunks, this`batchHashes
      ensures Valid() && (old(Within()) ==> Within())
      ensures r.Inserted? ==> |chunks| == |old(chunks)| + 1 && chunks[..|old(chunks)|] == old(chunks)
      ensures r.Inserted? ==>
        && IsProposedChunk(limits, cfg, blocks, old(UnchunkedBlockHeight()), r.size, r.considered, now)
        && chunks[|old(chunks)|].startBlock == old(UnchunkedBlockHeight())
        && chunks[|old(chunks)|].endBlock + 1 == old(UnchunkedBlockHeight()) + r.size
      ensures !r.Inserted? ==> chunks == old(chunks) && batchHashes == old(batchHashes)
      ensures r.Nothing? <==> old(UnchunkedBlockHeight()) == |blocks|
      ensures r.Waiting? ==> ChunkWaits(limits, cfg, blocks, UnchunkedBlockHeight(), now)
      ensures r.Error? ==> dbFails || ChunkFailure(limits, cfg, blocks, chunks, UnchunkedBlockHeight())
    {
      hide ValidTables, ValidConfig, Monotone, NoForkWithin, ChunkWaits, ChunkLoopFails, Unhashable, IsProposedChunk,
           CodecAt, AllWithin;
      var plan := PlanChunk(now);
      match plan
      case Empty => return Nothing;
      case Wait => return Waiting;
      case Fail => return Error;
      case Take(n, considered, codec) =>
        ProposedSize(limits, cfg, blocks, UnchunkedBlockHeight(), n, considered, now);
        var ok := InsertChunk(UnchunkedBlockHeight() + n - 1, codec, dbFails);
        if ok && old(Within()) {
          ChunkInserted(limits, cfg, blocks, old(chunks), chunks, batches, n, considered, now);
        }
        return if ok then Inserted(n, considered) else Error;
    }

    /** The first chunk that is in no batch. */
    function UnbatchedChunkIndex(): nat
      reads this
    {
      if |batches| == 0 then 0 else batches[|batches| - 1].endChunkIndex + 1
    }

    /** Inserts a batch and marks its chunks, in one transaction. */
    method InsertBatch(batch: Batch, codec: Codec, ghost n: nat, dbFails: bool) returns (ok: bool)
      requires Valid() && |batches| + 1 < TWO_TO_64
      requires IsNextBatch(cfg, blocks, chunks, batches, batch, codec, n)
      modifies this`batchHashes, this`batches
      ensures Valid()
      ensures ok ==> |batches| == |old(batches)| + 1 && batches[..|old(batches)|] == old(batches)
      ensures ok ==> batches[|old(batches)|].endChunkIndex + 1 == old(UnbatchedChunkIndex()) + n
      ensures !ok ==> batches == old(batches) && batchHashes == old(batchHashes)
      ensures ok ==> DABatchOf(codec, batch, cfg.crypto).Ok?
      ensures !ok ==> dbFails || DABatchOf(codec, batch, cfg.crypto).Err?
    {
      hide ValidTables, MetadataOf, Monotone, Contents, ThreadChunks, CodecAt, InRange, ChunksRecorded, Numbered,
           DABatchOf;
      TablesShape(cfg, blocks, chunks, batchHashes, batches);
      if |batch.chunks| == 0 {
        return false;
      }
      MetadataIff(codec, batch, cfg.crypto);
      var meta := GetBatchMetadata(codec, batch, cfg.crypto);
      if meta.Err? || dbFails {
        return false;
      }
      var m, first, size := meta.value, batches[batch.index - 1].endChunkIndex + 1, |batch.chunks|;
      var row := BatchRow(batch.index, m.batchHash, first, m.startChunkHash, first + size - 1, m.endChunkHash,
                          batch.parentBatchHash, m.batchBytes);
      NextBatchRecorded(cfg, blocks, chunks, batchHashes, batches, batch, codec, n, row);
      batches := batches + [row];
      batchHashes := SetRange(batchHashes, row.startChunkIndex, row.endChunkIndex, row.hash);
      return true;
    }

    /** The number of chunks to consider: a chunk that starts at a fork, and all after it, wait for the next batch. */
    method SelectChunks() returns (n: nat)
      requires UnbatchedChunkIndex() <= |chunks|
      ensures Considered(cfg.forks, chunks, UnbatchedChunkIndex(), limits.maxChunksPerBatch, n)
    {
      var first := UnbatchedChunkIndex();
      n := Limited(|chunks| - first, limits.maxChunksPerBatch);
      for i := 0 to n
        invariant forall j :: first < j < first + i ==> chunks[j].startBlock !in cfg.forks
      {
        if i != 0 && chunks[first + i].startBlock in cfg.forks {
          return i;
        }
      }
    }

    /** The blocks of the chunks `first..first + n`. */
    method GetDAChunks(first: nat, n: nat) returns (daChunks: seq<Chunk>)
      requires InRange(blocks, chunks) && first + n <= |chunks|
      ensures daChunks == Contents(blocks, chunks)[first..first + n]
    {
      daChunks := [];
      for i := 0 to n
        invariant daChunks == Contents(blocks, chunks)[first..first + i]
      {
        var c := chunks[first + i];
        daChunks := daChunks + [Chunk(blocks[c.startBlock..c.endBlock + 1])];
      }
    }

    /** The chunks to consider for the next batch, and the counter before them, read from the parent's header. */
    method BatchCandidates() returns (daChunks: seq<Chunk>, before: Result<uint64>)
      requires Valid()
      ensures UnbatchedChunkIndex() <= |chunks| && InRange(blocks, chunks)
      ensures Considered(cfg.forks, chunks, UnbatchedChunkIndex(), limits.maxChunksPerBatch, |daChunks|)
      ensures UnbatchedChunkIndex() + |daChunks| <= |chunks|
      ensures daChunks == Contents(blocks, chunks)[UnbatchedChunkIndex()..UnbatchedChunkIndex() + |daChunks|]
      ensures daChunks != [] ==>
        && before == Ok(ThreadChunks(Contents(blocks, chunks)[..UnbatchedChunkIndex()], 0))
        && chunks[UnbatchedChunkIndex()].startBlock < |blocks|
        && |daChunks[0].blocks| > 0 && daChunks[0].blocks[0] == blocks[chunks[UnbatchedChunkIndex()].startBlock]
    {
      hide ValidTables, Monotone, Contents, ThreadChunks, InRange, ChunksRecorded, Considered, ParentCodec,
           GetTotalL1MessagePoppedBeforeBatch;
      TablesShape(cfg, blocks, chunks, batchHashes, batches);
      var parent, first := batches[|batches| - 1], UnbatchedChunkIndex();
      var n := SelectChunks();
      SelectedChunks(cfg.forks, chunks, first, limits.maxChunksPerBatch, n);
      daChunks := GetDAChunks(first, n);
      before := Err;
      if n != 0 {
        FirstBlock(cfg, blocks, chunks, batchHashes, batches, first, n);
        CounterBeforeBatch(cfg, blocks, chunks, batchHashes, batches);
        before := GetTotalL1MessagePoppedBeforeBatch(parent.header,
            ParentCodec(cfg, parent, daChunks[0].blocks[0].number));
      }
    }

    /** Whether all `n` considered chunks, the first of which begins at the given time, make a batch now. */
    method IsBatchDue(first: nat, n: nat, time: uint64, now: uint64) returns (due: bool)
      requires first < |chunks| && chunks[first].startBlock < |blocks| && blocks[chunks[first].startBlock].time == time
      ensures due <==> BatchDue(limits, blocks, chunks, first, n, now)
    {
      var maxChunks := limits.maxChunksPerBatch;
      if n < Limited(|chunks| - first, maxChunks) && n < maxChunks {
        maxChunks := n;
      }
      return Wrap((time as int) + limits.batchTimeout) < now || n == maxChunks;
    }

    /** What the batch proposer decides at time `now`, and the batch if it takes one. */
    method PlanBatch(now: uint64) returns (plan: Plan, batch: Batch)
      requires Valid() && |batches| + 1 < TWO_TO_64
      ensures plan.Empty? <==> UnbatchedChunkIndex() == |chunks|
      ensures plan.Wait? ==> BatchWaits(limits, cfg, blocks, chunks, UnbatchedChunkIndex(), now)
      ensures plan.Fail? ==> BatchLoopFails(limits, cfg, blocks, chunks, UnbatchedChunkIndex())
      ensures plan.Take? ==>
        && IsProposedBatch(limits, cfg, blocks, chunks, UnbatchedChunkIndex(), plan.size, plan.considered, now)
        && IsNextBatch(cfg, blocks, chunks, batches, batch, plan.codec, plan.size)
    {
      hide ValidTables, ValidConfig, Monotone, Contents, ThreadChunks, InRange, ChunksRecorded, Considered, BatchFits,
           Wrap, Longest, IsNextBatch, IsProposedBatch, IsGrowth, Numbered, BatchDue, Limited, CodecAt;
      TablesShape(cfg, blocks, chunks, batchHashes, batches);
      var parent, first := batches[|batches| - 1], UnbatchedChunkIndex();
      batch := Batch(0, 0, ZERO_HASH, []);
      var daChunks, before := BatchCandidates();
      var n := |daChunks|;
      NoneConsidered(cfg.forks, chunks, first, limits.maxChunksPerBatch, n);
      if n == 0 {
        return Empty, batch;
      }
      var codec := CodecAt(cfg, chunks[first].startBlock);
      if before.Err? {
        return Fail, batch;
      }
      var growth := Grow(daChunks, (cs: seq<Chunk>) => BatchFits(limits, codec, cs, before.value));
      if growth.Failed? {
        assert FailsWith(limits, cfg, blocks, chunks, first, n);
        return Fail, batch;
      }
      GrowthIsLongest(limits, codec, daChunks, before.value, growth);
      GrowthSize(limits, codec, daChunks, before.value, growth);
      var due := IsBatchDue(first, n, daChunks[0].blocks[0].time, now);
      if growth.Open? && !due {
        assert WaitsWith(limits, cfg, blocks, chunks, first, n, now);
        return Wait, batch;
      }
      ProposedBatch(limits, cfg, blocks, chunks, batches, n, growth.n, now);
      batch := Batch(parent.index + 1, before.value, parent.hash, daChunks[..growth.n]);
      return Take(growth.n, n, codec), batch;
    }

    /** One round of the batch proposer at time `now`. */
    method ProposeBatch(now: uint64, dbFails: bool) returns (r: Outcome)
      requires Valid() && |batches| + 1 < TWO_TO_64
      modifies this`batchHashes, this`batches
      ensures Valid() && (old(Within()) ==> Within())
      ensures r.Inserted? ==> |batches| == |old(batches)| + 1 && batches[..|old(batches)|] == old(batches)
      ensures r.Inserted? ==> batches[|old(batches)|].endChunkIndex + 1 == old(UnbatchedChunkIndex()) + r.size
      ensures r.Inserted? ==>
        IsProposedBatch(limits, cfg, blocks, chunks, old(UnbatchedChunkIndex()), r.size, r.considered, now)
      ensures r.Inserted? ==> Buildable(cfg, blocks, chunks, old(UnbatchedChunkIndex()), r.size)
      ensures !r.Inserted? ==> batches == old(batches) && batchHashes == old(batchHashes)
      ensures r.Nothing? <==> old(UnbatchedChunkIndex()) == |chunks|
      ensures r.Waiting? ==> BatchWaits(limits, cfg, blocks, chunks, UnbatchedChunkIndex(), now)
      ensures r.Error? ==> dbFails || BatchFailure(limits, cfg, blocks, chunks, UnbatchedChunkIndex(), now)
    {
      hide ValidTables, ValidConfig, Monotone, BatchWaits, BatchLoopFails, IsProposedBatch, IsNextBatch, DABatchOf,
           ChunksRecorded, InRange, Numbered, AllWithin, Buildable;
      TablesShape(cfg, blocks, chunks, batchHashes, batches);
      var plan, batch := PlanBatch(now);
      match plan
      case Empty => return Nothing;
      case Wait => return Waiting;
      case Fail => return Error;
      case Take(n, considered, codec) =>
        ProposedBuilds(limits, cfg, blocks, chunks, batchHashes, batches, batch, codec, n, considered, now);
        var ok := InsertBatch(batch, codec, n, dbFails);
        if !ok {
          assert dbFails || CannotBuild(limits, cfg, blocks, chunks, UnbatchedChunkIndex(), n, considered, now);
          return Error;
        }
        if old(Within()) {
          ghost var row := batches[|old(batches)|];
          assert batches == old(batches) + [row];
          InsertedStart(cfg, blocks, chunks, batchHashes, old(batches), row);
          ProposedBatchFits(limits, cfg, blocks, chunks, row, n, considered, now);
          WithinAfterBatch(limits, cfg, blocks, chunks, old(batches), row);
        }
        return Inserted(n, considered);
    }
  }

  // ---------- Everything stored is within the limits ----------

  lemma {:induction false} WithinAfterBlock(limits: Limits, cfg: ChainConfig, blocks: seq<Block>, block: Block,
                                            rows: seq<ChunkRow>, batches: seq<BatchRow>)
    requires AllWithin(limits, cfg, blocks, rows, batches)
    ensures AllWithin(limits, cfg, blocks + [block], rows, batches)
  {
    hide Contents, ChunkWithin, BatchWithin;
    ContentsKept(blocks, block, rows);
  }

  lemma {:induction false} ProposedChunkFits(limits: Limits, cfg: ChainConfig, blocks: seq<Block>, start: nat,
                                             size: nat, considered: nat, now: uint64)
    requires IsProposedChunk(limits, cfg, blocks, start, size, considered, now)
    ensures start + size <= |blocks| && ChunkFits(limits, CodecAt(cfg, start), blocks[start..start + size]) == Ok(true)
  {
    hide ChunkFits, CodecAt;
  }

  lemma {:induction false} BatchStaysWithin(limits: Limits, cfg: ChainConfig, contents: seq<Chunk>, chunk: Chunk,
                                            rows: seq<ChunkRow>, row: ChunkRow, batch: BatchRow)
    requires BatchWithin(limits, cfg, contents, rows, batch)
    ensures BatchWithin(limits, cfg, contents + [chunk], rows + [row], batch)
  {
    hide BatchFits, CodecAt, ThreadChunks;
    var s, e := batch.startChunkIndex, batch.endChunkIndex + 1;
    assert (contents + [chunk])[s..e] == contents[s..e];
    assert (contents + [chunk])[..s] == contents[..s];
  }

  lemma {:induction false} WithinAfterChunk(limits: Limits, cfg: ChainConfig, blocks: seq<Block>, rows: seq<ChunkRow>,
                                            row: ChunkRow, batches: seq<BatchRow>)
    requires AllWithin(limits, cfg, blocks, rows, batches) && row.startBlock <= row.endBlock < |blocks|
    requires ChunkFits(limits, CodecAt(cfg, row.startBlock), blocks[row.startBlock..row.endBlock + 1]) == Ok(true)
    ensures AllWithin(limits, cfg, blocks, rows + [row], batches)
  {
    hide Contents, ChunkFits, CodecAt, BatchWithin, InRange;
    ContentsSnoc(blocks, rows, row);
    var contents, chunk := Contents(blocks, rows), Chunk(blocks[row.startBlock..row.endBlock + 1]);
    forall i | 0 < i < |rows| + 1 ensures ChunkWithin(limits, cfg, contents + [chunk], rows + [row], i) {
      assert i < |rows| ==> ChunkWithin(limits, cfg, contents, rows, i);
    }
    forall b | 0 < b < |batches| ensures BatchWithin(limits, cfg, contents + [chunk], rows + [row], batches[b]) {
      BatchStaysWithin(limits, cfg, contents, chunk, rows, row, batches[b]);
    }
  }

  lemma {:induction false} ChunkInserted(limits: Limits, cfg: ChainConfig, blocks: seq<Block>, before: seq<ChunkRow>,
                                         rows: seq<ChunkRow>, batches: seq<BatchRow>, size: nat, considered: nat,
                                         now: uint64)
    requires AllWithin(limits, cfg, blocks, before, batches)
    requires |rows| == |before| + 1 && rows[..|before|] == before
    requires var row := rows[|before|];
      && IsProposedChunk(limits, cfg, blocks, row.startBlock, size, considered, now)
      && row.endBlock + 1 == row.startBlock + size
    ensures AllWithin(limits, cfg, blocks, rows, batches)
  {
    hide AllWithin, IsProposedChunk, ChunkFits, CodecAt;
    var row := rows[|before|];
    assert rows == before + [row];
    ProposedSize(limits, cfg, blocks, row.startBlock, size, considered, now);
    ProposedChunkFits(limits, cfg, blocks, row.startBlock, size, considered, now);
    WithinAfterChunk(limits, cfg, blocks, before, row, batches);
  }

  lemma {:induction false} InsertedStart(cfg: ChainConfig, blocks: seq<Block>, rows: seq<ChunkRow>,
                                         batchHashes: seq<Option<Hash>>, batches: seq<BatchRow>, row: BatchRow)
    requires ValidTables(cfg, blocks, rows, batchHashes, batches + [row]) && |batches| > 0
    ensures row.startChunkIndex == batches[|batches| - 1].endChunkIndex + 1
  {
    var b := |batches|;
    assert (batches + [row])[b] == row && (batches + [row])[b - 1] == batches[b - 1];
  }

  lemma {:induction false} ProposedBatchFits(limits: Limits, cfg: ChainConfig, blocks: seq<Block>, rows: seq<ChunkRow>,
                                             row: BatchRow, size: nat, considered: nat, now: uint64)
    requires IsProposedBatch(limits, cfg, blocks, rows, row.startChunkIndex, size, considered, now)
    requires row.endChunkIndex + 1 == row.startChunkIndex + size
    ensures InRange(blocks, rows) && BatchWithin(limits, cfg, Contents(blocks, rows), rows, row)
  {
    hide BatchFits, CodecAt, ThreadChunks, Contents, InRange, IsProposedBatch;
    ProposedFits(limits, cfg, blocks, rows, row.startChunkIndex, size, considered, now);
  }

  lemma {:induction false} WithinAfterBatch(limits: Limits, cfg: ChainConfig, blocks: seq<Block>, rows: seq<ChunkRow>,
                                            batches: seq<BatchRow>, row: BatchRow)
    requires AllWithin(limits, cfg, blocks, rows, batches)
    requires BatchWithin(limits, cfg, Contents(blocks, rows), rows, row)
    ensures AllWithin(limits, cfg, blocks, rows, batches + [row])
  {
    hide Contents, ChunkWithin, BatchWithin;
  }

  /** `batch` holds the `n` chunks after the last batch, the counter before them and the last batch's hash. */
  ghost predicate IsNextBatch(cfg: ChainConfig, blocks: seq<Block>, rows: seq<ChunkRow>, batches: seq<BatchRow>,
                              batch: Batch, codec: Codec, n: nat)
  {
    && InRange(blocks, rows) && |batches| > 0
    && (var parent := batches[|batches| - 1];
        var first := parent.endChunkIndex + 1;
        && batch.index == parent.index + 1 && batch.parentBatchHash == parent.hash
        && 0 < n && first + n <= |rows|
        && batch.totalL1MessagePoppedBefore == ThreadChunks(Contents(blocks, rows)[..first], 0)
        && batch.chunks == Contents(blocks, rows)[first..first + n]
        && codec == CodecAt(cfg, rows[first].startBlock)
        && forall i :: first < i < first + n ==> rows[i].startBlock !in cfg.forks)
  }

  lemma {:induction false} NextBatchRecorded(cfg: ChainConfig, blocks: seq<Block>, rows: seq<ChunkRow>,
      batchHashes: seq<Option<Hash>>,
                                             batches: seq<BatchRow>, batch: Batch, codec: Codec, n: nat, row: BatchRow)
    requires |batch.chunks| > 0 && |batches| > 0
    requires MetadataOf(codec, batch, cfg.crypto) ==
      Ok(BatchMetadata(row.hash, row.header, row.startChunkHash, row.endChunkHash))
    requires row.startChunkIndex == batches[|batches| - 1].endChunkIndex + 1 == row.endChunkIndex + 1 - n
    requires row.index == batch.index && row.parentBatchHash == batch.parentBatchHash
    requires ValidConfig(cfg) && ValidTables(cfg, blocks, rows, batchHashes, batches)
    requires IsNextBatch(cfg, blocks, rows, batches, batch, codec, n)
    ensures ValidTables(cfg, blocks, rows, SetRange(batchHashes, row.startChunkIndex, row.endChunkIndex, row.hash),
        batches + [row])
  {
    hide Contents, ChunksRecorded, BatchesRecorded, Chained, HashesSet, MetadataOf, ThreadChunks, Numbered, CodecAt;
    NewBatchRecorded(cfg, blocks, rows, row);
    BatchAppended(cfg, blocks, rows, batchHashes, batches, row);
  }

  lemma SelectedChunks(forks: seq<uint64>, rows: seq<ChunkRow>, first: nat, maxChunks: nat, n: nat)
    requires Considered(forks, rows, first, maxChunks, n)
    ensures first + n <= |rows| && forall i :: first < i < first + n ==> rows[i].startBlock !in forks
  {
  }

  lemma NoneConsidered(forks: seq<uint64>, rows: seq<ChunkRow>, first: nat, maxChunks: nat, n: nat)
    requires Considered(forks, rows, first, maxChunks, n)
    ensures n == 0 <==> first == |rows|
  {
  }

  lemma {:induction false} GrowthSize(limits: Limits, codec: Codec, candidates: seq<Chunk>, before: uint64, r: Growth)
    requires candidates != [] && !r.Failed?
    requires IsGrowth(r, candidates, (chunks: seq<Chunk>) => BatchFits(limits, codec, chunks, before))
    ensures 0 < r.n <= |candidates| && (r.Open? <==> r.n == |candidates|)
    ensures r.Open? ==> BatchFits(limits, codec, candidates, before) == Ok(true)
  {
    hide BatchFits;
    assert candidates[..|candidates|] == candidates;
  }

  lemma {:induction false} FirstBlock(cfg: ChainConfig, blocks: seq<Block>, rows: seq<ChunkRow>,
      batchHashes: seq<Option<Hash>>,
                                      batches: seq<BatchRow>, first: nat, n: nat)
    requires ValidTables(cfg, blocks, rows, batchHashes, batches) && 0 < n && first + n <= |rows|
    ensures rows[first].startBlock < |blocks|
    ensures var chunk := Contents(blocks, rows)[first..first + n][0];
      && |chunk.blocks| > 0 && chunk.blocks[0] == blocks[rows[first].startBlock]
      && chunk.blocks[0].number == rows[first].startBlock
  {
    hide ChunksRecorded, BatchesRecorded, Chained, HashesSet;
    var row := rows[first];
    assert blocks[row.startBlock..row.endBlock + 1][0] == blocks[row.startBlock];
  }

  /** The largest batch at this point: a batch cut at a fork can have no more than the considered chunks. */
  function MaxChunksThisBatch(limits: Limits, available: nat, considered: nat): nat {
    var max := limits.maxChunksPerBatch;
    if considered < Limited(available, max) && considered < max then considered else max
  }

  /** A batch of all considered chunks is due: its first block timed out, or there can be no more chunks in it. */
  predicate BatchDue(limits: Limits, blocks: seq<Block>, rows: seq<ChunkRow>, first: nat, considered: nat, now: uint64)
    requires first < |rows| && rows[first].startBlock < |blocks|
  {
    || Wrap((blocks[rows[first].startBlock].time as int) + limits.batchTimeout) < now
    || considered == MaxChunksThisBatch(limits, |rows| - first, considered)
  }

  /** The batch is the longest prefix of the considered chunks that is within the limits; if that is all of them, it
      is due. */
  ghost predicate IsProposedBatch(limits: Limits, cfg: ChainConfig, blocks: seq<Block>, rows: seq<ChunkRow>,
                                  first: nat, size: nat, considered: nat, now: uint64)
  {
    && InRange(blocks, rows) && Considered(cfg.forks, rows, first, limits.maxChunksPerBatch, considered)
    && 0 < considered && first + considered <= |rows| && rows[first].startBlock < |blocks|
    && (var contents := Contents(blocks, rows);
        Longest(limits, CodecAt(cfg, rows[first].startBlock), contents[first..first + considered],
                ThreadChunks(contents[..first], 0), size))
    && (size == considered ==> BatchDue(limits, blocks, rows, first, considered, now))
  }

  /** All considered chunks fit and are not due. */
  ghost predicate WaitsWith(limits: Limits, cfg: ChainConfig, blocks: seq<Block>, rows: seq<ChunkRow>, first: nat,
      considered: nat, now: uint64) {
    && InRange(blocks, rows) && Considered(cfg.forks, rows, first, limits.maxChunksPerBatch, considered)
    && 0 < considered && first + considered <= |rows| && rows[first].startBlock < |blocks|
    && !BatchDue(limits, blocks, rows, first, considered, now)
    && (var contents := Contents(blocks, rows);
        BatchFits(limits, CodecAt(cfg, rows[first].startBlock), contents[first..first + considered],
                  ThreadChunks(contents[..first], 0)) == Ok(true))
  }

  ghost predicate BatchWaits(limits: Limits, cfg: ChainConfig, blocks: seq<Block>, rows: seq<ChunkRow>, first: nat,
      now: uint64) {
    exists n :: WaitsWith(limits, cfg, blocks, rows, first, n, now)
  }

  /** The loop over the considered chunks fails. */
  ghost predicate FailsWith(limits: Limits, cfg: ChainConfig, blocks: seq<Block>, rows: seq<ChunkRow>, first: nat,
      considered: nat) {
    && InRange(blocks, rows) && Considered(cfg.forks, rows, first, limits.maxChunksPerBatch, considered)
    && 0 < considered && first + considered <= |rows|
    && (var contents, codec := Contents(blocks, rows), CodecAt(cfg, rows[first].startBlock);
        var before := ThreadChunks(contents[..first], 0);
        IsGrowth(Failed, contents[first..first + considered], (cs: seq<Chunk>) => BatchFits(limits, codec, cs, before)))
  }

  ghost predicate BatchLoopFails(limits: Limits, cfg: ChainConfig, blocks: seq<Block>, rows: seq<ChunkRow>,
      first: nat) {
    exists n :: FailsWith(limits, cfg, blocks, rows, first, n)
  }

  /** The `n` chunks from `first` on can be built into a batch: their L1 messages come in queue order, and there are no
      more than codecv1 takes. */
  ghost predicate Buildable(cfg: ChainConfig, blocks: seq<Block>, rows: seq<ChunkRow>, first: nat, n: nat) {
    && InRange(blocks, rows) && 0 < n && first + n <= |rows|
    && (var contents := Contents(blocks, rows);
        InQueueOrder(ThreadChunks(contents[..first], 0), ChunksIndices(contents[first..first + n])))
    && (CodecAt(cfg, rows[first].startBlock).V1? ==> n <= Blobs.MAX_NUM_CHUNKS)
  }

  /** The chunks chosen are not. */
  ghost predicate CannotBuild(limits: Limits, cfg: ChainConfig, blocks: seq<Block>, rows: seq<ChunkRow>, first: nat,
      n: nat, considered: nat, now: uint64) {
    IsProposedBatch(limits, cfg, blocks, rows, first, n, considered, now) && !Buildable(cfg, blocks, rows, first, n)
  }

  /** Why no batch can be proposed: the loop fails, or the chosen chunks cannot be built into a batch. */
  ghost predicate BatchFailure(limits: Limits, cfg: ChainConfig, blocks: seq<Block>, rows: seq<ChunkRow>, first: nat,
      now: uint64) {
    || BatchLoopFails(limits, cfg, blocks, rows, first)
    || exists n, considered :: CannotBuild(limits, cfg, blocks, rows, first, n, considered, now)
  }

  /** The chunks of the next batch were encoded before, at the same counters: they all have hashes. */
  lemma {:induction false} HashesExist(cfg: ChainConfig, blocks: seq<Block>, rows: seq<ChunkRow>, first: nat, n: nat)
    requires ValidConfig(cfg) && Tiled(blocks, rows) && ChunksRecorded(cfg, Contents(blocks, rows), rows)
    requires 0 < first && first + n <= |rows|
    requires forall i :: first < i < first + n ==> rows[i].startBlock !in cfg.forks
    ensures var contents := Contents(blocks, rows);
      n > 0 ==>
        ChunkHashes(CodecAt(cfg, rows[first].startBlock), contents[first..first + n],
                    ThreadChunks(contents[..first], 0), cfg.crypto).Ok?
    decreases n
  {
    hide Contents, ChunksRecorded, HashOfChunk, ThreadChunks, NoForkWithin, CodecAt;
    if n > 0 {
      var contents, last := Contents(blocks, rows), first + n - 1;
      HashesExist(cfg, blocks, rows, first, n - 1);
      NoForkInBatch(cfg, blocks, rows, first, last);
      BatchEndCodec(cfg, blocks, rows, first, last);
      SameChunkHash(cfg, contents, rows, first, last, CodecAt(cfg, rows[first].startBlock));
      assert contents[first..first + n][..n - 1] == contents[first..last];
      assert contents[first..first + n][n - 1] == contents[last];
      if n == 1 {
        assert contents[first..last] == [];
      }
    }
  }

  /** A batch within the limits, of chunks that have hashes, can be built exactly when its messages come in queue order
      and its chunks are not too many. */
  lemma {:induction false} BuildsIff(limits: Limits, codec: Codec, batch: Batch, crypto: Crypto)
    requires |batch.chunks| > 0
    requires ChunkHashes(codec, batch.chunks, batch.totalL1MessagePoppedBefore, crypto).Ok?
    requires BatchFits(limits, codec, batch.chunks, batch.totalL1MessagePoppedBefore) == Ok(true)
    ensures DABatchOf(codec, batch, crypto).Ok? <==>
      && InQueueOrder(batch.totalL1MessagePoppedBefore, ChunksIndices(batch.chunks))
      && (codec.V1? ==> |batch.chunks| <= Blobs.MAX_NUM_CHUNKS)
  {
    hide ChunkHashes, InQueueOrder, ChunksIndices, Blobs.BlobPayload, EstimateBatchL1CommitBlobSize, BatchGas, Total;
    if codec.V1? && |batch.chunks| <= Blobs.MAX_NUM_CHUNKS {
      BlobEstimateExact(batch.chunks);
    }
  }

  /** So it is for the chunks that the proposer chooses. */
  lemma {:induction false} ProposedBuilds(limits: Limits, cfg: ChainConfig, blocks: seq<Block>, rows: seq<ChunkRow>,
      batchHashes: seq<Option<Hash>>, batches: seq<BatchRow>, batch: Batch, codec: Codec, n: nat, considered: nat,
      now: uint64)
    requires ValidConfig(cfg) && ValidTables(cfg, blocks, rows, batchHashes, batches)
    requires IsNextBatch(cfg, blocks, rows, batches, batch, codec, n)
    requires IsProposedBatch(limits, cfg, blocks, rows, batches[|batches| - 1].endChunkIndex + 1, n, considered, now)
    ensures DABatchOf(codec, batch, cfg.crypto).Ok? <==>
      Buildable(cfg, blocks, rows, batches[|batches| - 1].endChunkIndex + 1, n)
  {
    hide Contents, ThreadChunks, InQueueOrder, ChunksIndices, DABatchOf, BatchFits, ChunksRecorded, ValidTables,
         IsProposedBatch, CodecAt, ValidConfig, InRange, ChunkHashes;
    var first := batches[|batches| - 1].endChunkIndex + 1;
    TablesRecorded(cfg, blocks, rows, batchHashes, batches);
    HashesExist(cfg, blocks, rows, first, n);
    ProposedFits(limits, cfg, blocks, rows, first, n, considered, now);
    BuildsIff(limits, codec, batch, cfg.crypto);
  }

  lemma TablesRecorded(cfg: ChainConfig, blocks: seq<Block>, rows: seq<ChunkRow>, batchHashes: seq<Option<Hash>>,
      batches: seq<BatchRow>)
    requires ValidTables(cfg, blocks, rows, batchHashes, batches)
    ensures Tiled(blocks, rows) && ChunksRecorded(cfg, Contents(blocks, rows), rows)
  {
    hide Contents, ChunksRecorded, BatchesRecorded, Chained, HashesSet;
  }

  lemma {:induction false} ProposedFits(limits: Limits, cfg: ChainConfig, blocks: seq<Block>, rows: seq<ChunkRow>,
      first: nat, n: nat, considered: nat, now: uint64)
    requires IsProposedBatch(limits, cfg, blocks, rows, first, n, considered, now)
    ensures InRange(blocks, rows) && 0 < n && first + n <= |rows|
    ensures BatchFits(limits, CodecAt(cfg, rows[first].startBlock), Contents(blocks, rows)[first..first + n],
                      ThreadChunks(Contents(blocks, rows)[..first], 0)) == Ok(true)
  {
    hide BatchFits, CodecAt, ThreadChunks, Contents, InRange, Considered, BatchDue;
    SliceOfSlice(Contents(blocks, rows), first, first + considered, 0, n);
  }

  /** With a chunk limit from 1 to 15, the chosen chunks are never too many. */
  lemma {:induction false} NeverTooMany(limits: Limits, cfg: ChainConfig, blocks: seq<Block>, rows: seq<ChunkRow>,
      first: nat, n: nat, considered: nat, now: uint64)
    requires IsProposedBatch(limits, cfg, blocks, rows, first, n, considered, now)
    ensures 1 <= limits.maxChunksPerBatch <= Blobs.MAX_NUM_CHUNKS ==> n <= Blobs.MAX_NUM_CHUNKS
  {
    hide BatchFits, Contents, ThreadChunks, InRange, BatchDue, CodecAt;
  }

  lemma {:induction false} ProposedBatch(limits: Limits, cfg: ChainConfig, blocks: seq<Block>, rows: seq<ChunkRow>,
                                         batches: seq<BatchRow>, considered: nat, n: nat, now: uint64)
    requires InRange(blocks, rows) && |batches| > 0 && batches[|batches| - 1].index + 1 < TWO_TO_64
    requires var first := batches[|batches| - 1].endChunkIndex + 1;
      && 0 < n <= considered && first + considered <= |rows| && rows[first].startBlock < |blocks|
      && (n == considered ==> BatchDue(limits, blocks, rows, first, considered, now))
      && Considered(cfg.forks, rows, first, limits.maxChunksPerBatch, considered)
      && Longest(limits, CodecAt(cfg, rows[first].startBlock), Contents(blocks, rows)[first..first + considered],
                 ThreadChunks(Contents(blocks, rows)[..first], 0), n)
    ensures var parent := batches[|batches| - 1];
      var first := parent.endChunkIndex + 1;
      && IsProposedBatch(limits, cfg, blocks, rows, first, n, considered, now)
      && IsNextBatch(cfg, blocks, rows, batches,
           Batch(parent.index + 1, ThreadChunks(Contents(blocks, rows)[..first], 0), parent.hash,
                 Contents(blocks, rows)[first..first + considered][..n]),
           CodecAt(cfg, rows[first].startBlock), n)
  {
    hide Contents, ThreadChunks, Longest, CodecAt, InRange, BatchDue;
    var first := batches[|batches| - 1].endChunkIndex + 1;
    SelectedChunks(cfg.forks, rows, first, limits.maxChunksPerBatch, considered);
    SliceOfSlice(Contents(blocks, rows), first, first + considered, 0, n);
  }

  /** The counter that the proposer reads from the last header is the counter before the first unbatched chunk. */
  lemma {:induction false} CounterBeforeBatch(cfg: ChainConfig, blocks: seq<Block>, rows: seq<ChunkRow>,
                                              batchHashes: seq<Option<Hash>>, batches: seq<BatchRow>)
    requires ValidConfig(cfg) && ValidTables(cfg, blocks, rows, batchHashes, batches)
    requires batches[|batches| - 1].endChunkIndex + 1 < |rows|
    ensures var parent := batches[|batches| - 1];
      var first := parent.endChunkIndex + 1;
      && rows[first].startBlock > 0
      && GetTotalL1MessagePoppedBeforeBatch(parent.header, ParentCodec(cfg, parent, rows[first].startBlock))
         == Ok(ThreadChunks(Contents(blocks, rows)[..first], 0))
  {
    hide Contents, ChunksRecorded, Chained, HashesSet, ThreadChunks, Numbered, GetTotalL1MessagePoppedBeforeBatch,
         BatchRecorded, ParentCodec, BatchCodec;
    var parent := batches[|batches| - 1];
    RowsAscend(blocks, rows, parent.startChunkIndex, parent.endChunkIndex);
    ParentCodecIsWriter(cfg, Contents(blocks, rows), rows, parent);
    HeaderCounter(cfg, Contents(blocks, rows), rows, parent);
  }

  /** The blocks considered for a chunk that starts at `height`. */
  function ConsideredBlocks(limits: Limits, cfg: ChainConfig, blocks: seq<Block>, height: nat): nat
    requires height <= |blocks| < TWO_TO_64
  {
    Limited(|blocks| - height, MaxBlocksThisChunk(height, limits.maxBlocksPerChunk, cfg.forks))
  }

  /** A chunk of all considered blocks is due: its first block timed out, or there can be no more blocks in it. */
  predicate ChunkDue(limits: Limits, cfg: ChainConfig, blocks: seq<Block>, height: nat, now: uint64)
    requires height < |blocks| < TWO_TO_64
  {
    || Wrap((blocks[height].time as int) + limits.chunkTimeout) < now
    || ConsideredBlocks(limits, cfg, blocks, height) == MaxBlocksThisChunk(height, limits.maxBlocksPerChunk, cfg.forks)
  }

  /** The chunk is within the limits; if not all considered blocks are in it, the next one would exceed them,
      and if all are, it is due. */
  ghost predicate IsProposedChunk(limits: Limits, cfg: ChainConfig, blocks: seq<Block>, start: nat, size: nat,
      considered: nat, now: uint64) {
    && start < |blocks| < TWO_TO_64
    && considered == ConsideredBlocks(limits, cfg, blocks, start) && 0 < size <= considered
    && (var codec := CodecAt(cfg, start);
        && ChunkFits(limits, codec, blocks[start..start + size]) == Ok(true)
        && (size < considered ==> ChunkFits(limits, codec, blocks[start..start + size + 1]) == Ok(false))
        && (size == considered ==> ChunkDue(limits, cfg, blocks, start, now)))
  }

  lemma ProposedSize(limits: Limits, cfg: ChainConfig, blocks: seq<Block>, start: nat, size: nat, considered: nat,
      now: uint64)
    requires IsProposedChunk(limits, cfg, blocks, start, size, considered, now)
    ensures 0 < size && start + size <= |blocks|
  {
  }

  /** All considered blocks fit and are not due. */
  ghost predicate ChunkWaits(limits: Limits, cfg: ChainConfig, blocks: seq<Block>, height: nat, now: uint64) {
    && height < |blocks| < TWO_TO_64 && !ChunkDue(limits, cfg, blocks, height, now)
    && ChunkFits(limits, CodecAt(cfg, height),
        blocks[height..height + ConsideredBlocks(limits, cfg, blocks, height)]) == Ok(true)
  }

  /** The loop over the considered blocks fails. */
  ghost predicate ChunkLoopFails(limits: Limits, cfg: ChainConfig, blocks: seq<Block>, height: nat) {
    && height < |blocks| < TWO_TO_64
    && (var n, codec := ConsideredBlocks(limits, cfg, blocks, height), CodecAt(cfg, height);
        IsGrowth(Failed, blocks[height..height + n], (bs: seq<Block>) => ChunkFits(limits, codec, bs)))
  }

  /** The blocks `start..end` cannot be encoded after the existing chunks. */
  ghost predicate Unhashable(cfg: ChainConfig, blocks: seq<Block>, rows: seq<ChunkRow>, start: nat, end: nat) {
    && InRange(blocks, rows) && start <= end < |blocks|
    && HashOfChunk(CodecAt(cfg, start), Chunk(blocks[start..end + 1]), ThreadChunks(Contents(blocks, rows), 0),
        cfg.crypto).Err?
  }

  /** Why no chunk can be proposed: the loop fails, or the chosen blocks cannot be encoded. */
  ghost predicate ChunkFailure(limits: Limits, cfg: ChainConfig, blocks: seq<Block>, rows: seq<ChunkRow>, height: nat) {
    || ChunkLoopFails(limits, cfg, blocks, height)
    || exists end: nat :: Unhashable(cfg, blocks, rows, height, end)
  }

  lemma {:induction false} ProposedChunk(limits: Limits, codec: Codec, blocks: seq<Block>, height: nat, n: nat,
      growth: Growth)
    requires 0 < n && height + n <= |blocks| && !growth.Failed?
    requires IsGrowth(growth, blocks[height..height + n], (bs: seq<Block>) => ChunkFits(limits, codec, bs))
    ensures 0 < growth.n <= n && ChunkFits(limits, codec, blocks[height..height + growth.n]) == Ok(true)
    ensures growth.n < n ==> ChunkFits(limits, codec, blocks[height..height + growth.n + 1]) == Ok(false)
  {
    hide ChunkFits;
    var candidates := blocks[height..height + n];
    assert candidates[..growth.n] == blocks[height..height + growth.n];
    if growth.Closed? {
      assert candidates[..growth.n + 1] == blocks[height..height + growth.n + 1];
    }
  }

  lemma {:induction false} GenesisValid(cfg: ChainConfig, genesis: Block, row: ChunkRow, batch: BatchRow)
    requires genesis.number == 0 && genesis.txs == []
    requires HashOfChunk(V0, Chunk([genesis]), 0, cfg.crypto) == Ok(row.hash)
    requires row == ChunkRow(0, row.hash, 0, 0, 0, BlocksL1Messages([genesis], 0))
    requires MetadataOf(V0, Batch(0, 0, ZERO_HASH, [Chunk([genesis])]), cfg.crypto) ==
      Ok(BatchMetadata(batch.hash, batch.header, batch.startChunkHash, batch.endChunkHash))
    requires batch == BatchRow(0, batch.hash, 0, batch.startChunkHash, 0, batch.endChunkHash, ZERO_HASH, batch.header)
    ensures ValidTables(cfg, [genesis], [row], [Some(batch.hash)], [batch])
  {
    hide DABatchOf, HeaderBytes, HashOfChunk, BlocksL1Messages;
    var contents := Contents([genesis], [row]);
    assert [genesis][0..1] == [genesis];
    assert contents == [Chunk([genesis])];
    assert contents[..0] == [] && contents[0..1] == contents;
  }

  // ---------- Whole runs ----------

  /** A round of the watcher or of a proposer, with the time it runs at and whether its transaction fails. */
  datatype Round = NewBlock(block: Block) | TryChunk(now: uint64, dbFails: bool) | TryBatch(now: uint64, dbFails: bool)

  /** From genesis, any interleaving of rounds keeps the database valid, and every chunk and batch in it but the
      genesis ones within the limits. */
  method Run(cfg: ChainConfig, limits: Limits, genesis: Block, rounds: seq<Round>) returns (rollup: Rollup)
    requires ValidConfig(cfg) && limits.maxBlocksPerChunk > 0 && Monotone(limits.overBatch)
    requires genesis.number == 0 && genesis.txs == []
    requires |rounds| + 1 < TWO_TO_64
    ensures fresh(rollup) && rollup.Valid() && rollup.Within() && rollup.cfg == cfg && rollup.limits == limits
  {
    hide ValidTables, Monotone, ValidConfig, IsProposedChunk, IsProposedBatch, AllWithin;
    rollup := new Rollup(cfg, limits, genesis);
    for i := 0 to |rounds|
      invariant fresh(rollup) && rollup.Valid() && rollup.Within() && rollup.cfg == cfg && rollup.limits == limits
      invariant |rollup.blocks| <= i + 1 && |rollup.batches| <= i + 1
    {
      match rounds[i]
      case NewBlock(block) => rollup.AppendBlock(block.(number := |rollup.blocks|));
      case TryChunk(now, dbFails) => var _ := rollup.ProposeChunk(now, dbFails);
      case TryBatch(now, dbFails) => var _ := rollup.ProposeBatch(now, dbFails);
    }
  }
}
