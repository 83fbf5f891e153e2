/** The L1 message queue over the whole chain of batches: what the stored headers alone say about it. */
module MessageQueues {
  import opened Wrappers
  import opened Bytes
  import opened L2Data
  import opened DAChunks
  import opened DABatches
  import opened SkippedBitmaps
  import opened RollupTables
  import opened Relayers
  import Forks

  // ---------- Reading headers ----------

  function Header(cfg: ChainConfig, rows: seq<ChunkRow>, batch: BatchRow): Result<DABatch>
    requires batch.startChunkIndex < |rows|
  {
    NewDABatchFromBytes(BatchCodec(cfg, rows, batch), batch.header)
  }

  ghost predicate HeadersDecode(cfg: ChainConfig, rows: seq<ChunkRow>, batches: seq<BatchRow>) {
    forall b :: 0 <= b < |batches| ==>
      && batches[b].startChunkIndex < |rows| && Header(cfg, rows, batches[b]).Ok?
      && |Header(cfg, rows, batches[b]).value.skippedL1MessageBitmap| % 32 == 0
  }

  /** The counter after the first `n` batches: the last header's, zero for none. */
  function CounterAfter(cfg: ChainConfig, rows: seq<ChunkRow>, batches: seq<BatchRow>, n: nat): uint64
    requires HeadersDecode(cfg, rows, batches) && n <= |batches|
  {
    if n == 0 then 0 else Header(cfg, rows, batches[n - 1]).value.totalL1MessagePopped
  }

  /** The skipped messages that the bitmaps of the first `n` headers name, each read from the counter before it. */
  function SkippedInHeaders(cfg: ChainConfig, rows: seq<ChunkRow>, batches: seq<BatchRow>, n: nat): seq<uint64>
    requires HeadersDecode(cfg, rows, batches) && n <= |batches|
  {
    if n == 0 then []
    else
      var bitmap := Header(cfg, rows, batches[n - 1]).value.skippedL1MessageBitmap;
      SkippedInHeaders(cfg, rows, batches, n - 1) +
      DecodeWords(CounterAfter(cfg, rows, batches, n - 1), bitmap, |bitmap| / 32)
  }

  // ---------- One batch ----------

  /** The header of a recorded batch: its counter is where its messages end, its bitmap names what they skip. */
  lemma {:induction false} HeaderOfBatch(cfg: ChainConfig, contents: seq<Chunk>, rows: seq<ChunkRow>, batch: BatchRow)
    requires batch.startChunkIndex <= batch.endChunkIndex < |rows| == |contents|
    requires BatchRecorded(cfg, contents, rows, batch)
    ensures var header, input := Header(cfg, rows, batch), BatchInput(contents, batch);
      var before, q := input.totalL1MessagePoppedBefore, ChunksIndices(input.chunks);
      && header.Ok? && |header.value.skippedL1MessageBitmap| % 32 == 0
      && InQueueOrder(before, q) && header.value.totalL1MessagePopped == After(before, q)
      && DecodeWords(before, header.value.skippedL1MessageBitmap, |header.value.skippedL1MessageBitmap| / 32)
         == Skipped(q, before, After(before, q))
  {
    hide ThreadChunks, NewDABatchFromBytes, HeaderBytes, ChunkHashes, BlobHashOf, ChunksIndices, InQueueOrder,
         DecodeWords, Skipped, EncodeWords, SkippedWords, Forks.NoForkWithin;
    var codec, input := BatchCodec(cfg, rows, batch), BatchInput(contents, batch);
    HeaderDecodes(codec, input, cfg.crypto, batch);
    DecodeRecoversSkipped(input.chunks, input.totalL1MessagePoppedBefore);
  }

  // ---------- All batches ----------

  lemma {:induction false} ChunksIndicesConcat(a: seq<Chunk>, b: seq<Chunk>)
    ensures ChunksIndices(a + b) == ChunksIndices(a) + ChunksIndices(b)
  {
    hide BlocksIndices;
    if b == [] {
      assert a + b == a;
    } else {
      ChunksIndicesConcat(a, b[..|b| - 1]);
      assert (a + b)[..|a + b| - 1] == a + b[..|b| - 1];
    }
  }

  /** What is skipped in a range depends only on the messages in that range. */
  lemma {:induction false} SkippedInRange(p: seq<QueueIndex>, q: seq<QueueIndex>, lo: nat, hi: nat)
    requires forall x: nat :: lo <= x < hi ==> (x in p <==> x in q)
    ensures Skipped(p, lo, hi) == Skipped(q, lo, hi)
  {
    if lo < hi {
      SkippedInRange(p, q, lo, hi - 1);
    }
  }

  /** Messages in queue order, split at any point: what is skipped splits at the index in between. */
  lemma {:induction false} SkippedSplits(a: seq<QueueIndex>, b: seq<QueueIndex>, base: uint64)
    requires InQueueOrder(base, a) && InQueueOrder(After(base, a), b)
    ensures Skipped(a + b, base, After(base, a + b)) ==
            Skipped(a, base, After(base, a)) + Skipped(b, After(base, a), After(base, a + b))
  {
    hide Skipped;
    var mid, end := After(base, a), After(base, a + b);
    QueueOrderConcat(base, a, b);
    QueueOrderConcat(mid, b, []);
    assert b + [] == b;
    SkippedConcat(a + b, base, mid, end);
    forall x: nat | base <= x < mid ensures x in a + b <==> x in a {
      assert x in b ==> x >= mid;
    }
    SkippedInRange(a + b, a, base, mid);
    forall x: nat | mid <= x < end ensures x in a + b <==> x in b {
      assert x in a ==> x < mid;
    }
    SkippedInRange(a + b, b, mid, end);
  }

  /** The messages of the chunks of the first `n` batches. */
  ghost function Included(contents: seq<Chunk>, batches: seq<BatchRow>, n: nat): seq<QueueIndex>
    requires n <= |batches| && (n > 0 ==> batches[n - 1].endChunkIndex < |contents|)
  {
    if n == 0 then [] else ChunksIndices(contents[..batches[n - 1].endChunkIndex + 1])
  }

  lemma {:induction false} AllHeadersDecode(cfg: ChainConfig, contents: seq<Chunk>, rows: seq<ChunkRow>,
      batches: seq<BatchRow>)
    requires BatchesTiled(rows, batches) && |contents| == |rows| && BatchesRecorded(cfg, contents, rows, batches)
    ensures HeadersDecode(cfg, rows, batches)
  {
    hide BatchRecorded, Header, InQueueOrder, Skipped, DecodeWords;
    forall b | 0 <= b < |batches|
      ensures Header(cfg, rows, batches[b]).Ok?
      ensures |Header(cfg, rows, batches[b]).value.skippedL1MessageBitmap| % 32 == 0
    {
      HeaderOfBatch(cfg, contents, rows, batches[b]);
    }
  }

  /** The chunks of batch `n` start where those of the batches before it end. */
  lemma {:induction false} NextMessages(contents: seq<Chunk>, rows: seq<ChunkRow>, batches: seq<BatchRow>, n: nat)
    requires BatchesTiled(rows, batches) && |contents| == |rows| && n < |batches|
    ensures Included(contents, batches, n + 1) ==
      Included(contents, batches, n) + ChunksIndices(BatchInput(contents, batches[n]).chunks)
    ensures InQueueOrder(0, Included(contents, batches, n)) ==>
      BatchInput(contents, batches[n]).totalL1MessagePoppedBefore == After(0, Included(contents, batches, n))
  {
    hide ChunksIndices, ThreadChunks, InQueueOrder;
    var s, e := batches[n].startChunkIndex, batches[n].endChunkIndex;
    assert contents[..e + 1] == contents[..s] + contents[s..e + 1];
    ChunksIndicesConcat(contents[..s], contents[s..e + 1]);
    if n > 0 {
      assert s == batches[n - 1].endChunkIndex + 1;
      if InQueueOrder(0, Included(contents, batches, n)) {
        ChunksCounter(contents[..s], 0);
      }
    } else {
      assert contents[..s] == [];
      NoChunks();
    }
  }

  lemma NoChunks()
    ensures ChunksIndices([]) == [] && ThreadChunks([], 0) == 0
  {
  }

  lemma {:induction false} QueueUpTo(cfg: ChainConfig, contents: seq<Chunk>, rows: seq<ChunkRow>,
      batches: seq<BatchRow>, n: nat)
    requires BatchesTiled(rows, batches) && |contents| == |rows| && BatchesRecorded(cfg, contents, rows, batches)
    requires HeadersDecode(cfg, rows, batches) && n <= |batches|
    ensures var q, counter := Included(contents, batches, n), CounterAfter(cfg, rows, batches, n);
      && InQueueOrder(0, q) && counter == After(0, q)
      && SkippedInHeaders(cfg, rows, batches, n) == Skipped(q, 0, counter)
  {
    hide BatchRecorded, Header, Skipped, DecodeWords, Included, BatchInput, ChunksIndices, BatchesTiled, InQueueOrder;
    if n == 0 {
      NothingYet(contents, batches);
    } else {
      QueueUpTo(cfg, contents, rows, batches, n - 1);
      InTable(rows, batches, n - 1);
      if n > 1 {
        InTable(rows, batches, n - 2);
      }
      HeaderOfBatch(cfg, contents, rows, batches[n - 1]);
      NextMessages(contents, rows, batches, n - 1);
      var a, b := Included(contents, batches, n - 1), ChunksIndices(BatchInput(contents, batches[n - 1]).chunks);
      QueueOrderConcat(0, a, b);
      SkippedSplits(a, b, 0);
    }
  }

  lemma NothingYet(contents: seq<Chunk>, batches: seq<BatchRow>)
    ensures Included(contents, batches, 0) == [] && InQueueOrder(0, []) && Skipped([], 0, 0) == []
  {
  }

  lemma InTable(rows: seq<ChunkRow>, batches: seq<BatchRow>, b: nat)
    requires BatchesTiled(rows, batches) && b < |batches|
    ensures batches[b].startChunkIndex <= batches[b].endChunkIndex < |rows|
  {
  }

  /** Conservation over the whole chain: the L1 messages of all batched chunks come in queue order from message 0,
      and the stored headers alone name, in order, exactly the messages below the last counter that no chunk
      carries. Every message below the counter is carried once or skipped once. */
  lemma {:induction false} QueueConserved(cfg: ChainConfig, blocks: seq<Block>, rows: seq<ChunkRow>,
                                          batchHashes: seq<Option<Hash>>, batches: seq<BatchRow>)
    requires ValidTables(cfg, blocks, rows, batchHashes, batches)
    ensures HeadersDecode(cfg, rows, batches)
    ensures var q := Included(Contents(blocks, rows), batches, |batches|);
      var counter := CounterAfter(cfg, rows, batches, |batches|);
      && InQueueOrder(0, q) && counter == After(0, q)
      && SkippedInHeaders(cfg, rows, batches, |batches|) == Skipped(q, 0, counter)
  {
    hide ChunksRecorded, Chained, HashesSet, Numbered, Contents, HeadersDecode, Included, Skipped, SkippedInHeaders,
         CounterAfter, InQueueOrder;
    AllHeadersDecode(cfg, Contents(blocks, rows), rows, batches);
    QueueUpTo(cfg, Contents(blocks, rows), rows, batches, |batches|);
  }

  /** Carried or skipped, and never both. */
  lemma {:induction false} CarriedOrSkipped(q: seq<QueueIndex>, lo: nat, hi: nat, x: nat)
    requires lo <= x < hi
    ensures x in Skipped(q, lo, hi) <==> x !in q
  {
    SkippedBounds(q, lo, hi - 1);
    if x < hi - 1 {
      CarriedOrSkipped(q, lo, hi - 1, x);
    }
  }

  lemma {:induction false} SkippedBounds(q: seq<QueueIndex>, lo: nat, hi: nat)
    ensures forall x :: x in Skipped(q, lo, hi) ==> lo <= x < hi
    decreases hi
  {
    if lo < hi {
      SkippedBounds(q, lo, hi - 1);
    }
  }
}
