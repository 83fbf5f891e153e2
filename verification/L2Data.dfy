/** L2 blocks, chunks and batches, and the counters of L1 messages popped by them. */
module L2Data {
  import opened Wrappers
  import opened Bytes

  /** A queue index. The largest 64-bit number is left for the index after the last one. */
  type QueueIndex = n: nat | n + 1 < TWO_TO_64

  /** A transaction of a block: an L1 message with its queue index, or an L2 transaction with its RLP
      encoding. The hash is what its hexadecimal string decodes to. Either may fail to decode. */
  datatype Tx =
    | L1Message(queueIndex: QueueIndex, txHash: Option<seq<byte>>)
    | L2Tx(rlp: Option<seq<byte>>, txHash: Option<seq<byte>>)

  datatype Block = Block(number: nat, time: uint64, baseFee: Option<nat>, gasLimit: uint64, txs: seq<Tx>)

  datatype Chunk = Chunk(blocks: seq<Block>)

  datatype Batch = Batch(index: uint64, totalL1MessagePoppedBefore: uint64, parentBatchHash: Hash, chunks: seq<Chunk>)

  // ---------- Queue indices in order ----------

  function Indices(txs: seq<Tx>): seq<QueueIndex> {
    if txs == [] then []
    else Indices(txs[..|txs| - 1]) + if txs[|txs| - 1].L1Message? then [txs[|txs| - 1].queueIndex] else []
  }

  function BlocksIndices(blocks: seq<Block>): seq<QueueIndex> {
    if blocks == [] then [] else BlocksIndices(blocks[..|blocks| - 1]) + Indices(blocks[|blocks| - 1].txs)
  }

  function ChunksIndices(chunks: seq<Chunk>): seq<QueueIndex> {
    if chunks == [] then [] else ChunksIndices(chunks[..|chunks| - 1]) + BlocksIndices(chunks[|chunks| - 1].blocks)
  }

  /** The messages come in queue order, none before `base`. */
  predicate InQueueOrder(base: nat, q: seq<QueueIndex>) {
    && (forall i :: 0 <= i < |q| ==> base <= q[i])
    && (forall i, j :: 0 <= i < j < |q| ==> q[i] < q[j])
  }

  /** The queue index after `q`. */
  function After(base: uint64, q: seq<QueueIndex>): uint64 {
    if q == [] then base else (q[|q| - 1] as nat) + 1
  }

  lemma {:induction false} QueueOrderConcat(base: uint64, a: seq<QueueIndex>, b: seq<QueueIndex>)
    ensures After(base, a + b) == After(After(base, a), b)
    ensures InQueueOrder(base, a + b) <==> InQueueOrder(base, a) && InQueueOrder(After(base, a), b)
    ensures InQueueOrder(base, a) ==> base <= After(base, a)
  {
    if InQueueOrder(base, a + b) {
      forall i | 0 <= i < |a| ensures base <= a[i] {
        assert (a + b)[i] == a[i];
      }
      forall i, j | 0 <= i < j < |a| ensures a[i] < a[j] {
        assert (a + b)[i] == a[i] && (a + b)[j] == a[j];
      }
      forall j | 0 <= j < |b| ensures After(base, a) <= b[j] {
        assert (a + b)[|a| + j] == b[j];
        if a != [] {
          assert (a + b)[|a| - 1] == a[|a| - 1];
        }
      }
      forall i, j | 0 <= i < j < |b| ensures b[i] < b[j] {
        assert (a + b)[|a| + i] == b[i] && (a + b)[|a| + j] == b[j];
      }
    }
  }

  // ---------- Counters ----------

  /** 64-bit wrap-around. */
  function Wrap(x: int): uint64 {
    x % TWO_TO_64
  }

  /** Included and skipped L1 messages of a block, as the 64-bit code computes it. */
  function BlockL1Messages(txs: seq<Tx>, before: uint64): uint64 {
    var q := Indices(txs);
    if q == [] then 0 else Wrap(q[|q| - 1] - before + 1)
  }

  function BlocksL1Messages(blocks: seq<Block>, before: uint64): uint64 {
    if blocks == [] then 0
    else
      var n := BlocksL1Messages(blocks[..|blocks| - 1], before);
      Wrap(n + BlockL1Messages(blocks[|blocks| - 1].txs, Wrap(before + n)))
  }

  /** The counter after the messages of `chunks`, threaded chunk by chunk. */
  function ThreadChunks(chunks: seq<Chunk>, before: uint64): uint64 {
    if chunks == [] then before
    else
      var b := ThreadChunks(chunks[..|chunks| - 1], before);
      Wrap(b + BlocksL1Messages(chunks[|chunks| - 1].blocks, b))
  }

  method NumL1MessagesOfBlock(b: Block, totalL1MessagePoppedBefore: uint64) returns (n: uint64)
    ensures n == BlockL1Messages(b.txs, totalL1MessagePoppedBefore)
  {
    var lastQueueIndex: Option<QueueIndex> := None;
    for i := 0 to |b.txs|
      invariant lastQueueIndex ==
        (var q := Indices(b.txs[..i]); if q == [] then None else Some(q[|q| - 1]))
    {
      assert b.txs[..i + 1][..i] == b.txs[..i];
      if b.txs[i].L1Message? {
        lastQueueIndex := Some(b.txs[i].queueIndex);
      }
    }
    assert b.txs[..|b.txs|] == b.txs;
    if lastQueueIndex.None? {
      return 0;
    }
    return Wrap(lastQueueIndex.value - totalL1MessagePoppedBefore + 1);
  }

  method NumL1MessagesOfChunk(c: Chunk, totalL1MessagePoppedBefore: uint64) returns (numL1Messages: uint64)
    ensures numL1Messages == BlocksL1Messages(c.blocks, totalL1MessagePoppedBefore)
  {
    hide Wrap, BlockL1Messages;
    numL1Messages := 0;
    var before := totalL1MessagePoppedBefore;
    WrapSmall(before);
    for i := 0 to |c.blocks|
      invariant numL1Messages == BlocksL1Messages(c.blocks[..i], totalL1MessagePoppedBefore)
      invariant before == Wrap(totalL1MessagePoppedBefore + numL1Messages)
    {
      assert c.blocks[..i + 1][..i] == c.blocks[..i];
      var inBlock := NumL1MessagesOfBlock(c.blocks[i], before);
      WrapAdd(totalL1MessagePoppedBefore, numL1Messages, inBlock);
      numL1Messages := Wrap(numL1Messages + inBlock);
      before := Wrap((before as int) + inBlock);
    }
    assert c.blocks[..|c.blocks|] == c.blocks;
  }

  lemma {:induction false} WrapAdd(a: int, b: int, c: int)
    ensures Wrap(Wrap(a + b) + c) == Wrap(a + Wrap(b + c)) == Wrap(a + b + c)
  {
  }

  /** No wrap-around below the bound. */
  lemma {:induction false} WrapSmall(x: nat)
    requires x < TWO_TO_64
    ensures Wrap(x) == x
  {
  }

  // ---------- The counters agree with the queue ----------

  /** Messages in queue order never underflow a block's counter. */
  lemma {:induction false} BlockCounter(txs: seq<Tx>, before: uint64)
    requires InQueueOrder(before, Indices(txs))
    ensures before + BlockL1Messages(txs, before) == After(before, Indices(txs))
  {
  }

  lemma {:induction false} BlocksCounter(blocks: seq<Block>, before: uint64)
    requires InQueueOrder(before, BlocksIndices(blocks))
    ensures before + BlocksL1Messages(blocks, before) == After(before, BlocksIndices(blocks))
    decreases |blocks|
  {
    hide Wrap, Indices;
    if blocks != [] {
      var front, last := blocks[..|blocks| - 1], blocks[|blocks| - 1];
      QueueOrderConcat(before, BlocksIndices(front), Indices(last.txs));
      BlocksCounter(front, before);
      BlockCounter(last.txs, After(before, BlocksIndices(front)));
      WrapSmall(After(before, BlocksIndices(front)));
      WrapSmall(After(before, BlocksIndices(blocks)) - before);
    }
  }

  /** Whenever the messages are in queue order, threading the counters chunk by chunk never wraps and
      ends at the index after the last message. */
  lemma {:induction false} ChunksCounter(chunks: seq<Chunk>, before: uint64)
    requires InQueueOrder(before, ChunksIndices(chunks))
    ensures ThreadChunks(chunks, before) == After(before, ChunksIndices(chunks))
    ensures before <= ThreadChunks(chunks, before)
    decreases |chunks|
  {
    hide Wrap, BlocksIndices;
    QueueOrderConcat(before, ChunksIndices(chunks), []);
    assert ChunksIndices(chunks) + [] == ChunksIndices(chunks);
    if chunks != [] {
      var front, last := chunks[..|chunks| - 1], chunks[|chunks| - 1];
      QueueOrderConcat(before, ChunksIndices(front), BlocksIndices(last.blocks));
      ChunksCounter(front, before);
      BlocksCounter(last.blocks, After(before, ChunksIndices(front)));
      WrapSmall(After(before, ChunksIndices(chunks)));
    }
  }
}
