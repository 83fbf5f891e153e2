/** The L1 commit cost estimates of both codecs, and how they relate to what is committed. */
module Estimates {
  import opened Wrappers
  import opened Bytes
  import opened L2Data
  import opened DAChunks
  import opened Blobs

  // ---------- Sums that stop at the first error ----------

  function Total<T>(f: T -> Result<nat>, s: seq<T>): Result<nat> {
    if s == [] then Ok(0)
    else
      var front :- Total(f, s[..|s| - 1]);
      var last :- f(s[|s| - 1]);
      Ok(front + last)
  }

  method Accumulate<T>(f: T -> Result<nat>, s: seq<T>) returns (r: Result<nat>)
    ensures r == Total(f, s)
  {
    var sum := 0;
    for i := 0 to |s|
      invariant Total(f, s[..i]) == Ok(sum)
    {
      assert s[..i + 1][..i] == s[..i];
      var next := f(s[i]);
      if next.Err? {
        TotalErrorStays(f, s, i + 1);
        return Err;
      }
      sum := sum + next.value;
    }
    assert s[..|s|] == s;
    return Ok(sum);
  }

  lemma {:induction false} TotalErrorStays<T>(f: T -> Result<nat>, s: seq<T>, i: nat)
    requires i <= |s| && Total(f, s[..i]).Err?
    ensures Total(f, s).Err?
    decreases |s| - i
  {
    if i < |s| {
      assert s[..i + 1][..i] == s[..i];
      TotalErrorStays(f, s, i + 1);
    } else {
      assert s[..i] == s;
    }
  }

  lemma {:induction false} TotalGrows<T>(f: T -> Result<nat>, s: seq<T>, i: nat)
    requires i <= |s| && Total(f, s).Ok?
    ensures Total(f, s[..i]).Ok? && Total(f, s[..i]).value <= Total(f, s).value
    decreases |s|
  {
    if i < |s| {
      var front := s[..|s| - 1];
      TotalGrows(f, front, i);
      assert front[..i] == s[..i];
    } else {
      assert s[..i] == s;
    }
  }

  // ---------- codecv0 ----------

  const CALLDATA_NON_ZERO_BYTE_GAS := 16

  function GetMemoryExpansionCost(memoryByteSize: nat): nat {
    var words := (memoryByteSize + 31) / 32;
    words * words / 512 + 3 * words
  }

  function GetKeccak256Gas(size: nat): nat {
    GetMemoryExpansionCost(size) + 30 + 6 * ((size + 31) / 32)
  }

  function TxCalldataSize(tx: Tx): Result<nat> {
    match tx
    case L1Message(_, _) => Ok(0)
    case L2Tx(None, _) => Err
    case L2Tx(Some(rlp), _) => Ok(4 + |rlp|)
  }

  function EstimateBlockL1CommitCalldataSize(b: Block): Result<nat> {
    var size :- Total(TxCalldataSize, b.txs);
    Ok(size + 60)
  }

  function EstimateChunkL1CommitCalldataSize(c: Chunk): Result<nat> {
    Total(EstimateBlockL1CommitCalldataSize, c.blocks)
  }

  function EstimateBatchL1CommitCalldataSize(chunks: seq<Chunk>): Result<nat> {
    Total(EstimateChunkL1CommitCalldataSize, chunks)
  }

  method BatchCalldataSize(chunks: seq<Chunk>) returns (r: Result<nat>)
    ensures r == EstimateBatchL1CommitCalldataSize(chunks)
  {
    r := Accumulate(EstimateChunkL1CommitCalldataSize, chunks);
  }

  function TxGas(tx: Tx): Result<nat> {
    match tx
    case L1Message(_, _) =>
      Ok(2100 + 100 + 100 + GetMemoryExpansionCost(36) + 100 + 100 + 100 + GetMemoryExpansionCost(36))
    case L2Tx(None, _) => Err
    case L2Tx(Some(rlp), _) =>
      Ok(CALLDATA_NON_ZERO_BYTE_GAS * |rlp| + CALLDATA_NON_ZERO_BYTE_GAS * 4 + GetKeccak256Gas(|rlp|))
  }

  function EstimateBlockL1CommitGas(b: Block): Result<nat> {
    var gas :- Total(TxGas, b.txs);
    Ok(gas + CALLDATA_NON_ZERO_BYTE_GAS * 60)
  }

  function NumTransactions(blocks: seq<Block>): nat {
    if blocks == [] then 0 else NumTransactions(blocks[..|blocks| - 1]) + |blocks[|blocks| - 1].txs|
  }

  function EstimateChunkL1CommitGas(c: Chunk): Result<nat> {
    var gas :- Total(EstimateBlockL1CommitGas, c.blocks);
    var n := |c.blocks|;
    Ok(gas + 100 * n + CALLDATA_NON_ZERO_BYTE_GAS + CALLDATA_NON_ZERO_BYTE_GAS * n * 60 +
       GetKeccak256Gas(58 * n + 32 * NumTransactions(c.blocks)))
  }

  /** The part of the gas that every batch pays, and the hash of its chunk hashes. */
  function BatchBaseGas(numChunks: nat): nat {
    100000 + 4 * 2100 + 20000 + 21000 + CALLDATA_NON_ZERO_BYTE_GAS + (2100 + 2600 - 100 - 100) +
    GetKeccak256Gas(89 + 32) + CALLDATA_NON_ZERO_BYTE_GAS * (89 + 32) + GetKeccak256Gas(32 * numChunks)
  }

  /** What one more chunk adds, with the counter before it. */
  function ChunkInBatchGas(chunk: Chunk, before: uint64): Result<nat> {
    var gas :- EstimateChunkL1CommitGas(chunk);
    var size :- EstimateChunkL1CommitCalldataSize(chunk);
    var popped := BlocksL1Messages(chunk.blocks, before);
    Ok(gas + CALLDATA_NON_ZERO_BYTE_GAS * (32 * (popped + 255) / 256) +
       GetKeccak256Gas(89 + 32 * (popped + 255) / 256) +
       GetMemoryExpansionCost(size))
  }

  function ChunksGas(chunks: seq<Chunk>, before: uint64): Result<nat> {
    if chunks == [] then Ok(0)
    else
      var front := chunks[..|chunks| - 1];
      var gas :- ChunksGas(front, before);
      var last :- ChunkInBatchGas(chunks[|chunks| - 1], ThreadChunks(front, before));
      Ok(gas + last)
  }

  function BatchGas(chunks: seq<Chunk>, before: uint64): Result<nat> {
    var gas :- ChunksGas(chunks, before);
    Ok(BatchBaseGas(|chunks|) + gas)
  }

  method EstimateBatchL1CommitGas(batch: Batch) returns (r: Result<nat>)
    ensures r == BatchGas(batch.chunks, batch.totalL1MessagePoppedBefore)
  {
    hide Wrap, ChunkInBatchGas, BatchBaseGas, BlocksL1Messages;
    var chunks, total, before := batch.chunks, BatchBaseGas(|batch.chunks|), batch.totalL1MessagePoppedBefore;
    for i := 0 to |chunks|
      invariant ChunksGas(chunks[..i], batch.totalL1MessagePoppedBefore).Ok?
      invariant total == BatchBaseGas(|chunks|) + ChunksGas(chunks[..i], batch.totalL1MessagePoppedBefore).value
      invariant before == ThreadChunks(chunks[..i], batch.totalL1MessagePoppedBefore)
    {
      assert chunks[..i + 1][..i] == chunks[..i];
      var gas := ChunkInBatchGas(chunks[i], before);
      if gas.Err? {
        GasErrorStays(chunks, batch.totalL1MessagePoppedBefore, i + 1);
        return Err;
      }
      total := total + gas.value;
      var popped := NumL1MessagesOfChunk(chunks[i], before);
      before := Wrap((before as int) + popped);
    }
    assert chunks[..|chunks|] == chunks;
    return Ok(total);
  }

  lemma {:induction false} GasErrorStays(chunks: seq<Chunk>, before: uint64, i: nat)
    requires i <= |chunks| && ChunksGas(chunks[..i], before).Err?
    ensures ChunksGas(chunks, before).Err?
    decreases |chunks| - i
  {
    hide ChunkInBatchGas, ThreadChunks;
    if i < |chunks| {
      assert chunks[..i + 1][..i] == chunks[..i];
      GasErrorStays(chunks, before, i + 1);
    } else {
      assert chunks[..i] == chunks;
    }
  }

  // ---------- codecv1 ----------

  function TxDataSize(tx: Tx): Result<nat> {
    match tx
    case L1Message(_, _) => Ok(0)
    case L2Tx(None, _) => Err
    case L2Tx(Some(rlp), _) => Ok(|rlp|)
  }

  function BlockDataSize(b: Block): Result<nat> {
    Total(TxDataSize, b.txs)
  }

  function ChunkL1CommitBlobDataSize(c: Chunk): Result<nat> {
    Total(BlockDataSize, c.blocks)
  }

  /** Whole 31-byte elements, padded to 32 bytes. */
  function PaddedSize(dataSize: nat): nat {
    (METADATA_LENGTH + dataSize + 30) / 31 * 32
  }

  function EstimateBatchL1CommitBlobSize(chunks: seq<Chunk>): Result<nat> {
    var size :- Total(ChunkL1CommitBlobDataSize, chunks);
    Ok(PaddedSize(size))
  }

  function EstimateChunkL1CommitBlobSize(c: Chunk): Result<nat> {
    var size :- ChunkL1CommitBlobDataSize(c);
    Ok(PaddedSize(size))
  }

  // ---------- Estimates only grow ----------

  lemma {:induction false} MemoryCostMonotone(a: nat, b: nat)
    requires a <= b
    ensures GetMemoryExpansionCost(a) <= GetMemoryExpansionCost(b)
    ensures GetKeccak256Gas(a) <= GetKeccak256Gas(b)
  {
    var u, v := (a + 31) / 32, (b + 31) / 32;
    assert u * u <= v * v;
  }

  lemma {:induction false} ChunksGasGrows(chunks: seq<Chunk>, before: uint64, i: nat)
    requires i <= |chunks| && ChunksGas(chunks, before).Ok?
    ensures ChunksGas(chunks[..i], before).Ok?
    ensures ChunksGas(chunks[..i], before).value <= ChunksGas(chunks, before).value
    decreases |chunks|
  {
    hide ChunkInBatchGas, ThreadChunks;
    if i < |chunks| {
      var front := chunks[..|chunks| - 1];
      ChunksGasGrows(front, before, i);
      assert front[..i] == chunks[..i];
    } else {
      assert chunks[..i] == chunks;
    }
  }

  lemma {:induction false} BatchGasGrows(chunks: seq<Chunk>, before: uint64, i: nat)
    requires i <= |chunks| && BatchGas(chunks, before).Ok?
    ensures BatchGas(chunks[..i], before).Ok? && BatchGas(chunks[..i], before).value <= BatchGas(chunks, before).value
  {
    hide GetKeccak256Gas, ChunksGas;
    ChunksGasGrows(chunks, before, i);
    MemoryCostMonotone(32 * i, 32 * |chunks|);
  }

  lemma {:induction false} BlobSizeGrows(chunks: seq<Chunk>, i: nat)
    requires i <= |chunks| && EstimateBatchL1CommitBlobSize(chunks).Ok?
    ensures EstimateBatchL1CommitBlobSize(chunks[..i]).Ok?
    ensures EstimateBatchL1CommitBlobSize(chunks[..i]).value <= EstimateBatchL1CommitBlobSize(chunks).value
  {
    TotalGrows(ChunkL1CommitBlobDataSize, chunks, i);
  }

  // ---------- The blob estimate is exact ----------

  lemma {:induction false} BlockDataSizeExact(txs: seq<Tx>)
    ensures Total(TxDataSize, txs) == match BlockData(txs) case Ok(d) => Ok(|d|) case Err => Err
  {
    if txs != [] {
      BlockDataSizeExact(txs[..|txs| - 1]);
    }
  }

  lemma {:induction false} ChunkDataSizeExact(blocks: seq<Block>)
    ensures Total(BlockDataSize, blocks) == match ChunkData(blocks) case Ok(d) => Ok(|d|) case Err => Err
  {
    if blocks != [] {
      ChunkDataSizeExact(blocks[..|blocks| - 1]);
      BlockDataSizeExact(blocks[|blocks| - 1].txs);
    }
  }

  lemma {:induction false} OneChunkDataSizeExact(c: Chunk)
    ensures ChunkL1CommitBlobDataSize(c) == match ChunkData(c.blocks) case Ok(d) => Ok(|d|) case Err => Err
  {
    hide Total, ChunkData;
    ChunkDataSizeExact(c.blocks);
  }

  lemma {:induction false} ChunksDataSizeExact(chunks: seq<Chunk>)
    ensures Total(ChunkL1CommitBlobDataSize, chunks) ==
      match ChunksData(chunks) case Ok(datas) => Ok(|Flatten(datas)|) case Err => Err
  {
    hide ChunkL1CommitBlobDataSize, ChunkData;
    if chunks != [] {
      var front, last := chunks[..|chunks| - 1], chunks[|chunks| - 1];
      ChunksDataSizeExact(front);
      OneChunkDataSizeExact(last);
      if ChunksData(chunks).Ok? {
        var datas := ChunksData(chunks).value;
        assert datas[..|datas| - 1] == ChunksData(front).value;
      }
    }
  }

  /** The blob estimate stays within the blob size exactly when the payload fits, so a batch within the
      proposer's limit is never rejected as oversized, and one beyond it always is. */
  lemma {:induction false} BlobEstimateExact(chunks: seq<Chunk>)
    requires |chunks| <= MAX_NUM_CHUNKS
    ensures EstimateBatchL1CommitBlobSize(chunks).Ok? <==> BlobPayload(chunks).Ok?
    ensures BlobPayload(chunks).Ok? ==>
      (EstimateBatchL1CommitBlobSize(chunks).value <= BLOB_SIZE <==> |BlobPayload(chunks).value| <= MAX_PAYLOAD)
  {
    hide Total, ChunksData, Flatten;
    ChunksDataSizeExact(chunks);
    if ChunksData(chunks).Ok? {
      ChunksDataLength(chunks);
    }
  }

  // ---------- The calldata estimate is exact up to the count byte ----------

  lemma {:induction false} PayloadsSize(txs: seq<Tx>)
    ensures Total(TxCalldataSize, txs) == match PayloadsOf(txs) case Ok(p) => Ok(|p|) case Err => Err
  {
    hide BigEndian;
    if txs != [] {
      PayloadsSize(txs[..|txs| - 1]);
    }
  }

  lemma {:induction false} AllPayloadsSize(blocks: seq<Block>)
    ensures Total(EstimateBlockL1CommitCalldataSize, blocks) ==
      match Payloads(TransactionsOf(blocks)) case Ok(p) => Ok(|p| + 60 * |blocks|) case Err => Err
  {
    if blocks != [] {
      var front, last := blocks[..|blocks| - 1], blocks[|blocks| - 1];
      AllPayloadsSize(front);
      PayloadsSize(last.txs);
      var txs := TransactionsOf(blocks);
      assert txs[..|txs| - 1] == TransactionsOf(front) && txs[|txs| - 1] == last.txs;
    }
  }

  /** The calldata estimate of a chunk is the length of its codecv0 encoding, less the count byte. */
  lemma {:induction false} CalldataEstimateExact(chunk: Chunk, before: uint64)
    requires DAChunkOf(V0, chunk, before).Ok?
    ensures var bytes := ChunkBytes(V0, DAChunkOf(V0, chunk, before).value);
      EstimateChunkL1CommitCalldataSize(chunk) == match bytes case Ok(b) => Ok(|b| - 1) case Err => Err
  {
    hide Payloads, Total, DABlocksOf, BlocksBytes;
    AllPayloadsSize(chunk.blocks);
    DABlocksKeepNumbers(chunk.blocks, before);
  }
}
