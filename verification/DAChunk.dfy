/** Data-availability blocks and chunks: their byte encodings, their hashes and the block range read back from them. */
module DAChunks {
  import opened Wrappers
  import opened Bytes
  import opened L2Data

  datatype Codec = V0 | V1

  datatype DABlock = DABlock(number: uint64, time: uint64, baseFee: Option<nat>, gasLimit: uint64,
                             numTransactions: uint16, numL1Messages: uint16)

  datatype DAChunk = DAChunk(blocks: seq<DABlock>, transactions: seq<seq<Tx>>)

  // ---------- From L2 blocks ----------

  function NumL2Transactions(txs: seq<Tx>): nat {
    if txs == [] then 0 else NumL2Transactions(txs[..|txs| - 1]) + if txs[|txs| - 1].L2Tx? then 1 else 0
  }

  function NewDABlock(b: Block, before: uint64): Result<DABlock> {
    var numL1Messages := BlockL1Messages(b.txs, before);
    var numTransactions := numL1Messages + NumL2Transactions(b.txs);
    if b.number >= TWO_TO_64 || numL1Messages > 65535 || numTransactions > 65535 then Err
    else Ok(DABlock(b.number, b.time, b.baseFee, b.gasLimit, numTransactions, numL1Messages))
  }

  /** Every block sees the counter left by the blocks before it. */
  function DABlocksOf(blocks: seq<Block>, before: uint64): Result<seq<DABlock>> {
    if blocks == [] then Ok([])
    else
      var front := blocks[..|blocks| - 1];
      var daFront :- DABlocksOf(front, before);
      var daLast :- NewDABlock(blocks[|blocks| - 1], Wrap(before + BlocksL1Messages(front, before)));
      Ok(daFront + [daLast])
  }

  function TransactionsOf(blocks: seq<Block>): seq<seq<Tx>> {
    if blocks == [] then [] else TransactionsOf(blocks[..|blocks| - 1]) + [blocks[|blocks| - 1].txs]
  }

  /** The number of blocks that a codec accepts in a chunk. */
  predicate BlockCountAccepted(codec: Codec, n: nat) {
    codec.V1? || 1 <= n <= 255
  }

  function DAChunkOf(codec: Codec, chunk: Chunk, before: uint64): Result<DAChunk> {
    if !BlockCountAccepted(codec, |chunk.blocks|) then Err
    else
      var blocks :- DABlocksOf(chunk.blocks, before);
      Ok(DAChunk(blocks, TransactionsOf(chunk.blocks)))
  }

  lemma NoBlocks(before: uint64)
    ensures DABlocksOf([], before) == Ok([]) && TransactionsOf([]) == [] && BlocksL1Messages([], before) == 0
  {
  }

  /** What the next block adds. */
  lemma NextBlock(blocks: seq<Block>, before: uint64, i: nat)
    requires i < |blocks| && DABlocksOf(blocks[..i], before).Ok?
    ensures var popped := BlocksL1Messages(blocks[..i], before);
      var next := NewDABlock(blocks[i], Wrap(before + popped));
      && DABlocksOf(blocks[..i + 1], before)
         == (if next.Err? then Err else Ok(DABlocksOf(blocks[..i], before).value + [next.value]))
      && TransactionsOf(blocks[..i + 1]) == TransactionsOf(blocks[..i]) + [blocks[i].txs]
      && BlocksL1Messages(blocks[..i + 1], before)
         == Wrap(popped + BlockL1Messages(blocks[i].txs, Wrap(before + popped)))
  {
    hide Wrap, NewDABlock, BlockL1Messages;
    assert blocks[..i + 1][..i] == blocks[..i];
  }

  method NewDAChunk(codec: Codec, chunk: Chunk, totalL1MessagePoppedBefore: uint64) returns (r: Result<DAChunk>)
    ensures r == DAChunkOf(codec, chunk, totalL1MessagePoppedBefore)
  {
    hide Wrap, NewDABlock, BlockL1Messages, BlocksL1Messages, DABlocksOf, TransactionsOf;
    if codec.V0? && |chunk.blocks| == 0 {
      return Err;
    }
    if codec.V0? && |chunk.blocks| > 255 {
      return Err;
    }
    var blocks: seq<DABlock>, txs, before := [], [], totalL1MessagePoppedBefore;
    WrapSmall(before);
    NoBlocks(before);
    for i := 0 to |chunk.blocks|
      invariant DABlocksOf(chunk.blocks[..i], totalL1MessagePoppedBefore) == Ok(blocks)
      invariant txs == TransactionsOf(chunk.blocks[..i])
      invariant before ==
        Wrap(totalL1MessagePoppedBefore + BlocksL1Messages(chunk.blocks[..i], totalL1MessagePoppedBefore))
    {
      ghost var popped := BlocksL1Messages(chunk.blocks[..i], totalL1MessagePoppedBefore);
      NextBlock(chunk.blocks, totalL1MessagePoppedBefore, i);
      var b := NewDABlock(chunk.blocks[i], before);
      if b.Err? {
        ErrorStays(chunk.blocks, totalL1MessagePoppedBefore, i + 1);
        return Err;
      }
      blocks := blocks + [b.value];
      var inBlock := NumL1MessagesOfBlock(chunk.blocks[i], before);
      WrapAdd(totalL1MessagePoppedBefore, popped, inBlock);
      before := Wrap((before as int) + inBlock);
      txs := txs + [chunk.blocks[i].txs];
    }
    assert chunk.blocks[..|chunk.blocks|] == chunk.blocks;
    return Ok(DAChunk(blocks, txs));
  }

  lemma {:induction false} ErrorStays(blocks: seq<Block>, before: uint64, i: nat)
    requires i <= |blocks| && DABlocksOf(blocks[..i], before).Err?
    ensures DABlocksOf(blocks, before).Err?
    decreases |blocks| - i
  {
    hide Wrap, NewDABlock, BlocksL1Messages;
    if i < |blocks| {
      assert blocks[..i + 1][..i] == blocks[..i];
      ErrorStays(blocks, before, i + 1);
    } else {
      assert blocks[..i] == blocks;
    }
  }

  /** Blocks and transactions line up, and no block number is lost. */
  lemma {:induction false} DABlocksKeepNumbers(blocks: seq<Block>, before: uint64)
    requires DABlocksOf(blocks, before).Ok?
    ensures |DABlocksOf(blocks, before).value| == |blocks|
    ensures forall i :: 0 <= i < |blocks| ==> DABlocksOf(blocks, before).value[i].number == blocks[i].number
  {
    hide Wrap, BlocksL1Messages, BlockL1Messages;
    if blocks != [] {
      DABlocksKeepNumbers(blocks[..|blocks| - 1], before);
    }
  }

  // ---------- Block bytes ----------

  /** Number, timestamp, 24 zero bytes, low 64 bits of the base fee, gas limit, the two counts. */
  function BlockBytes(b: DABlock): (bytes: seq<byte>)
    ensures |bytes| == 60
  {
    BigEndian(b.number, 8) + BigEndian(b.time, 8) + Zeros(24) +
    BigEndian(if b.baseFee.Some? then b.baseFee.value else 0, 8) + BigEndian(b.gasLimit, 8) +
    BigEndian(b.numTransactions, 2) + BigEndian(b.numL1Messages, 2)
  }

  method EncodeBlock(b: DABlock) returns (bytes: seq<byte>)
    ensures bytes == BlockBytes(b)
  {
    hide BigEndian, Written, Zeros;
    var buffer := ZeroedBuffer(60);
    WriteAt(buffer, 0, BigEndian(b.number, 8), []);
    ghost var s := [] + Zeros(0) + BigEndian(b.number, 8);
    WriteAt(buffer, 8, BigEndian(b.time, 8), s);
    s := s + Zeros(0) + BigEndian(b.time, 8);
    if b.baseFee.Some? {
      WriteAt(buffer, 40, BigEndian(b.baseFee.value, 8), s);
      s := s + Zeros(24) + BigEndian(b.baseFee.value, 8);
      WriteAt(buffer, 48, BigEndian(b.gasLimit, 8), s);
      s := s + Zeros(0) + BigEndian(b.gasLimit, 8);
    } else {
      WriteAt(buffer, 48, BigEndian(b.gasLimit, 8), s);
      ZeroBytes(8);
      assert Zeros(32) == Zeros(24) + BigEndian(0, 8);
      s := s + Zeros(32) + BigEndian(b.gasLimit, 8);
    }
    WriteAt(buffer, 56, BigEndian(b.numTransactions, 2), s);
    s := s + Zeros(0) + BigEndian(b.numTransactions, 2);
    WriteAt(buffer, 58, BigEndian(b.numL1Messages, 2), s);
    s := s + Zeros(0) + BigEndian(b.numL1Messages, 2);
    WholeBuffer(buffer, s);
    bytes := buffer[..];
  }

  lemma {:induction false} ZeroBytes(k: nat)
    ensures BigEndian(0, k) == Zeros(k)
  {
    if k > 0 {
      ZeroBytes(k - 1);
    }
  }

  /** Reads a block context at its documented offsets. */
  function ReadBlock(bytes: seq<byte>): (uint64, uint64, uint64, uint64, uint16, uint16)
    requires |bytes| == 60
  {
    (ReadUint64(bytes, 0), ReadUint64(bytes, 8), ReadUint64(bytes, 40), ReadUint64(bytes, 48),
     ReadUint16(bytes, 56), ReadUint16(bytes, 58))
  }

  function ReadUint64(bytes: seq<byte>, at: nat): uint64
    requires at + 8 <= |bytes|
  {
    FromBigEndianBound(bytes[at..at + 8]);
    WordSizes();
    FromBigEndian(bytes[at..at + 8])
  }

  function ReadUint16(bytes: seq<byte>, at: nat): uint16
    requires at + 2 <= |bytes|
  {
    FromBigEndianBound(bytes[at..at + 2]);
    WordSizes();
    FromBigEndian(bytes[at..at + 2])
  }

  /** Every field of an encoded block is read back; a missing base fee reads as zero and a wide one is cut to
      64 bits. */
  lemma {:induction false} ReadEncodedBlock(b: DABlock)
    ensures ReadBlock(BlockBytes(b)) ==
      (b.number, b.time, if b.baseFee.Some? then b.baseFee.value % TWO_TO_64 else 0, b.gasLimit,
       b.numTransactions, b.numL1Messages)
  {
    hide BigEndian, FromBigEndian, Zeros;
    var bytes, fee := BlockBytes(b), if b.baseFee.Some? then b.baseFee.value else 0;
    WordSizes();
    assert bytes[0..8] == BigEndian(b.number, 8);
    assert bytes[8..16] == BigEndian(b.time, 8);
    assert bytes[40..48] == BigEndian(fee, 8);
    assert bytes[48..56] == BigEndian(b.gasLimit, 8);
    assert bytes[56..58] == BigEndian(b.numTransactions, 2);
    assert bytes[58..] == BigEndian(b.numL1Messages, 2);
    assert bytes[58..60] == bytes[58..];
    ReadBack(b.number, b.time, b.gasLimit, b.numTransactions, b.numL1Messages);
    LowBytes(fee, 8);
  }

  lemma {:induction false} ReadBack(number: uint64, time: uint64, gasLimit: uint64, m: uint16, n: uint16)
    ensures FromBigEndian(BigEndian(number, 8)) == number
    ensures FromBigEndian(BigEndian(time, 8)) == time
    ensures FromBigEndian(BigEndian(gasLimit, 8)) == gasLimit
    ensures FromBigEndian(BigEndian(m, 2)) == m
    ensures FromBigEndian(BigEndian(n, 2)) == n
  {
    hide BigEndian, FromBigEndian;
    WordSizes();
    DecodeEncode(number, 8);
    DecodeEncode(time, 8);
    DecodeEncode(gasLimit, 8);
    DecodeEncode(m, 2);
    DecodeEncode(n, 2);
  }

  // ---------- Chunk bytes ----------

  function BlocksBytes(blocks: seq<DABlock>): (bytes: seq<byte>)
    ensures |bytes| == 60 * |blocks|
  {
    if blocks == [] then [] else BlocksBytes(blocks[..|blocks| - 1]) + BlockBytes(blocks[|blocks| - 1])
  }

  /** The L2 transactions of a block, each with its 4-byte length in front. */
  function PayloadsOf(txs: seq<Tx>): Result<seq<byte>> {
    if txs == [] then Ok([])
    else
      var front :- PayloadsOf(txs[..|txs| - 1]);
      match txs[|txs| - 1]
      case L1Message(_, _) => Ok(front)
      case L2Tx(None, _) => Err
      case L2Tx(Some(rlp), _) => Ok(front + BigEndian(|rlp|, 4) + rlp)
  }

  function Payloads(transactions: seq<seq<Tx>>): Result<seq<byte>> {
    if transactions == [] then Ok([])
    else
      var front :- Payloads(transactions[..|transactions| - 1]);
      var last :- PayloadsOf(transactions[|transactions| - 1]);
      Ok(front + last)
  }

  function ChunkBytes(codec: Codec, c: DAChunk): Result<seq<byte>> {
    var blocks := [|c.blocks| % 256] + BlocksBytes(c.blocks);
    match codec
    case V0 => var payloads :- Payloads(c.transactions); Ok(blocks + payloads)
    case V1 => Ok(blocks)
  }

  method EncodeBlocks(blocks: seq<DABlock>) returns (bytes: seq<byte>)
    ensures bytes == [|blocks| % 256] + BlocksBytes(blocks)
  {
    bytes := [|blocks| % 256];
    for i := 0 to |blocks|
      invariant bytes == [|blocks| % 256] + BlocksBytes(blocks[..i])
    {
      assert blocks[..i + 1][..i] == blocks[..i];
      var blockBytes := EncodeBlock(blocks[i]);
      bytes := bytes + blockBytes;
    }
    assert blocks[..|blocks|] == blocks;
  }

  method AppendPayloads(l2TxDataBytes: seq<byte>, txs: seq<Tx>) returns (r: Result<seq<byte>>)
    ensures r == match PayloadsOf(txs) case Ok(p) => Ok(l2TxDataBytes + p) case Err => Err
  {
    hide BigEndian;
    var bytes := l2TxDataBytes;
    for i := 0 to |txs|
      invariant PayloadsOf(txs[..i]).Ok? && bytes == l2TxDataBytes + PayloadsOf(txs[..i]).value
    {
      assert txs[..i + 1][..i] == txs[..i];
      if txs[i].L1Message? {
        continue;
      }
      if txs[i].rlp.None? {
        PayloadErrorStays(txs, i + 1);
        return Err;
      }
      bytes := bytes + BigEndian(|txs[i].rlp.value|, 4) + txs[i].rlp.value;
    }
    assert txs[..|txs|] == txs;
    return Ok(bytes);
  }

  lemma {:induction false} PayloadErrorStays(txs: seq<Tx>, i: nat)
    requires i <= |txs| && PayloadsOf(txs[..i]).Err?
    ensures PayloadsOf(txs).Err?
    decreases |txs| - i
  {
    if i < |txs| {
      assert txs[..i + 1][..i] == txs[..i];
      PayloadErrorStays(txs, i + 1);
    } else {
      assert txs[..i] == txs;
    }
  }

  lemma {:induction false} PayloadsErrorStays(transactions: seq<seq<Tx>>, i: nat)
    requires i <= |transactions| && Payloads(transactions[..i]).Err?
    ensures Payloads(transactions).Err?
    decreases |transactions| - i
  {
    hide PayloadsOf;
    if i < |transactions| {
      assert transactions[..i + 1][..i] == transactions[..i];
      PayloadsErrorStays(transactions, i + 1);
    } else {
      assert transactions[..i] == transactions;
    }
  }

  method EncodeChunk(codec: Codec, c: DAChunk) returns (r: Result<seq<byte>>)
    ensures r == ChunkBytes(codec, c)
  {
    hide BlocksBytes, PayloadsOf;
    var chunkBytes := EncodeBlocks(c.blocks);
    if codec.V1? {
      return Ok(chunkBytes);
    }
    var payloads := [];
    for i := 0 to |c.transactions|
      invariant Payloads(c.transactions[..i]) == Ok(payloads)
    {
      assert c.transactions[..i + 1][..i] == c.transactions[..i];
      var appended := AppendPayloads(payloads, c.transactions[i]);
      if appended.Err? {
        PayloadsErrorStays(c.transactions, i + 1);
        return Err;
      }
      payloads := appended.value;
    }
    assert c.transactions[..|c.transactions|] == c.transactions;
    return Ok(chunkBytes + payloads);
  }

  // ---------- The block range of a committed batch ----------

  lemma {:induction false} BlockSlice(blocks: seq<DABlock>, i: nat)
    requires i < |blocks|
    ensures BlocksBytes(blocks)[60 * i..60 * i + 60] == BlockBytes(blocks[i])
  {
    hide BlockBytes;
    var front := blocks[..|blocks| - 1];
    if i < |blocks| - 1 {
      BlockSlice(front, i);
      assert BlocksBytes(blocks)[60 * i..60 * i + 60] == BlocksBytes(front)[60 * i..60 * i + 60];
    }
  }

  lemma {:induction false} ReadNumber(b: DABlock)
    ensures FromBigEndian(BlockBytes(b)[..8]) == b.number
  {
    hide FromBigEndian, BigEndian;
    assert BlockBytes(b)[..8] == BigEndian(b.number, 8);
    WordSizes();
    DecodeEncode(b.number, 8);
  }

  lemma {:induction false} ChunkSlice(codec: Codec, c: DAChunk, i: nat)
    requires ChunkBytes(codec, c).Ok? && i < |c.blocks|
    ensures 61 + 60 * i <= |ChunkBytes(codec, c).value|
    ensures ChunkBytes(codec, c).value[0] == |c.blocks| % 256
    ensures ReadUint64(ChunkBytes(codec, c).value, 1 + 60 * i) == c.blocks[i].number
  {
    hide BlocksBytes, Payloads, FromBigEndian, BlockBytes;
    BlockSlice(c.blocks, i);
    var bytes := ChunkBytes(codec, c).value;
    assert bytes[1 + 60 * i..1 + 60 * i + 8] == BlocksBytes(c.blocks)[60 * i..60 * i + 60][..8];
    ReadNumber(c.blocks[i]);
  }

  /** What reading the range of a commit transaction gives: a range, an error, or a slice out of bounds. */
  datatype RangeResult = Range(startBlock: uint64, finishBlock: uint64) | NoChunks | OutOfBounds

  function GetBatchRange(chunks: seq<seq<byte>>): RangeResult {
    if |chunks| == 0 then NoChunks
    else
      var first, last := chunks[0], chunks[|chunks| - 1];
      if |first| < 61 then OutOfBounds
      else if |last| == 0 || last[0] == 0 || |last| < 1 + 60 * (last[0] as nat) then OutOfBounds
      else Range(ReadUint64(first, 1), ReadUint64(last, 1 + (last[0] as nat - 1) * 60))
  }

  ghost predicate Encodes(codec: Codec, bytes: seq<byte>, c: DAChunk) {
    ChunkBytes(codec, c) == Ok(bytes)
  }

  /** The block whose number is read as the last one: the count byte wraps at 256 blocks. */
  lemma {:induction false} RangeRead(codec: Codec, chunks: seq<seq<byte>>, first: DAChunk, last: DAChunk)
    requires |chunks| > 0
    requires Encodes(codec, chunks[0], first) && Encodes(codec, chunks[|chunks| - 1], last)
    requires |first.blocks| > 0 && |last.blocks| % 256 > 0
    ensures GetBatchRange(chunks) == Range(first.blocks[0].number, last.blocks[|last.blocks| % 256 - 1].number)
  {
    hide ChunkBytes, ReadUint64;
    ChunkSlice(codec, first, 0);
    ChunkSlice(codec, last, |last.blocks| % 256 - 1);
  }

  lemma {:induction false} CountByteZero(codec: Codec, chunks: seq<seq<byte>>, last: DAChunk)
    requires |chunks| > 0
    requires Encodes(codec, chunks[|chunks| - 1], last)
    requires |last.blocks| % 256 == 0
    ensures GetBatchRange(chunks) == OutOfBounds
  {
    hide BlocksBytes, Payloads;
  }

  /** The range read from a commit transaction is the range committed exactly when the last chunk has
      at most 255 blocks: codecv0 rejects more, codecv1 does not. */
  lemma {:induction false} RangeCorrectIff(codec: Codec, chunks: seq<seq<byte>>, first: DAChunk, last: DAChunk)
    requires |chunks| > 0
    requires Encodes(codec, chunks[0], first) && Encodes(codec, chunks[|chunks| - 1], last)
    requires |first.blocks| > 0 && |last.blocks| > 0
    requires forall i, j :: 0 <= i < j < |last.blocks| ==> last.blocks[i].number < last.blocks[j].number
    ensures GetBatchRange(chunks) == Range(first.blocks[0].number, last.blocks[|last.blocks| - 1].number)
       <==> |last.blocks| <= 255
  {
    hide Encodes, GetBatchRange;
    if |last.blocks| % 256 == 0 {
      CountByteZero(codec, chunks, last);
    } else {
      RangeRead(codec, chunks, first, last);
    }
  }

  /** The same for chunks of L2 blocks: codecv0 always reads back the range it committed. */
  lemma {:induction false} CommittedRange(codec: Codec, chunks: seq<seq<byte>>, first: Chunk, b: uint64, last: Chunk,
      c: uint64)
    requires |chunks| > 0 && |first.blocks| > 0 && |last.blocks| > 0
    requires DAChunkOf(codec, first, b).Ok? && Encodes(codec, chunks[0], DAChunkOf(codec, first, b).value)
    requires DAChunkOf(codec, last, c).Ok? && Encodes(codec, chunks[|chunks| - 1], DAChunkOf(codec, last, c).value)
    requires forall i, j :: 0 <= i < j < |last.blocks| ==> last.blocks[i].number < last.blocks[j].number
    ensures var r := GetBatchRange(chunks);
      (&& r.Range? && r.startBlock == first.blocks[0].number
       && r.finishBlock == last.blocks[|last.blocks| - 1].number) <==> |last.blocks| <= 255
    ensures codec.V0? ==> |last.blocks| <= 255
  {
    hide Encodes, GetBatchRange, DABlocksOf;
    DABlocksKeepNumbers(first.blocks, b);
    DABlocksKeepNumbers(last.blocks, c);
    RangeCorrectIff(codec, chunks, DAChunkOf(codec, first, b).value, DAChunkOf(codec, last, c).value);
    if |last.blocks| % 256 == 0 {
      CountByteZero(codec, chunks, DAChunkOf(codec, last, c).value);
    } else {
      RangeRead(codec, chunks, DAChunkOf(codec, first, b).value, DAChunkOf(codec, last, c).value);
    }
  }

  // ---------- Chunk hash ----------

  /** The first 58 bytes of every block: all but the number of L1 messages. */
  function Contexts(blocks: seq<DABlock>): seq<byte> {
    if blocks == [] then [] else Contexts(blocks[..|blocks| - 1]) + BlockBytes(blocks[|blocks| - 1])[..58]
  }

  /** The contexts cut out of an encoded chunk with `n` blocks. */
  function SlicedContexts(bytes: seq<byte>, n: nat): seq<byte>
    requires 1 + 60 * n <= |bytes|
  {
    if n == 0 then [] else SlicedContexts(bytes, n - 1) + bytes[1 + 60 * (n - 1)..60 * (n - 1) + 59]
  }

  /** The hashes of the L1 messages of a block and of its L2 transactions. */
  function HashesOf(txs: seq<Tx>): Result<(seq<byte>, seq<byte>)> {
    if txs == [] then Ok(([], []))
    else
      var front :- HashesOf(txs[..|txs| - 1]);
      match txs[|txs| - 1].txHash
      case None => Err
      case Some(h) =>
        if txs[|txs| - 1].L1Message? then Ok((front.0 + h, front.1)) else Ok((front.0, front.1 + h))
  }

  /** codecv0: per block, the hashes of its L1 messages and then of its L2 transactions. */
  function AllHashes(transactions: seq<seq<Tx>>): Result<seq<byte>> {
    if transactions == [] then Ok([])
    else
      var front :- AllHashes(transactions[..|transactions| - 1]);
      var last :- HashesOf(transactions[|transactions| - 1]);
      Ok(front + last.0 + last.1)
  }

  /** codecv1: the hashes of the L1 messages only, 32 bytes each. */
  function L1HashesOf(txs: seq<Tx>): Result<seq<byte>> {
    if txs == [] then Ok([])
    else
      var front :- L1HashesOf(txs[..|txs| - 1]);
      match txs[|txs| - 1]
      case L2Tx(_, _) => Ok(front)
      case L1Message(_, None) => Err
      case L1Message(_, Some(h)) => if |h| == 32 then Ok(front + h) else Err
  }

  function L1Hashes(transactions: seq<seq<Tx>>): Result<seq<byte>> {
    if transactions == [] then Ok([])
    else
      var front :- L1Hashes(transactions[..|transactions| - 1]);
      var last :- L1HashesOf(transactions[|transactions| - 1]);
      Ok(front + last)
  }

  function ChunkHash(codec: Codec, c: DAChunk, keccak: seq<byte> -> Hash): Result<Hash> {
    match codec
    case V0 =>
      var bytes :- ChunkBytes(V0, c);
      var hashes :- AllHashes(c.transactions);
      EncodedLength(V0, c);
      Ok(keccak(SlicedContexts(bytes, bytes[0]) + hashes))
    case V1 =>
      var hashes :- L1Hashes(c.transactions);
      Ok(keccak(Contexts(c.blocks) + hashes))
  }

  lemma {:induction false} EncodedLength(codec: Codec, c: DAChunk)
    requires ChunkBytes(codec, c).Ok?
    ensures |ChunkBytes(codec, c).value| >= 1 + 60 * |c.blocks|
    ensures ChunkBytes(codec, c).value[0] == |c.blocks| % 256
    ensures |c.blocks| % 256 <= |c.blocks|
  {
    hide BlocksBytes, Payloads;
  }

  lemma {:induction false} SlicesAreContexts(bytes: seq<byte>, blocks: seq<DABlock>, n: nat)
    requires n <= |blocks| && 1 + 60 * |blocks| <= |bytes| && bytes[1..1 + 60 * |blocks|] == BlocksBytes(blocks)
    ensures SlicedContexts(bytes, n) == Contexts(blocks[..n])
  {
    hide BlockBytes, BlocksBytes;
    if n > 0 {
      SlicesAreContexts(bytes, blocks, n - 1);
      assert blocks[..n][..n - 1] == blocks[..n - 1];
      BlockSlice(blocks, n - 1);
      var at := 60 * (n - 1);
      SliceOfSlice(bytes, 1, 1 + 60 * |blocks|, at, at + 60);
      assert bytes[1 + at..at + 59] == bytes[1 + at..at + 61][..58];
    }
  }

  /** Both codecs hash the same block contexts; they differ in the transaction hashes only. */
  lemma {:induction false} HashedContexts(c: DAChunk, keccak: seq<byte> -> Hash)
    requires 1 <= |c.blocks| <= 255 && ChunkBytes(V0, c).Ok? && AllHashes(c.transactions).Ok?
    ensures ChunkHash(V0, c, keccak) == Ok(keccak(Contexts(c.blocks) + AllHashes(c.transactions).value))
  {
    hide BlocksBytes, Payloads, AllHashes, SlicedContexts, Contexts;
    var bytes := ChunkBytes(V0, c).value;
    EncodedLength(V0, c);
    assert bytes[1..1 + 60 * |c.blocks|] == BlocksBytes(c.blocks);
    SlicesAreContexts(bytes, c.blocks, |c.blocks|);
    assert c.blocks[..|c.blocks|] == c.blocks;
  }
}
