/** The bitmap of skipped L1 messages of a batch, and the decoder that recovers the skipped queue indices. */
module SkippedBitmaps {
  import opened Wrappers
  import opened Bits
  import opened Bytes
  import opened L2Data

  // ---------- Words and their bits ----------

  /** A 256-bit bitmap. */
  type Word = w: nat | w < Pow2(256) witness 0

  /** Bit `j` of the bitmaps laid end to end. */
  predicate BitAt(words: seq<Word>, j: nat) {
    j / 256 < |words| && Bit(words[j / 256], j % 256)
  }

  /** `words` marks exactly the messages in `base..next` that are not in `q`, with no word to spare. */
  ghost predicate Marks(words: seq<Word>, base: nat, next: nat, q: seq<QueueIndex>) {
    && base <= next
    && |words| == (next - base + 255) / 256
    && (forall j: nat :: BitAt(words, j) <==> base + j < next && base + j !in q)
  }

  /** Bits past the end of a word are clear. */
  lemma {:induction false} HighBitsClear(w: nat, k: nat, i: nat)
    requires w < Pow2(k) && k <= i
    ensures !Bit(w, i)
  {
    BitLengthBound(w, k);
    ShrZero(w, i);
  }

  /** A word is determined by its bits. */
  lemma {:induction false} SameBitsSameWord(v: nat, w: nat, k: nat)
    requires v < Pow2(k) && w < Pow2(k)
    requires forall i: nat :: Bit(v, i) <==> Bit(w, i)
    ensures v == w
  {
    if k > 0 {
      forall i: nat ensures Bit(v / 2, i) <==> Bit(w / 2, i) {
        assert Bit(v, i + 1) <==> Bit(v / 2, i);
        assert Bit(w, i + 1) <==> Bit(w / 2, i);
      }
      SameBitsSameWord(v / 2, w / 2, k - 1);
      assert Bit(v, 0) <==> Bit(w, 0);
    }
  }

  /** The bitmaps are determined by the messages. */
  lemma {:induction false} MarksUnique(v: seq<Word>, w: seq<Word>, base: nat, next: nat, q: seq<QueueIndex>)
    requires Marks(v, base, next, q) && Marks(w, base, next, q)
    ensures v == w
  {
    hide Bit;
    forall k | 0 <= k < |v| ensures v[k] == w[k] {
      forall i: nat ensures Bit(v[k], i) <==> Bit(w[k], i) {
        if i < 256 {
          assert BitAt(v, 256 * k + i) <==> BitAt(w, 256 * k + i);
        } else {
          HighBitsClear(v[k], 256, i);
          HighBitsClear(w[k], 256, i);
        }
      }
      SameBitsSameWord(v[k], w[k], 256);
    }
  }

  // ---------- The encoder ----------

  method Grow(words: seq<Word>, quo: nat) returns (grown: seq<Word>)
    ensures |grown| == if quo < |words| then |words| else quo + 1
    ensures forall j: nat :: BitAt(grown, j) <==> BitAt(words, j)
  {
    hide Bit;
    grown := words;
    while |grown| <= quo
      invariant |words| <= |grown| && (|grown| == |words| || |grown| <= quo + 1)
      invariant forall j: nat :: BitAt(grown, j) <==> BitAt(words, j)
    {
      forall i: nat ensures !Bit(0, i) {
        ZeroHasNoBits(i);
      }
      grown := grown + [0];
    }
  }

  lemma {:induction false} SetBitAt(words: seq<Word>, j: nat, marked: seq<Word>)
    requires j / 256 < |words|
    requires SetBit(words[j / 256], j % 256) < Pow2(256)
    requires marked == words[j / 256 := SetBit(words[j / 256], j % 256)]
    ensures forall i: nat :: BitAt(marked, i) <==> BitAt(words, i) || i == j
  {
    hide Bit, SetBit, Pow2;
    forall i: nat ensures BitAt(marked, i) <==> BitAt(words, i) || i == j {
      if i / 256 == j / 256 {
        SetBitBits(words[j / 256], j % 256, i % 256);
        assert i == 256 * (i / 256) + i % 256 && j == 256 * (j / 256) + j % 256;
      }
    }
  }

  method MarkSkipped(words: seq<Word>, base: nat, index: nat, ghost q: seq<QueueIndex>) returns (marked: seq<Word>)
    requires Marks(words, base, index, q) && index !in q
    ensures Marks(marked, base, index + 1, q)
  {
    hide Bit, SetBit, Pow2;
    var quo, rem := (index - base) / 256, (index - base) % 256;
    var grown := Grow(words, quo);
    SetBitBound(grown[quo], rem, 256);
    marked := grown[quo := SetBit(grown[quo], rem)];
    SetBitAt(grown, index - base, marked);
  }

  method AddMessage(words: seq<Word>, base: nat, next: nat, current: QueueIndex, ghost q: seq<QueueIndex>)
    returns (marked: seq<Word>)
    requires Marks(words, base, next, q) && next <= current
    requires forall x :: x in q ==> x < next
    ensures Marks(marked, base, current + 1, q + [current])
  {
    hide BitAt;
    marked := words;
    for skipped := next to current
      invariant Marks(marked, base, skipped, q)
    {
      marked := MarkSkipped(marked, base, skipped, q);
    }
    marked := Grow(marked, (current - base) / 256);
  }

  /** The bitmap and the next index after processing the messages `q` in order. */
  ghost predicate Processed(words: seq<Word>, base: uint64, next: uint64, q: seq<QueueIndex>) {
    InQueueOrder(base, q) && next == After(base, q) && Marks(words, base, next, q)
  }

  method ProcessMessage(words: seq<Word>, base: uint64, next: uint64, current: QueueIndex, ghost q: seq<QueueIndex>)
    returns (r: Result<(seq<Word>, uint64)>)
    requires Processed(words, base, next, q)
    ensures r.Ok? <==> InQueueOrder(base, q + [current])
    ensures r.Ok? ==> Processed(r.value.0, base, r.value.1, q + [current])
  {
    QueueOrderConcat(base, q, [current]);
    if current < next {
      return Err;
    }
    assert forall x :: x in q ==> x < next;
    var marked := AddMessage(words, base, next, current, q);
    return Ok((marked, (current as nat) + 1));
  }

  method ProcessBlock(words: seq<Word>, base: uint64, next: uint64, txs: seq<Tx>, ghost q: seq<QueueIndex>)
    returns (r: Result<(seq<Word>, uint64)>)
    requires Processed(words, base, next, q)
    ensures r.Ok? <==> InQueueOrder(base, q + Indices(txs))
    ensures r.Ok? ==> Processed(r.value.0, base, r.value.1, q + Indices(txs))
  {
    hide Processed, InQueueOrder;
    var words, next := words, next;
    assert q + [] == q;
    for i := 0 to |txs|
      invariant Processed(words, base, next, q + Indices(txs[..i]))
    {
      assert txs[..i + 1][..i] == txs[..i];
      if txs[i].L1Message? {
        var current := txs[i].queueIndex;
        assert q + Indices(txs[..i + 1]) == q + Indices(txs[..i]) + [current];
        var step := ProcessMessage(words, base, next, current, q + Indices(txs[..i]));
        if step.Err? {
          IndicesSplit(base, q, txs, i + 1);
          return Err;
        }
        words, next := step.value.0, step.value.1;
      } else {
        assert Indices(txs[..i + 1]) == Indices(txs[..i]);
      }
    }
    assert txs[..|txs|] == txs;
    ProcessedInOrder(words, base, next, q + Indices(txs));
    return Ok((words, next));
  }

  lemma ProcessedInOrder(words: seq<Word>, base: uint64, next: uint64, q: seq<QueueIndex>)
    requires Processed(words, base, next, q)
    ensures InQueueOrder(base, q)
  {
  }

  /** Messages out of order stay out of order when more follow. */
  lemma {:induction false} IndicesSplit(base: uint64, q: seq<QueueIndex>, txs: seq<Tx>, i: nat)
    requires i <= |txs|
    ensures InQueueOrder(base, q + Indices(txs)) ==> InQueueOrder(base, q + Indices(txs[..i]))
    decreases |txs| - i
  {
    hide InQueueOrder;
    if i < |txs| {
      IndicesSplit(base, q, txs, i + 1);
      var next := Indices(txs[..i + 1]);
      assert txs[..i + 1][..i] == txs[..i];
      assert next == Indices(txs[..i]) + next[|Indices(txs[..i])|..];
      assert q + next == q + Indices(txs[..i]) + next[|Indices(txs[..i])|..];
      QueueOrderConcat(base, q + Indices(txs[..i]), next[|Indices(txs[..i])|..]);
    } else {
      assert txs[..i] == txs;
    }
  }

  method ProcessChunk(words: seq<Word>, base: uint64, next: uint64, blocks: seq<Block>, ghost q: seq<QueueIndex>)
    returns (r: Result<(seq<Word>, uint64)>)
    requires Processed(words, base, next, q)
    ensures r.Ok? <==> InQueueOrder(base, q + BlocksIndices(blocks))
    ensures r.Ok? ==> Processed(r.value.0, base, r.value.1, q + BlocksIndices(blocks))
  {
    hide Processed, InQueueOrder, Indices;
    var words, next := words, next;
    assert q + [] == q;
    for i := 0 to |blocks|
      invariant Processed(words, base, next, q + BlocksIndices(blocks[..i]))
    {
      assert blocks[..i + 1][..i] == blocks[..i];
      ghost var q' := q + BlocksIndices(blocks[..i]);
      assert q + BlocksIndices(blocks[..i + 1]) == q' + Indices(blocks[i].txs);
      var step := ProcessBlock(words, base, next, blocks[i].txs, q');
      if step.Err? {
        BlocksIndicesSplit(base, q, blocks, i + 1);
        return Err;
      }
      words, next := step.value.0, step.value.1;
    }
    assert blocks[..|blocks|] == blocks;
    ProcessedInOrder(words, base, next, q + BlocksIndices(blocks));
    return Ok((words, next));
  }

  lemma {:induction false} BlocksIndicesSplit(base: uint64, q: seq<QueueIndex>, blocks: seq<Block>, i: nat)
    requires i <= |blocks|
    ensures InQueueOrder(base, q + BlocksIndices(blocks)) ==> InQueueOrder(base, q + BlocksIndices(blocks[..i]))
    decreases |blocks| - i
  {
    hide InQueueOrder, Indices;
    if i < |blocks| {
      BlocksIndicesSplit(base, q, blocks, i + 1);
      assert blocks[..i + 1][..i] == blocks[..i];
      var q' := q + BlocksIndices(blocks[..i]);
      assert q + BlocksIndices(blocks[..i + 1]) == q' + Indices(blocks[i].txs);
      QueueOrderConcat(base, q', Indices(blocks[i].txs));
    } else {
      assert blocks[..i] == blocks;
    }
  }

  method ProcessChunks(chunks: seq<Chunk>, base: uint64) returns (r: Result<(seq<Word>, uint64)>)
    ensures r.Ok? <==> InQueueOrder(base, ChunksIndices(chunks))
    ensures r.Ok? ==> Processed(r.value.0, base, r.value.1, ChunksIndices(chunks))
  {
    NothingProcessed(base);
    hide Processed, InQueueOrder, BlocksIndices;
    var words: seq<Word>, next := [], base;
    for i := 0 to |chunks|
      invariant Processed(words, base, next, ChunksIndices(chunks[..i]))
    {
      assert chunks[..i + 1][..i] == chunks[..i];
      var step := ProcessChunk(words, base, next, chunks[i].blocks, ChunksIndices(chunks[..i]));
      if step.Err? {
        ChunksIndicesSplit(base, chunks, i + 1);
        return Err;
      }
      words, next := step.value.0, step.value.1;
    }
    assert chunks[..|chunks|] == chunks;
    ProcessedInOrder(words, base, next, ChunksIndices(chunks));
    return Ok((words, next));
  }

  lemma NothingProcessed(base: uint64)
    ensures Processed([], base, base, [])
  {
  }

  lemma {:induction false} ChunksIndicesSplit(base: uint64, chunks: seq<Chunk>, i: nat)
    requires i <= |chunks|
    ensures InQueueOrder(base, ChunksIndices(chunks)) ==> InQueueOrder(base, ChunksIndices(chunks[..i]))
    decreases |chunks| - i
  {
    hide InQueueOrder, BlocksIndices;
    if i < |chunks| {
      ChunksIndicesSplit(base, chunks, i + 1);
      assert chunks[..i + 1][..i] == chunks[..i];
      QueueOrderConcat(base, ChunksIndices(chunks[..i]), BlocksIndices(chunks[i].blocks));
    } else {
      assert chunks[..i] == chunks;
    }
  }

  // ---------- The bitmap as a function of the messages ----------

  /** The first `n` bits of the bitmap that starts at message `lo`. */
  function WordFrom(q: seq<QueueIndex>, lo: nat, next: nat, n: nat): Word
    requires n <= 256
  {
    if n == 0 then 0
    else
      var w := WordFrom(q, lo, next, n - 1);
      if lo + n - 1 < next && lo + n - 1 !in q then SetBitBound(w, n - 1, 256); SetBit(w, n - 1) else w
  }

  function SkippedWords(base: nat, next: nat, q: seq<QueueIndex>): seq<Word>
    requires base <= next
  {
    seq((next - base + 255) / 256, k requires 0 <= k => WordFrom(q, base + 256 * k, next, 256))
  }

  lemma {:induction false} WordFromBits(q: seq<QueueIndex>, lo: nat, next: nat, n: nat, i: nat)
    requires n <= 256
    ensures Bit(WordFrom(q, lo, next, n), i) <==> i < n && lo + i < next && lo + i !in q
  {
    hide Bit, SetBit, Pow2;
    if n == 0 {
      ZeroHasNoBits(i);
    } else {
      WordFromBits(q, lo, next, n - 1, i);
      SetBitBits(WordFrom(q, lo, next, n - 1), n - 1, i);
    }
  }

  lemma {:induction false} SkippedWordsMark(base: nat, next: nat, q: seq<QueueIndex>)
    requires base <= next
    ensures Marks(SkippedWords(base, next, q), base, next, q)
  {
    hide Bit, WordFrom, Pow2;
    var words := SkippedWords(base, next, q);
    forall j: nat ensures BitAt(words, j) <==> base + j < next && base + j !in q {
      if j / 256 < |words| {
        WordFromBits(q, base + 256 * (j / 256), next, 256, j % 256);
      }
    }
  }

  function EncodeWords(words: seq<Word>): (bytes: seq<byte>)
    ensures |bytes| == 32 * |words|
  {
    if words == [] then [] else EncodeWords(words[..|words| - 1]) + BigEndian(words[|words| - 1], 32)
  }

  /** The skipped bitmap of a batch and the queue index after it, or an error when a message comes out of order. */
  function SkippedBitmap(chunks: seq<Chunk>, base: uint64): Result<(seq<byte>, uint64)> {
    var q := ChunksIndices(chunks);
    if InQueueOrder(base, q) then
      QueueOrderConcat(base, q, []);
      Ok((EncodeWords(SkippedWords(base, After(base, q), q)), After(base, q)))
    else Err
  }

  /** `big.Int.Bytes`: no leading zero bytes. */
  function MinimalBytes(n: nat): seq<byte> {
    if n == 0 then [] else MinimalBytes(n / 256) + [n % 256]
  }

  /** Left padding of the minimal bytes gives the fixed-width number. */
  lemma {:induction false} PaddedBytes(n: nat, k: nat)
    requires n < Pow256(k)
    ensures |MinimalBytes(n)| <= k
    ensures Zeros(k - |MinimalBytes(n)|) + MinimalBytes(n) == BigEndian(n, k)
  {
    if k > 0 {
      PaddedBytes(n / 256, k - 1);
      if n == 0 {
        assert BigEndian(0, k) == Zeros(k - 1) + [0];
      }
    }
  }

  lemma {:induction false} EightBits(k: nat)
    ensures Pow2(k + 8) == 256 * Pow2(k)
  {
    assert Pow2(k + 2) == 4 * Pow2(k);
    assert Pow2(k + 4) == 4 * Pow2(k + 2);
    assert Pow2(k + 6) == 4 * Pow2(k + 4);
  }

  lemma {:induction false} ByteSteps(n: nat)
    ensures Pow2(8 * n) == Pow256(n)
  {
    if n > 0 {
      ByteSteps(n - 1);
      EightBits(8 * n - 8);
    }
  }

  method ConstructSkippedBitmap(chunks: seq<Chunk>, totalL1MessagePoppedBefore: uint64)
    returns (r: Result<(seq<byte>, uint64)>)
    ensures r == SkippedBitmap(chunks, totalL1MessagePoppedBefore)
  {
    hide BitAt, InQueueOrder, WordFrom;
    var processed := ProcessChunks(chunks, totalL1MessagePoppedBefore);
    if processed.Err? {
      return Err;
    }
    var words, next := processed.value.0, processed.value.1;
    SkippedWordsMark(totalL1MessagePoppedBefore, next, ChunksIndices(chunks));
    MarksUnique(words, SkippedWords(totalL1MessagePoppedBefore, next, ChunksIndices(chunks)),
                totalL1MessagePoppedBefore, next, ChunksIndices(chunks));
    var bytes := WriteWords(words);
    return Ok((bytes, next));
  }

  method WriteWords(words: seq<Word>) returns (bytes: seq<byte>)
    ensures bytes == EncodeWords(words)
  {
    hide EncodeWords, MinimalBytes, Pow2;
    var buffer := new byte[32 * |words|](_ => 0);
    assert EncodeWords(words[..0]) == [];
    for i := 0 to |words|
      invariant buffer[..] == EncodeWords(words[..i]) + Zeros(32 * (|words| - i))
    {
      FitsWord(words[i]);
      var number := MinimalBytes(words[i]);
      var padding := 32 - |number|;
      ghost var before := buffer[..];
      CopyInto(buffer, 32 * i + padding, number);
      WordWritten(words, i, before, buffer[..]);
    }
    assert words[..|words|] == words;
    bytes := buffer[..];
  }

  lemma {:induction false} FitsWord(w: Word)
    ensures |MinimalBytes(w)| <= 32
    ensures Zeros(32 - |MinimalBytes(w)|) + MinimalBytes(w) == BigEndian(w, 32)
  {
    hide Pow2;
    ByteSteps(32);
    PaddedBytes(w, 32);
  }

  lemma {:induction false} WordWritten(words: seq<Word>, i: nat, before: seq<byte>, after: seq<byte>)
    requires i < |words| && |MinimalBytes(words[i])| <= 32
    requires before == EncodeWords(words[..i]) + Zeros(32 * (|words| - i))
    requires var number := MinimalBytes(words[i]);
      after == before[..32 * (i + 1) - |number|] + number + before[32 * (i + 1)..]
    ensures after == EncodeWords(words[..i + 1]) + Zeros(32 * (|words| - (i + 1)))
  {
    hide MinimalBytes, BigEndian, Pow2;
    FitsWord(words[i]);
    assert words[..i + 1][..i] == words[..i];
    var number := MinimalBytes(words[i]);
    assert before[..32 * (i + 1) - |number|] == EncodeWords(words[..i]) + Zeros(32 - |number|);
    assert before[32 * (i + 1)..] == Zeros(32 * (|words| - (i + 1)));
  }

  // ---------- The decoder ----------

  /** The queue indices named by the first `n` bits of a bitmap that starts at message `start`. */
  function IndicesOf(start: uint64, w: nat, n: nat): seq<uint64> {
    if n == 0 then []
    else IndicesOf(start, w, n - 1) + if Bit(w, n - 1) then [Wrap(start + n - 1)] else []
  }

  method GetSkippedQueueIndices(startIndex: uint64, skippedBitmap: nat) returns (indices: seq<uint64>)
    ensures indices == IndicesOf(startIndex, skippedBitmap, 256)
  {
    indices := [];
    for i := 0 to 256
      invariant indices == IndicesOf(startIndex, skippedBitmap, i)
    {
      var index := Wrap((startIndex as int) + i);
      var bit := Shr(skippedBitmap, i);
      if bit % 2 == 0 {
        continue;
      }
      indices := indices + [index];
    }
  }

  /** The messages from `lo` up to `hi` that are not in `q`, in order: what a batch skips. */
  function Skipped(q: seq<QueueIndex>, lo: nat, hi: nat): seq<nat> {
    if hi <= lo then []
    else Skipped(q, lo, hi - 1) + if hi - 1 in q then [] else [hi - 1]
  }

  lemma {:induction false} SkippedConcat(q: seq<QueueIndex>, a: nat, b: nat, c: nat)
    requires a <= b <= c
    ensures Skipped(q, a, b) + Skipped(q, b, c) == Skipped(q, a, c)
    decreases c
  {
    if b < c {
      SkippedConcat(q, a, b, c - 1);
    }
  }

  lemma {:induction false} DecodeWord(q: seq<QueueIndex>, lo: uint64, next: uint64, w: nat, n: nat)
    requires n <= 256 && lo <= next
    requires forall i: nat :: i < 256 ==> (Bit(w, i) <==> lo + i < next && lo + i !in q)
    ensures IndicesOf(lo, w, n) == Skipped(q, lo, if lo + n < next then lo + n else next)
  {
    hide Bit, Wrap;
    if n > 0 {
      DecodeWord(q, lo, next, w, n - 1);
      assert Bit(w, n - 1) <==> lo + (n - 1) < next && lo + (n - 1) !in q;
      if lo + (n - 1) < next {
        WrapSmall(lo + (n - 1));
      }
    }
  }

  /** Decoding the first `k` words, each at its own start index, and joining the results. */
  function DecodeWords(base: nat, bytes: seq<byte>, k: nat): seq<uint64>
    requires 32 * k <= |bytes|
  {
    if k == 0 then []
    else
      DecodeWords(base, bytes, k - 1) +
      IndicesOf(Wrap(base + 256 * (k - 1)), FromBigEndian(bytes[32 * (k - 1)..32 * k]), 256)
  }

  lemma {:induction false} EncodedWord(words: seq<Word>, k: nat)
    requires k < |words|
    ensures FromBigEndian(EncodeWords(words)[32 * k..32 * (k + 1)]) == words[k]
  {
    hide BigEndian, FromBigEndian, Pow2;
    var front := words[..|words| - 1];
    if k < |words| - 1 {
      EncodedWord(front, k);
      assert EncodeWords(words)[32 * k..32 * (k + 1)] == EncodeWords(front)[32 * k..32 * (k + 1)];
    } else {
      assert EncodeWords(words)[32 * k..32 * (k + 1)] == BigEndian(words[k], 32);
      ByteSteps(32);
      DecodeEncode(words[k], 32);
    }
  }

  /** Word `k` holds the skipped indices of its 256. */
  lemma {:induction false} DecodeSkippedWord(base: uint64, next: uint64, q: seq<QueueIndex>, k: nat)
    requires base <= next && k < |SkippedWords(base, next, q)|
    ensures var lo := base + 256 * k;
      && lo <= next && Wrap(lo) == lo
      && IndicesOf(lo, SkippedWords(base, next, q)[k], 256)
         == Skipped(q, lo, if lo + 256 < next then lo + 256 else next)
  {
    hide Bit, Wrap, IndicesOf, WordFrom;
    var lo := base + 256 * k;
    WrapSmall(lo);
    forall i: nat | i < 256 ensures Bit(SkippedWords(base, next, q)[k], i) <==> lo + i < next && lo + i !in q {
      WordFromBits(q, lo, next, 256, i);
    }
    DecodeWord(q, lo, next, SkippedWords(base, next, q)[k], 256);
  }

  lemma NoWordsDecoded(base: uint64, bytes: seq<byte>, q: seq<QueueIndex>)
    ensures DecodeWords(base, bytes, 0) == [] == Skipped(q, base, base)
  {
  }

  lemma DecodeNextWord(base: nat, bytes: seq<byte>, k: nat)
    requires 32 * (k + 1) <= |bytes|
    ensures DecodeWords(base, bytes, k + 1)
            == DecodeWords(base, bytes, k) +
               IndicesOf(Wrap(base + 256 * k), FromBigEndian(bytes[32 * k..32 * (k + 1)]), 256)
  {
    hide Wrap, IndicesOf, FromBigEndian;
  }

  lemma {:induction false} DecodeWordsPrefix(base: uint64, next: uint64, q: seq<QueueIndex>, k: nat)
    requires base <= next
    requires k <= |SkippedWords(base, next, q)|
    ensures DecodeWords(base, EncodeWords(SkippedWords(base, next, q)), k)
         == Skipped(q, base, if base + 256 * k < next then base + 256 * k else next)
  {
    hide Wrap, EncodeWords, IndicesOf, FromBigEndian, SkippedWords, Skipped, DecodeWords;
    var words := SkippedWords(base, next, q);
    if k == 0 {
      NoWordsDecoded(base, EncodeWords(words), q);
    } else {
      var lo := base + 256 * (k - 1);
      DecodeWordsPrefix(base, next, q, k - 1);
      DecodeSkippedWord(base, next, q, k - 1);
      EncodedWord(words, k - 1);
      DecodeNextWord(base, EncodeWords(words), k - 1);
      SkippedConcat(q, base, lo, if base + 256 * k < next then base + 256 * k else next);
    }
  }

  /** Decoding the bitmap of a batch word by word lists, in order, exactly the messages that the batch skips. */
  lemma {:induction false} DecodeRecoversSkipped(chunks: seq<Chunk>, base: uint64)
    requires SkippedBitmap(chunks, base).Ok?
    ensures var (bytes, next) := SkippedBitmap(chunks, base).value;
      && |bytes| % 32 == 0
      && DecodeWords(base, bytes, |bytes| / 32) == Skipped(ChunksIndices(chunks), base, next)
  {
    hide DecodeWords, EncodeWords, Skipped, ChunksIndices, InQueueOrder, WordFrom;
    var q := ChunksIndices(chunks);
    var next := After(base, q);
    QueueOrderConcat(base, q, []);
    DecodeWordsPrefix(base, next, q, |SkippedWords(base, next, q)|);
  }
}
