/** Finalizing withdrawals batch by batch: every update rebuilds the withdraw trie from the proof of
    the last finalized withdrawal, appends the batch's withdrawals and stores their proofs. */
module EventUpdates {
  import opened Wrappers
  import opened Bytes
  import opened Bits
  import opened MerkleTree
  import opened WithdrawTries
  import opened CrossMessages

  // ---------- Queries ----------

  predicate IsFinalized(r: Row) {
    r.messageType.L2SentMessage? && r.rollupStatus.Finalized?
  }

  predicate InBlockRange(r: Row, start: nat, end: nat) {
    start <= r.l2BlockNumber <= end && !r.txStatus.SentTxReverted? && r.messageType.L2SentMessage?
  }

  ghost predicate SortedByNonce(msgs: seq<Row>) {
    forall i, j :: 0 <= i < j < |msgs| ==> msgs[i].messageNonce <= msgs[j].messageNonce
  }

  /** A finalized withdrawal of the highest nonce, none when there is none. */
  ghost predicate IsLast(rows: Table, last: Option<Row>) {
    && (last.None? ==> forall h :: h in rows ==> !IsFinalized(rows[h]))
    && (last.Some? ==> IsFinalized(last.value) && exists h :: h in rows && rows[h] == last.value)
    && (last.Some? ==>
          forall h :: h in rows && IsFinalized(rows[h]) ==> rows[h].messageNonce <= last.value.messageNonce)
  }

  method GetL2LatestFinalizedWithdrawal(rows: Table) returns (last: Option<Row>)
    ensures IsLast(rows, last)
  {
    last := None;
    var rest := rows.Keys;
    while rest != {}
      invariant rest <= rows.Keys
      invariant last.None? ==> forall h :: h in rows && h !in rest ==> !IsFinalized(rows[h])
      invariant last.Some? ==> IsFinalized(last.value) && exists h :: h in rows && rows[h] == last.value
      invariant last.Some? ==> forall h :: h in rows && h !in rest && IsFinalized(rows[h]) ==>
                                             rows[h].messageNonce <= last.value.messageNonce
      decreases rest
    {
      var h :| h in rest;
      if IsFinalized(rows[h]) && (last.None? || rows[h].messageNonce > last.value.messageNonce) {
        last := Some(rows[h]);
      }
      rest := rest - {h};
    }
  }

  /** Inserts a row before the first row of a higher nonce. */
  function InsertByNonce(msgs: seq<Row>, r: Row): (sorted: seq<Row>)
    decreases |msgs|
  {
    if msgs == [] || msgs[|msgs| - 1].messageNonce <= r.messageNonce then msgs + [r]
    else InsertByNonce(msgs[..|msgs| - 1], r) + [msgs[|msgs| - 1]]
  }

  lemma {:induction false} InsertedByNonce(msgs: seq<Row>, r: Row)
    requires SortedByNonce(msgs) && Distinct(msgs)
    requires forall i :: 0 <= i < |msgs| ==> msgs[i].messageHash != r.messageHash
    ensures SortedByNonce(InsertByNonce(msgs, r)) && Distinct(InsertByNonce(msgs, r))
    ensures forall m :: m in InsertByNonce(msgs, r) <==> m in msgs || m == r
    decreases |msgs|
  {
    if msgs != [] {
      var front, last := msgs[..|msgs| - 1], msgs[|msgs| - 1];
      assert msgs == front + [last];
      if last.messageNonce > r.messageNonce {
        InsertedByNonce(front, r);
        var sorted := InsertByNonce(front, r);
        forall i | 0 <= i < |sorted|
          ensures sorted[i].messageNonce <= last.messageNonce && sorted[i].messageHash != last.messageHash
        {
          assert sorted[i] in sorted;
        }
      }
    }
  }

  /** The result of the range query over the rows under `keys`: the matching rows, each once, by nonce. */
  ghost predicate IsRangeResult(rows: Table, keys: set<Hash>, start: nat, end: nat, msgs: seq<Row>) {
    && SortedByNonce(msgs) && Distinct(msgs)
    && (forall m :: m in msgs ==> m.messageHash in keys && m.messageHash in rows &&
                                  rows[m.messageHash] == m && InBlockRange(m, start, end))
    && (forall h :: h in keys && h in rows && InBlockRange(rows[h], start, end) ==> rows[h] in msgs)
  }

  lemma {:induction false} RangeResultGrows(
      rows: Table, keys: set<Hash>, start: nat, end: nat, msgs: seq<Row>, h: Hash)
    requires Keyed(rows) && h in rows && h !in keys
    requires IsRangeResult(rows, keys, start, end, msgs)
    ensures IsRangeResult(rows, keys + {h}, start, end,
              if InBlockRange(rows[h], start, end) then InsertByNonce(msgs, rows[h]) else msgs)
  {
    hide InsertByNonce, InBlockRange;
    if InBlockRange(rows[h], start, end) {
      forall i | 0 <= i < |msgs| ensures msgs[i].messageHash != rows[h].messageHash {
        assert msgs[i] in msgs;
      }
      InsertedByNonce(msgs, rows[h]);
    }
  }

  method GetL2WithdrawalsByBlockRange(rows: Table, start: nat, end: nat) returns (msgs: seq<Row>)
    requires Keyed(rows)
    ensures IsRangeResult(rows, rows.Keys, start, end, msgs)
  {
    hide InsertByNonce, IsRangeResult;
    msgs := [];
    var rest := rows.Keys;
    assert IsRangeResult(rows, {}, start, end, []) by { EmptyRangeResult(rows, start, end); }
    assert rows.Keys - rest == {};
    while rest != {}
      invariant rest <= rows.Keys
      invariant IsRangeResult(rows, rows.Keys - rest, start, end, msgs)
      decreases rest
    {
      var h :| h in rest;
      RangeResultGrows(rows, rows.Keys - rest, start, end, msgs, h);
      if InBlockRange(rows[h], start, end) {
        msgs := InsertByNonce(msgs, rows[h]);
      }
      assert rows.Keys - (rest - {h}) == rows.Keys - rest + {h};
      rest := rest - {h};
    }
    assert rows.Keys - rest == rows.Keys;
  }

  lemma {:induction false} EmptyRangeResult(rows: Table, start: nat, end: nat)
    ensures IsRangeResult(rows, {}, start, end, [])
  {
  }

  // ---------- The L2 history ----------

  /** The withdrawals of L2 as the L2 fetcher records them: the nonce is the position, blocks never
      go back, hashes differ. */
  ghost predicate ValidChain(chain: seq<Row>) {
    && |chain| <= CAPACITY
    && (forall i :: 0 <= i < |chain| ==>
          IsSentRecord(L2, chain[i]) && chain[i].messageNonce == i && chain[i].l2BlockNumber >= 1)
    && (forall i, j :: 0 <= i < j < |chain| ==> chain[i].l2BlockNumber <= chain[j].l2BlockNumber)
    && (forall i, j :: 0 <= i < j < |chain| ==> chain[i].messageHash != chain[j].messageHash)
  }

  ghost function Hashes(chain: seq<Row>): (hashes: seq<Hash>)
    ensures |hashes| == |chain|
    ensures forall i :: 0 <= i < |chain| ==> hashes[i] == chain[i].messageHash
  {
    if chain == [] then [] else Hashes(chain[..|chain| - 1]) + [chain[|chain| - 1].messageHash]
  }

  /** The number of withdrawals in blocks up to `block`. */
  ghost function UpTo(chain: seq<Row>, block: nat): (n: nat)
    ensures n <= |chain|
  {
    if chain == [] then 0
    else if chain[|chain| - 1].l2BlockNumber <= block then |chain|
    else UpTo(chain[..|chain| - 1], block)
  }

  lemma {:induction false} ValidPrefix(chain: seq<Row>)
    requires ValidChain(chain) && chain != []
    ensures ValidChain(chain[..|chain| - 1])
  {
  }

  lemma {:induction false} UpToBlock(chain: seq<Row>, block: nat, i: nat)
    requires ValidChain(chain) && i < |chain|
    ensures i < UpTo(chain, block) <==> chain[i].l2BlockNumber <= block
  {
    if i < |chain| - 1 && chain[|chain| - 1].l2BlockNumber > block {
      ValidPrefix(chain);
      UpToBlock(chain[..|chain| - 1], block, i);
    }
  }

  lemma {:induction false} UpToMonotone(chain: seq<Row>, a: nat, b: nat)
    requires ValidChain(chain) && a <= b
    ensures UpTo(chain, a) <= UpTo(chain, b)
  {
    if UpTo(chain, a) > 0 {
      UpToBlock(chain, a, UpTo(chain, a) - 1);
      UpToBlock(chain, b, UpTo(chain, a) - 1);
    }
  }

  // ---------- Finalized batches ----------

  datatype BatchEvent = BatchEvent(startBlock: nat, endBlock: nat, updated: bool)

  /** The first finalized batch is the genesis batch of block 0; the others follow each other. */
  ghost predicate BatchesTile(batches: seq<BatchEvent>) {
    && (forall b :: 0 <= b < |batches| ==> batches[b].startBlock <= batches[b].endBlock)
    && (batches != [] ==> batches[0].startBlock == 0 && batches[0].endBlock == 0)
    && (forall a, b :: 0 <= a && a + 1 == b < |batches| ==> batches[b].startBlock == batches[a].endBlock + 1)
  }

  /** Nothing but the updated flags differs. */
  ghost predicate OnlyFlagged(before: seq<BatchEvent>, after: seq<BatchEvent>) {
    |after| == |before| && forall b :: 0 <= b < |before| ==> before[b] == after[b].(updated := before[b].updated)
  }

  lemma NothingFlagged(batches: seq<BatchEvent>)
    ensures OnlyFlagged(batches, batches)
  {
  }

  lemma OnlyFlaggedStep(start: seq<BatchEvent>, before: seq<BatchEvent>, b: nat)
    requires OnlyFlagged(start, before) && b < |before|
    ensures OnlyFlagged(start, before[b := before[b].(updated := true)])
  {
  }

  /** The first batch reaching `block`. */
  ghost function BatchOf(batches: seq<BatchEvent>, block: nat): (b: nat)
    ensures b <= |batches|
    ensures b < |batches| ==> block <= batches[b].endBlock
    ensures forall c :: 0 <= c < b ==> batches[c].endBlock < block
  {
    if batches == [] then 0
    else if BatchOf(batches[..|batches| - 1], block) < |batches| - 1 then BatchOf(batches[..|batches| - 1], block)
    else if block <= batches[|batches| - 1].endBlock then |batches| - 1
    else |batches|
  }

  /** The number of withdrawals in the tree that ends with the batch of withdrawal `i`. */
  ghost function TreeSize(chain: seq<Row>, batches: seq<BatchEvent>, i: nat): (n: nat)
    requires ValidChain(chain) && i < |chain|
    ensures i < n <= |chain|
  {
    var b := BatchOf(batches, chain[i].l2BlockNumber);
    if b == |batches| then |chain|
    else
      UpToBlock(chain, batches[b].endBlock, i);
      UpTo(chain, batches[b].endBlock)
  }

  /** The proof withdrawal `i` must carry: its proof in the tree of all withdrawals up to the end of
      its own batch. */
  ghost function ExpectedProof(f: Keccak2, chain: seq<Row>, batches: seq<BatchEvent>, i: nat): seq<byte>
    requires ValidChain(chain) && i < |chain|
  {
    Concat(ProofOf(f, Hashes(chain)[..TreeSize(chain, batches, i)], i))
  }

  // ---------- The invariant ----------

  /** A row the range query can return for blocks from 1 on. */
  predicate Relevant(r: Row) {
    r.messageType.L2SentMessage? && !r.txStatus.SentTxReverted? && r.l2BlockNumber >= 1
  }

  /** A row the range query can return for block 0: a withdrawal relayed on L1 before it was seen sent on L2. */
  predicate Unsent(r: Row) {
    r.messageType.L2SentMessage? && !r.txStatus.SentTxReverted? && r.l2BlockNumber == 0
  }

  ghost predicate NoneUnsent(rows: Table) {
    forall h :: h in rows ==> !Unsent(rows[h])
  }

  /** The next batch is not the genesis batch, or there is no row that its query would return. */
  ghost predicate Clean(rows: Table, u: nat) {
    u > 0 || NoneUnsent(rows)
  }

  ghost predicate IsWithdrawal(chain: seq<Row>, r: Row) {
    && r.messageNonce < |chain|
    && chain[r.messageNonce].messageHash == r.messageHash
    && chain[r.messageNonce].l2BlockNumber == r.l2BlockNumber
  }

  /** The table holds the withdrawals of all blocks up to `synced`. */
  ghost predicate Fetched(chain: seq<Row>, synced: nat, rows: Table) {
    && Keyed(rows)
    && (forall h :: h in rows && Relevant(rows[h]) ==> IsWithdrawal(chain, rows[h]))
    && (forall h :: h in rows && Unsent(rows[h]) ==> rows[h].messageNonce == 0 && h in Hashes(chain))
    && (forall i :: 0 <= i < |chain| && chain[i].l2BlockNumber <= synced ==>
          chain[i].messageHash in rows && Relevant(rows[chain[i].messageHash]))
    && (forall i :: 0 <= i < |chain| && chain[i].messageHash in rows ==>
          rows[chain[i].messageHash].messageType.L2SentMessage? && !rows[chain[i].messageHash].txStatus.SentTxReverted?)
  }

  /** The finalized withdrawals are exactly nonces 0, ..., n - 1, each with the proof it must carry. */
  ghost predicate Proven(f: Keccak2, chain: seq<Row>, batches: seq<BatchEvent>, n: nat, rows: Table) {
    && ValidChain(chain) && n <= |chain|
    && (forall h :: h in rows && IsFinalized(rows[h]) ==>
          && Relevant(rows[h]) && rows[h].messageNonce < n
          && rows[h].merkleProof == ExpectedProof(f, chain, batches, rows[h].messageNonce))
    && (forall i :: 0 <= i < n ==> chain[i].messageHash in rows && IsFinalized(rows[chain[i].messageHash]))
  }

  /** The first withdrawal after the first `u` batches. */
  ghost function BatchStart(chain: seq<Row>, batches: seq<BatchEvent>, u: nat): nat
    requires u <= |batches|
  {
    if u == 0 then 0 else UpTo(chain, batches[u - 1].endBlock)
  }

  /** The first `u` batches are done. Withdrawals of batch `u` may be finalized too, when an update of
      it was interrupted. */
  ghost predicate Progress(chain: seq<Row>, batches: seq<BatchEvent>, u: nat, n: nat) {
    && BatchesTile(batches) && u <= |batches|
    && (forall b :: 0 <= b < |batches| ==> (batches[b].updated <==> b < u))
    && BatchStart(chain, batches, u) <= n
    && n <= if u < |batches| then UpTo(chain, batches[u].endBlock) else BatchStart(chain, batches, u)
  }

  /** There are no withdrawals in block 0. */
  lemma {:induction false} NoneInGenesis(chain: seq<Row>)
    requires ValidChain(chain)
    ensures UpTo(chain, 0) == 0
  {
    hide UpTo;
    if UpTo(chain, 0) > 0 {
      UpToBlock(chain, 0, 0);
    }
  }

  lemma {:induction false} BatchStartBlock(chain: seq<Row>, batches: seq<BatchEvent>, u: nat)
    requires ValidChain(chain) && BatchesTile(batches) && u < |batches|
    ensures u > 0 ==> batches[u].startBlock >= 1
    ensures u > 0 ==> BatchStart(chain, batches, u) == UpTo(chain, batches[u].startBlock - 1)
    ensures BatchStart(chain, batches, u) <= UpTo(chain, batches[u].endBlock)
    ensures u == 0 ==> UpTo(chain, batches[u].endBlock) == 0
  {
    hide UpTo;
    NoneInGenesis(chain);
    if u > 0 {
      assert batches[u].startBlock == batches[u - 1].endBlock + 1;
      UpToMonotone(chain, batches[u].startBlock - 1, batches[u].endBlock);
    }
  }

  /** The range query of the next batch returns all its withdrawals ... */
  lemma {:induction false} BatchIsListed(
      chain: seq<Row>, synced: nat, rows: Table, batches: seq<BatchEvent>, u: nat, msgs: seq<Row>, i: nat)
    requires ValidChain(chain) && Fetched(chain, synced, rows)
    requires BatchesTile(batches) && u < |batches| && batches[u].endBlock <= synced
    requires IsRangeResult(rows, rows.Keys, batches[u].startBlock, batches[u].endBlock, msgs)
    requires u > 0 && BatchStart(chain, batches, u) <= i < UpTo(chain, batches[u].endBlock)
    ensures exists j :: 0 <= j < |msgs| && msgs[j].messageNonce == i
  {
    hide UpTo;
    BatchStartBlock(chain, batches, u);
    UpToBlock(chain, batches[u].startBlock - 1, i);
    UpToBlock(chain, batches[u].endBlock, i);
    var h := chain[i].messageHash;
    assert Relevant(rows[h]) && IsWithdrawal(chain, rows[h]);
    assert rows[h].messageNonce == i;
    assert rows[h] in msgs;
  }

  /** ... and nothing else. */
  lemma {:induction false} ListedIsInBatch(
      chain: seq<Row>, synced: nat, rows: Table, batches: seq<BatchEvent>, u: nat, msgs: seq<Row>, j: nat)
    requires ValidChain(chain) && Fetched(chain, synced, rows)
    requires BatchesTile(batches) && 0 < u < |batches|
    requires IsRangeResult(rows, rows.Keys, batches[u].startBlock, batches[u].endBlock, msgs)
    requires j < |msgs|
    ensures IsWithdrawal(chain, msgs[j])
    ensures BatchStart(chain, batches, u) <= msgs[j].messageNonce < UpTo(chain, batches[u].endBlock)
  {
    hide UpTo;
    BatchStartBlock(chain, batches, u);
    assert msgs[j] in msgs;
    assert rows[msgs[j].messageHash] == msgs[j] && Relevant(msgs[j]);
    UpToBlock(chain, batches[u].startBlock - 1, msgs[j].messageNonce);
    UpToBlock(chain, batches[u].endBlock, msgs[j].messageNonce);
  }

  /** A strictly increasing sequence of numbers that holds exactly `lo`, ..., `hi - 1` lists them. */
  lemma {:induction false} IntervalListed(nonces: seq<nat>, lo: nat, hi: nat)
    requires lo <= hi
    requires forall i, j :: 0 <= i < j < |nonces| ==> nonces[i] < nonces[j]
    requires forall x :: lo <= x < hi <==> x in nonces
    ensures |nonces| == hi - lo
    ensures forall j :: 0 <= j < |nonces| ==> nonces[j] == lo + j
    decreases hi - lo
  {
    if nonces != [] {
      assert nonces[0] in nonces;
    }
    if lo < hi {
      assert hi - 1 in nonces;
      var front := nonces[..|nonces| - 1];
      var last := nonces[|nonces| - 1];
      assert last in nonces;
      var k :| 0 <= k < |nonces| && nonces[k] == hi - 1;
      assert last == hi - 1;
      forall x | lo <= x < hi - 1 ensures x in front {
        assert x in nonces;
      }
      forall x | x in front ensures lo <= x < hi - 1 {
        assert x in nonces;
      }
      IntervalListed(front, lo, hi - 1);
    }
  }

  /** The query for the genesis batch returns exactly the unsent rows. */
  lemma {:induction false} MessagesOfGenesis(rows: Table, msgs: seq<Row>)
    requires IsRangeResult(rows, rows.Keys, 0, 0, msgs)
    ensures forall j :: 0 <= j < |msgs| ==>
      && msgs[j].messageHash in rows && rows[msgs[j].messageHash] == msgs[j] && Unsent(msgs[j])
    ensures msgs == [] <==> NoneUnsent(rows)
  {
    forall j | 0 <= j < |msgs|
      ensures msgs[j].messageHash in rows && rows[msgs[j].messageHash] == msgs[j] && Unsent(msgs[j])
    {
      assert msgs[j] in msgs;
    }
    forall h | h in rows && Unsent(rows[h]) ensures msgs != [] {
      assert rows[h] in msgs;
    }
    if msgs != [] {
      assert Unsent(rows[msgs[0].messageHash]);
    }
  }

  /** The messages of a batch, by the nonces that the chain gives them. */
  lemma {:induction false} MessagesOfBatch(
      chain: seq<Row>, synced: nat, rows: Table, batches: seq<BatchEvent>, u: nat, msgs: seq<Row>)
    requires ValidChain(chain) && Fetched(chain, synced, rows) && Clean(rows, u)
    requires BatchesTile(batches) && u < |batches| && batches[u].endBlock <= synced
    requires IsRangeResult(rows, rows.Keys, batches[u].startBlock, batches[u].endBlock, msgs)
    ensures u == 0 ==> msgs == []
    ensures |msgs| == UpTo(chain, batches[u].endBlock) - BatchStart(chain, batches, u)
    ensures forall j :: 0 <= j < |msgs| ==>
              && msgs[j].messageNonce == BatchStart(chain, batches, u) + j
              && msgs[j].messageHash == chain[msgs[j].messageNonce].messageHash
  {
    hide UpTo, IsRangeResult, Fetched;
    BatchStartBlock(chain, batches, u);
    if u == 0 {
      MessagesOfGenesis(rows, msgs);
      return;
    }
    var lo, hi := BatchStart(chain, batches, u), UpTo(chain, batches[u].endBlock);
    var nonces: seq<nat> := seq(|msgs|, j requires 0 <= j < |msgs| => msgs[j].messageNonce);
    forall i, j | 0 <= i < j < |msgs| ensures nonces[i] < nonces[j] {
      ListedIsInBatch(chain, synced, rows, batches, u, msgs, i);
      ListedIsInBatch(chain, synced, rows, batches, u, msgs, j);
      RangeResultOrder(rows, rows.Keys, batches[u].startBlock, batches[u].endBlock, msgs, i, j);
    }
    forall x: nat ensures lo <= x < hi <==> x in nonces {
      if lo <= x < hi {
        BatchIsListed(chain, synced, rows, batches, u, msgs, x);
        var j :| 0 <= j < |msgs| && msgs[j].messageNonce == x;
        assert nonces[j] == x;
      }
      if x in nonces {
        var j :| 0 <= j < |nonces| && nonces[j] == x;
        ListedIsInBatch(chain, synced, rows, batches, u, msgs, j);
      }
    }
    IntervalListed(nonces, lo, hi);
    forall j | 0 <= j < |msgs|
      ensures msgs[j].messageNonce == lo + j && msgs[j].messageHash == chain[msgs[j].messageNonce].messageHash
    {
      assert nonces[j] == lo + j;
      ListedIsInBatch(chain, synced, rows, batches, u, msgs, j);
    }
  }

  lemma {:induction false} RangeResultDistinct(rows: Table, keys: set<Hash>, start: nat, end: nat, msgs: seq<Row>)
    requires IsRangeResult(rows, keys, start, end, msgs)
    ensures Distinct(msgs)
  {
  }

  lemma {:induction false} RangeResultOrder(
      rows: Table, keys: set<Hash>, start: nat, end: nat, msgs: seq<Row>, i: nat, j: nat)
    requires IsRangeResult(rows, keys, start, end, msgs) && i < j < |msgs|
    ensures msgs[i].messageNonce <= msgs[j].messageNonce && msgs[i].messageHash != msgs[j].messageHash
  {
  }

  // ---------- Rebuilding the trie ----------

  /** The finalized withdrawal of the highest nonce. */
  lemma {:induction false} LatestFinalized(
      f: Keccak2, chain: seq<Row>, synced: nat, batches: seq<BatchEvent>, n: nat, rows: Table, last: Option<Row>)
    requires Fetched(chain, synced, rows) && Proven(f, chain, batches, n, rows) && IsLast(rows, last)
    ensures last.None? <==> n == 0
    ensures last.Some? ==>
              && last.value.messageNonce == n - 1 && last.value.messageHash == chain[n - 1].messageHash
              && last.value.merkleProof == ExpectedProof(f, chain, batches, n - 1)
  {
    hide ExpectedProof;
    if n > 0 {
      var top := chain[n - 1].messageHash;
      assert IsFinalized(rows[top]);
      assert IsWithdrawal(chain, rows[top]) && rows[top].messageNonce == n - 1;
    }
    if last.Some? {
      var h :| h in rows && rows[h] == last.value;
      assert IsWithdrawal(chain, rows[h]);
    }
  }

  /** The stored proof is always long enough to climb along. */
  lemma {:induction false} ProofLongEnough(f: Keccak2, chain: seq<Row>, batches: seq<BatchEvent>, i: nat)
    requires ValidChain(chain) && i < |chain|
    ensures var bytes := ExpectedProof(f, chain, batches, i);
            |bytes| % 32 == 0 && BitLength(i) <= |bytes| / 32 && BitLength(i) < 64
  {
    hide BitLength, Pow2, Concat, Path;
    var size := TreeSize(chain, batches, i);
    BitLengthMonotone(i, size - 1);
    BitLengthBound(i, 39);
  }

  /** After whole batches, the last proof is the rightmost proof of the tree of everything finalized. */
  lemma {:induction false} LastProofIsRightmost(
      f: Keccak2, chain: seq<Row>, batches: seq<BatchEvent>, u: nat, n: nat)
    requires ValidChain(chain) && Progress(chain, batches, u, n)
    requires 0 < n == BatchStart(chain, batches, u)
    ensures IsRightmostProof(f, Hashes(chain)[..n], n - 1, chain[n - 1].messageHash,
              Split(ExpectedProof(f, chain, batches, n - 1)))
  {
    hide UpTo, Concat, Split, Path, BitLength, Hashes;
    var block := chain[n - 1].l2BlockNumber;
    var end := batches[u - 1].endBlock;
    UpToBlock(chain, end, n - 1);
    var b := BatchOf(batches, block);
    assert b <= u - 1;
    BatchEndsIncrease(batches, b, u - 1);
    UpToMonotone(chain, batches[b].endBlock, end);
    assert TreeSize(chain, batches, n - 1) == n;
    SplitConcat(ProofOf(f, Hashes(chain)[..n], n - 1));
  }

  lemma {:induction false} BatchEndsIncrease(batches: seq<BatchEvent>, a: nat, b: nat)
    requires BatchesTile(batches) && a <= b < |batches|
    ensures batches[a].endBlock <= batches[b].endBlock
    decreases b - a
  {
    if a < b {
      BatchEndsIncrease(batches, a, b - 1);
      assert batches[b].startBlock == batches[b - 1].endBlock + 1;
    }
  }

  // ---------- Storing a batch ----------

  function StampRow(r: Row, batchIndex: nat, proof: seq<byte>): Row {
    r.(rollupStatus := Finalized, batchIndex := batchIndex, merkleProof := proof)
  }

  /** The row updates of one batch, the first `k` of them. */
  function Stamped(rows: Table, msgs: seq<Row>, proofs: seq<seq<byte>>, batchIndex: nat, k: nat): (rows': Table)
    requires |msgs| == |proofs| && k <= |msgs|
    ensures rows'.Keys == rows.Keys
  {
    if k == 0 then rows
    else
      var before := Stamped(rows, msgs, proofs, batchIndex, k - 1);
      var h := msgs[k - 1].messageHash;
      if h in before then before[h := StampRow(before[h], batchIndex, proofs[k - 1])] else before
  }

  /** Rows of other messages stay as they are. */
  lemma {:induction false} StampedElsewhere(
      rows: Table, msgs: seq<Row>, proofs: seq<seq<byte>>, batchIndex: nat, k: nat, h: Hash)
    requires |msgs| == |proofs| && k <= |msgs| && h in rows
    requires forall j :: 0 <= j < k ==> msgs[j].messageHash != h
    ensures Stamped(rows, msgs, proofs, batchIndex, k)[h] == rows[h]
  {
    hide StampRow;
    if k > 0 {
      StampedElsewhere(rows, msgs, proofs, batchIndex, k - 1, h);
    }
  }

  /** The row of message `j` is stamped with its proof. */
  lemma {:induction false} StampedAt(
      rows: Table, msgs: seq<Row>, proofs: seq<seq<byte>>, batchIndex: nat, k: nat, j: nat)
    requires |msgs| == |proofs| && j < k <= |msgs| && Distinct(msgs) && msgs[j].messageHash in rows
    ensures Stamped(rows, msgs, proofs, batchIndex, k)[msgs[j].messageHash]
            == StampRow(rows[msgs[j].messageHash], batchIndex, proofs[j])
  {
    hide StampRow;
    if j == k - 1 {
      StampedElsewhere(rows, msgs, proofs, batchIndex, k - 1, msgs[j].messageHash);
    } else {
      StampedAt(rows, msgs, proofs, batchIndex, k - 1, j);
    }
  }

  /** Stamped or not, a row keeps everything but its status, batch index and proof. */
  lemma {:induction false} StampedOrNot(
      rows: Table, msgs: seq<Row>, proofs: seq<seq<byte>>, batchIndex: nat, k: nat, h: Hash)
    requires |msgs| == |proofs| && k <= |msgs| && Distinct(msgs) && h in rows
    ensures var r := Stamped(rows, msgs, proofs, batchIndex, k)[h];
            || ((forall j :: 0 <= j < k ==> msgs[j].messageHash != h) && r == rows[h])
            || exists j :: 0 <= j < k && msgs[j].messageHash == h && r == StampRow(rows[h], batchIndex, proofs[j])
  {
    hide StampRow, Stamped;
    if j :| 0 <= j < k && msgs[j].messageHash == h {
      StampedAt(rows, msgs, proofs, batchIndex, k, j);
    } else {
      StampedElsewhere(rows, msgs, proofs, batchIndex, k, h);
    }
  }

  /** Rows are unchanged, or stamped with the batch index and some proof. */
  ghost predicate StampedWith(before: Table, after: Table, batchIndex: nat) {
    && after.Keys == before.Keys
    && forall h :: h in before ==>
         after[h] == before[h] || after[h] == StampRow(before[h], batchIndex, after[h].merkleProof)
  }

  /** Nothing but rollup status, batch index and proof differs. */
  ghost predicate OnlyStamped(before: Table, after: Table) {
    && after.Keys == before.Keys
    && forall h :: h in before ==>
         before[h] == after[h].(rollupStatus := before[h].rollupStatus, batchIndex := before[h].batchIndex,
                                merkleProof := before[h].merkleProof)
  }

  lemma {:induction false} StampsOnly(rows: Table, msgs: seq<Row>, proofs: seq<seq<byte>>, batchIndex: nat, k: nat)
    requires |msgs| == |proofs| && k <= |msgs| && Distinct(msgs)
    ensures StampedWith(rows, Stamped(rows, msgs, proofs, batchIndex, k), batchIndex)
  {
    hide Stamped;
    var rows' := Stamped(rows, msgs, proofs, batchIndex, k);
    forall h | h in rows
      ensures rows'[h] == rows[h] || rows'[h] == StampRow(rows[h], batchIndex, rows'[h].merkleProof)
    {
      StampedOrNot(rows, msgs, proofs, batchIndex, k, h);
    }
  }

  lemma NothingStamped(rows: Table)
    ensures OnlyStamped(rows, rows)
  {
  }

  lemma OnlyStampedStep(start: Table, before: Table, after: Table, batchIndex: nat)
    requires OnlyStamped(start, before) && StampedWith(before, after, batchIndex)
    ensures OnlyStamped(start, after)
  {
  }

  method StampMessages(rows: Table, msgs: seq<Row>, proofs: seq<seq<byte>>, batchIndex: nat, writes: nat)
    returns (rows': Table)
    requires |msgs| == |proofs| && writes <= |msgs|
    ensures rows' == Stamped(rows, msgs, proofs, batchIndex, writes)
  {
    rows' := rows;
    for i := 0 to writes
      invariant rows' == Stamped(rows, msgs, proofs, batchIndex, i)
    {
      var h := msgs[i].messageHash;
      if h in rows' {
        rows' := rows'[h := StampRow(rows'[h], batchIndex, proofs[i])];
      }
    }
  }

  /** Stamping keeps the fetched table. */
  lemma {:induction false} StampKeepsFetched(
      chain: seq<Row>, synced: nat, rows: Table, msgs: seq<Row>, proofs: seq<seq<byte>>, batchIndex: nat, k: nat)
    requires |msgs| == |proofs| && k <= |msgs| && Distinct(msgs)
    requires Fetched(chain, synced, rows)
    ensures Fetched(chain, synced, Stamped(rows, msgs, proofs, batchIndex, k))
  {
    hide Stamped;
    var rows' := Stamped(rows, msgs, proofs, batchIndex, k);
    forall h | h in rows
      ensures Relevant(rows'[h]) == Relevant(rows[h]) && IsWithdrawal(chain, rows'[h]) == IsWithdrawal(chain, rows[h])
      ensures rows'[h].messageHash == rows[h].messageHash
      ensures Unsent(rows'[h]) == Unsent(rows[h]) && rows'[h].messageNonce == rows[h].messageNonce
      ensures rows'[h].messageType == rows[h].messageType && rows'[h].txStatus == rows[h].txStatus
    {
      StampedOrNot(rows, msgs, proofs, batchIndex, k, h);
    }
  }

  /** Row `m` is withdrawal `i`, and `proof` is the proof it must carry. */
  ghost predicate NextMessage(
      f: Keccak2, chain: seq<Row>, batches: seq<BatchEvent>, rows: Table, m: Row, proof: seq<byte>, i: nat)
  {
    && ValidChain(chain) && i < |chain|
    && m.messageHash == chain[i].messageHash && m.messageNonce == i && Relevant(m)
    && m.messageHash in rows && rows[m.messageHash] == m
    && proof == ExpectedProof(f, chain, batches, i)
  }

  /** The messages of the next batch, with the proofs they must carry. */
  ghost predicate NextMessages(
      f: Keccak2, chain: seq<Row>, batches: seq<BatchEvent>, n: nat, rows: Table, msgs: seq<Row>,
      proofs: seq<seq<byte>>)
  {
    && |msgs| == |proofs| && Distinct(msgs)
    && forall j :: 0 <= j < |msgs| ==> NextMessage(f, chain, batches, rows, msgs[j], proofs[j], n + j)
  }

  lemma {:induction false} StampProvesRow(
      f: Keccak2, chain: seq<Row>, batches: seq<BatchEvent>, n: nat,
      rows: Table, msgs: seq<Row>, proofs: seq<seq<byte>>, batchIndex: nat, k: nat, h: Hash)
    requires NextMessages(f, chain, batches, n, rows, msgs, proofs) && k <= |msgs|
    requires Proven(f, chain, batches, n, rows)
    requires h in rows && IsFinalized(Stamped(rows, msgs, proofs, batchIndex, k)[h])
    ensures var r := Stamped(rows, msgs, proofs, batchIndex, k)[h];
            Relevant(r) && r.messageNonce < n + k && r.merkleProof == ExpectedProof(f, chain, batches, r.messageNonce)
  {
    hide Stamped, ExpectedProof;
    StampedOrNot(rows, msgs, proofs, batchIndex, k, h);
    if j :| 0 <= j < k && msgs[j].messageHash == h {
      assert NextMessage(f, chain, batches, rows, msgs[j], proofs[j], n + j);
    }
  }

  /** Stamping the first `k` withdrawals of the next batch finalizes exactly those. */
  lemma {:induction false} StampProves(
      f: Keccak2, chain: seq<Row>, batches: seq<BatchEvent>, n: nat,
      rows: Table, msgs: seq<Row>, proofs: seq<seq<byte>>, batchIndex: nat, k: nat)
    requires NextMessages(f, chain, batches, n, rows, msgs, proofs) && k <= |msgs|
    requires Proven(f, chain, batches, n, rows)
    ensures Proven(f, chain, batches, n + k, Stamped(rows, msgs, proofs, batchIndex, k))
  {
    hide Stamped, ExpectedProof;
    if k > 0 {
      assert NextMessage(f, chain, batches, rows, msgs[k - 1], proofs[k - 1], n + k - 1);
    }
    var rows' := Stamped(rows, msgs, proofs, batchIndex, k);
    forall h | h in rows' && IsFinalized(rows'[h])
      ensures Relevant(rows'[h]) && rows'[h].messageNonce < n + k
      ensures rows'[h].merkleProof == ExpectedProof(f, chain, batches, rows'[h].messageNonce)
    {
      StampProvesRow(f, chain, batches, n, rows, msgs, proofs, batchIndex, k, h);
    }
    forall i | 0 <= i < n + k
      ensures chain[i].messageHash in rows' && IsFinalized(rows'[chain[i].messageHash])
    {
      if i < n {
        forall j | 0 <= j < k ensures msgs[j].messageHash != chain[i].messageHash {
          assert NextMessage(f, chain, batches, rows, msgs[j], proofs[j], n + j);
        }
        StampedElsewhere(rows, msgs, proofs, batchIndex, k, chain[i].messageHash);
      } else {
        assert NextMessage(f, chain, batches, rows, msgs[i - n], proofs[i - n], i);
        StampedAt(rows, msgs, proofs, batchIndex, k, i - n);
      }
    }
  }

  /** Withdrawals of batch `u` belong to the tree that ends with batch `u`. */
  lemma {:induction false} TreeOfBatch(chain: seq<Row>, batches: seq<BatchEvent>, u: nat, i: nat)
    requires ValidChain(chain) && BatchesTile(batches) && u < |batches|
    requires BatchStart(chain, batches, u) <= i < UpTo(chain, batches[u].endBlock)
    ensures TreeSize(chain, batches, i) == UpTo(chain, batches[u].endBlock)
  {
    hide UpTo;
    var block := chain[i].l2BlockNumber;
    UpToBlock(chain, batches[u].endBlock, i);
    var b := BatchOf(batches, block);
    assert b <= u;
    if b < u {
      BatchEndsIncrease(batches, b, u - 1);
      UpToBlock(chain, batches[u - 1].endBlock, i);
    }
  }

  lemma ListedRow(rows: Table, keys: set<Hash>, start: nat, end: nat, msgs: seq<Row>, j: nat)
    requires IsRangeResult(rows, keys, start, end, msgs) && j < |msgs| && start >= 1
    ensures msgs[j].messageHash in rows && rows[msgs[j].messageHash] == msgs[j] && Relevant(msgs[j])
  {
    assert msgs[j] in msgs;
  }

  /** One message of a batch, with the proof of its leaf in the tree that ends with the batch. */
  lemma {:induction false} BatchMessage(
      f: Keccak2, chain: seq<Row>, synced: nat, batches: seq<BatchEvent>, u: nat,
      rows: Table, msgs: seq<Row>, j: nat)
    requires ValidChain(chain) && Fetched(chain, synced, rows)
    requires BatchesTile(batches) && 0 < u < |batches| && batches[u].endBlock <= synced
    requires IsRangeResult(rows, rows.Keys, batches[u].startBlock, batches[u].endBlock, msgs)
    requires j < |msgs|
    ensures var i := BatchStart(chain, batches, u) + j; var size := UpTo(chain, batches[u].endBlock);
            && i < size <= |chain|
            && NextMessage(f, chain, batches, rows, msgs[j], Concat(ProofOf(f, Hashes(chain)[..size], i)), i)
  {
    hide UpTo, Fetched, Concat, Path, BatchStart, Hashes, IsRangeResult;
    MessagesOfBatch(chain, synced, rows, batches, u, msgs);
    BatchStartBlock(chain, batches, u);
    ListedRow(rows, rows.Keys, batches[u].startBlock, batches[u].endBlock, msgs, j);
    TreeOfBatch(chain, batches, u, BatchStart(chain, batches, u) + j);
  }

  /** The proofs the trie returns for a batch are the ones its withdrawals must carry. */
  lemma {:induction false} BatchProofs(
      f: Keccak2, chain: seq<Row>, synced: nat, batches: seq<BatchEvent>, u: nat,
      rows: Table, msgs: seq<Row>, leaves: seq<Hash>, proofs: seq<seq<byte>>)
    requires ValidChain(chain) && Fetched(chain, synced, rows)
    requires BatchesTile(batches) && 0 < u < |batches| && batches[u].endBlock <= synced
    requires IsRangeResult(rows, rows.Keys, batches[u].startBlock, batches[u].endBlock, msgs)
    requires |msgs| == |proofs| && leaves == Hashes(chain)[..UpTo(chain, batches[u].endBlock)]
    requires BatchStart(chain, batches, u) + |msgs| == |leaves|
    requires forall j :: 0 <= j < |proofs| ==>
        proofs[j] == Concat(ProofOf(f, leaves, BatchStart(chain, batches, u) + j))
    ensures NextMessages(f, chain, batches, BatchStart(chain, batches, u), rows, msgs, proofs)
  {
    hide UpTo, Fetched, Concat, ProofOf, BatchStart, NextMessage, Hashes, IsRangeResult, BatchesTile, ValidChain,
         Distinct;
    RangeResultDistinct(rows, rows.Keys, batches[u].startBlock, batches[u].endBlock, msgs);
    var n := BatchStart(chain, batches, u);
    forall j | 0 <= j < |msgs| ensures NextMessage(f, chain, batches, rows, msgs[j], proofs[j], n + j) {
      BatchMessage(f, chain, synced, batches, u, rows, msgs, j);
    }
  }

  // ---------- The genesis batch ----------

  /** A proof in a tree of at most `n` leaves. */
  predicate ShortProof(proof: seq<byte>, n: nat) {
    |proof| % 32 == 0 && |proof| / 32 <= BitLength(if n == 0 then 0 else n - 1)
  }

  /** Only unsent rows are finalized, and some are, with proofs in a tree of stored rows. */
  ghost predicate StampedUnsent(rows: Table) {
    && (exists h :: h in rows && IsFinalized(rows[h]))
    && (forall h :: h in rows && IsFinalized(rows[h]) ==> Unsent(rows[h]) && ShortProof(rows[h].merkleProof, |rows|))
  }

  /** Some withdrawals are finalized, with proofs of any kind. */
  ghost predicate Ruined(chain: seq<Row>, rows: Table) {
    && (exists h :: h in rows && IsFinalized(rows[h]))
    && (forall h :: h in rows && IsFinalized(rows[h]) ==> h in Hashes(chain) && |rows[h].merkleProof| % 32 == 0)
  }

  lemma {:induction false} StampedUnsentRuins(chain: seq<Row>, synced: nat, rows: Table)
    requires Fetched(chain, synced, rows) && StampedUnsent(rows)
    ensures Ruined(chain, rows)
  {
    hide Hashes, BitLength;
  }

  lemma {:induction false} RuinedOrNone(f: Keccak2, chain: seq<Row>, batches: seq<BatchEvent>, rows: Table)
    requires Ruined(chain, rows)
    ensures !Proven(f, chain, batches, 0, rows)
  {
    hide ExpectedProof, Hashes;
  }

  /** The same rows are finalized, with the same proofs. */
  ghost predicate SameFinalized(before: Table, after: Table) {
    && (forall h :: h in before && IsFinalized(before[h]) ==>
          h in after && IsFinalized(after[h]) && after[h].merkleProof == before[h].merkleProof)
    && (forall h :: h in after && IsFinalized(after[h]) ==> h in before && IsFinalized(before[h]))
  }

  lemma SameFinalizedRuined(chain: seq<Row>, before: Table, after: Table)
    requires Ruined(chain, before) && SameFinalized(before, after)
    ensures Ruined(chain, after)
  {
    hide Hashes;
  }

  lemma SameFinalizedTrans(a: Table, b: Table, c: Table)
    requires SameFinalized(a, b) && SameFinalized(b, c)
    ensures SameFinalized(a, c)
  {
  }

  /** Then no number of withdrawals is finalized with the right proofs. */
  lemma {:induction false} StampedUnsentIsWrong(f: Keccak2, chain: seq<Row>, batches: seq<BatchEvent>, n: nat,
      rows: Table)
    requires StampedUnsent(rows)
    ensures !Proven(f, chain, batches, n, rows)
  {
    hide ExpectedProof;
    var h :| h in rows && IsFinalized(rows[h]);
    assert Unsent(rows[h]) && !Relevant(rows[h]);
  }

  /** Stamping unsent rows, when nothing is finalized, leaves a table where only they are. */
  lemma {:induction false} StampsUnsent(f: Keccak2, chain: seq<Row>, batches: seq<BatchEvent>, rows: Table,
      msgs: seq<Row>, proofs: seq<seq<byte>>, batchIndex: nat, k: nat)
    requires Proven(f, chain, batches, 0, rows) && IsRangeResult(rows, rows.Keys, 0, 0, msgs)
    requires 0 < k <= |msgs| == |proofs| && forall j :: 0 <= j < |proofs| ==> ShortProof(proofs[j], |msgs|)
    ensures StampedUnsent(Stamped(rows, msgs, proofs, batchIndex, k))
  {
    hide Stamped, ExpectedProof, IsRangeResult, BitLength;
    MessagesOfGenesis(rows, msgs);
    RangeResultDistinct(rows, rows.Keys, 0, 0, msgs);
    DistinctRows(rows.Keys, msgs);
    BitLengthMonotone(|msgs| - 1, |rows| - 1);
    var rows' := Stamped(rows, msgs, proofs, batchIndex, k);
    assert |rows'| == |rows| by { assert |rows'.Keys| == |rows.Keys|; }
    StampedAt(rows, msgs, proofs, batchIndex, k, 0);
    assert IsFinalized(rows'[msgs[0].messageHash]);
    forall h | h in rows' && IsFinalized(rows'[h])
      ensures Unsent(rows'[h]) && ShortProof(rows'[h].merkleProof, |rows'|)
    {
      StampedOrNot(rows, msgs, proofs, batchIndex, k, h);
    }
  }

  lemma {:induction false} DistinctRows(keys: set<Hash>, msgs: seq<Row>)
    requires Distinct(msgs) && forall j :: 0 <= j < |msgs| ==> msgs[j].messageHash in keys
    ensures |msgs| <= |keys|
    decreases |msgs|
  {
    if msgs != [] {
      var last := msgs[|msgs| - 1].messageHash;
      DistinctRows(keys - {last}, msgs[..|msgs| - 1]);
    }
  }

  /** Distinct members of a list are no more than the list is long. */
  lemma {:induction false} DistinctBound(s: seq<Hash>, t: seq<Hash>)
    requires forall i, j :: 0 <= i < j < |s| ==> s[i] != s[j]
    requires forall i :: 0 <= i < |s| ==> s[i] in t
    ensures |s| <= |t|
    decreases |s|
  {
    if s != [] {
      var front, last := s[..|s| - 1], s[|s| - 1];
      var k :| 0 <= k < |t| && t[k] == last;
      var rest := t[..k] + t[k + 1..];
      forall i | 0 <= i < |front| ensures front[i] in rest {
        var j :| 0 <= j < |t| && t[j] == front[i];
        assert j != k;
        assert front[i] == rest[if j < k then j else j - 1];
      }
      DistinctBound(front, rest);
    }
  }

  /** The trie has room for all unsent withdrawals. */
  lemma {:induction false} UnsentFit(chain: seq<Row>, synced: nat, rows: Table, msgs: seq<Row>, hashes: seq<Hash>)
    requires ValidChain(chain) && Fetched(chain, synced, rows) && IsRangeResult(rows, rows.Keys, 0, 0, msgs)
    requires |hashes| == |msgs| && forall j :: 0 <= j < |msgs| ==> hashes[j] == msgs[j].messageHash
    ensures |hashes| <= CAPACITY
    ensures forall j :: 0 <= j < |msgs| ==> msgs[j].messageNonce == 0
  {
    hide IsRangeResult, Hashes, Pow2;
    MessagesOfGenesis(rows, msgs);
    RangeResultDistinct(rows, rows.Keys, 0, 0, msgs);
    DistinctBound(hashes, Hashes(chain));
  }

  /** The proofs that an update of the genesis batch gives to unsent rows: those in the tree of unsent rows. */
  ghost predicate GenesisProofs(f: Keccak2, msgs: seq<Row>, proofs: seq<seq<byte>>) {
    && |proofs| == |msgs|
    && forall j :: 0 <= j < |msgs| ==> ShortProof(proofs[j], |msgs|) && proofs[j] == Concat(ProofOf(f, Hashes(msgs), j))
  }

  lemma {:induction false} UnsentProofs(f: Keccak2, msgs: seq<Row>, hashes: seq<Hash>, leaves: seq<Hash>,
      proofs: seq<seq<byte>>)
    requires |hashes| == |msgs| && forall j :: 0 <= j < |msgs| ==> hashes[j] == msgs[j].messageHash
    requires leaves == hashes && |proofs| == |msgs|
    requires forall j :: 0 <= j < |proofs| ==> proofs[j] == Concat(ProofOf(f, leaves, j))
    ensures GenesisProofs(f, msgs, proofs)
  {
    hide Path, BitLength, Concat;
    assert hashes == Hashes(msgs);
  }

  /** A table is not right with nothing finalized and ruined at once. */
  lemma {:induction false} BrokenOrValid(f: Keccak2, chain: seq<Row>, batches: seq<BatchEvent>, n: nat, rows: Table)
    requires Proven(f, chain, batches, n, rows) || (ValidChain(chain) && Ruined(chain, rows) && n == 0)
    ensures ValidChain(chain)
    ensures !(Proven(f, chain, batches, n, rows) && n == 0 && Ruined(chain, rows))
    ensures !(Proven(f, chain, batches, n, rows) && StampedUnsent(rows))
  {
    hide Ruined, Proven, StampedUnsent;
    if Proven(f, chain, batches, n, rows) {
      ProvenChain(f, chain, batches, n, rows);
    }
    if n == 0 && Ruined(chain, rows) {
      RuinedOrNone(f, chain, batches, rows);
    }
    if StampedUnsent(rows) {
      StampedUnsentIsWrong(f, chain, batches, n, rows);
    }
  }

  /** The first nonce of the next batch. */
  lemma {:induction false} FirstNonce(chain: seq<Row>, synced: nat, batches: seq<BatchEvent>, u: nat, n: nat,
      rows: Table, msgs: seq<Row>)
    requires ValidChain(chain) && Fetched(chain, synced, rows) && Progress(chain, batches, u, n)
    requires u < |batches| && batches[u].endBlock <= synced && msgs != []
    requires IsRangeResult(rows, rows.Keys, batches[u].startBlock, batches[u].endBlock, msgs)
    ensures BatchStart(chain, batches, u) <= n && (u == 0 ==> n == 0)
    ensures Clean(rows, u) ==> u > 0 && msgs[0].messageNonce == BatchStart(chain, batches, u)
    ensures !Clean(rows, u) ==> u == 0 && msgs[0].messageNonce == 0
  {
    hide UpTo, IsRangeResult, NoneUnsent;
    BatchStartBlock(chain, batches, u);
    if Clean(rows, u) {
      MessagesOfBatch(chain, synced, rows, batches, u, msgs);
    } else {
      MessagesOfGenesis(rows, msgs);
    }
  }

  /** The trie has room for the next batch, and its leaves become those of the tree that ends with it. */
  lemma {:induction false} RoomForBatch(chain: seq<Row>, synced: nat, batches: seq<BatchEvent>, u: nat, n: nat,
      rows: Table, msgs: seq<Row>, hashes: seq<Hash>)
    requires ValidChain(chain) && Fetched(chain, synced, rows) && Progress(chain, batches, u, n)
    requires u < |batches| && batches[u].endBlock <= synced && msgs != []
    requires n == BatchStart(chain, batches, u)
    requires IsRangeResult(rows, rows.Keys, batches[u].startBlock, batches[u].endBlock, msgs)
    requires |hashes| == |msgs| && forall j :: 0 <= j < |msgs| ==> hashes[j] == msgs[j].messageHash
    ensures n <= |chain| && n + |hashes| <= CAPACITY
    ensures Clean(rows, u) ==>
      && n + |msgs| == UpTo(chain, batches[u].endBlock) <= |chain|
      && Hashes(chain)[..n] + hashes == Hashes(chain)[..UpTo(chain, batches[u].endBlock)]
    ensures !Clean(rows, u) ==> n == 0
  {
    hide UpTo, IsRangeResult, NoneUnsent, Fetched, Pow2;
    FirstNonce(chain, synced, batches, u, n, rows, msgs);
    if Clean(rows, u) {
      BatchLeaves(chain, synced, rows, batches, u, msgs, hashes);
    } else {
      UnsentFit(chain, synced, rows, msgs, hashes);
    }
  }

  /** The last finalized row, in a table with the right proofs ... */
  lemma {:induction false} ValidLast(f: Keccak2, chain: seq<Row>, synced: nat, batches: seq<BatchEvent>, u: nat, n: nat,
      rows: Table, last: Option<Row>)
    requires Fetched(chain, synced, rows) && Proven(f, chain, batches, n, rows) && Progress(chain, batches, u, n)
    requires IsLast(rows, last)
    ensures n <= |chain| <= CAPACITY && u <= |batches| && (last.None? <==> n == 0)
    ensures last.Some? ==>
              && last.value.messageNonce == n - 1
              && |last.value.merkleProof| % 32 == 0
              && BitLength(n - 1) <= |last.value.merkleProof| / 32 && BitLength(n - 1) < 64
              && (n == BatchStart(chain, batches, u) ==>
                    IsRightmostProof(f, Hashes(chain)[..n], n - 1, last.value.messageHash,
                                     Split(last.value.merkleProof)))
  {
    hide IsRightmostProof, UpTo, Fetched, ExpectedProof, BitLength, Split, Hashes, Pow2;
    LatestFinalized(f, chain, synced, batches, n, rows, last);
    if last.Some? {
      ProofLongEnough(f, chain, batches, n - 1);
      if n == BatchStart(chain, batches, u) {
        LastProofIsRightmost(f, chain, batches, u, n);
      }
    }
  }

  /** ... and in a ruined one. */
  lemma {:induction false} RuinedLast(rows: Table, last: Option<Row>, chain: seq<Row>, synced: nat)
    requires ValidChain(chain) && Fetched(chain, synced, rows) && Ruined(chain, rows) && IsLast(rows, last)
    ensures last.Some? && |last.value.merkleProof| % 32 == 0 && BitLength(last.value.messageNonce) < 64
  {
    hide BitLength, Pow2;
    var h :| h in rows && IsFinalized(rows[h]) && rows[h] == last.value;
    var i :| 0 <= i < |Hashes(chain)| && Hashes(chain)[i] == h;
    assert chain[i].messageHash == h;
    assert Relevant(rows[h]) || Unsent(rows[h]);
    BitLengthBound(rows[h].messageNonce, 39);
  }

  lemma ChainFits(chain: seq<Row>)
    requires ValidChain(chain)
    ensures |chain| <= CAPACITY
  {
  }

  lemma NothingStampedWith(rows: Table, batchIndex: nat)
    ensures StampedWith(rows, rows, batchIndex)
  {
  }

  lemma NoneStamped(rows: Table, msgs: seq<Row>, proofs: seq<seq<byte>>, batchIndex: nat)
    requires |msgs| == |proofs|
    ensures Stamped(rows, msgs, proofs, batchIndex, 0) == rows
  {
  }

  lemma FetchedKeyed(chain: seq<Row>, synced: nat, rows: Table)
    requires Fetched(chain, synced, rows)
    ensures Keyed(rows)
  {
  }

  lemma GenesisParts(f: Keccak2, msgs: seq<Row>, proofs: seq<seq<byte>>)
    requires GenesisProofs(f, msgs, proofs)
    ensures |proofs| == |msgs| && forall j :: 0 <= j < |proofs| ==> ShortProof(proofs[j], |msgs|)
  {
  }

  /** Where the next batch is, and how far its withdrawals are finalized. */
  lemma {:induction false} NextBatch(chain: seq<Row>, batches: seq<BatchEvent>, u: nat, n: nat)
    requires ValidChain(chain) && Progress(chain, batches, u, n) && u < |batches|
    ensures BatchesTile(batches) && !batches[u].updated
    ensures BatchStart(chain, batches, u) <= n <= UpTo(chain, batches[u].endBlock) <= |chain|
    ensures u == 0 ==>
      && batches[0].startBlock == 0 && batches[0].endBlock == 0
      && UpTo(chain, 0) == 0 && BatchStart(chain, batches, 0) == 0
  {
    hide UpTo;
    NoneInGenesis(chain);
  }

  /** How many messages the next batch has. */
  lemma {:induction false} BatchSize(chain: seq<Row>, synced: nat, batches: seq<BatchEvent>, u: nat, n: nat,
      rows: Table, msgs: seq<Row>)
    requires ValidChain(chain) && Fetched(chain, synced, rows) && Progress(chain, batches, u, n)
    requires u < |batches| && batches[u].endBlock <= synced
    requires IsRangeResult(rows, rows.Keys, batches[u].startBlock, batches[u].endBlock, msgs)
    ensures Distinct(msgs)
    ensures Clean(rows, u) ==> |msgs| == UpTo(chain, batches[u].endBlock) - BatchStart(chain, batches, u)
    ensures !Clean(rows, u) ==> u == 0 && msgs != []
  {
    hide UpTo, IsRangeResult, Fetched, Distinct, BatchStart;
    RangeResultDistinct(rows, rows.Keys, batches[u].startBlock, batches[u].endBlock, msgs);
    if Clean(rows, u) {
      MessagesOfBatch(chain, synced, rows, batches, u, msgs);
    } else {
      MessagesOfGenesis(rows, msgs);
    }
  }

  lemma {:induction false} ProgressOn(chain: seq<Row>, batches: seq<BatchEvent>, u: nat, n: nat, k: nat)
    requires Progress(chain, batches, u, n) && u < |batches| && n + k <= UpTo(chain, batches[u].endBlock)
    ensures Progress(chain, batches, u, n + k)
  {
    hide UpTo, BatchStart;
  }

  // ---------- The object ----------

  /** What a database does to an update: nothing, fail one of its queries, fail after a number of row
      writes, or fail the final write of the batch's own status. */
  datatype Fault = NoFault | QueryFails | WriteFails(after: nat) | FlagFails

  /** How many of `n` row writes a fault lets through. */
  function Writes(fault: Fault, n: nat): (k: nat)
    ensures k <= n
  {
    match fault
    case QueryFails => 0
    case WriteFails(after) => if after < n then after else n
    case _ => n
  }

  /** Whether a fault ends the update of a batch with `n` row writes to do. */
  predicate Interrupts(fault: Fault, n: nat) {
    fault.QueryFails? || fault.FlagFails? || Writes(fault, n) < n
  }

  class EventUpdateLogic {
    const keccak2: Keccak2
    var rows: Table
    var batches: seq<BatchEvent>

    /** The withdrawals of L2. */
    ghost const chain: seq<Row>
    /** The block the L2 fetcher has reached. */
    var synced: nat
    /** The number of batches updated. */
    ghost var updated: nat
    /** The number of withdrawals finalized. */
    ghost var finalized: nat

    ghost predicate Valid()
      reads this
    {
      && Fetched(chain, synced, rows)
      && Proven(keccak2, chain, batches, finalized, rows)
      && Progress(chain, batches, updated, finalized)
    }

    /** Some withdrawals are finalized, but no batch with withdrawals is updated. */
    ghost predicate Broken()
      reads this
    {
      && ValidChain(chain) && Fetched(chain, synced, rows) && Ruined(chain, rows)
      && finalized == 0 && Progress(chain, batches, updated, 0)
    }

    /** An update of the genesis batch has just finalized unsent rows. */
    ghost predicate Hurt()
      reads this
    {
      Broken() && StampedUnsent(rows)
    }

    /** An update of the next batch was interrupted after some of its withdrawals. */
    ghost predicate Stuck()
      reads this
    {
      updated <= |batches| && finalized != BatchStart(chain, batches, updated)
    }

    constructor (f: Keccak2, ghost history: seq<Row>)
      requires ValidChain(history)
      ensures Valid() && !Stuck()
      ensures keccak2 == f && chain == history && rows == map[] && batches == [] && synced == 0
      ensures updated == 0 && finalized == 0
    {
      keccak2 := f;
      chain := history;
      rows := map[];
      batches := [];
      synced, updated, finalized := 0, 0, 0;
    }

    /** The last finalized withdrawal. After whole batches its proof is the rightmost proof of the
        tree of everything finalized. */
    method LastFinalized() returns (last: Option<Row>)
      requires Valid() || Broken()
      ensures finalized <= |chain| <= CAPACITY && updated <= |batches|
      ensures last.None? <==> finalized == 0 && !Broken()
      ensures last.Some? ==> |last.value.merkleProof| % 32 == 0 && BitLength(last.value.messageNonce) < 64
      ensures last.Some? && Valid() ==>
                && last.value.messageNonce == finalized - 1
                && BitLength(last.value.messageNonce) <= |last.value.merkleProof| / 32
      ensures last.Some? && Valid() && !Stuck() ==>
                IsRightmostProof(keccak2, Hashes(chain)[..finalized], finalized - 1, last.value.messageHash,
                                 Split(last.value.merkleProof))
    {
      hide IsRightmostProof, UpTo, ExpectedProof, Split, Hashes, Proven, Fetched, Progress, Pow2, BitLength, Ruined,
           StampedUnsent;
      BrokenOrValid(keccak2, chain, batches, finalized, rows);
      StuckIsClean(chain, batches, updated, finalized);
      last := GetL2LatestFinalizedWithdrawal(rows);
      if Broken() {
        RuinedLast(rows, last, chain, synced);
        ChainFits(chain);
      } else {
        ValidLast(keccak2, chain, synced, batches, updated, finalized, rows, last);
      }
    }

    /** Rebuilds the trie of everything finalized from the last proof alone. When an earlier update was
        interrupted, or withdrawals were finalized with other proofs, only its next nonce is meaningful; with a proof
        too short to climb along, there is no trie. */
    method RebuildTrie() returns (ok: bool, trie: WithdrawTrie)
      requires Valid() || Broken()
      ensures fresh(trie) && fresh(trie.branches) && fresh(trie.zeroes) && trie.keccak2 == keccak2
      ensures Valid() ==> ok && trie.nextMessageNonce == finalized
      ensures Broken() && ok ==> trie.nextMessageNonce > 0
      ensures finalized <= |chain| && updated <= |batches|
      ensures Valid() && !Stuck() ==> trie.Valid() && trie.leaves == Hashes(chain)[..finalized]
    {
      hide IsRightmostProof, BatchStart, Progress, Fetched, Proven, BitLength, Split, Hashes, Pow2, BranchesMatch,
           ZeroesMatch, StampedUnsent, Ruined;
      BrokenOrValid(keccak2, chain, batches, finalized, rows);
      var last := LastFinalized();
      ok := true;
      if last.Some? && BitLength(last.value.messageNonce) > |last.value.merkleProof| / 32 {
        ok := false;
        trie := new WithdrawTrie(keccak2);
      } else if last.Some? {
        trie := Restore(keccak2, last.value.messageNonce, last.value.messageHash, last.value.merkleProof,
                        Hashes(chain)[..finalized]);
      } else {
        trie := new WithdrawTrie(keccak2);
        assert Hashes(chain)[..finalized] == [];
      }
    }

    /** The proofs of a batch's messages. The nonce check passes exactly when no earlier update of the batch was
        interrupted; for unsent rows, all of nonce 0, it passes at the genesis batch, and nothing passes it after. */
    method ProveMessages(msgs: seq<Row>) returns (ok: bool, proofs: seq<seq<byte>>)
      requires Valid() || Broken()
      requires updated < |batches| && batches[updated].endBlock <= synced
      requires IsRangeResult(rows, rows.Keys, batches[updated].startBlock, batches[updated].endBlock, msgs)
      requires msgs != []
      ensures Valid() && Clean(rows, updated) ==> (ok <==> !Stuck())
      ensures Valid() && Clean(rows, updated) && ok ==>
          NextMessages(keccak2, chain, batches, finalized, rows, msgs, proofs)
      ensures Valid() && !Clean(rows, updated) ==> ok && GenesisProofs(keccak2, msgs, proofs)
      ensures Broken() ==> !ok
    {
      hide UpTo, Fetched, Proven, Concat, ProofOf, BatchStart, NextMessages, Hashes, IsRangeResult, Pow2, BranchesMatch,
           ZeroesMatch, Progress, StampedUnsent, GenesisProofs, Clean, ValidChain, Ruined;
      BrokenOrValid(keccak2, chain, batches, finalized, rows);
      FirstNonce(chain, synced, batches, updated, finalized, rows, msgs);
      NextBatch(chain, batches, updated, finalized);
      proofs := [];
      var rebuilt, trie := RebuildTrie();
      if !rebuilt || trie.nextMessageNonce != msgs[0].messageNonce {
        return false, [];
      }
      var messageHashes := MessageHashes(msgs);
      RoomForBatch(chain, synced, batches, updated, finalized, rows, msgs, messageHashes);
      proofs := trie.AppendMessages(messageHashes);
      if Clean(rows, updated) {
        BatchProofs(keccak2, chain, synced, batches, updated, rows, msgs, trie.leaves, proofs);
      } else {
        UnsentProofs(keccak2, msgs, messageHashes, trie.leaves, proofs);
      }
      return true, proofs;
    }

    /** Finalizes the withdrawals of the next batch. A fault leaves the writes it lets through; a batch left half
        written is never written again, every later attempt fails and changes nothing. An update of the genesis
        batch that writes at all while there are unsent rows finalizes those. */
    method UpdateL2WithdrawMessageInfos(batchIndex: nat, startBlock: nat, endBlock: nat, fault: Fault)
      returns (ok: bool)
      requires Valid() || Broken()
      requires updated < |batches|
      requires startBlock == batches[updated].startBlock && endBlock == batches[updated].endBlock <= synced
      modifies this`rows, this`finalized
      ensures StampedWith(old(rows), rows, batchIndex)
      ensures old(Valid() && Clean(rows, updated) && !Stuck()) ==>
        && Valid() && (ok <==> !fault.QueryFails? && finalized == UpTo(chain, endBlock))
        && finalized == old(finalized) + Writes(fault, UpTo(chain, endBlock) - old(finalized))
      ensures old(Valid() && Clean(rows, updated) && Stuck()) ==>
        Valid() && !ok && rows == old(rows) && finalized == old(finalized)
      ensures old(Valid() && !Clean(rows, updated)) && Writes(fault, 1) == 0 ==>
        Valid() && !ok && rows == old(rows) && finalized == old(finalized)
      ensures old(Valid() && !Clean(rows, updated)) && Writes(fault, 1) > 0 ==> Hurt()
      ensures old(Broken()) ==>
        && Broken() && rows == old(rows)
        && (ok <==> Clean(rows, updated) && !fault.QueryFails? && UpTo(chain, endBlock) == 0)
    {
      hide UpTo, Fetched, Proven, BatchStart, NextMessages, IsRangeResult, Stamped, BatchesTile, StampRow,
           StampedUnsent, Clean, Progress, ValidChain, GenesisProofs, StampedWith, Ruined;
      NothingStampedWith(rows, batchIndex);
      BrokenOrValid(keccak2, chain, batches, finalized, rows);
      NextBatch(chain, batches, updated, finalized);
      if fault.QueryFails? {
        return false;
      }
      FetchedKeyed(chain, synced, rows);
      var msgs := GetL2WithdrawalsByBlockRange(rows, startBlock, endBlock);
      BatchSize(chain, synced, batches, updated, finalized, rows, msgs);
      if |msgs| == 0 {
        return true;
      }
      var proofs;
      ok, proofs := ProveMessages(msgs);
      if !ok {
        return false;
      }
      var writes := if fault.WriteFails? && fault.after < |msgs| then fault.after else |msgs|;
      if Clean(rows, updated) {
        NextMessagesParts(keccak2, chain, batches, finalized, rows, msgs, proofs);
        StampProves(keccak2, chain, batches, finalized, rows, msgs, proofs, batchIndex, writes);
        ProgressOn(chain, batches, updated, finalized, writes);
      } else {
        GenesisParts(keccak2, msgs, proofs);
        StampKeepsFetched(chain, synced, rows, msgs, proofs, batchIndex, writes);
        if writes > 0 {
          StampsUnsent(keccak2, chain, batches, rows, msgs, proofs, batchIndex, writes);
          StampedUnsentRuins(chain, synced, Stamped(rows, msgs, proofs, batchIndex, writes));
        }
      }
      NoneStamped(rows, msgs, proofs, batchIndex);
      StampKeepsFetched(chain, synced, rows, msgs, proofs, batchIndex, writes);
      StampsOnly(rows, msgs, proofs, batchIndex, writes);
      ghost var clean := Clean(rows, updated);
      rows := StampMessages(rows, msgs, proofs, batchIndex, writes);
      if clean {
        finalized := finalized + writes;
      }
      return writes == |msgs|;
    }

    /** Updates the next batch, and then its own status. */
    method UpdateBatch(b: nat, fault: Fault) returns (ok: bool)
      requires Valid() || Broken()
      requires b == updated < |batches| && batches[b].endBlock <= synced
      modifies this`rows, this`batches, this`updated, this`finalized
      ensures StampedWith(old(rows), rows, b)
      ensures old(Valid() && Clean(rows, b) && !Stuck()) ==>
        var end := UpTo(chain, old(batches)[b].endBlock);
        && Valid() && finalized == old(finalized) + Writes(fault, end - old(finalized))
        && (ok <==> !fault.QueryFails? && !fault.FlagFails? && finalized == end)
      ensures old(Valid() && Clean(rows, b) && Stuck()) ==>
          Valid() && !ok && rows == old(rows) && finalized == old(finalized)
      ensures old(Valid() && !Clean(rows, b)) && Writes(fault, 1) == 0 ==>
        Valid() && !ok && rows == old(rows) && finalized == old(finalized)
      ensures old(Valid() && !Clean(rows, b)) && Writes(fault, 1) > 0 ==> Hurt()
      ensures old(Broken()) ==> Broken() && rows == old(rows)
      ensures ok ==> batches == old(batches)[b := old(batches)[b].(updated := true)] && updated == b + 1
      ensures ok ==> finalized == BatchStart(chain, batches, b + 1)
      ensures !ok ==> batches == old(batches) && updated == b
    {
      hide UpTo, Fetched, Proven, BatchStart, Progress, StampedWith, StampedUnsent, NoneUnsent, ValidChain, BatchesTile,
           Ruined;
      BrokenOrValid(keccak2, chain, batches, finalized, rows);
      NextBatch(chain, batches, updated, finalized);
      var done := UpdateL2WithdrawMessageInfos(b, batches[b].startBlock, batches[b].endBlock, fault);
      if !done || fault.FlagFails? {
        return false;
      }
      BrokenOrValid(keccak2, chain, batches, finalized, rows);
      ProgressDone(chain, batches, updated, finalized);
      if Valid() {
        BatchDone(keccak2, chain, batches, updated, finalized, rows);
      }
      NextStart(chain, batches, updated);
      batches := batches[b := batches[b].(updated := true)];
      updated := updated + 1;
      return true;
    }

    /** The next batch ends by `height`. */
    ghost predicate Pending(height: nat)
      reads this
    {
      updated < |batches| && batches[updated].endBlock <= height
    }

    /** The number of withdrawals of the next batch that are not finalized. */
    ghost function Left(): nat
      reads this
    {
      if updated < |batches| && finalized <= UpTo(chain, batches[updated].endBlock)
      then UpTo(chain, batches[updated].endBlock) - finalized
      else 0
    }

    /** The genesis batch is not updated yet, and there are unsent rows. */
    ghost predicate Endangered()
      reads this
    {
      updated == 0 && batches != [] && !NoneUnsent(rows)
    }

    /** Updates all finalized batches up to `height`, in order, until one fails. The database misbehaves
        as `fault` says on the `faultAt`-th batch. The right proofs stay unless there are unsent rows, the genesis
        batch is next and its update writes at all. */
    method UpdateL1BatchIndexAndStatus(height: nat, faultAt: nat, fault: Fault) returns (ok: bool)
      requires (Valid() || Broken()) && height <= synced
      modifies this`rows, this`batches, this`updated, this`finalized
      ensures OnlyStamped(old(rows), rows) && OnlyFlagged(old(batches), batches) && updated >= old(updated)
      ensures old(Broken()) ==> Broken() && rows == old(rows)
      ensures old(Valid()) ==> (Valid() <==> !old(Endangered()) || (faultAt == 0 && Writes(fault, 1) == 0))
      ensures old(Valid()) && !Valid() ==> Hurt()
      ensures Valid() ==> finalized >= old(finalized)
      ensures Valid() && ok ==> forall b :: 0 <= b < |batches| ==> batches[b].updated || batches[b].endBlock > height
      ensures Valid() && fault.NoFault? && !old(Stuck()) ==> ok
      ensures Valid() && ok && !old(Stuck()) ==> !Stuck()
      ensures old(Valid() && Stuck()) ==>
                rows == old(rows) && batches == old(batches) && finalized == old(finalized) && updated == old(updated)
      ensures old(Valid() && Pending(height) && !Stuck() && !Endangered()) && faultAt == 0
              && Interrupts(fault, old(Left())) ==>
                !ok && updated == old(updated) && finalized == old(finalized) + Writes(fault, old(Left()))
    {
      hide UpTo, Fetched, Proven, BatchStart, Progress, StampedWith, OnlyStamped, OnlyFlagged, BatchesTile, ValidChain,
           Keyed, StampedUnsent, NoneUnsent, Ruined;
      ghost var broken, stuck, endangered, first := Broken(), Stuck(), Endangered(), updated;
      var seen := 0;
      NothingStamped(rows);
      NothingFlagged(batches);
      BrokenOrValid(keccak2, chain, batches, finalized, rows);
      StuckIsClean(chain, batches, updated, finalized);
      if updated < |batches| {
        NextBatch(chain, batches, updated, finalized);
      }
      for b := 0 to |batches|
        invariant |batches| == |old(batches)| && OnlyFlagged(old(batches), batches) && OnlyStamped(old(rows), rows)
        invariant Valid() || Broken()
        invariant broken ==> Broken() && rows == old(rows)
        invariant Broken() && !broken ==> Hurt() && endangered && seen > 0 && !(faultAt == 0 && Writes(fault, 1) == 0)
        invariant seen == 0 ==>
            rows == old(rows) && batches == old(batches) && updated == first && finalized == old(finalized)
        invariant seen > 0 ==> updated > first && !(Valid() && endangered)
        invariant seen > 0 && faultAt == 0 && !broken && !endangered && old(Pending(height)) ==>
            !Interrupts(fault, old(Left()))
        invariant Valid() ==> finalized >= old(finalized)
        invariant Valid() && !stuck ==> !Stuck()
        invariant stuck && !broken ==> seen == 0
        invariant forall c :: 0 <= c < b ==> batches[c].updated || batches[c].endBlock > height
      {
        BrokenOrValid(keccak2, chain, batches, finalized, rows);
        if batches[b].endBlock <= height && !batches[b].updated {
          NextIsFirstPending(chain, batches, updated, finalized, b, height);
          ghost var before, pending := rows, batches;
          var done := UpdateBatch(b, if seen == faultAt then fault else NoFault);
          BrokenOrValid(keccak2, chain, batches, finalized, rows);
          OnlyStampedStep(old(rows), before, rows, b);
          OnlyFlaggedStep(old(batches), pending, b);
          seen := seen + 1;
          if !done {
            return false;
          }
        }
      }
      return true;
    }

    /** A batch is finalized on L1, the genesis batch first. */
    method FinalizeBatch(endBlock: nat)
      requires Valid() || Broken()
      requires endBlock >= if batches == [] then 0 else batches[|batches| - 1].endBlock + 1
      requires batches == [] ==> endBlock == 0
      modifies this`batches
      ensures (old(Valid()) ==> Valid()) && (old(Broken()) ==> Broken())
      ensures var start := if old(batches) == [] then 0 else old(batches)[|old(batches)| - 1].endBlock + 1;
              batches == old(batches) + [BatchEvent(start, endBlock, false)]
      ensures Stuck() <==> old(Stuck())
    {
      hide UpTo, Fetched, Proven, BatchStart, Progress, Ruined, ValidChain;
      BrokenOrValid(keccak2, chain, batches, finalized, rows);
      var start := if batches == [] then 0 else batches[|batches| - 1].endBlock + 1;
      var batch := BatchEvent(start, endBlock, false);
      ProgressAdded(chain, batches, updated, finalized, batch);
      if Valid() {
        ProvenUnder(keccak2, chain, batches, batches + [batch], updated, finalized, rows);
      }
      SameStart(chain, batches, batch, updated, finalized);
      batches := batches + [batch];
    }

    /** The L2 fetcher stores the withdrawals of blocks `from`, ..., `to`, anew or once more. */
    method InsertOrUpdateL2Messages(messages: seq<Row>, from: nat, to: nat)
      requires (Valid() || Broken()) && from <= synced + 1
      requires Distinct(messages)
      requires forall m :: m in messages ==> m.messageNonce < |chain| && chain[m.messageNonce] == m
      requires forall i :: 0 <= i < |chain| && from <= chain[i].l2BlockNumber <= to ==> chain[i] in messages
      modifies this`rows, this`synced
      ensures (old(Valid()) ==> Valid()) && (old(Broken()) ==> Broken())
      ensures rows == UpsertSent(L2, old(rows), ByKey(messages)) && SameFinalized(old(rows), rows)
      ensures synced == if to > old(synced) then to else old(synced)
    {
      hide Progress, Fetched, Proven, ByKey, UpsertSent, Ruined, ValidChain, SameFinalized, RecordsOf;
      BrokenOrValid(keccak2, chain, batches, finalized, rows);
      MessagesByKey(chain, messages, from, to);
      FetchKeepsFetched(chain, synced, rows, ByKey(messages), from, to);
      FetchKeepsFinalized(chain, synced, rows, ByKey(messages));
      if Valid() {
        FetchKeepsProven(keccak2, chain, batches, synced, finalized, rows, ByKey(messages));
      }
      if Broken() {
        SameFinalizedRuined(chain, rows, UpsertSent(L2, rows, ByKey(messages)));
      }
      rows := UpsertSent(L2, rows, ByKey(messages));
      synced := if to > synced then to else synced;
    }

    /** The L1 fetcher stores relayed withdrawals, possibly before the L2 fetcher has seen them sent. */
    method InsertOrUpdateL1RelayedMessages(messages: seq<Row>)
      requires Valid() || Broken()
      requires forall m :: m in messages ==> IsRelayOf(chain, m)
      modifies this`rows
      ensures (old(Valid()) ==> Valid()) && (old(Broken()) ==> Broken())
      ensures rows == UpsertRelayed(L1, old(rows), Merge(L1, messages)) && SameFinalized(old(rows), rows)
    {
      hide Progress, Fetched, Proven, Merge, UpsertRelayed, IsRelayOf, Ruined, ValidChain, SameFinalized;
      BrokenOrValid(keccak2, chain, batches, finalized, rows);
      var merged := MergeRelayedMessages(L1, messages);
      forall h | h in merged ensures merged[h].messageHash == h && IsRelayOf(chain, merged[h]) {
        MergeSelects(L1, messages, h);
      }
      RelayKeepsFetched(chain, synced, rows, merged);
      RelayKeepsFinalized(chain, synced, rows, merged);
      if Valid() {
        RelayKeepsProven(keccak2, chain, batches, synced, finalized, rows, merged);
      }
      if Broken() {
        SameFinalizedRuined(chain, rows, UpsertRelayed(L1, rows, merged));
      }
      rows := UpsertRelayed(L1, rows, merged);
    }
  }

  /** A relayed record of one of the withdrawals. */
  ghost predicate IsRelayOf(chain: seq<Row>, m: Row) {
    && IsRelayedRecord(L2, m) && !m.txStatus.SentTxReverted? && m.l2BlockNumber == 0 && m.messageNonce == 0
    && m.messageHash in Hashes(chain)
  }

  /** Records of some of the withdrawals, by hash. */
  ghost predicate RecordsOf(chain: seq<Row>, records: Table) {
    forall h :: h in records ==>
      records[h].messageHash == h && records[h].messageNonce < |chain| && chain[records[h].messageNonce] == records[h]
  }

  lemma {:induction false} MessagesByKey(chain: seq<Row>, messages: seq<Row>, from: nat, to: nat)
    requires forall m :: m in messages ==> m.messageNonce < |chain| && chain[m.messageNonce] == m
    requires forall i :: 0 <= i < |chain| && from <= chain[i].l2BlockNumber <= to ==> chain[i] in messages
    ensures RecordsOf(chain, ByKey(messages))
    ensures forall i :: 0 <= i < |chain| && from <= chain[i].l2BlockNumber <= to ==>
        chain[i].messageHash in ByKey(messages)
  {
    var records := ByKey(messages);
    hide ByKey;
    forall h | h in records
      ensures records[h].messageHash == h && records[h].messageNonce < |chain|
      ensures chain[records[h].messageNonce] == records[h]
    {
      assert records[h] in messages;
    }
    forall i | 0 <= i < |chain| && from <= chain[i].l2BlockNumber <= to ensures chain[i].messageHash in records {
      assert chain[i] in messages;
      var j :| 0 <= j < |messages| && messages[j] == chain[i];
      assert messages[j].messageHash in records;
    }
  }

  /** A stored withdrawal is complete; stored before, it keeps finalized status and proof. */
  lemma {:induction false} FetchedRow(chain: seq<Row>, synced: nat, rows: Table, records: Table, h: Hash)
    requires ValidChain(chain) && Fetched(chain, synced, rows) && RecordsOf(chain, records) && h in records
    ensures var r := UpsertSent(L2, rows, records)[h];
            && r.messageHash == h && Relevant(r) && IsWithdrawal(chain, r)
            && (h in rows ==> r.rollupStatus == rows[h].rollupStatus && r.merkleProof == rows[h].merkleProof)
            && (h !in rows ==> !IsFinalized(r))
            && (h in rows && Relevant(rows[h]) ==> r.messageNonce == rows[h].messageNonce)
  {
    hide Hashes, UpTo;
    assert chain[records[h].messageNonce].messageHash == h;
  }

  lemma {:induction false} FetchKeepsFetched(chain: seq<Row>, synced: nat, rows: Table, records: Table, from: nat,
      to: nat)
    requires ValidChain(chain) && Fetched(chain, synced, rows) && RecordsOf(chain, records) && from <= synced + 1
    requires forall i :: 0 <= i < |chain| && from <= chain[i].l2BlockNumber <= to ==> chain[i].messageHash in records
    ensures Fetched(chain, if to > synced then to else synced, UpsertSent(L2, rows, records))
  {
    hide OverwriteSent, RecordsOf, IsWithdrawal, Relevant, Unsent;
    var rows' := UpsertSent(L2, rows, records);
    forall h | h in records
      ensures rows'[h].messageHash == h && Relevant(rows'[h]) && IsWithdrawal(chain, rows'[h]) && !Unsent(rows'[h])
      ensures rows'[h].messageType.L2SentMessage? && !rows'[h].txStatus.SentTxReverted?
    {
      FetchedRow(chain, synced, rows, records, h);
      RelevantParts(rows'[h]);
    }
  }

  lemma {:induction false} RelevantParts(r: Row)
    requires Relevant(r)
    ensures r.messageType.L2SentMessage? && !r.txStatus.SentTxReverted? && !Unsent(r)
  {
  }

  lemma {:induction false} FetchKeepsProven(
      f: Keccak2, chain: seq<Row>, batches: seq<BatchEvent>, synced: nat, n: nat, rows: Table, records: Table)
    requires Fetched(chain, synced, rows) && Proven(f, chain, batches, n, rows) && RecordsOf(chain, records)
    ensures Proven(f, chain, batches, n, UpsertSent(L2, rows, records))
  {
    hide ExpectedProof, OverwriteSent, RecordsOf, IsWithdrawal, Relevant, Fetched;
    var rows' := UpsertSent(L2, rows, records);
    forall h | h in rows'
      ensures h in rows && IsFinalized(rows'[h]) ==>
                && IsFinalized(rows[h]) && Relevant(rows'[h])
                && rows'[h].messageNonce == rows[h].messageNonce && rows'[h].merkleProof == rows[h].merkleProof
      ensures h !in rows ==> !IsFinalized(rows'[h])
      ensures h in rows && IsFinalized(rows[h]) ==> IsFinalized(rows'[h])
    {
      if h in records {
        FetchedRow(chain, synced, rows, records, h);
        RelevantParts(rows'[h]);
        if h in rows {
          WithdrawalType(chain, synced, rows, records, h);
        }
      }
    }
  }

  lemma {:induction false} FetchKeepsFinalized(chain: seq<Row>, synced: nat, rows: Table, records: Table)
    requires ValidChain(chain) && Fetched(chain, synced, rows) && RecordsOf(chain, records)
    ensures SameFinalized(rows, UpsertSent(L2, rows, records))
  {
    hide OverwriteSent, RecordsOf, IsWithdrawal, Relevant, Fetched, ValidChain;
    var rows' := UpsertSent(L2, rows, records);
    forall h | h in rows'
      ensures h in rows ==> IsFinalized(rows'[h]) == IsFinalized(rows[h]) && rows'[h].merkleProof == rows[h].merkleProof
      ensures h !in rows ==> !IsFinalized(rows'[h])
    {
      if h in records {
        FetchedRow(chain, synced, rows, records, h);
        RelevantParts(rows'[h]);
        if h in rows {
          WithdrawalType(chain, synced, rows, records, h);
        }
      }
    }
  }

  lemma {:induction false} WithdrawalType(chain: seq<Row>, synced: nat, rows: Table, records: Table, h: Hash)
    requires Fetched(chain, synced, rows) && RecordsOf(chain, records) && h in records && h in rows
    ensures rows[h].messageType.L2SentMessage?
  {
    assert chain[records[h].messageNonce].messageHash == h;
  }

  /** A relayed record changes nothing of a stored withdrawal but its relay columns; stored first, it
      leaves a row that only the query for block 0 returns. */
  lemma {:induction false} RelayedRow(chain: seq<Row>, synced: nat, rows: Table, merged: Table, h: Hash)
    requires Fetched(chain, synced, rows)
    requires h in merged && merged[h].messageHash == h && IsRelayOf(chain, merged[h])
    ensures var r := UpsertRelayed(L1, rows, merged)[h];
            && r.messageHash == h && r.messageType.L2SentMessage? && !r.txStatus.SentTxReverted?
            && (h !in rows ==> !Relevant(r) && !IsFinalized(r) && r.messageNonce == 0) && h in Hashes(chain)
            && (h in rows ==> Unsent(r) == Unsent(rows[h]))
            && (h in rows ==> r.messageNonce == rows[h].messageNonce && r.l2BlockNumber == rows[h].l2BlockNumber
                              && r.merkleProof == rows[h].merkleProof && IsFinalized(r) == IsFinalized(rows[h])
                              && Relevant(r) == Relevant(rows[h]))
  {
    var i :| 0 <= i < |Hashes(chain)| && Hashes(chain)[i] == h;
    assert chain[i].messageHash == h;
  }

  ghost predicate RelaysOf(chain: seq<Row>, merged: Table) {
    forall h :: h in merged ==> merged[h].messageHash == h && IsRelayOf(chain, merged[h])
  }

  lemma {:induction false} RelayKeepsFetched(chain: seq<Row>, synced: nat, rows: Table, merged: Table)
    requires Fetched(chain, synced, rows) && RelaysOf(chain, merged)
    ensures Fetched(chain, synced, UpsertRelayed(L1, rows, merged))
  {
    hide OverwriteRelayed, IsRelayOf, Relevant, Unsent;
    var rows' := UpsertRelayed(L1, rows, merged);
    forall h | h in merged
      ensures rows'[h].messageHash == h && rows'[h].messageType.L2SentMessage? && !rows'[h].txStatus.SentTxReverted?
      ensures h !in rows ==> !Relevant(rows'[h]) && rows'[h].messageNonce == 0
      ensures h in Hashes(chain)
      ensures h in rows ==> Unsent(rows'[h]) == Unsent(rows[h]) && rows'[h].messageNonce == rows[h].messageNonce
      ensures h in rows ==>
          Relevant(rows'[h]) == Relevant(rows[h]) && IsWithdrawal(chain, rows'[h]) == IsWithdrawal(chain, rows[h])
    {
      RelayedRow(chain, synced, rows, merged, h);
    }
  }

  lemma {:induction false} RelayKeepsFinalized(chain: seq<Row>, synced: nat, rows: Table, merged: Table)
    requires Fetched(chain, synced, rows) && RelaysOf(chain, merged)
    ensures SameFinalized(rows, UpsertRelayed(L1, rows, merged))
  {
    hide OverwriteRelayed, IsRelayOf, Relevant, Fetched;
    var rows' := UpsertRelayed(L1, rows, merged);
    forall h | h in merged
      ensures h in rows ==> IsFinalized(rows'[h]) == IsFinalized(rows[h]) && rows'[h].merkleProof == rows[h].merkleProof
      ensures h !in rows ==> !IsFinalized(rows'[h])
    {
      RelayedRow(chain, synced, rows, merged, h);
    }
  }

  lemma {:induction false} RelayKeepsProven(
      f: Keccak2, chain: seq<Row>, batches: seq<BatchEvent>, synced: nat, n: nat, rows: Table, merged: Table)
    requires Fetched(chain, synced, rows) && Proven(f, chain, batches, n, rows) && RelaysOf(chain, merged)
    ensures Proven(f, chain, batches, n, UpsertRelayed(L1, rows, merged))
  {
    hide ExpectedProof, OverwriteRelayed, IsRelayOf, Relevant, Fetched;
    var rows' := UpsertRelayed(L1, rows, merged);
    forall h | h in merged
      ensures h !in rows ==> !IsFinalized(rows'[h])
      ensures h in rows ==>
          IsFinalized(rows'[h]) == IsFinalized(rows[h]) && rows'[h].messageNonce == rows[h].messageNonce
                            && rows'[h].merkleProof == rows[h].merkleProof && Relevant(rows'[h]) == Relevant(rows[h])
    {
      RelayedRow(chain, synced, rows, merged, h);
    }
  }

  /** The first batch not updated is the only candidate at its height. */
  lemma {:induction false} NextIsFirstPending(chain: seq<Row>, batches: seq<BatchEvent>, u: nat, n: nat, b: nat,
      height: nat)
    requires Progress(chain, batches, u, n) && b < |batches|
    requires batches[b].endBlock <= height && !batches[b].updated
    requires forall c :: 0 <= c < b ==> batches[c].updated || batches[c].endBlock > height
    ensures b == u
  {
    hide UpTo, BatchStart;
    assert u <= b;
    assert !batches[u].updated;
    BatchEndsIncrease(batches, u, b);
  }

  /** Batches with the same end blocks give the same trees. */
  lemma {:induction false} SameEndsSameTree(chain: seq<Row>, batches: seq<BatchEvent>, batches': seq<BatchEvent>,
      i: nat)
    requires ValidChain(chain) && i < |chain| && |batches| <= |batches'|
    requires forall b :: 0 <= b < |batches| ==> batches'[b].endBlock == batches[b].endBlock
    requires exists b :: 0 <= b < |batches| && chain[i].l2BlockNumber <= batches[b].endBlock
    ensures TreeSize(chain, batches', i) == TreeSize(chain, batches, i)
  {
    var block := chain[i].l2BlockNumber;
    var b :| 0 <= b < |batches| && block <= batches[b].endBlock;
    var p, q := BatchOf(batches, block), BatchOf(batches', block);
    hide BatchOf;
    assert p <= b;
    assert batches'[p].endBlock == batches[p].endBlock;
    assert p == q;
  }

  lemma {:induction false} SameProof(
      f: Keccak2, chain: seq<Row>, batches: seq<BatchEvent>, batches': seq<BatchEvent>, u: nat, n: nat, i: nat)
    requires ValidChain(chain) && Progress(chain, batches, u, n) && |batches| <= |batches'|
    requires forall b :: 0 <= b < |batches| ==> batches'[b].endBlock == batches[b].endBlock
    requires i < n <= |chain|
    ensures ExpectedProof(f, chain, batches', i) == ExpectedProof(f, chain, batches, i)
  {
    hide UpTo, Concat, ProofOf, ValidChain, TreeSize, Hashes, BatchesTile;
    var b := if u < |batches| then u else u - 1;
    UpToBlock(chain, batches[b].endBlock, i);
    SameEndsSameTree(chain, batches, batches', i);
  }

  lemma {:induction false} ProvenUnder(
      f: Keccak2, chain: seq<Row>, batches: seq<BatchEvent>, batches': seq<BatchEvent>, u: nat, n: nat, rows: Table)
    requires Proven(f, chain, batches, n, rows) && Progress(chain, batches, u, n) && |batches| <= |batches'|
    requires forall b :: 0 <= b < |batches| ==> batches'[b].endBlock == batches[b].endBlock
    ensures Proven(f, chain, batches', n, rows)
  {
    hide Progress, ExpectedProof, ValidChain, Relevant;
    forall i | 0 <= i < n ensures ExpectedProof(f, chain, batches', i) == ExpectedProof(f, chain, batches, i) {
      SameProof(f, chain, batches, batches', u, n, i);
    }
  }

  lemma {:induction false} TileEnds(batches: seq<BatchEvent>, batches': seq<BatchEvent>)
    requires BatchesTile(batches) && |batches'| == |batches|
    requires forall b :: 0 <= b < |batches| ==>
               batches'[b].endBlock == batches[b].endBlock && batches'[b].startBlock == batches[b].startBlock
    ensures BatchesTile(batches')
  {
  }

  lemma {:induction false} TileSnoc(batches: seq<BatchEvent>, batch: BatchEvent)
    requires BatchesTile(batches) && batch.startBlock <= batch.endBlock && (batches == [] ==> batch.endBlock == 0)
    requires batch.startBlock == if batches == [] then 0 else batches[|batches| - 1].endBlock + 1
    ensures BatchesTile(batches + [batch])
  {
  }

  lemma {:induction false} BatchDone(f: Keccak2, chain: seq<Row>, batches: seq<BatchEvent>, u: nat, n: nat, rows: Table)
    requires Proven(f, chain, batches, n, rows) && Progress(chain, batches, u, n) && u < |batches|
    ensures Proven(f, chain, batches[u := batches[u].(updated := true)], n, rows)
  {
    hide UpTo, Proven;
    ProvenUnder(f, chain, batches, batches[u := batches[u].(updated := true)], u, n, rows);
  }

  lemma {:induction false} ProgressDone(chain: seq<Row>, batches: seq<BatchEvent>, u: nat, n: nat)
    requires ValidChain(chain) && Progress(chain, batches, u, n) && u < |batches|
    requires n == UpTo(chain, batches[u].endBlock)
    ensures Progress(chain, batches[u := batches[u].(updated := true)], u + 1, n)
  {
    hide UpTo;
    var batches' := batches[u := batches[u].(updated := true)];
    TileEnds(batches, batches');
    if u + 1 < |batches'| {
      BatchEndsIncrease(batches', u, u + 1);
      UpToMonotone(chain, batches'[u].endBlock, batches'[u + 1].endBlock);
    }
  }

  /** Only a batch with withdrawals can be left half written. */
  lemma {:induction false} StuckIsClean(chain: seq<Row>, batches: seq<BatchEvent>, u: nat, n: nat)
    requires ValidChain(chain) && Progress(chain, batches, u, n)
    ensures u <= |batches| && (n != BatchStart(chain, batches, u) ==> 0 < u < |batches|)
  {
    hide UpTo;
    NoneInGenesis(chain);
  }

  lemma SameStart(chain: seq<Row>, batches: seq<BatchEvent>, batch: BatchEvent, u: nat, n: nat)
    requires Progress(chain, batches, u, n)
    ensures u <= |batches| && BatchStart(chain, batches + [batch], u) == BatchStart(chain, batches, u)
  {
  }

  lemma NextStart(chain: seq<Row>, batches: seq<BatchEvent>, u: nat)
    requires u < |batches|
    ensures BatchStart(chain, batches[u := batches[u].(updated := true)], u + 1) == UpTo(chain, batches[u].endBlock)
  {
  }

  lemma {:induction false} ProgressAdded(chain: seq<Row>, batches: seq<BatchEvent>, u: nat, n: nat, batch: BatchEvent)
    requires ValidChain(chain) && Progress(chain, batches, u, n)
    requires batch.startBlock == if batches == [] then 0 else batches[|batches| - 1].endBlock + 1
    requires batch.startBlock <= batch.endBlock && !batch.updated && (batches == [] ==> batch.endBlock == 0)
    ensures Progress(chain, batches + [batch], u, n)
  {
    hide UpTo;
    var batches' := batches + [batch];
    TileSnoc(batches, batch);
    if u == |batches| && u > 0 {
      UpToMonotone(chain, batches'[u - 1].endBlock, batch.endBlock);
    }
  }

  lemma {:induction false} ProvenChain(f: Keccak2, chain: seq<Row>, batches: seq<BatchEvent>, n: nat, rows: Table)
    requires Proven(f, chain, batches, n, rows)
    ensures ValidChain(chain) && n <= |chain|
  {
  }

  method MessageHashes(msgs: seq<Row>) returns (hashes: seq<Hash>)
    ensures |hashes| == |msgs| && forall j :: 0 <= j < |msgs| ==> hashes[j] == msgs[j].messageHash
  {
    hashes := [];
    for i := 0 to |msgs|
      invariant |hashes| == i && forall j :: 0 <= j < i ==> hashes[j] == msgs[j].messageHash
    {
      hashes := hashes + [msgs[i].messageHash];
    }
  }

  lemma {:induction false} NextMessagesParts(
      f: Keccak2, chain: seq<Row>, batches: seq<BatchEvent>, n: nat, rows: Table, msgs: seq<Row>,
      proofs: seq<seq<byte>>)
    requires NextMessages(f, chain, batches, n, rows, msgs, proofs)
    ensures |msgs| == |proofs| && Distinct(msgs)
  {
  }

  /** The leaves of the rebuilt trie and the hashes of the batch make up the tree that ends with it. */
  lemma {:induction false} BatchLeaves(
      chain: seq<Row>, synced: nat, rows: Table, batches: seq<BatchEvent>, u: nat, msgs: seq<Row>, hashes: seq<Hash>)
    requires ValidChain(chain) && Fetched(chain, synced, rows)
    requires BatchesTile(batches) && 0 < u < |batches| && batches[u].endBlock <= synced
    requires IsRangeResult(rows, rows.Keys, batches[u].startBlock, batches[u].endBlock, msgs)
    requires |hashes| == |msgs| && forall j :: 0 <= j < |msgs| ==> hashes[j] == msgs[j].messageHash
    ensures BatchStart(chain, batches, u) + |msgs| == UpTo(chain, batches[u].endBlock) <= |chain|
    ensures Hashes(chain)[..BatchStart(chain, batches, u)] + hashes == Hashes(chain)[..UpTo(chain, batches[u].endBlock)]
  {
    hide UpTo, Fetched, BatchStart, IsRangeResult;
    MessagesOfBatch(chain, synced, rows, batches, u, msgs);
    BatchStartBlock(chain, batches, u);
  }

  // ---------- Whole runs ----------

  /** A finalized withdrawal's stored proof recomputes, at its nonce, the root of the tree of all
      withdrawals up to the end of its own batch. */
  lemma {:induction false} StoredProofVerifies(
      f: Keccak2, chain: seq<Row>, synced: nat, batches: seq<BatchEvent>, n: nat, rows: Table, i: nat)
    requires Fetched(chain, synced, rows) && Proven(f, chain, batches, n, rows) && i < n
    ensures chain[i].messageHash in rows && IsFinalized(rows[chain[i].messageHash])
    ensures |rows[chain[i].messageHash].merkleProof| % 32 == 0
    ensures Climb(f, i, chain[i].messageHash, Split(rows[chain[i].messageHash].merkleProof))
            == Root(f, Hashes(chain)[..TreeSize(chain, batches, i)])
  {
    hide Climb, Split, Concat, Root, Path, BitLength, TreeSize;
    var r := rows[chain[i].messageHash];
    assert IsWithdrawal(chain, r) && r.messageNonce == i;
    var tree := Hashes(chain)[..TreeSize(chain, batches, i)];
    ProofsVerify(f, tree, i);
    SplitConcat(ProofOf(f, tree, i));
  }

  lemma {:induction false} FinalizedIsWithdrawal(
      f: Keccak2, chain: seq<Row>, synced: nat, batches: seq<BatchEvent>, n: nat, rows: Table, h: Hash)
    requires Fetched(chain, synced, rows) && Proven(f, chain, batches, n, rows) && h in rows
    ensures IsFinalized(rows[h]) <==> exists i :: 0 <= i < n && chain[i].messageHash == h
  {
    hide ExpectedProof;
    if IsFinalized(rows[h]) {
      assert IsWithdrawal(chain, rows[h]);
      assert chain[rows[h].messageNonce].messageHash == h;
    }
  }

  /** What happens to the bridge history. */
  datatype Event =
    | Fetch(from: nat, to: nat)
    | Relay(records: seq<Row>)
    | Finalize(endBlock: nat)
    | Update(faultAt: nat, fault: Fault)

  method WithdrawalsInBlocks(chain: seq<Row>, from: nat, to: nat) returns (messages: seq<Row>)
    requires ValidChain(chain)
    ensures Distinct(messages)
    ensures forall m :: m in messages ==> m.messageNonce < |chain| && chain[m.messageNonce] == m
    ensures forall i :: 0 <= i < |chain| && from <= chain[i].l2BlockNumber <= to ==> chain[i] in messages
  {
    messages := [];
    for i := 0 to |chain|
      invariant Distinct(messages)
      invariant forall m :: m in messages ==> m.messageNonce < i && chain[m.messageNonce] == m
      invariant forall j :: 0 <= j < i && from <= chain[j].l2BlockNumber <= to ==> chain[j] in messages
    {
      if from <= chain[i].l2BlockNumber <= to {
        assert forall k :: 0 <= k < |messages| ==> messages[k] in messages;
        messages := messages + [chain[i]];
      }
    }
  }

  /** What every run keeps: the finalized withdrawals are exactly the nonces 0, ..., n - 1, and each stored proof
      verifies against the tree of all withdrawals up to the end of its own batch. */
  ghost predicate AllProven(f: Keccak2, chain: seq<Row>, batches: seq<BatchEvent>, n: nat, rows: Table) {
    && ValidChain(chain) && n <= |chain|
    && (forall h :: h in rows ==>
          (IsFinalized(rows[h]) <==> exists i :: 0 <= i < n && chain[i].messageHash == h))
    && (forall i :: 0 <= i < n ==>
          && chain[i].messageHash in rows
          && |rows[chain[i].messageHash].merkleProof| % 32 == 0
          && Climb(f, i, chain[i].messageHash, Split(rows[chain[i].messageHash].merkleProof))
             == Root(f, Hashes(chain)[..TreeSize(chain, batches, i)]))
  }

  lemma {:induction false} ValidProven(f: Keccak2, chain: seq<Row>, synced: nat, batches: seq<BatchEvent>, n: nat,
      rows: Table)
    requires Fetched(chain, synced, rows) && Proven(f, chain, batches, n, rows)
    ensures AllProven(f, chain, batches, n, rows)
  {
    hide Fetched, Proven, Climb, Split, Root, Hashes, TreeSize, ValidChain;
    ProvenChain(f, chain, batches, n, rows);
    forall h | h in rows ensures IsFinalized(rows[h]) <==> exists i :: 0 <= i < n && chain[i].messageHash == h {
      FinalizedIsWithdrawal(f, chain, synced, batches, n, rows, h);
    }
    forall i | 0 <= i < n
      ensures chain[i].messageHash in rows && |rows[chain[i].messageHash].merkleProof| % 32 == 0
      ensures Climb(f, i, chain[i].messageHash, Split(rows[chain[i].messageHash].merkleProof))
              == Root(f, Hashes(chain)[..TreeSize(chain, batches, i)])
    {
      StoredProofVerifies(f, chain, synced, batches, n, rows, i);
    }
  }

  ghost predicate RelaysIn(chain: seq<Row>, script: seq<Event>) {
    forall e, m :: e in script && e.Relay? && m in e.records ==> IsRelayOf(chain, m)
  }

  /** Whether a row is finalized that was never seen sent. */
  method HasUnsentFinalized(rows: Table) returns (found: bool)
    ensures found <==> exists h :: h in rows && IsFinalized(rows[h]) && Unsent(rows[h])
  {
    found := false;
    var rest := rows.Keys;
    while rest != {}
      invariant rest <= rows.Keys
      invariant found <==> exists h :: h in rows && h !in rest && IsFinalized(rows[h]) && Unsent(rows[h])
      decreases rest
    {
      var h :| h in rest;
      found := found || (IsFinalized(rows[h]) && Unsent(rows[h]));
      rest := rest - {h};
    }
  }

  lemma {:induction false} HurtShows(f: Keccak2, chain: seq<Row>, batches: seq<BatchEvent>, n: nat, rows: Table)
    requires Proven(f, chain, batches, n, rows) || StampedUnsent(rows)
    ensures StampedUnsent(rows) <==> exists h :: h in rows && IsFinalized(rows[h]) && Unsent(rows[h])
  {
    hide ExpectedProof;
    if h :| h in rows && IsFinalized(rows[h]) {
      assert Proven(f, chain, batches, n, rows) ==> Relevant(rows[h]);
    }
  }

  lemma SameRows(rows: Table)
    ensures SameFinalized(rows, rows)
  {
  }

  /** One event. The proofs stay right unless it is an update of the genesis batch that finalizes unsent rows. */
  method Perform(logic: EventUpdateLogic, chain: seq<Row>, event: Event, cleanBefore: bool) returns (clean: bool)
    requires if cleanBefore then logic.Valid() else logic.Broken()
    requires logic.chain == chain && (event.Relay? ==> forall m :: m in event.records ==> IsRelayOf(chain, m))
    modifies logic
    ensures logic.updated >= old(logic.updated)
    ensures clean ==> cleanBefore && logic.Valid() && logic.finalized >= old(logic.finalized)
    ensures !clean ==> logic.Broken()
    ensures !clean && cleanBefore ==> old(logic.updated) == 0 && logic.Hurt()
    ensures !cleanBefore ==> SameFinalized(old(logic.rows), logic.rows)
    ensures cleanBefore && old(logic.Stuck()) ==>
      clean && logic.Stuck() && logic.updated == old(logic.updated) && logic.finalized == old(logic.finalized)
  {
    hide Fetched, Proven, Progress, IsRelayOf, UpTo, StampedUnsent, ValidChain, BatchStart, NoneUnsent, OnlyStamped,
         OnlyFlagged, UpsertSent, UpsertRelayed, Merge, Ruined, SameFinalized;
    BrokenOrValid(logic.keccak2, chain, logic.batches, logic.finalized, logic.rows);
    StuckIsClean(chain, logic.batches, logic.updated, logic.finalized);
    SameRows(logic.rows);
    clean := cleanBefore;
    match event
    case Fetch(from, to) =>
      if from <= logic.synced + 1 {
        var messages := WithdrawalsInBlocks(chain, from, to);
        logic.InsertOrUpdateL2Messages(messages, from, to);
      }
    case Relay(records) =>
      logic.InsertOrUpdateL1RelayedMessages(records);
    case Finalize(endBlock) =>
      if logic.batches == [] {
        logic.FinalizeBatch(0);
      } else if endBlock > logic.batches[|logic.batches| - 1].endBlock {
        logic.FinalizeBatch(endBlock);
      }
    case Update(faultAt, fault) =>
      var _ := logic.UpdateL1BatchIndexAndStatus(logic.synced, faultAt, fault);
      if cleanBefore {
        HurtShows(logic.keccak2, chain, logic.batches, logic.finalized, logic.rows);
        BrokenOrValid(logic.keccak2, chain, logic.batches, logic.finalized, logic.rows);
        var found := HasUnsentFinalized(logic.rows);
        clean := !found;
      }
  }

  /** Runs a script. As long as no update of the genesis batch finalizes unsent rows, the proofs stay right, and a batch
      left half written stays so. After such an update, which left the table `marked`, nothing is ever finalized
      again. */
  method Continue(logic: EventUpdateLogic, chain: seq<Row>, script: seq<Event>, cleanBefore: bool)
    returns (clean: bool, marked: Table)
    requires if cleanBefore then logic.Valid() else logic.Broken()
    requires logic.chain == chain && RelaysIn(chain, script)
    modifies logic
    ensures clean ==> cleanBefore && logic.Valid() && logic.finalized >= old(logic.finalized)
    ensures !clean ==> logic.Broken() && SameFinalized(marked, logic.rows)
    ensures !clean && cleanBefore ==> old(logic.updated) == 0 && StampedUnsent(marked)
    ensures !cleanBefore ==> marked == old(logic.rows)
    ensures cleanBefore && old(logic.Stuck()) ==>
      clean && logic.Stuck() && logic.updated == old(logic.updated) && logic.finalized == old(logic.finalized)
  {
    hide Fetched, Proven, Progress, IsRelayOf, StampedUnsent, ValidChain, BatchStart, Ruined, SameFinalized;
    clean, marked := cleanBefore, logic.rows;
    SameRows(logic.rows);
    for k := 0 to |script|
      invariant clean ==> cleanBefore && logic.Valid() && logic.finalized >= old(logic.finalized)
      invariant logic.updated >= old(logic.updated)
      invariant !clean ==> logic.Broken() && SameFinalized(marked, logic.rows)
      invariant !clean && cleanBefore ==> old(logic.updated) == 0 && StampedUnsent(marked)
      invariant !cleanBefore ==> marked == old(logic.rows)
      invariant cleanBefore && old(logic.Stuck()) ==>
        clean && logic.Stuck() && logic.updated == old(logic.updated) && logic.finalized == old(logic.finalized)
    {
      assert script[k] in script;
      ghost var before := logic.rows;
      var now := Perform(logic, chain, script[k], clean);
      if clean && !now {
        marked := logic.rows;
        SameRows(marked);
      } else if !clean {
        SameFinalizedTrans(marked, before, logic.rows);
      }
      clean := now;
    }
  }

  /** Over every run of fetches, relays, finalizations and updates, with the database failing anywhere: the withdrawals
      finalized are the first ones, with the right proofs, unless an update of the genesis batch finalizes unsent rows;
      then those stay the only ones for ever. */
  method Run(f: Keccak2, chain: seq<Row>, script: seq<Event>)
    returns (logic: EventUpdateLogic, clean: bool, marked: Table)
    requires ValidChain(chain) && RelaysIn(chain, script)
    ensures logic.chain == chain && logic.keccak2 == f
    ensures clean ==> logic.Valid() && AllProven(f, chain, logic.batches, logic.finalized, logic.rows)
    ensures !clean ==> logic.Broken() && StampedUnsent(marked) && SameFinalized(marked, logic.rows)
  {
    hide Fetched, Proven, Progress, StampedUnsent, ValidChain, RelaysIn, AllProven, Ruined, SameFinalized;
    logic := new EventUpdateLogic(f, chain);
    clean, marked := Continue(logic, chain, script, true);
    if clean {
      ValidProven(f, chain, logic.synced, logic.batches, logic.finalized, logic.rows);
    }
  }

  /** A withdrawal finalized before it was seen sent keeps the proof it got then. */
  lemma {:induction false} DamageStays(chain: seq<Row>, synced: nat, rows: Table, records: Table, h: Hash)
    requires ValidChain(chain) && Fetched(chain, synced, rows) && RecordsOf(chain, records)
    requires h in records && h in rows && IsFinalized(rows[h])
    ensures var r := UpsertSent(L2, rows, records)[h];
            && IsFinalized(r) && r.merkleProof == rows[h].merkleProof
            && r.messageNonce == records[h].messageNonce && chain[r.messageNonce].messageHash == h
  {
    hide UpTo, Hashes;
    FetchedRow(chain, synced, rows, records, h);
    RelevantParts(UpsertSent(L2, rows, records)[h]);
    assert chain[records[h].messageNonce].messageHash == h;
  }

  /** One withdrawal is relayed on L1, the genesis batch is finalized and updated, and only then the withdrawal is
      seen sent: it is finalized with an empty proof, too short to rebuild a trie from unless its nonce is 0. */
  method UnsentFinalized(f: Keccak2, chain: seq<Row>, i: nat, relay: Row) returns (logic: EventUpdateLogic)
    requires ValidChain(chain) && i < |chain|
    requires IsRelayOf(chain, relay) && relay.messageHash == chain[i].messageHash
    ensures logic.chain == chain && logic.Hurt() && relay.messageHash in logic.rows
    ensures var r := UpsertSent(L2, logic.rows, map[relay.messageHash := chain[i]])[relay.messageHash];
            && IsFinalized(r) && r.messageNonce == i && r.merkleProof == []
            && (BitLength(i) <= |r.merkleProof| / 32 <==> i == 0)
  {
    hide Fetched, Proven, Progress, UpTo, Hashes, UpsertSent, Merge, BitLength, OnlyStamped, UpsertRelayed, ValidChain,
         RecordsOf, OnlyFlagged, Stamped;
    logic := new EventUpdateLogic(f, chain);
    logic.InsertOrUpdateL1RelayedMessages([relay]);
    OnlyRelay(chain, relay, logic.rows);
    logic.FinalizeBatch(0);
    ghost var before := logic.rows;
    var _ := logic.UpdateL1BatchIndexAndStatus(0, 0, NoFault);
    BrokenOrValid(f, chain, logic.batches, logic.finalized, logic.rows);
    OnlyFinalized(before, logic.rows, relay.messageHash);
    OneRecord(chain, i);
    DamageStays(chain, logic.synced, logic.rows, map[relay.messageHash := chain[i]], relay.messageHash);
    EmptyIsShort(i);
  }

  lemma OneRecord(chain: seq<Row>, i: nat)
    requires ValidChain(chain) && i < |chain|
    ensures RecordsOf(chain, map[chain[i].messageHash := chain[i]]) && chain[i].messageNonce == i
  {
  }

  lemma EmptyIsShort(i: nat)
    ensures BitLength(i) <= 0 <==> i == 0
  {
  }

  lemma {:induction false} OnlyRelay(chain: seq<Row>, relay: Row, rows: Table)
    requires IsRelayOf(chain, relay) && rows == UpsertRelayed(L1, map[], Merge(L1, [relay]))
    ensures rows.Keys == {relay.messageHash} && !NoneUnsent(rows)
  {
    hide Hashes;
    assert Merge(L1, [relay]) == map[relay.messageHash := relay];
    assert Unsent(rows[relay.messageHash]);
  }

  lemma {:induction false} OnlyFinalized(before: Table, after: Table, h: Hash)
    requires before.Keys == {h} && OnlyStamped(before, after) && StampedUnsent(after)
    ensures h in after && IsFinalized(after[h]) && after[h].merkleProof == []
  {
    assert |after| == 1 by { assert after.Keys == {h}; assert |after.Keys| == 1; }
  }

  /** The genesis batch is finalized and updated before anything is stored. */
  method StartWithGenesis(f: Keccak2, chain: seq<Row>) returns (logic: EventUpdateLogic)
    requires ValidChain(chain)
    ensures fresh(logic) && logic.Valid() && !logic.Stuck() && logic.chain == chain && logic.synced == 0
    ensures logic.updated == 1 && logic.finalized == 0 && |logic.batches| == 1 && logic.batches[0].endBlock == 0
  {
    hide Fetched, Proven, UpTo, ValidChain, OnlyStamped, Progress, BatchStart;
    logic := new EventUpdateLogic(f, chain);
    logic.FinalizeBatch(0);
    assert logic.rows == map[];
    var _ := logic.UpdateL1BatchIndexAndStatus(0, 0, NoFault);
    GenesisDone(chain, logic.batches, logic.updated, logic.finalized);
  }

  /** The first update of a batch fails after one of its withdrawals is written. Whatever follows, that one stays the
      only one finalized. */
  method InterruptedBatch(f: Keccak2, chain: seq<Row>, script: seq<Event>) returns (logic: EventUpdateLogic)
    requires ValidChain(chain) && |chain| >= 2 && RelaysIn(chain, script)
    ensures logic.Valid() && logic.chain == chain && logic.Stuck() && logic.updated == logic.finalized == 1
  {
    hide Fetched, Proven, UpTo, UpsertSent, ValidChain, RelaysIn, IsRelayOf, OnlyStamped, Progress, BatchStart,
         NoneUnsent;
    logic := StartWithGenesis(f, chain);
    var end := LastBlock(chain);
    var messages := WithdrawalsInBlocks(chain, 1, end);
    logic.InsertOrUpdateL2Messages(messages, 1, end);
    logic.FinalizeBatch(end);
    var _ := logic.UpdateL1BatchIndexAndStatus(end, 0, WriteFails(1));
    GenesisStart(chain, logic.batches);
    var _, _ := Continue(logic, chain, script, true);
  }

  method LastBlock(chain: seq<Row>) returns (block: nat)
    requires ValidChain(chain) && chain != []
    ensures block >= 1 && UpTo(chain, block) == |chain|
  {
    block := chain[|chain| - 1].l2BlockNumber;
  }

  lemma {:induction false} GenesisDone(chain: seq<Row>, batches: seq<BatchEvent>, u: nat, n: nat)
    requires ValidChain(chain) && Progress(chain, batches, u, n) && |batches| == 1 && batches[0].updated
    ensures u == 1 && n == 0 && batches[0].endBlock == 0
  {
    hide UpTo;
    NoneInGenesis(chain);
  }

  lemma {:induction false} GenesisStart(chain: seq<Row>, batches: seq<BatchEvent>)
    requires ValidChain(chain) && batches != [] && batches[0].endBlock == 0
    ensures BatchStart(chain, batches, 1) == 0
  {
    NoneInGenesis(chain);
  }
}
