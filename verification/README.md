# Scroll: withdrawal proofs, data availability, sending and proving

A Dafny model of the parts of the Scroll rollup stack where several pieces of code must agree with each other, over
every input and over whole runs:

- **Withdraw trie** (`MerkleTree`, `WithdrawTries`): the append-only Merkle tree of withdrawals kept as one branch of
  nodes, its layered cache for many leaves at once, and its reconstruction from the rightmost proof alone. It is proved
  to agree with a plain zero-padded Merkle tree.
- **Finalizing withdrawals** (`EventUpdates`): the batch-by-batch update of the bridge history, which rebuilds the trie,
  appends the withdrawals of the batch and stores their proofs, with the database failing anywhere.
- **Cross messages** (`CrossMessages`): the rows that two fetchers, one per chain, upsert in any order, and the events of
  the L1 message queue on them.
- **Data-availability encoding** (`L2Data`, `SkippedBitmaps`, `DAChunks`, `Blobs`, `DABatches`, `Estimates`): L1-message
  counters, the skipped-message bitmap and its decoder, block, chunk, header and blob encodings of codecv0 and codecv1,
  and the size and gas estimates.
- **Chunk and batch chain** (`Forks`, `RollupTables`, `Proposers`, `Relayers`, `MessageQueues`): the two proposers over the
  block, chunk and batch tables, the commit payload that the relayer rebuilds from them, and the L1 message queue as the
  stored headers tell it.
- **Transaction sender** (`Fees`, `Senders`): fee escalation, and the table of pending, replaced and confirmed
  transactions as a state machine against a chain.
- **Coordinator** (`Coordinators`): chunk assignment by concurrent read and compare-and-swap, interleaved with the prover
  tasks' timeouts and submissions.

`Bits`, `Bytes` and `Wrappers` hold shifts and single bits, big-endian numbers and buffers, and option and result types.

How the code is represented:

- Keccak-256, the versioned hash of a blob's KZG commitment and the multiplication by a gas multiplier are function
  parameters. No property needs them to be collision free.
- The hexadecimal transaction hash and the RLP encoding of a transaction are fields that may be missing, for the
  conversions that may fail.
- A table is a sequence or a map of rows. A statement or a database transaction is one step; when it fails, nothing
  changes. Failures, times and answers of nodes are parameters.
- Numbers are unbounded. Where 64-bit wrap-around matters (the L1-message counters, the decoded queue indices, the
  timeouts) it is written out with `Wrap`; one-byte and fixed-width fields are cut by the encoders.

Where a promise does not hold of the code as it is, the model keeps the code and states when it holds:

- Reading a block range back from a commit transaction is correct exactly when the last chunk has at most 255 blocks;
  codecv1 does not check this (`DAChunks.RangeCorrectIff`).
- Chunks stay on one side of a fork exactly when the chunk size is limited or no fork is to come: a limit of zero means
  no limit (`Proposers.ForkCutIff`).
- A resubmitted tip stays within the fee except from a fee beyond the limit with the tip at the limit
  (`Fees.BumpRaises`, `Fees.TipPassesFee`), which two resubmissions reach from within the limit
  (`Fees.TipPassesFeeReached`).
- After a nonce reset the sender keeps its promise for every nonce (one pending row, and none pending beside a confirmed
  one) exactly when no row and no transaction on its way into the table has the new nonce or a higher one: then it is kept
  by every run until the next such reset, and otherwise sending on breaks it (`Senders.Sender.CreateAndSend`,
  `Senders.Run`, `Senders.BreakPromise`, and from a new sender `Senders.TwoPending`).
- The merge of relayed records keeps a relayed record exactly when no later record of a higher block follows it
  (`CrossMessages.MergeKeepsRelayedIff`).
- The upserts of the two fetchers commute. Events of the L1 message queue and relays of deposits do exactly under a
  condition on the events, the stored rows and the relays (`CrossMessages.QueueEventsCommuteIff`), and where it holds all
  along the interleaving does not matter (`CrossMessages.FetcherOrderIrrelevant`): the row of a deposit that is dropped
  and whose relay fails depends on the order (`CrossMessages.DropAndFailedRelay`).
- A verified chunk stays verified under every run exactly when no worker holds a snapshot with its counters, and it has
  attempts left or none of its prover tasks is open, about to be stored or loaded by the timeout collector
  (`Coordinators.Run`, `Coordinators.Unsettle`). A snapshot has its counters only after a proof that came in while no
  attempt was active (`Coordinators.VerifiedIsSettled`, `Coordinators.VerifiedThenAssigned`). A timeout can mark it failed
  (`Coordinators.VerifiedThenFailed`, `Coordinators.VerifiedAfterLoading`), since the guard meant to protect it compares
  the proving status with a constant of the prover-task status, whose number is that of an assigned chunk.
- A batch chosen within the limits can be built exactly when its L1 messages come in queue order and, under codecv1, it
  has at most 15 chunks (`Proposers.ProposedBuilds`); a chunk limit from 1 to 15 makes sure of the latter
  (`Proposers.NeverTooMany`).
- An update of the genesis batch keeps the finalized withdrawals and their proofs right exactly when no withdrawal is stored
  as relayed but not yet as sent, or its first write fails: the block range of that batch, 0 to 0, matches the missing L2
  block of such a row (`EventUpdates.EventUpdateLogic.UpdateL1BatchIndexAndStatus`, `EventUpdates.UnsentFinalized`). After
  an update that does not keep them right, no withdrawal is ever finalized again (`EventUpdates.Run`).
- A batch update that the database interrupts half-way is never completed: every later attempt fails and changes nothing,
  over every later run (`EventUpdates.Continue`, `EventUpdates.InterruptedBatch`).

## Model

| member | source | states |
|---|---|---|
| MerkleTree.ProofsVerify | bridge-history-api/internal/utils/withdraw_trie_test.go:175-186 | for every leaf of every non-empty list, climbing from the leaf along its proof recomputes the root of the zero-padded tree |
| MerkleTree.RootAgreesWithLevels | bridge-history-api/internal/utils/withdraw_trie_test.go:188-210 | the recursive root equals the reference that pairs up whole levels and pads odd ones with zero subtrees |
| WithdrawTries.EncodeMerkleProofToBytes | bridge-history-api/internal/utils/withdraw_trie.go:135-141 | the proof bytes are the 32-byte hashes end to end |
| WithdrawTries.DecodeBytesToMerkleProof | bridge-history-api/internal/utils/withdraw_trie.go:126-132 | the hashes are the 32-byte pieces of the bytes, in order |
| WithdrawTries.SplitConcat | bridge-history-api/internal/utils/withdraw_trie.go:126-141 | decoding an encoded proof gives the proof back |
| WithdrawTries.ConcatSplit | bridge-history-api/internal/utils/withdraw_trie.go:126-141 | encoding a decoded proof gives the bytes back |
| WithdrawTries.UpdateBranchWithNewMessage | bridge-history-api/internal/utils/withdraw_trie.go:144-164 | the branch of n leaves becomes the branch of n + 1 leaves, for every level up to the root, and the returned proof is the new leaf's proof in the larger tree |
| WithdrawTries.RecoverBranchFromProof | bridge-history-api/internal/utils/withdraw_trie.go:167-188 | from the rightmost leaf's proof, all 64 branches are those of the tree the proof comes from; for any proof the top one is the root that the proof climbs to and the rest above are zero |
| WithdrawTries.CacheBranches | bridge-history-api/internal/utils/withdraw_trie.go:56-72 | everything cached is a correct tree node, and the left siblings that the new leaves will need are cached |
| WithdrawTries.HashLevels | bridge-history-api/internal/utils/withdraw_trie.go:78-93 | the level-by-level hashing caches correct nodes covering every position from the first new leaf to the last on every level |
| WithdrawTries.BuildCache | bridge-history-api/internal/utils/withdraw_trie.go:56-93 | after seeding and hashing, the cache is complete up to the height of the grown tree |
| WithdrawTries.ReadProof | bridge-history-api/internal/utils/withdraw_trie.go:104-112 | what is read from a complete cache is the proof of the leaf in the reference tree |
| WithdrawTries.WithdrawTrie.constructor | bridge-history-api/internal/utils/withdraw_trie.go:22-37 | a new trie stands for no leaves; entry h of its zero table is the root of an empty tree of height h |
| WithdrawTries.WithdrawTrie.Initialize | bridge-history-api/internal/utils/withdraw_trie.go:40-46 | from the rightmost leaf of any tree within capacity and its encoded proof alone, the whole trie state for that tree is back |
| WithdrawTries.WithdrawTrie.MessageRoot | bridge-history-api/internal/utils/withdraw_trie.go:118-123 | the returned hash is the reference root over all leaves so far, the zero hash for none |
| WithdrawTries.WithdrawTrie.AppendOneByOne | bridge-history-api/internal/utils/withdraw_trie.go:95-100 | inserting leaves one by one keeps the trie the trie of all leaves so far, in bounds up to 2^39 leaves |
| WithdrawTries.WithdrawTrie.AppendMessages | bridge-history-api/internal/utils/withdraw_trie.go:50-115 | the trie stands for old and new leaves, and proof i is the encoded reference proof of new leaf i in the tree of all of them |
| WithdrawTries.Restore | bridge-history-api/internal/logic/event_update.go:117-126 | a new trie initialized from a rightmost proof is a valid trie of exactly those leaves |
| WithdrawTries.CapacityIsExact | bridge-history-api/internal/utils/withdraw_trie.go:7-37 | 2^39 leaves are the most for which the tree has a level in the trie's 40 entries |
| WithdrawTries.LeavesDetermineTrie | bridge-history-api/internal/utils/withdraw_trie.go:11-19 | two tries of the same leaves have the same next nonce, height and branches up to their height |
| WithdrawTries.SplitAppend | bridge-history-api/internal/utils/withdraw_trie.go:40-115 | appending a list at once, or split over two calls with a trie rebuilt from the rightmost proof in between, gives the same root and the same proofs for the second part |
| EventUpdates.GetL2LatestFinalizedWithdrawal | bridge-history-api/internal/orm/cross_message.go:163-177 | the result is a finalized withdrawal of the highest nonce, and none exactly when there is none |
| EventUpdates.GetL2WithdrawalsByBlockRange | bridge-history-api/internal/orm/cross_message.go:180-196 | the result lists exactly the withdrawals of the block range that are not reverted, once each, by nonce |
| EventUpdates.MessagesOfBatch | bridge-history-api/internal/logic/event_update.go:107-115 | the query for a batch returns consecutive nonces from the first withdrawal after the earlier batches to the last one of the batch; for the genesis batch none, when all stored withdrawals were seen sent |
| EventUpdates.MessagesOfGenesis | bridge-history-api/internal/orm/cross_message.go:180-196 | the query for the genesis batch, blocks 0 to 0, returns exactly the withdrawals stored as relayed but not as sent |
| EventUpdates.LastProofIsRightmost | bridge-history-api/internal/logic/event_update.go:118-126 | after whole batches, the stored proof of the highest finalized nonce is the rightmost proof of the tree of all finalized withdrawals |
| EventUpdates.EventUpdateLogic.RebuildTrie | bridge-history-api/internal/logic/event_update.go:117-126 | after whole batches the rebuilt trie is the trie of all finalized withdrawals; after an interrupted one its next nonce is the one after the last finalized row; with other proofs there is no trie, or its next nonce is not 0 |
| EventUpdates.EventUpdateLogic.ProveMessages | bridge-history-api/internal/logic/event_update.go:128-144 | the nonce check passes exactly when no earlier update of the batch was interrupted, and then every message gets its proof in the tree that ends with its batch; unsent rows pass it at the genesis batch, with proofs in the tree of unsent rows, and nothing ever passes it after they were finalized |
| EventUpdates.EventUpdateLogic.UpdateL2WithdrawMessageInfos | bridge-history-api/internal/logic/event_update.go:106-153 | exactly the writes that the database lets through are finalized, with the right proofs, and it succeeds exactly when that completes the batch; after an interrupted update every attempt fails and changes nothing; at the genesis batch unsent rows are finalized if any write goes through, and only then; only status, index and proof of rows change |
| EventUpdates.EventUpdateLogic.UpdateBatch | bridge-history-api/internal/logic/event_update.go:162-174 | a batch is flagged exactly when all its withdrawals were written and the flag could be, so the next batch starts where the finalized ones end; otherwise the writes that went through stay |
| EventUpdates.EventUpdateLogic.UpdateL1BatchIndexAndStatus | bridge-history-api/internal/logic/event_update.go:156-176 | the right proofs stay exactly when the genesis batch is done, no withdrawal is unsent or its first write fails; without faults every batch up to the height is done; a fault that interrupts the first batch leaves exactly its writes; after an interrupted batch nothing changes; only flags, status, index and proof ever change |
| EventUpdates.EventUpdateLogic.InsertOrUpdateL2Messages | bridge-history-api/internal/orm/cross_message.go:376-392 | the table becomes the upsert of the fetched withdrawals, new or fetched again, which keeps all finalized proofs |
| EventUpdates.EventUpdateLogic.InsertOrUpdateL1RelayedMessages | bridge-history-api/internal/orm/cross_message.go:505-554 | the table becomes the guarded upsert of the merged records, which keeps all finalized proofs, also before the sent record is known |
| EventUpdates.StoredProofVerifies | bridge-history-api/internal/logic/event_update.go:138-149 | a stored proof of a finalized withdrawal recomputes, at its nonce, the root over all withdrawals up to the end of its own batch |
| EventUpdates.Continue | bridge-history-api/internal/logic/event_update.go:156-176 | from any state with the right proofs, every run keeps them unless an update of the genesis batch finalizes unsent rows; from then on over every run the finalized rows and their proofs stay the same; a batch left half written stays so over every run, with nothing more finalized |
| EventUpdates.Run | bridge-history-api/internal/logic/event_update.go:106-176 | over every run of fetches, relays, finalizations from the genesis batch on and updates with faults: the finalized withdrawals are exactly the nonces below some n, and each stored proof verifies against the tree that ends with its batch; or an update of the genesis batch finalized unsent rows, and those stay the only ones |
| EventUpdates.StampedUnsentIsWrong | bridge-history-api/internal/logic/event_update.go:138-149 | with an unsent row finalized, the finalized rows are not the first withdrawals with the right proofs, for any number of them |
| EventUpdates.DamageStays | bridge-history-api/internal/orm/cross_message.go:376-392 | a withdrawal finalized before it was seen sent gets its nonce later and keeps the proof it has |
| EventUpdates.UnsentFinalized | bridge-history-api/internal/utils/utils.go:77-88 | from a new database: a relay, the genesis batch, its update and then the sent record leave a finalized withdrawal with an empty proof, too short to rebuild a trie from unless its nonce is 0 |
| EventUpdates.InterruptedBatch | bridge-history-api/internal/logic/event_update.go:162-174 | from a new database: a batch interrupted after its first write leaves one withdrawal finalized, whatever follows |
| CrossMessages.MergeRelayedMessages | bridge-history-api/internal/orm/cross_message.go:462-475 | the merge loop computes the record kept per message by the merge rule |
| CrossMessages.MergeSelects | bridge-history-api/internal/orm/cross_message.go:462-475 | the merge has an entry for exactly the messages with a record, and each entry is one of their records |
| CrossMessages.MergeKeepsRelayedIff | bridge-history-api/internal/orm/cross_message.go:464-467 | a relayed record survives the merge exactly when the last relayed one is followed by no record of a higher block |
| CrossMessages.MergeLosesRelayed | bridge-history-api/internal/orm/cross_message.go:522-525 | a relayed record followed by one of a higher block that is not relayed is lost |
| CrossMessages.TerminalForever | bridge-history-api/internal/orm/cross_message.go:256-284 | over every run of both fetchers' statements, a relayed or dropped row keeps that status |
| CrossMessages.RowOrderIrrelevantIff | bridge-history-api/internal/orm/cross_message.go:357-392 | for a new message, sent-then-relayed and relayed-then-sent give the same row exactly when the records agree on the columns that no upsert overwrites |
| CrossMessages.UpsertsCommute | bridge-history-api/internal/orm/cross_message.go:376-554 | a set of sent records and a set of relayed records give the same table in either order, on any table |
| CrossMessages.FetchersCommute | bridge-history-api/internal/orm/cross_message.go:357-554 | any upsert of one fetcher commutes with any upsert of the other, on any table |
| CrossMessages.ExchangeableIff | bridge-history-api/internal/orm/cross_message.go:256-554 | any statement of one fetcher, queue events included, and any of the other give the same table in either order exactly when they are exchangeable there |
| CrossMessages.FetcherOrderIrrelevant | bridge-history-api/internal/orm/cross_message.go:256-554 | however the two fetchers interleave what they store of deposits, withdrawals, relays and queue events, the table depends only on what each stored in its own order, provided queue events and relays are exchangeable wherever the fetchers may be |
| CrossMessages.UpsertOrderIrrelevant | bridge-history-api/internal/orm/cross_message.go:357-554 | without queue events it always does, on any table |
| CrossMessages.EventsOfDeposit | bridge-history-api/internal/orm/cross_message.go:256-317 | a list of queue events leaves a deposit with its terminal status, else dropped, skipped or unchanged in that order of precedence, and with the last replay and refund transaction |
| CrossMessages.QueueEventsCommuteIff | bridge-history-api/internal/orm/cross_message.go:256-317 | a list of queue events and relays of deposits give the same table in either order exactly when, per relay: the stored row is terminal, or the events drop it and the relay does not complete it and writes the stored L2 transaction, or they dequeue it and the relay completes or skips, or they do neither; and a relay not stored yet is not changed by the events |
| CrossMessages.DropAndFailedRelay | bridge-history-api/internal/orm/cross_message.go:273-284 | a drop and a failed relay of one deposit in another L2 transaction give different tables in the two orders |
| CrossMessages.CrossMessage.InsertOrUpdateRelayedMessages | bridge-history-api/internal/orm/cross_message.go:505-554 | the table becomes the guarded upsert of the merged records |
| CrossMessages.CrossMessage.UpdateL1MessageQueueEventsInfo | bridge-history-api/internal/orm/cross_message.go:256-317 | the two loops over queue events apply all status changes and then all transaction hashes; an error leaves exactly the updates before it |
| L2Data.NumL1MessagesOfBlock | common/types/encoding/da.go:45-58 | the 64-bit distance from the counter to the index after the last L1 message, zero without messages |
| L2Data.NumL1MessagesOfChunk | common/types/encoding/da.go:73-82 | the counts of the blocks, each at the counter left by the blocks before it |
| L2Data.BlocksCounter | common/types/encoding/da.go:45-82 | with messages in queue order, the counter plus the count of a chunk is the index after its last message, without wrap-around |
| L2Data.ChunksCounter | common/types/encoding/da.go:73-82 | with messages in queue order, threading the counter through chunks never wraps and ends at the index after the last message |
| SkippedBitmaps.MarkSkipped | common/types/encoding/bitmap.go:33-42 | marking one more skipped message sets its bit and no other, growing the bitmap only as needed |
| SkippedBitmaps.ProcessMessage | common/types/encoding/bitmap.go:27-51 | a message is accepted exactly when it keeps queue order, and then the bitmap marks exactly the skipped messages so far |
| SkippedBitmaps.ProcessChunks | common/types/encoding/bitmap.go:21-54 | the loops succeed exactly when all L1 messages of the batch come in queue order from the base, with the bitmap marking exactly the indices in between that no message carries |
| SkippedBitmaps.ConstructSkippedBitmap | common/types/encoding/bitmap.go:11-64 | the bytes are the 32-byte words of that bitmap, the second result is the index after the last message, and it fails exactly for messages out of order |
| SkippedBitmaps.SkippedWordsMark | common/types/encoding/bitmap.go:33-51 | the bitmap has ceil((next - base) / 256) words, and bit j is set exactly for a skipped message base + j |
| SkippedBitmaps.MarksUnique | common/types/encoding/bitmap.go:33-51 | no other words mark the same messages |
| SkippedBitmaps.GetSkippedQueueIndices | bridge-history-api/internal/utils/utils.go:174-185 | the indices of the set bits of one word, in order, from its start index |
| SkippedBitmaps.DecodeRecoversSkipped | bridge-history-api/internal/utils/utils.go:174-185 | decoding every word of a batch's bitmap at base + 256k and joining the results lists exactly the skipped messages, in order |
| DAChunks.NewDAChunk | common/types/encoding/codecv0/codecv0.go:95-127 | the blocks, each with the counter left by those before it, or an error for a count, number or message count out of range; codecv1 has no bound on the number of blocks |
| DAChunks.DABlocksKeepNumbers | common/types/encoding/codecv1/codecv1.go:139-159 | every block of the chunk is there, in order, with its number |
| DAChunks.EncodeBlock | common/types/encoding/codecv0/codecv0.go:81-92 | the buffer holds the fields at their offsets and zeros between them |
| DAChunks.ReadEncodedBlock | common/types/encoding/codecv0/codecv0.go:81-92 | every field of an encoded block is read back from its offset, the base fee cut to 64 bits |
| DAChunks.EncodeChunk | common/types/encoding/codecv0/codecv0.go:130-158 | count byte, block contexts and, for codecv0, each L2 transaction behind its length, or an error for one without encoding |
| DAChunks.HashedContexts | common/types/encoding/codecv0/codecv0.go:161-201 | the contexts that codecv0 cuts out of the encoded chunk are the first 58 bytes of each block, the ones that codecv1 hashes |
| DAChunks.RangeRead | bridge-history-api/internal/utils/utils.go:97-115 | the range read from encoded chunks is the first block of the first chunk and the block at the count byte, that is the count modulo 256, of the last |
| DAChunks.RangeCorrectIff | bridge-history-api/internal/utils/utils.go:97-115 | the range read back is the range committed exactly when the last chunk has at most 255 blocks, under either codec |
| DAChunks.CommittedRange | common/types/encoding/codecv1/codecv1.go:139-172 | the same for chunks of L2 blocks; codecv0 rejects every chunk for which it would fail |
| Blobs.ConstructBlobPayload | common/types/encoding/codecv1/codecv1.go:284-337 | number of chunks, 15 sizes and the L2 transactions of each chunk end to end, or an error for one without encoding |
| Blobs.MakeBlobCanonical | common/types/encoding/codecv1/codecv1.go:361-383 | a payload of at most 126976 bytes becomes 4096 elements, each a zero byte and 31 bytes of payload; a longer one is rejected |
| Blobs.BlobRoundTrip | common/types/encoding/codecv1/codecv1.go:284-383 | from the canonical blob of any accepted payload, stripping the zero bytes and reading the metadata gives back the data of each chunk |
| Blobs.ElementsBelowModulus | common/types/encoding/codecv1/codecv1.go:361-383 | every 32-byte element of a canonical blob is below BLS_MODULUS of the Parameters section of EIP-4844 |
| DABatches.EncodeHeader | common/types/encoding/codecv1/codecv1.go:407-418 | the buffer is the concatenation of the header's fields, with the blob hash for codecv1 only |
| DABatches.HeaderRoundTrip | common/types/encoding/codecv1/codecv1.go:387-418 | decoding an encoded header gives back the batch, for both codecs |
| DABatches.BytesRoundTrip | common/types/encoding/codecv0/codecv0.go:246-275 | bytes decode exactly when they are at least 89 (codecv0) or 121 (codecv1) long, and then encode back to themselves |
| DABatches.CounterFromHeader | rollup/internal/utils/utils.go:277-294 | the counter is read back by the codec that wrote the header; by the other one too, except that codecv1 rejects a codecv0 header without bitmap |
| DABatches.ComputeChunkHashes | common/types/encoding/codecv1/codecv1.go:262-281 | the hashes of the chunks end to end, each at the counter left by the chunks before it |
| DABatches.NewDABatch | common/types/encoding/codecv1/codecv1.go:207-256 | the batch made of chunk hashes, bitmap, counters and blob hash, or an error for the chunk count, a chunk, the message order or the blob |
| DABatches.GetBatchMetadata | rollup/internal/utils/utils.go:201-274 | header bytes, their hash, and the hashes of the first and last chunk at their own counters |
| DABatches.MetadataIff | rollup/internal/utils/utils.go:201-274 | metadata exists exactly when the batch can be built |
| DABatches.BatchCounters | common/types/encoding/codecv0/codecv0.go:204-243 | the header's counter is the threaded one, the sum of the one before and the messages of the batch, and the end-chunk counter of the metadata plus the last chunk's messages |
| Estimates.EstimateBatchL1CommitGas | common/types/encoding/codecv0/codecv0.go:398-442 | the accumulated gas is the base cost plus the cost of every chunk at its own counter, or an error for a transaction without encoding |
| Estimates.Accumulate | common/types/encoding/codecv0/codecv0.go:445-455 | the estimator loops compute the sum of their items, or an error at the first item that fails |
| Estimates.BatchCalldataSize | common/types/encoding/codecv0/codecv0.go:445-455 | the loop over the chunks gives the sum of their calldata sizes |
| Estimates.MemoryCostMonotone | common/types/encoding/codecv0/codecv0.go:293-302 | the memory and hash costs, quadratic as in Appendix H of the Ethereum Yellow Paper, grow with the size |
| Estimates.BatchGasGrows | common/types/encoding/codecv0/codecv0.go:398-442 | every prefix of a batch has a gas estimate, and not a larger one |
| Estimates.TotalGrows | common/types/encoding/codecv0/codecv0.go:445-455 | every prefix has a size estimate, and not a larger one |
| Estimates.BlobSizeGrows | common/types/encoding/codecv1/codecv1.go:477-489 | every prefix of a batch has a blob estimate, and not a larger one |
| Estimates.BlobEstimateExact | common/types/encoding/codecv1/codecv1.go:477-505 | the estimate exists exactly when the payload does, and is at most 131072 exactly when the payload is accepted |
| Estimates.CalldataEstimateExact | common/types/encoding/codecv0/codecv0.go:363-373 | a codecv0 chunk is exactly one byte longer than its calldata estimate, and fails to encode exactly when the estimate fails |
| Forks.CollectSortedForkHeights | common/forks/forks.go:12-64 | the heights strictly increase and are exactly those of the configured forks; the two maps agree with them and name the fork kept per height |
| Forks.NamesKeepLast | common/forks/forks.go:39-46 | the fork kept for a height is the last configured one |
| Forks.BlocksUntilFork | common/forks/forks.go:68-75 | the scan finds the first height beyond the block |
| Forks.UntilForkIsNext | common/forks/forks.go:68-75 | zero exactly when no fork is to come; otherwise a fork is that many blocks ahead and none before it |
| Forks.BlockRange | common/forks/forks.go:79-89 | from the last fork at or before the block to the next fork after it, or to the largest 64-bit signed number |
| Forks.SameRange | common/forks/forks.go:79-89 | two blocks without a fork between them have the same range |
| RollupTables.CountersAcrossBatches | rollup/internal/orm/chunk.go:144-215 | a stored header's counter equals the last chunk's counter plus its messages, without wrap-around, and the popped-before count of the next batch's first chunk |
| RollupTables.HeaderCounter | rollup/internal/utils/utils.go:277-294 | the counter read from a stored header by the batch's codec is the counter after all chunks up to its end |
| RollupTables.ParentCodecIsWriter | rollup/internal/controller/watcher/batch_proposer.go:202-211 | the codec that the proposer picks from the parent's last block is the one that wrote the parent's header, also across a fork and for genesis |
| RollupTables.NoForkInBatch | rollup/internal/controller/watcher/batch_proposer.go:172-182 | chunks without a fork inside, none of which but the first starts at a fork, make a batch without a fork after its first block |
| RollupTables.OneBlockRange | rollup/internal/controller/watcher/batch_proposer.go:172-187 | all blocks of a stored batch lie in one block range |
| RollupTables.NewBatchRecorded | rollup/internal/orm/batch.go:222-288 | the start and end chunk hashes in a new batch row are the hashes stored in those chunk rows |
| RollupTables.GenesisEncodes | rollup/internal/controller/relayer/l2_relayer.go:173-245 | the genesis chunk and batch can always be encoded |
| Proposers.Grow | rollup/internal/controller/watcher/batch_proposer.go:213-245 | candidates are taken while within the limits: closed at the first that exceeds them, open when all fit, failed when one cannot be measured or the first is too large |
| Proposers.ShorterFits | rollup/internal/controller/watcher/batch_proposer.go:213-245 | a batch within all limits stays within them when chunks are dropped from its end |
| Proposers.GrowthIsLongest | rollup/internal/controller/watcher/batch_proposer.go:213-261 | the batch taken is the longest prefix of the candidates within all limits |
| Proposers.ForkCutIff | rollup/internal/controller/watcher/chunk_proposer.go:173-190 | the blocks selected for a chunk never cross a fork exactly when the chunk size is limited or no fork is to come |
| Proposers.Rollup.constructor | rollup/internal/controller/relayer/l2_relayer.go:173-245 | importing genesis gives a valid database with one chunk and one batch |
| Proposers.Rollup.InsertChunk | rollup/internal/orm/chunk.go:144-215 | a chunk of the given blocks is recorded with its counters and hash, or nothing changes; it fails only with the database or for blocks that cannot be encoded |
| Proposers.Rollup.PlanChunk | rollup/internal/controller/watcher/chunk_proposer.go:173-266 | the decision is exactly one of: nothing to do, wait (all fit and not due), fail, or take a prefix within the limits that does not cross a fork |
| Proposers.Rollup.ProposeChunk | rollup/internal/controller/watcher/chunk_proposer.go:147-266 | the database stays valid, and the new chunk is the one decided on |
| Proposers.Rollup.InsertBatch | rollup/internal/controller/watcher/batch_proposer.go:134-154 | the batch is recorded and its chunks marked in one step, or nothing changes; it fails only with the database or for a batch that cannot be built |
| Proposers.Rollup.SelectChunks | rollup/internal/controller/watcher/batch_proposer.go:157-182 | as many unbatched chunks as the limit allows, up to the first later one that starts at a fork |
| Proposers.Rollup.BatchCandidates | rollup/internal/controller/watcher/batch_proposer.go:157-211 | the candidates' blocks, and from the parent's header the counter before the first of them; that header always decodes |
| Proposers.Rollup.PlanBatch | rollup/internal/controller/watcher/batch_proposer.go:156-267 | nothing to do exactly when all chunks are batched; wait when all fit and are not due; otherwise fail, or take the longest prefix within the limits |
| Proposers.Rollup.ProposeBatch | rollup/internal/controller/watcher/batch_proposer.go:134-267 | the database stays valid, and the new batch is the longest prefix of the considered chunks within the limits; it fails only with the database, when the loop fails, or when that prefix cannot be built |
| Proposers.ProposedBuilds | common/types/encoding/codecv1/codecv1.go:207-256 | the chunks that the proposer chooses can be built into a batch exactly when their L1 messages come in queue order and, under codecv1, they are at most 15 |
| Proposers.NeverTooMany | rollup/internal/controller/watcher/batch_proposer.go:157-182 | with a chunk limit from 1 to 15 they are never more |
| Proposers.Run | rollup/internal/controller/watcher/batch_proposer.go:134-267 | from genesis, over any interleaving of blocks and proposer rounds with failing transactions: chunks and batches tile without gap or overlap, covered chunks carry their batch's hash, counters thread, every stored header is that of its chunks, and every chunk and batch but the genesis ones is within all limits |
| Relayers.RebuiltHeader | rollup/internal/controller/relayer/l2_relayer.go:743-770 | the batch that the relayer rebuilds from the rows to commit or finalize has exactly the stored header and hash |
| Relayers.ChunksShareCodec | rollup/internal/controller/relayer/l2_relayer.go:377 | every chunk of a batch was encoded with the codec that the relayer picks for the batch |
| Relayers.BlobOfBatch | rollup/internal/controller/relayer/l2_relayer.go:743-770 | the blob sent with a codecv1 batch has the hash in its header and reads back as the L2 transactions of its chunks |
| Relayers.EncodeRows | rollup/internal/controller/relayer/l2_relayer.go:756-764 | every chunk of the payload is its row's blocks encoded at the row's counter |
| Relayers.ConstructCommitPayload | rollup/internal/controller/relayer/l2_relayer.go:348-388 | refused exactly for the genesis batch; for every other stored batch it has the parent's header, the version and bitmap of the stored header, the encoded chunks and the blob |
| Relayers.CommittedBlockRange | bridge-history-api/internal/utils/utils.go:97-115 | the block range that the bridge history reads from the relayer's payload is the batch's range exactly when its last chunk has at most 255 blocks |
| MessageQueues.HeaderOfBatch | common/types/encoding/codecv1/codecv1.go:207-256 | the stored header of a batch decodes to the counter where its messages end and a bitmap that names what they skip |
| MessageQueues.SkippedSplits | common/types/encoding/bitmap.go:11-64 | for messages in queue order, what is skipped splits at the index between any two parts |
| MessageQueues.QueueConserved | rollup/internal/orm/batch.go:222-288 | over the whole chain of any valid database, the messages of all batched chunks come in queue order from message 0, and the stored headers alone name, in order, exactly the messages below the last counter that no chunk carries |
| MessageQueues.CarriedOrSkipped | common/types/encoding/bitmap.go:33-51 | every message below the counter is carried or skipped, never both |
| Fees.ResubmitDynamicFee | rollup/internal/controller/sender/sender.go:354-391 | the caps are escalated, raised to the current base fee's need, capped, and moved by one when unchanged |
| Fees.BumpRaises | rollup/internal/controller/sender/sender.go:354-391 | each cap is raised exactly when it was within the limit; the fee exceeds the limit by at most one; the tip stays within the fee, as the Specification section of EIP-1559 asks, except from a fee beyond the limit with the tip at it |
| Fees.TipPassesFee | rollup/internal/controller/sender/sender.go:370-388 | from that exception the next tip is one above the next fee |
| Fees.TipPassesFeeReached | rollup/internal/controller/sender/sender.go:354-391 | from the fee at the limit and a tip below it that escalates to the limit, two resubmissions end with the tip above the fee, whatever the base fees |
| Fees.LimitReached | rollup/internal/controller/sender/sender.go:354-391 | whatever the base fees, after k resubmissions or fewer the fee is k higher, so the limit is reached within as many as the fee is below it |
| Fees.ResubmitLegacy | rollup/internal/controller/sender/sender.go:338-352 | the price is raised exactly when it was within the limit, and exceeds it by at most one |
| Fees.ResubmitBlob | rollup/internal/controller/sender/sender.go:396-435 | the caps are doubled, raised to the base fees' need and capped; each grows exactly when it is below its limit and there is something to double or follow |
| Senders.Sender.CreateAndSend | rollup/internal/controller/sender/sender.go:215-319 | an accepted transaction takes the next nonce; a rejected one changes nothing; a nonce error resets the nonce, which keeps the sender in order exactly when no row and no transaction in flight has that nonce or a higher one |
| Senders.Sender.InsertPending | rollup/internal/controller/sender/sender.go:208-212 | the sent transaction becomes a pending row, unless the database fails or has its hash |
| Senders.Sender.LoadPendingOrReplaced | rollup/internal/orm/pending_transaction.go:73-86 | the check starts with pending or replaced rows and the statuses they have |
| Senders.Sender.ConfirmNext | rollup/internal/controller/sender/sender.go:491-518 | a final receipt confirms the row, fails its rivals and emits one confirmation, or nothing changes |
| Senders.Sender.ReplaceNext | rollup/internal/controller/sender/sender.go:543-561 | a resent transaction replaces its original, unless the database fails or has the new hash |
| Senders.Sender.CheckNext | rollup/internal/controller/sender/sender.go:483-564 | a loaded row is confirmed, resubmitted or left alone by its receipt, age and current status |
| Senders.AtMostOnePerNonce | rollup/internal/controller/sender/sender.go:462-565 | of every nonce at most one row is pending, at most one confirmed and at most one confirmation emitted; once confirmed none is pending or replaced |
| Senders.Run | rollup/internal/controller/sender/sender.go:462-565 | every run of sends, resubmissions, confirmations and mined transactions keeps this, unless a reset went to or below the nonce of a row or of a transaction in flight |
| Senders.BreakPromise | rollup/internal/controller/sender/sender.go:311-319 | after such a reset, for whatever row or transaction it is, sending on up to that nonce, with the transactions before the last recorded or not, ends with two pending rows of it or a pending one beside a confirmed one |
| Senders.TwoPending | rollup/internal/controller/sender/sender.go:311-319 | from a new sender: a recorded transaction, a reset to its nonce and another transaction leave two pending rows of the nonce |
| Coordinators.Coordinator.FindChunk | coordinator/internal/orm/chunk.go:73-103 | the first chunk of the status in the block range with attempts left |
| Coordinators.Coordinator.Read | coordinator/internal/logic/provertask/chunk_prover_task.go:83-105 | the worker keeps the index and counters of the first such chunk, assigned or unassigned as it asks, if there is one |
| Coordinators.Coordinator.CompareAndSwap | coordinator/internal/orm/chunk.go:378-394 | it succeeds exactly when both counters are those read, and then the chunk was assigned to nobody since the read; on a verified chunk exactly when the proof came in with no attempt active, the read saw none, and the total is the one read |
| Coordinators.Coordinator.InsertTask | coordinator/internal/logic/provertask/chunk_prover_task.go:129-145 | the prover task of a won attempt is stored and open, or the attempt is to be given back |
| Coordinators.Coordinator.FormatTask | coordinator/internal/logic/provertask/chunk_prover_task.go:147-152 | a task that cannot be formatted stays open while its attempt is to be given back |
| Coordinators.Coordinator.RecoverActiveAttempts | coordinator/internal/logic/provertask/chunk_prover_task.go:184-188 | the active attempt is given back, unless the chunk is verified, has none or the database fails |
| Coordinators.Coordinator.LoadTimeouts | coordinator/internal/orm/prover_task.go:185-199 | the collector loads open tasks only, at most ten |
| Coordinators.Coordinator.CheckTimeout | coordinator/internal/controller/cron/collect_proof.go:156-204 | a loaded task, open or not by now, is closed and its attempt given back; its chunk is marked failed exactly when it is exhausted and not assigned, so a verified one stays exactly when it has attempts left |
| Coordinators.Coordinator.ValidateSubmission | coordinator/internal/logic/submitproof/proof_receiver.go:224-288 | a submission is taken up exactly when its task is open and, unless it reports a failure, the chunk is not verified; otherwise the task is left as it is |
| Coordinators.Coordinator.UpdateProofStatus | coordinator/internal/logic/submitproof/proof_receiver.go:310-366 | the task is closed, its attempt given back and, with a valid proof, the chunk verified; a verified chunk stays as it is |
| Coordinators.Coordinator.CloseTask | coordinator/internal/logic/submitproof/proof_receiver.go:158-199 | a taken submission closes its task, gives the attempt back and, with a valid proof, verifies the chunk, or nothing changes; after a failure of a valid one the task is closed once more as invalid |
| Coordinators.Run | coordinator/internal/logic/provertask/chunk_prover_task.go:80-152 | under every interleaving active attempts stay within the session's provers and the total, the total within the session's attempts and equal to the number of assignments, no total decreases, the active attempts of a chunk neither verified nor failed are at most its open tasks and its attempts without a task that were not given back, and a settled chunk (verified, matched by no snapshot, with attempts left or no task that can time out) stays as it is |
| Coordinators.Unsettle | coordinator/internal/orm/chunk.go:320-334 | any other verified chunk can still be failed, when its attempts are used up, or assigned again |
| Coordinators.VerifiedIsSettled | coordinator/internal/orm/chunk.go:378-394 | in every reachable state, a verified chunk whose proof came in while an attempt was active is settled exactly when it has attempts left or no task of it can time out |
| Coordinators.VerifiedThenFailed | coordinator/internal/logic/submitproof/proof_receiver.go:280-287 | from a new coordinator with two attempts: the first proof verifies the chunk, the second is not taken up, and the timeout of its open task marks the chunk failed |
| Coordinators.VerifiedAfterLoading | coordinator/internal/controller/cron/collect_proof.go:135-141 | from a new coordinator with one attempt: a proof that comes in after the collector loaded its task verifies the chunk, which is then marked failed |
| Coordinators.VerifiedThenAssigned | coordinator/internal/logic/provertask/chunk_prover_task.go:147-152 | from a new coordinator: a task that could not be formatted is given back and later times out, which gives back another prover's attempt; that prover's proof verifies the chunk, and the swap of a worker that read the chunk in between assigns it again |

## Left out

- Keccak, SHA-256, KZG commitments and proofs, signatures: parameters or not modelled; the challenge point of the blob and the finalize proof are not part of this model.
- RLP, ABI and JSON encodings, the genesis-import case of the calldata reader, SQL, RPC clients, metrics, configuration and command lines.
- WithdrawTries.CacheBranches: does not say that nothing but the needed siblings is cached; the proofs read only those.
- CrossMessages.FetcherOrderIrrelevant: failed transactions and proof updates are not among the interleaved statements, and a statement that fails half-way is not; a message hash belongs to one direction, and with queue events every stored row has the type of its direction.
- L2Data.NumL1MessagesOfBlock: queue index 2^64 - 1, after which the code's next index wraps to 0, is excluded by the type `QueueIndex`: the queue would have to hold all 2^64 messages.
- SkippedBitmaps.ProcessMessage: queue index 2^64 - 1 is excluded likewise.
- SkippedBitmaps.ConstructSkippedBitmap: queue index 2^64 - 1 is excluded likewise.
- Blobs.ConstructBlobPayload: the challenge point that the code also returns is not part of this model.
- Estimates.EstimateBatchL1CommitGas: naturals without 64-bit wrap-around in the sums, products and quotients, while the message counters wrap.
- Estimates.MemoryCostMonotone: naturals, so the wrapping square of a size beyond 2^32 words is not modelled.
- Estimates.BatchGasGrows: naturals, so a sum beyond 2^64 does not wrap.
- Estimates.TotalGrows: naturals, so a sum beyond 2^64 does not wrap.
- Estimates.BlobSizeGrows: naturals, so a sum beyond 2^64 does not wrap.
- Estimates.Accumulate: one loop stands for the estimators' own loops, which differ only in what they add.
- Proposers.Grow: one loop stands for the two proposers' loops; the gas multiplier is any function, monotone for the longest-prefix result, and the row consumption of a chunk is a parameter.
- Proposers.Rollup.InsertChunk: the block's chunk hash, the state and withdraw roots and the status columns are not modelled.
- Proposers.Rollup.InsertBatch: an error leaves the database unchanged; the process crash on the nil row that the code logs in that case is not modelled.
- Proposers.Run: tables hold fewer than 2^64 rows and query limits are below 2^63; a chunk size of zero, which lifts the limit, is excluded, since chunks then cross forks (`Proposers.ForkCutIff`); the proving, rollup and oracle statuses of rows are not modelled.
- EventUpdates.Run: finalized batches come in order from the genesis batch, withdrawals are in blocks from 1 on; L2 reorganisations and commit or revert events of batches are not modelled, and a relayed record comes without an L2 block and nonce. A history started at a later height, whose first batch is not the genesis batch, is not modelled. A stored proof too short to climb along, which stops the code with an index out of range, makes the update fail here.
- Senders.Run: one sender with its own address; rows without fee columns; the success flag of a confirmation and a lost confirmation are not modelled.
- Senders.Sender.LoadPendingOrReplaced: any distinct pending or replaced rows may be loaded, of which the query's order and limit are one choice.
- Coordinators.Run: the five retries of an assignment, provers and their keys, and batch tasks are not modelled; a worker may read and swap, and an open task be submitted to or loaded, at any time; a submission is for the chunk of its own task.
- Coordinators.Coordinator.Read: that a worker asks for assigned chunks first is not modelled; it may ask for either kind.
- Forks.CollectSortedForkHeights: the list of forks is any list with distinct names, of which the configured one is an instance.
- The history pagination cache, the prover's task stack, the gas oracle, the chain monitor and the L1 watcher: they work on data of their own (cached pages, task bytes, gas prices and oracle statuses, L1 blocks), which no operation modelled here reads.
