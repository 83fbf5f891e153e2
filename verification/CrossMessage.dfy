/** The cross-message table of the bridge history: two fetchers, one per chain, write the same rows. */
module CrossMessages {
  import opened Bytes

  datatype MessageType = UnknownMessage | L1SentMessage | L2SentMessage

  datatype TxStatus = Sent | SentTxReverted | Relayed | FailedRelayed | RelayTxReverted | Skipped | Dropped {
    predicate Terminal() {
      Relayed? || Dropped?
    }
  }

  datatype RollupStatus = UnknownRollup | Finalized

  /** Columns both kinds of sent records write together. */
  datatype Transfer = Transfer(
    sender: string, receiver: string, tokenType: nat, l1TokenAddress: string, l2TokenAddress: string,
    tokenIDs: string, tokenAmounts: string, blockTimestamp: nat)

  /** The claim columns of a withdrawal, all but the nonce. */
  datatype Claim = Claim(from: string, to: string, value: string, data: string)

  datatype Row = Row(
    messageHash: Hash, messageType: MessageType, rollupStatus: RollupStatus, txStatus: TxStatus,
    transfer: Transfer, claim: Claim, messageNonce: nat,
    l1BlockNumber: nat, l1TxHash: string, l2BlockNumber: nat, l2TxHash: string,
    l1ReplayTxHash: string, l1RefundTxHash: string, merkleProof: seq<byte>, batchIndex: nat)

  /** The table: `message_hash` is its unique key. */
  type Table = map<Hash, Row>

  ghost predicate Keyed(t: Table) {
    forall h :: h in t ==> t[h].messageHash == h
  }

  /** A chain. A deposit is sent on L1 and relayed on L2, a withdrawal the other way round. */
  datatype Chain = L1 | L2

  function BlockNumber(chain: Chain, r: Row): nat {
    if chain.L1? then r.l1BlockNumber else r.l2BlockNumber
  }

  // ---------- Statements ----------

  /** What a conflicting sent record overwrites; the transaction status is not among it. */
  function OverwriteSent(sentOn: Chain, existing: Row, r: Row): Row {
    var common := existing.(transfer := r.transfer, messageType := r.messageType, messageNonce := r.messageNonce);
    match sentOn
    case L1 => common.(l1BlockNumber := r.l1BlockNumber, l1TxHash := r.l1TxHash)
    case L2 => common.(l2BlockNumber := r.l2BlockNumber, l2TxHash := r.l2TxHash, claim := r.claim)
  }

  /** What a conflicting relayed record overwrites, unless the status is terminal. */
  function OverwriteRelayed(relayedOn: Chain, existing: Row, r: Row): Row {
    if existing.txStatus.Terminal() then existing
    else
      var common := existing.(messageType := r.messageType, txStatus := r.txStatus);
      match relayedOn
      case L1 => common.(l1BlockNumber := r.l1BlockNumber, l1TxHash := r.l1TxHash)
      case L2 => common.(l2BlockNumber := r.l2BlockNumber, l2TxHash := r.l2TxHash)
  }

  /** `INSERT ... ON CONFLICT (message_hash) DO UPDATE` of one record per key. */
  function UpsertSent(sentOn: Chain, t: Table, records: Table): Table {
    map h | h in t.Keys + records.Keys ::
      if h !in records then t[h] else if h !in t then records[h] else OverwriteSent(sentOn, t[h], records[h])
  }

  function UpsertRelayed(relayedOn: Chain, t: Table, records: Table): Table {
    map h | h in t.Keys + records.Keys ::
      if h !in records then t[h] else if h !in t then records[h] else OverwriteRelayed(relayedOn, t[h], records[h])
  }

  /** `ON CONFLICT DO NOTHING`. */
  function InsertIgnore(t: Table, records: Table): Table {
    records + t
  }

  datatype QueueEvent =
    | QueueTransaction(messageHash: Hash, txHash: string)
    | DequeueTransaction(queueIndex: nat)
    | DropTransaction(queueIndex: nat, txHash: string)

  /** The guarded status update of one queue event. */
  function ApplyStatus(e: QueueEvent, r: Row): Row {
    match e
    case QueueTransaction(_, _) => r
    case DequeueTransaction(index) =>
      if !r.txStatus.Terminal() && r.messageNonce == index && r.messageType.L1SentMessage?
      then r.(txStatus := Skipped) else r
    case DropTransaction(index, _) =>
      if !r.txStatus.Terminal() && r.messageNonce == index && r.messageType.L1SentMessage?
      then r.(txStatus := Dropped) else r
  }

  function ApplyTxHash(e: QueueEvent, r: Row): Row {
    match e
    case QueueTransaction(hash, txHash) => if r.messageHash == hash then r.(l1ReplayTxHash := txHash) else r
    case DequeueTransaction(_) => r
    case DropTransaction(index, txHash) =>
      if r.messageNonce == index && r.messageType.L1SentMessage? then r.(l1RefundTxHash := txHash) else r
  }

  function UpdateStatuses(t: Table, events: seq<QueueEvent>): (t': Table)
    ensures t'.Keys == t.Keys
    decreases |events|
  {
    if events == [] then t
    else
      var before := UpdateStatuses(t, events[..|events| - 1]);
      map h | h in before :: ApplyStatus(events[|events| - 1], before[h])
  }

  function UpdateTxHashes(t: Table, events: seq<QueueEvent>): (t': Table)
    ensures t'.Keys == t.Keys
    decreases |events|
  {
    if events == [] then t
    else
      var before := UpdateTxHashes(t, events[..|events| - 1]);
      map h | h in before :: ApplyTxHash(events[|events| - 1], before[h])
  }

  // ---------- Merging relayed records ----------

  /** Keeps one record per message: a later record wins if it is relayed or of a higher block. */
  function Merge(relayedOn: Chain, records: seq<Row>): (merged: Table)
    ensures Keyed(merged)
    decreases |records|
  {
    if records == [] then map[]
    else
      var merged := Merge(relayedOn, records[..|records| - 1]);
      var r := records[|records| - 1];
      if r.messageHash in merged && !r.txStatus.Relayed? &&
         BlockNumber(relayedOn, r) <= BlockNumber(relayedOn, merged[r.messageHash])
      then merged
      else merged[r.messageHash := r]
  }

  /** The merge has one entry for every message, and each entry is one of its records. */
  lemma {:induction false} MergeSelects(relayedOn: Chain, records: seq<Row>, h: Hash)
    ensures h in Merge(relayedOn, records) <==> exists i :: 0 <= i < |records| && records[i].messageHash == h
    ensures h in Merge(relayedOn, records) ==> Merge(relayedOn, records)[h] in records
  {
    if records != [] {
      var front := records[..|records| - 1];
      MergeSelects(relayedOn, front, h);
      var last := |records| - 1;
      assert records[last].messageHash == h ==> h in Merge(relayedOn, records);
      if h in Merge(relayedOn, front) {
        var i :| 0 <= i < |front| && front[i].messageHash == h;
        assert records[i].messageHash == h;
      }
    }
  }

  /** Record `p` is the last relayed record of message `h`, and none after it has a higher block. */
  ghost predicate UnbeatenRelay(relayedOn: Chain, records: seq<Row>, h: Hash, p: nat) {
    && p < |records| && records[p].messageHash == h && records[p].txStatus.Relayed?
    && forall q :: p < q < |records| && records[q].messageHash == h ==>
         !records[q].txStatus.Relayed? && BlockNumber(relayedOn, records[q]) <= BlockNumber(relayedOn, records[p])
  }

  lemma {:induction false} UnbeatenRelayWins(relayedOn: Chain, records: seq<Row>, h: Hash, p: nat)
    requires UnbeatenRelay(relayedOn, records, h, p)
    ensures h in Merge(relayedOn, records) && Merge(relayedOn, records)[h] == records[p]
  {
    var front := records[..|records| - 1];
    if p < |front| {
      UnbeatenRelayWins(relayedOn, front, h, p);
    }
  }

  /** The merge keeps a relayed record of a message exactly when its last relayed record is not
      followed by a record of a higher block. */
  lemma {:induction false} MergeKeepsRelayedIff(relayedOn: Chain, records: seq<Row>, h: Hash)
    ensures (h in Merge(relayedOn, records) && Merge(relayedOn, records)[h].txStatus.Relayed?)
            <==> exists p :: UnbeatenRelay(relayedOn, records, h, p)
  {
    if p :| UnbeatenRelay(relayedOn, records, h, p) {
      UnbeatenRelayWins(relayedOn, records, h, p);
    } else if records != [] && h in Merge(relayedOn, records) && Merge(relayedOn, records)[h].txStatus.Relayed? {
      var front, last := records[..|records| - 1], |records| - 1;
      if Merge(relayedOn, records)[h] == records[last] && records[last].messageHash == h {
        assert UnbeatenRelay(relayedOn, records, h, last);
      } else {
        MergeKeepsRelayedIff(relayedOn, front, h);
        var p :| UnbeatenRelay(relayedOn, front, h, p);
        UnbeatenRelayWins(relayedOn, front, h, p);
        assert UnbeatenRelay(relayedOn, records, h, p);
      }
    }
  }

  /** A relayed record is lost to a later record of a higher block that is not relayed. */
  lemma {:induction false} MergeLosesRelayed(relayedOn: Chain, relayed: Row, later: Row)
    requires relayed.messageHash == later.messageHash && relayed.txStatus.Relayed? && !later.txStatus.Relayed?
    requires BlockNumber(relayedOn, relayed) < BlockNumber(relayedOn, later)
    ensures later.messageHash in Merge(relayedOn, [relayed, later])
    ensures Merge(relayedOn, [relayed, later])[later.messageHash] == later
  {
    assert [relayed, later][..1] == [relayed];
    assert Merge(relayedOn, [relayed]) == map[relayed.messageHash := relayed];
  }

  // ---------- Runs of statements ----------

  datatype Statement =
    | StoreSent(sentOn: Chain, records: seq<Row>)
    | StoreRelayed(relayedOn: Chain, records: seq<Row>)
    | StoreFailedTxs(records: seq<Row>)
    | StoreQueueEvents(events: seq<QueueEvent>)
    | StampProofs(stamps: map<Hash, (nat, seq<byte>)>)

  ghost predicate Distinct(records: seq<Row>) {
    forall i, j :: 0 <= i < j < |records| ==> records[i].messageHash != records[j].messageHash
  }

  /** The first record of every key. */
  function ByKey(records: seq<Row>): (t: Table)
    ensures Keyed(t)
    ensures forall i :: 0 <= i < |records| ==> records[i].messageHash in t
    ensures forall h :: h in t ==> t[h] in records
    decreases |records|
  {
    if records == [] then map[]
    else
      var rest := ByKey(records[..|records| - 1]);
      var r := records[|records| - 1];
      if r.messageHash in rest then rest else rest[r.messageHash := r]
  }

  /** Writes batch index, finalized status and proof of the given messages. */
  function Stamp(t: Table, stamps: map<Hash, (nat, seq<byte>)>): Table {
    map h | h in t :: if h in stamps
      then t[h].(rollupStatus := Finalized, batchIndex := stamps[h].0, merkleProof := stamps[h].1) else t[h]
  }

  /** One statement. A conflict update that would touch a row twice fails and changes nothing. */
  ghost function Execute(t: Table, s: Statement): Table {
    match s
    case StoreSent(chain, records) => if Distinct(records) then UpsertSent(chain, t, ByKey(records)) else t
    case StoreRelayed(chain, records) => UpsertRelayed(chain, t, Merge(chain, records))
    case StoreFailedTxs(records) => InsertIgnore(t, ByKey(records))
    case StoreQueueEvents(events) => UpdateTxHashes(UpdateStatuses(t, events), events)
    case StampProofs(stamps) => Stamp(t, stamps)
  }

  ghost function Run(t: Table, run: seq<Statement>): Table {
    if run == [] then t else Execute(Run(t, run[..|run| - 1]), run[|run| - 1])
  }

  lemma {:induction false} QueueEventsKeepTerminal(t: Table, events: seq<QueueEvent>, h: Hash)
    requires h in t && t[h].txStatus.Terminal()
    ensures UpdateStatuses(t, events)[h] == t[h]
    decreases |events|
  {
    if events != [] {
      QueueEventsKeepTerminal(t, events[..|events| - 1], h);
    }
  }

  lemma {:induction false} TxHashesKeepStatus(t: Table, events: seq<QueueEvent>, h: Hash)
    requires h in t
    ensures UpdateTxHashes(t, events)[h].txStatus == t[h].txStatus
    decreases |events|
  {
    if events != [] {
      TxHashesKeepStatus(t, events[..|events| - 1], h);
    }
  }

  lemma {:induction false} TerminalKept(t: Table, s: Statement, h: Hash)
    requires h in t && t[h].txStatus.Terminal()
    ensures h in Execute(t, s) && Execute(t, s)[h].txStatus == t[h].txStatus
  {
    if s.StoreQueueEvents? {
      QueueEventsKeepTerminal(t, s.events, h);
      TxHashesKeepStatus(UpdateStatuses(t, s.events), s.events, h);
    }
  }

  /** Once relayed or dropped, a message keeps that status for ever, whatever either fetcher stores. */
  lemma {:induction false} TerminalForever(t: Table, run: seq<Statement>, h: Hash)
    requires h in t && t[h].txStatus.Terminal()
    ensures h in Run(t, run) && Run(t, run)[h].txStatus == t[h].txStatus
    decreases |run|
  {
    if run != [] {
      TerminalForever(t, run[..|run| - 1], h);
      TerminalKept(Run(t, run[..|run| - 1]), run[|run| - 1], h);
    }
  }

  // ---------- Order of the two fetchers ----------

  function Other(chain: Chain): Chain {
    if chain.L1? then L2 else L1
  }

  function SentType(sentOn: Chain): MessageType {
    if sentOn.L1? then L1SentMessage else L2SentMessage
  }

  /** Two records of one message that agree on every column neither kind of upsert overwrites. */
  predicate AgreeElsewhere(sentOn: Chain, sent: Row, relayed: Row) {
    && sent.rollupStatus == relayed.rollupStatus
    && (sentOn.L1? ==> sent.claim == relayed.claim)
    && sent.l1ReplayTxHash == relayed.l1ReplayTxHash && sent.l1RefundTxHash == relayed.l1RefundTxHash
    && sent.merkleProof == relayed.merkleProof && sent.batchIndex == relayed.batchIndex
  }

  const NO_CLAIM := Claim("", "", "", "")

  /** A record as the event parser of the sending chain makes it. */
  predicate IsSentRecord(sentOn: Chain, r: Row) {
    && r.messageType == SentType(sentOn) && r.txStatus.Sent? && r.rollupStatus.UnknownRollup?
    && (sentOn.L1? ==> r.claim == NO_CLAIM)
    && r.l1ReplayTxHash == "" && r.l1RefundTxHash == "" && r.merkleProof == [] && r.batchIndex == 0
  }

  /** A record as the event parser of the relaying chain makes it: hash, block, transaction, status, type. */
  predicate IsRelayedRecord(sentOn: Chain, r: Row) {
    && r.messageType == SentType(sentOn) && r.rollupStatus.UnknownRollup?
    && r.claim == NO_CLAIM
    && r.l1ReplayTxHash == "" && r.l1RefundTxHash == "" && r.merkleProof == [] && r.batchIndex == 0
  }

  /** For a message not stored yet, sent-then-relayed and relayed-then-sent give the same row
      exactly when the two records agree on the columns no upsert overwrites. */
  lemma {:induction false} RowOrderIrrelevantIff(sentOn: Chain, sent: Row, relayed: Row)
    requires sent.messageHash == relayed.messageHash && sent.messageType == relayed.messageType
    requires sent.txStatus.Sent?
    ensures OverwriteRelayed(Other(sentOn), sent, relayed) == OverwriteSent(sentOn, relayed, sent)
            <==> AgreeElsewhere(sentOn, sent, relayed)
  {
    var a := OverwriteRelayed(Other(sentOn), sent, relayed);
    var b := OverwriteSent(sentOn, relayed, sent);
    assert a.rollupStatus == sent.rollupStatus && b.rollupStatus == relayed.rollupStatus;
    assert a.merkleProof == sent.merkleProof && b.merkleProof == relayed.merkleProof;
    assert a.l1ReplayTxHash == sent.l1ReplayTxHash && b.l1ReplayTxHash == relayed.l1ReplayTxHash;
    assert a.l1RefundTxHash == sent.l1RefundTxHash && b.l1RefundTxHash == relayed.l1RefundTxHash;
    assert a.batchIndex == sent.batchIndex && b.batchIndex == relayed.batchIndex;
    assert a.claim == sent.claim && b.claim == if sentOn.L1? then relayed.claim else sent.claim;
  }

  /** What the fetcher of a chain stores: messages sent on its chain, relays of messages of the other chain and, on L1,
      events of the message queue. `origin` tells on which chain a message was sent. */
  ghost predicate By(origin: Hash -> Chain, chain: Chain, s: Statement) {
    match s
    case StoreSent(on, records) =>
      on == chain && forall r :: r in records ==> IsSentRecord(chain, r) && origin(r.messageHash) == chain
    case StoreRelayed(on, records) =>
      on == chain && forall r :: r in records ==>
          IsRelayedRecord(Other(chain), r) && origin(r.messageHash) == Other(chain)
    case StoreQueueEvents(events) =>
      chain.L1? && forall e :: e in events && e.QueueTransaction? ==> origin(e.messageHash).L1?
    case _ => false
  }

  ghost predicate ByFetchers(origin: Hash -> Chain, run: seq<Statement>) {
    forall i :: 0 <= i < |run| ==> By(origin, L1, run[i]) || By(origin, L2, run[i])
  }

  lemma {:induction false} OverwritesCommute(sentOn: Chain, existing: Row, sent: Row, relayed: Row)
    requires sent.messageType == relayed.messageType
    ensures OverwriteRelayed(Other(sentOn), OverwriteSent(sentOn, existing, sent), relayed)
            == OverwriteSent(sentOn, OverwriteRelayed(Other(sentOn), existing, relayed), sent)
  {
  }

  lemma {:induction false} UpsertsCommute(sentOn: Chain, t: Table, sent: Table, relayed: Table)
    requires Keyed(sent) && Keyed(relayed)
    requires forall h :: h in sent ==> IsSentRecord(sentOn, sent[h])
    requires forall h :: h in relayed ==> IsRelayedRecord(sentOn, relayed[h])
    ensures UpsertRelayed(Other(sentOn), UpsertSent(sentOn, t, sent), relayed)
            == UpsertSent(sentOn, UpsertRelayed(Other(sentOn), t, relayed), sent)
  {
    hide OverwriteSent, OverwriteRelayed;
    var a := UpsertRelayed(Other(sentOn), UpsertSent(sentOn, t, sent), relayed);
    var b := UpsertSent(sentOn, UpsertRelayed(Other(sentOn), t, relayed), sent);
    forall h | h in a ensures h in b && a[h] == b[h] {
      if h in sent && h in relayed {
        if h in t {
          OverwritesCommute(sentOn, t[h], sent[h], relayed[h]);
        } else {
          RowOrderIrrelevantIff(sentOn, sent[h], relayed[h]);
        }
      }
    }
    assert a.Keys == b.Keys;
  }

  /** The records of a statement, by message. */
  ghost function UpsertedBy(s: Statement): Table
    requires s.StoreSent? || s.StoreRelayed?
  {
    if s.StoreSent? then ByKey(s.records) else Merge(s.relayedOn, s.records)
  }

  lemma {:induction false} RecordsBy(origin: Hash -> Chain, chain: Chain, s: Statement, h: Hash)
    requires By(origin, chain, s) && !s.StoreQueueEvents? && h in UpsertedBy(s)
    ensures s.StoreSent? ==> origin(h) == chain && IsSentRecord(chain, UpsertedBy(s)[h])
    ensures s.StoreRelayed? ==> origin(h) == Other(chain) && IsRelayedRecord(Other(chain), UpsertedBy(s)[h])
  {
    if s.StoreRelayed? {
      MergeSelects(s.relayedOn, s.records, h);
    }
    assert UpsertedBy(s)[h] in s.records && UpsertedBy(s)[h].messageHash == h;
  }

  /** A sent and a relayed record of the same direction ... */
  lemma {:induction false} SentAndRelayedCommute(origin: Hash -> Chain, sentOn: Chain, t: Table, s: Statement,
      r: Statement)
    requires By(origin, sentOn, s) && s.StoreSent? && By(origin, Other(sentOn), r) && r.StoreRelayed?
    ensures Execute(Execute(t, s), r) == Execute(Execute(t, r), s)
  {
    hide UpsertSent, UpsertRelayed, ByKey, Merge;
    if Distinct(s.records) {
      forall h | h in UpsertedBy(s) ensures IsSentRecord(sentOn, UpsertedBy(s)[h]) {
        RecordsBy(origin, sentOn, s, h);
      }
      forall h | h in UpsertedBy(r) ensures IsRelayedRecord(sentOn, UpsertedBy(r)[h]) {
        RecordsBy(origin, Other(sentOn), r, h);
      }
      UpsertsCommute(sentOn, t, UpsertedBy(s), UpsertedBy(r));
    }
  }

  ghost predicate SameAt(a: Table, b: Table, h: Hash) {
    (h in a <==> h in b) && (h in a ==> a[h] == b[h])
  }

  lemma {:induction false} SameEverywhere(a: Table, b: Table)
    requires forall h :: SameAt(a, b, h)
    ensures a == b
  {
    forall h ensures h in a <==> h in b {
      assert SameAt(a, b, h);
    }
    forall h | h in a ensures a[h] == b[h] {
      assert SameAt(a, b, h);
    }
    assert a.Keys == b.Keys;
  }

  /** An upsert touches only its own messages, and a row it leaves depends only on the row it finds. */
  lemma {:induction false} UpsertIsLocal(a: Table, b: Table, s: Statement, h: Hash)
    requires s.StoreSent? || s.StoreRelayed?
    ensures h !in UpsertedBy(s) ==> SameAt(Execute(a, s), a, h)
    ensures SameAt(a, b, h) ==> SameAt(Execute(a, s), Execute(b, s), h)
  {
    hide OverwriteSent, OverwriteRelayed, ByKey, Merge, Distinct;
  }

  /** ... commute, and so do records of different messages. */
  lemma {:induction false} DisjointCommute(t: Table, s: Statement, r: Statement)
    requires (s.StoreSent? || s.StoreRelayed?) && (r.StoreSent? || r.StoreRelayed?)
    requires UpsertedBy(s).Keys !! UpsertedBy(r).Keys
    ensures Execute(Execute(t, s), r) == Execute(Execute(t, r), s)
  {
    hide Execute, UpsertedBy;
    var a, b := Execute(Execute(t, s), r), Execute(Execute(t, r), s);
    forall h ensures SameAt(a, b, h) {
      UpsertIsLocal(t, Execute(t, r), s, h);
      UpsertIsLocal(t, Execute(t, s), r, h);
      UpsertIsLocal(Execute(t, s), t, r, h);
      UpsertIsLocal(Execute(t, r), t, s, h);
    }
    SameEverywhere(a, b);
  }

  lemma {:induction false} FetchersCommute(origin: Hash -> Chain, t: Table, s: Statement, r: Statement)
    requires By(origin, L1, s) && !s.StoreQueueEvents? && By(origin, L2, r)
    ensures Execute(Execute(t, s), r) == Execute(Execute(t, r), s)
  {
    hide Execute, UpsertedBy;
    if s.StoreSent? && r.StoreRelayed? {
      SentAndRelayedCommute(origin, L1, t, s, r);
    } else if s.StoreRelayed? && r.StoreSent? {
      SentAndRelayedCommute(origin, L2, t, r, s);
    } else {
      forall h | h in UpsertedBy(s) ensures h !in UpsertedBy(r) {
        RecordsBy(origin, L1, s, h);
        if h in UpsertedBy(r) {
          RecordsBy(origin, L2, r, h);
        }
      }
      DisjointCommute(t, s, r);
    }
  }

  lemma RunNothing(t: Table)
    ensures Run(t, []) == t
  {
  }

  lemma {:induction false} RunSnoc(t: Table, run: seq<Statement>, s: Statement)
    ensures Run(t, run + [s]) == Execute(Run(t, run), s)
  {
    assert (run + [s])[..|run + [s]| - 1] == run;
  }

  // ---------- Queue events ----------

  function ApplyStatuses(events: seq<QueueEvent>, r: Row): Row {
    if events == [] then r else ApplyStatus(events[|events| - 1], ApplyStatuses(events[..|events| - 1], r))
  }

  function ApplyTxHashes(events: seq<QueueEvent>, r: Row): Row {
    if events == [] then r else ApplyTxHash(events[|events| - 1], ApplyTxHashes(events[..|events| - 1], r))
  }

  /** What storing queue events does to a row. */
  function ApplyEvents(events: seq<QueueEvent>, r: Row): Row {
    ApplyTxHashes(events, ApplyStatuses(events, r))
  }

  function ApplyToAll(events: seq<QueueEvent>, t: Table): Table {
    map h | h in t :: ApplyEvents(events, t[h])
  }

  lemma {:induction false} StatusesByRow(t: Table, events: seq<QueueEvent>, h: Hash)
    requires h in t
    ensures UpdateStatuses(t, events)[h] == ApplyStatuses(events, t[h])
    decreases |events|
  {
    hide ApplyStatus;
    if events != [] {
      StatusesByRow(t, events[..|events| - 1], h);
    }
  }

  lemma {:induction false} TxHashesByRow(t: Table, events: seq<QueueEvent>, h: Hash)
    requires h in t
    ensures UpdateTxHashes(t, events)[h] == ApplyTxHashes(events, t[h])
    decreases |events|
  {
    hide ApplyTxHash;
    if events != [] {
      TxHashesByRow(t, events[..|events| - 1], h);
    }
  }

  lemma {:induction false} EventsByRow(t: Table, events: seq<QueueEvent>)
    ensures Execute(t, StoreQueueEvents(events)) == ApplyToAll(events, t)
  {
    hide UpdateStatuses, UpdateTxHashes, ApplyStatuses, ApplyTxHashes;
    var u := UpdateStatuses(t, events);
    forall h | h in t ensures UpdateTxHashes(u, events)[h] == ApplyEvents(events, t[h]) {
      StatusesByRow(t, events, h);
      TxHashesByRow(u, events, h);
    }
  }

  predicate Drops(events: seq<QueueEvent>, index: nat) {
    exists e :: e in events && e.DropTransaction? && e.queueIndex == index
  }

  predicate Dequeues(events: seq<QueueEvent>, index: nat) {
    exists e :: e in events && e.DequeueTransaction? && e.queueIndex == index
  }

  /** The status that events leave a deposit with: a drop wins over dequeues, and nothing over a terminal status. */
  function StatusAfter(events: seq<QueueEvent>, r: Row): TxStatus {
    if r.txStatus.Terminal() then r.txStatus
    else if Drops(events, r.messageNonce) then Dropped
    else if Dequeues(events, r.messageNonce) then Skipped
    else r.txStatus
  }

  /** The last transaction hash of a replay of the message, or of a refund of the index. */
  function Replay(events: seq<QueueEvent>, hash: Hash, before: string): string {
    if events == [] then before
    else
      var e := events[|events| - 1];
      if e.QueueTransaction? && e.messageHash == hash then e.txHash else Replay(events[..|events| - 1], hash, before)
  }

  function Refund(events: seq<QueueEvent>, index: nat, before: string): string {
    if events == [] then before
    else
      var e := events[|events| - 1];
      if e.DropTransaction? && e.queueIndex == index then e.txHash else Refund(events[..|events| - 1], index, before)
  }

  lemma {:induction false} EventSnoc(events: seq<QueueEvent>, index: nat)
    requires events != []
    ensures var front, e := events[..|events| - 1], events[|events| - 1];
      && (Drops(events, index) <==> Drops(front, index) || (e.DropTransaction? && e.queueIndex == index))
      && (Dequeues(events, index) <==> Dequeues(front, index) || (e.DequeueTransaction? && e.queueIndex == index))
  {
    var front, e := events[..|events| - 1], events[|events| - 1];
    assert events == front + [e];
    assert e in events;
    if Drops(front, index) {
      var d :| d in front && d.DropTransaction? && d.queueIndex == index;
      assert d in events;
    }
    if Dequeues(front, index) {
      var d :| d in front && d.DequeueTransaction? && d.queueIndex == index;
      assert d in events;
    }
  }

  lemma {:induction false} StatusesOfDeposit(events: seq<QueueEvent>, r: Row)
    requires r.messageType.L1SentMessage?
    ensures ApplyStatuses(events, r) == r.(txStatus := StatusAfter(events, r))
    decreases |events|
  {
    hide Drops, Dequeues;
    if events == [] {
      NoEvents(r.messageNonce);
    } else {
      StatusesOfDeposit(events[..|events| - 1], r);
      EventSnoc(events, r.messageNonce);
    }
  }

  lemma NoEvents(index: nat)
    ensures !Drops([], index) && !Dequeues([], index)
  {
  }

  lemma {:induction false} TxHashesOfDeposit(events: seq<QueueEvent>, r: Row)
    requires r.messageType.L1SentMessage?
    ensures ApplyTxHashes(events, r) ==
      r.(l1ReplayTxHash := Replay(events, r.messageHash, r.l1ReplayTxHash),
         l1RefundTxHash := Refund(events, r.messageNonce, r.l1RefundTxHash))
    decreases |events|
  {
    if events != [] {
      TxHashesOfDeposit(events[..|events| - 1], r);
    }
  }

  /** A deposit after queue events. */
  lemma {:induction false} EventsOfDeposit(events: seq<QueueEvent>, r: Row)
    requires r.messageType.L1SentMessage?
    ensures ApplyEvents(events, r) ==
      r.(txStatus := StatusAfter(events, r),
         l1ReplayTxHash := Replay(events, r.messageHash, r.l1ReplayTxHash),
         l1RefundTxHash := Refund(events, r.messageNonce, r.l1RefundTxHash))
  {
    hide StatusAfter, Replay, Refund, ApplyStatuses, ApplyTxHashes;
    StatusesOfDeposit(events, r);
    TxHashesOfDeposit(events, r.(txStatus := StatusAfter(events, r)));
  }

  /** Queue events leave withdrawals alone. */
  lemma {:induction false} EventsOfWithdrawal(origin: Hash -> Chain, events: seq<QueueEvent>, r: Row)
    requires By(origin, L1, StoreQueueEvents(events))
    requires !r.messageType.L1SentMessage? && origin(r.messageHash).L2?
    ensures ApplyStatuses(events, r) == r && ApplyTxHashes(events, r) == r
    decreases |events|
  {
    if events != [] {
      var front := events[..|events| - 1];
      assert forall e :: e in front ==> e in events;
      assert events[|events| - 1] in events;
      EventsOfWithdrawal(origin, front, r);
    }
  }

  // ---------- Order of queue events and relays ----------

  /** Whether queue events and the relay `r` of the stored deposit `x` may come in either order: always on a terminal
      row; else a drop must not meet a relay that completes the deposit or writes another L2 transaction, nor a dequeue
      without a drop one that leaves the deposit open. */
  predicate EventsCommute(events: seq<QueueEvent>, x: Row, r: Row) {
    || x.txStatus.Terminal()
    || if Drops(events, x.messageNonce)
       then !r.txStatus.Relayed? && r.l2BlockNumber == x.l2BlockNumber && r.l2TxHash == x.l2TxHash
       else Dequeues(events, x.messageNonce) ==> r.txStatus.Terminal() || r.txStatus.Skipped?
  }

  /** Whether queue events leave the relay of a deposit that is not stored yet as it is. */
  predicate EventsSpare(events: seq<QueueEvent>, r: Row) {
    && (|| r.txStatus.Terminal()
        || (!Drops(events, r.messageNonce) && (Dequeues(events, r.messageNonce) ==> r.txStatus.Skipped?)))
    && Replay(events, r.messageHash, r.l1ReplayTxHash) == r.l1ReplayTxHash
    && Refund(events, r.messageNonce, r.l1RefundTxHash) == r.l1RefundTxHash
  }

  lemma {:induction false} EventsSpareRow(events: seq<QueueEvent>, r: Row)
    requires r.messageType.L1SentMessage?
    ensures ApplyEvents(events, r) == r <==> EventsSpare(events, r)
  {
    hide Drops, Dequeues, Replay, Refund, ApplyEvents;
    EventsOfDeposit(events, r);
    var a := ApplyEvents(events, r);
    assert a.txStatus == StatusAfter(events, r);
    assert a.l1ReplayTxHash == Replay(events, r.messageHash, r.l1ReplayTxHash);
    assert a.l1RefundTxHash == Refund(events, r.messageNonce, r.l1RefundTxHash);
  }

  lemma {:induction false} EventsCommuteOnRow(events: seq<QueueEvent>, x: Row, r: Row)
    requires x.messageType.L1SentMessage? && r.messageType.L1SentMessage?
    ensures ApplyEvents(events, OverwriteRelayed(L2, x, r)) == OverwriteRelayed(L2, ApplyEvents(events, x), r)
            <==> EventsCommute(events, x, r)
  {
    hide Drops, Dequeues, Replay, Refund, ApplyEvents;
    EventsOfDeposit(events, x);
    EventsOfDeposit(events, OverwriteRelayed(L2, x, r));
    var a, b := ApplyEvents(events, OverwriteRelayed(L2, x, r)), OverwriteRelayed(L2, ApplyEvents(events, x), r);
    if !x.txStatus.Terminal() {
      assert a.l2TxHash == r.l2TxHash && a.l2BlockNumber == r.l2BlockNumber;
      assert Drops(events, x.messageNonce) ==>
        b.txStatus.Dropped? && b.l2TxHash == x.l2TxHash && b.l2BlockNumber == x.l2BlockNumber;
    }
  }

  /** Every deposit row and relay has the type of a deposit. */
  ghost predicate Deposits(t: Table, relays: Table) {
    forall h :: h in relays ==> relays[h].messageType.L1SentMessage? && (h in t ==> t[h].messageType.L1SentMessage?)
  }

  /** A relay finds the deposit stored, or not. */
  ghost predicate RelayCommutes(t: Table, events: seq<QueueEvent>, h: Hash, r: Row) {
    if h in t then EventsCommute(events, t[h], r) else EventsSpare(events, r)
  }

  ghost predicate RelaysCommute(t: Table, events: seq<QueueEvent>, relays: Table) {
    forall h :: h in relays ==> RelayCommutes(t, events, h, relays[h])
  }

  lemma {:induction false} RelayCommutesAt(t: Table, events: seq<QueueEvent>, relays: Table, h: Hash)
    requires Deposits(t, relays) && h in relays
    ensures UpsertRelayed(L2, ApplyToAll(events, t), relays)[h] == ApplyToAll(events, UpsertRelayed(L2, t, relays))[h]
            <==> RelayCommutes(t, events, h, relays[h])
  {
    hide ApplyEvents, OverwriteRelayed, EventsCommute, EventsSpare;
    if h in t {
      EventsCommuteOnRow(events, t[h], relays[h]);
    } else {
      EventsSpareRow(events, relays[h]);
    }
  }

  lemma {:induction false} TablesCommute(t: Table, events: seq<QueueEvent>, relays: Table)
    requires Deposits(t, relays)
    ensures UpsertRelayed(L2, ApplyToAll(events, t), relays) == ApplyToAll(events, UpsertRelayed(L2, t, relays))
            <==> RelaysCommute(t, events, relays)
  {
    hide ApplyEvents, OverwriteRelayed, RelayCommutes;
    var a, b := UpsertRelayed(L2, ApplyToAll(events, t), relays), ApplyToAll(events, UpsertRelayed(L2, t, relays));
    forall h | h in relays ensures a[h] == b[h] <==> RelayCommutes(t, events, h, relays[h]) {
      RelayCommutesAt(t, events, relays, h);
    }
    assert a.Keys == b.Keys;
  }

  /** A list of queue events and relays of deposits may be stored in either order exactly when the events commute with
      every relay of a stored deposit, and leave the relays of deposits not yet stored as they are. */
  lemma {:induction false} QueueEventsCommuteIff(t: Table, events: seq<QueueEvent>, records: seq<Row>)
    requires Deposits(t, Merge(L2, records))
    ensures Execute(Execute(t, StoreQueueEvents(events)), StoreRelayed(L2, records))
            == Execute(Execute(t, StoreRelayed(L2, records)), StoreQueueEvents(events))
            <==> RelaysCommute(t, events, Merge(L2, records))
  {
    hide ApplyToAll, UpsertRelayed, RelaysCommute, Merge, Deposits, UpdateStatuses, UpdateTxHashes;
    EventsByRow(t, events);
    EventsByRow(UpsertRelayed(L2, t, Merge(L2, records)), events);
    TablesCommute(t, events, Merge(L2, records));
  }

  /** A deposit dropped from the queue, and an attempt to relay it that failed: the order decides which L2 transaction
      the row ends up with. */
  lemma {:induction false} DropAndFailedRelay(x: Row, index: nat, txHash: string, r: Row)
    requires x.messageType.L1SentMessage? && x.messageNonce == index && x.txStatus.Sent?
    requires r.messageHash == x.messageHash && r.messageType.L1SentMessage? && r.txStatus.FailedRelayed?
    requires r.l2TxHash != x.l2TxHash
    ensures var t := map[x.messageHash := x]; var e := StoreQueueEvents([DropTransaction(index, txHash)]);
      Execute(Execute(t, e), StoreRelayed(L2, [r])) != Execute(Execute(t, StoreRelayed(L2, [r])), e)
  {
    hide Execute, ApplyStatus, ApplyTxHash;
    var t, events := map[x.messageHash := x], [DropTransaction(index, txHash)];
    assert Merge(L2, [r]) == map[r.messageHash := r] by { assert [r][..0] == []; }
    QueueEventsCommuteIff(t, events, [r]);
    assert events[0] in events && Drops(events, index);
    assert !RelayCommutes(t, events, x.messageHash, Merge(L2, [r])[x.messageHash]);
  }

  // ---------- Interleavings of the two fetchers ----------

  /** Every row is under its own key and has the type of its message's direction. */
  ghost predicate Typed(origin: Hash -> Chain, t: Table) {
    forall h :: h in t ==> t[h].messageHash == h && t[h].messageType == SentType(origin(h))
  }

  lemma {:induction false} EventsKeepType(events: seq<QueueEvent>, r: Row)
    ensures ApplyStatuses(events, r).messageHash == r.messageHash
    ensures ApplyStatuses(events, r).messageType == r.messageType
    ensures ApplyTxHashes(events, r).messageHash == r.messageHash
    ensures ApplyTxHashes(events, r).messageType == r.messageType
    decreases |events|
  {
    if events != [] {
      EventsKeepType(events[..|events| - 1], r);
    }
  }

  lemma {:induction false} StaysTyped(origin: Hash -> Chain, chain: Chain, t: Table, s: Statement)
    requires Typed(origin, t) && By(origin, chain, s)
    ensures Typed(origin, Execute(t, s))
  {
    hide By, ApplyStatuses, ApplyTxHashes, ByKey, Merge, UpdateStatuses, UpdateTxHashes;
    if s.StoreQueueEvents? {
      EventsByRow(t, s.events);
      forall h | h in t ensures ApplyEvents(s.events, t[h]).messageHash == h
        ensures ApplyEvents(s.events, t[h]).messageType == t[h].messageType
      {
        EventsKeepType(s.events, t[h]);
        EventsKeepType(s.events, ApplyStatuses(s.events, t[h]));
      }
    } else {
      UpsertStatement(origin, chain, s);
      forall h | h in UpsertedBy(s)
        ensures UpsertedBy(s)[h].messageHash == h && UpsertedBy(s)[h].messageType == SentType(origin(h))
      {
        RecordsBy(origin, chain, s, h);
      }
    }
  }

  lemma UpsertStatement(origin: Hash -> Chain, chain: Chain, s: Statement)
    requires By(origin, chain, s) && !s.StoreQueueEvents?
    ensures s.StoreSent? || s.StoreRelayed?
  {
  }

  /** Statements of the two fetchers that may be exchanged on table `t`: all but queue events and relays of deposits
      that do not commute there. */
  ghost predicate Exchangeable(t: Table, s: Statement, r: Statement) {
    s.StoreQueueEvents? && r.StoreRelayed? ==> RelaysCommute(t, s.events, Merge(L2, r.records))
  }

  lemma {:induction false} QueueEventsAndSentCommute(origin: Hash -> Chain, t: Table, s: Statement, r: Statement)
    requires Typed(origin, t) && By(origin, L1, s) && s.StoreQueueEvents? && By(origin, L2, r) && r.StoreSent?
    ensures Execute(Execute(t, s), r) == Execute(Execute(t, r), s)
  {
    hide ByKey, UpdateStatuses, UpdateTxHashes, By, OverwriteSent, ApplyEvents;
    EventsByRow(t, s.events);
    EventsByRow(UpsertSent(L2, t, ByKey(r.records)), s.events);
    if Distinct(r.records) {
      var sent := ByKey(r.records);
      ChainOf(origin, L2, r);
      forall h | h in sent
        ensures h in t ==> ApplyEvents(s.events, t[h]) == t[h]
        ensures h in t ==> ApplyEvents(s.events, OverwriteSent(L2, t[h], sent[h])) == OverwriteSent(L2, t[h], sent[h])
        ensures ApplyEvents(s.events, sent[h]) == sent[h]
      {
        RecordsBy(origin, L2, r, h);
        SentSpared(origin, s, t, h, sent[h]);
      }
      var a, b := UpsertSent(L2, ApplyToAll(s.events, t), sent), ApplyToAll(s.events, UpsertSent(L2, t, sent));
      assert a.Keys == b.Keys;
      assert forall h :: h in a ==> a[h] == b[h];
    }
  }

  lemma ChainOf(origin: Hash -> Chain, chain: Chain, s: Statement)
    requires By(origin, chain, s)
    ensures (s.StoreSent? ==> s.sentOn == chain) && (s.StoreRelayed? ==> s.relayedOn == chain)
    ensures s.StoreQueueEvents? ==> chain.L1?
  {
  }

  lemma {:induction false} SentSpared(origin: Hash -> Chain, s: Statement, t: Table, h: Hash, r: Row)
    requires Typed(origin, t) && By(origin, L1, s) && s.StoreQueueEvents?
    requires r.messageHash == h && IsSentRecord(L2, r) && origin(h).L2?
    ensures ApplyEvents(s.events, r) == r
    ensures h in t ==> ApplyEvents(s.events, t[h]) == t[h]
    ensures h in t ==> ApplyEvents(s.events, OverwriteSent(L2, t[h], r)) == OverwriteSent(L2, t[h], r)
  {
    hide By, ApplyStatuses, ApplyTxHashes;
    EventsOfWithdrawal(origin, s.events, r);
    if h in t {
      EventsOfWithdrawal(origin, s.events, t[h]);
      EventsOfWithdrawal(origin, s.events, OverwriteSent(L2, t[h], r));
    }
  }

  /** On a typed table, a statement of the L1 fetcher and one of the L2 fetcher give the same table in either order
      exactly when they are exchangeable there. */
  lemma {:induction false} ExchangeableIff(origin: Hash -> Chain, t: Table, s: Statement, r: Statement)
    requires By(origin, L1, s) && By(origin, L2, r) && (s.StoreQueueEvents? ==> Typed(origin, t))
    ensures Execute(Execute(t, s), r) == Execute(Execute(t, r), s) <==> Exchangeable(t, s, r)
  {
    hide Execute, By, Merge, RelaysCommute;
    ChainOf(origin, L2, r);
    if !s.StoreQueueEvents? {
      FetchersCommute(origin, t, s, r);
    } else {
      UpsertStatement(origin, L2, r);
      if r.StoreSent? {
        QueueEventsAndSentCommute(origin, t, s, r);
      } else {
        forall h | h in UpsertedBy(r) ensures UpsertedBy(r)[h].messageType.L1SentMessage? && origin(h).L1? {
          RecordsBy(origin, L2, r, h);
        }
        assert UpsertedBy(r) == Merge(L2, r.records);
        QueueEventsCommuteIff(t, s.events, r.records);
      }
    }
  }

  predicate MadeOn(chain: Chain, s: Statement) {
    || (s.StoreSent? && s.sentOn == chain)
    || (s.StoreRelayed? && s.relayedOn == chain)
    || (s.StoreQueueEvents? && chain.L1?)
  }

  /** What one fetcher stored, in its own order. */
  function Of(chain: Chain, run: seq<Statement>): (r: seq<Statement>) {
    if run == [] then []
    else Of(chain, run[..|run| - 1]) + if MadeOn(chain, run[|run| - 1]) then [run[|run| - 1]] else []
  }

  lemma {:induction false} OfBy(origin: Hash -> Chain, chain: Chain, run: seq<Statement>)
    requires ByFetchers(origin, run)
    ensures forall i :: 0 <= i < |Of(chain, run)| ==> By(origin, chain, Of(chain, run)[i])
  {
    if run != [] {
      OfBy(origin, chain, run[..|run| - 1]);
    }
  }

  lemma {:induction false} OfSnoc(origin: Hash -> Chain, run: seq<Statement>)
    requires ByFetchers(origin, run) && run != []
    ensures var front, s := run[..|run| - 1], run[|run| - 1];
      || (By(origin, L1, s) && Of(L1, run) == Of(L1, front) + [s] && Of(L2, run) == Of(L2, front))
      || (By(origin, L2, s) && Of(L1, run) == Of(L1, front) && Of(L2, run) == Of(L2, front) + [s])
  {
    var s := run[|run| - 1];
    assert By(origin, L1, s) || By(origin, L2, s);
  }

  ghost predicate QueueFree(run: seq<Statement>) {
    forall i :: 0 <= i < |run| ==> !run[i].StoreQueueEvents?
  }

  /** Wherever the two fetchers may be, their next statements are exchangeable on the table of what they stored. */
  ghost predicate AllExchangeable(t: Table, a: seq<Statement>, b: seq<Statement>) {
    forall i, j :: 0 <= i < |a| && 0 <= j < |b| ==> Exchangeable(Run(Run(t, a[..i]), b[..j]), a[i], b[j])
  }

  lemma {:induction false} RunTyped(origin: Hash -> Chain, chain: Chain, t: Table, run: seq<Statement>)
    requires Typed(origin, t) && forall i :: 0 <= i < |run| ==> By(origin, chain, run[i])
    ensures Typed(origin, Run(t, run))
    decreases |run|
  {
    hide Execute, By, Typed;
    if run != [] {
      RunTyped(origin, chain, t, run[..|run| - 1]);
      StaysTyped(origin, chain, Run(t, run[..|run| - 1]), run[|run| - 1]);
    }
  }

  /** A statement of the L1 fetcher may be moved before a run of the L2 fetcher that it is exchangeable with all
      along. */
  lemma {:induction false} MovesFirst(origin: Hash -> Chain, t: Table, s: Statement, run: seq<Statement>)
    requires By(origin, L1, s) && forall i :: 0 <= i < |run| ==> By(origin, L2, run[i])
    requires s.StoreQueueEvents? ==> Typed(origin, t)
    requires forall j :: 0 <= j < |run| ==> Exchangeable(Run(t, run[..j]), s, run[j])
    ensures Execute(Run(t, run), s) == Run(Execute(t, s), run)
    decreases |run|
  {
    hide Execute, By, Typed, Exchangeable, Run;
    if run == [] {
      RunNothing(t);
      RunNothing(Execute(t, s));
    } else {
      var n := |run| - 1;
      var front, r := run[..n], run[n];
      assert run == front + [r];
      forall j | 0 <= j < n ensures Exchangeable(Run(t, front[..j]), s, front[j]) {
        assert front[..j] == run[..j] && front[j] == run[j];
      }
      if s.StoreQueueEvents? {
        RunTyped(origin, L2, t, front);
      }
      ExchangeableIff(origin, Run(t, front), s, r);
      MovesFirst(origin, t, s, front);
      RunSnoc(t, front, r);
      RunSnoc(Execute(t, s), front, r);
    }
  }

  lemma {:induction false} RunSplits(origin: Hash -> Chain, t: Table, run: seq<Statement>)
    requires ByFetchers(origin, run) && (Typed(origin, t) || QueueFree(run))
    requires AllExchangeable(t, Of(L1, run), Of(L2, run))
    ensures Run(t, run) == Run(Run(t, Of(L1, run)), Of(L2, run))
    decreases |run|
  {
    if run != [] {
      hide Execute, By, MadeOn, Typed, Exchangeable;
      var front, s := run[..|run| - 1], run[|run| - 1];
      var a, b := Of(L1, front), Of(L2, front);
      OfSnoc(origin, run);
      OfBy(origin, L1, front);
      OfBy(origin, L2, front);
      if By(origin, L1, s) && Of(L1, run) == a + [s] && Of(L2, run) == b {
        ExchangeableFront(t, a, [s], b, []);
        RunSplits(origin, t, front);
        if s.StoreQueueEvents? {
          RunTyped(origin, L1, t, a);
        }
        ExchangeableLast(t, a, s, b);
        MovesFirst(origin, Run(t, a), s, b);
        RunSnoc(t, a, s);
      } else {
        ExchangeableFront(t, a, [], b, [s]);
        RunSplits(origin, t, front);
        RunSnoc(Run(t, a), b, s);
      }
    }
  }

  lemma {:induction false} ExchangeableFront(t: Table, a: seq<Statement>, a': seq<Statement>, b: seq<Statement>,
      b': seq<Statement>)
    requires AllExchangeable(t, a + a', b + b')
    ensures AllExchangeable(t, a, b)
  {
    hide Execute, Exchangeable, Run;
    forall i, j | 0 <= i < |a| && 0 <= j < |b| ensures Exchangeable(Run(Run(t, a[..i]), b[..j]), a[i], b[j]) {
      assert (a + a')[..i] == a[..i] && (b + b')[..j] == b[..j];
      assert Exchangeable(Run(Run(t, (a + a')[..i]), (b + b')[..j]), (a + a')[i], (b + b')[j]);
    }
  }

  lemma {:induction false} ExchangeableLast(t: Table, a: seq<Statement>, s: Statement, b: seq<Statement>)
    requires AllExchangeable(t, a + [s], b)
    ensures forall j :: 0 <= j < |b| ==> Exchangeable(Run(Run(t, a), b[..j]), s, b[j])
  {
    hide Execute, Exchangeable, Run;
    assert (a + [s])[..|a|] == a && (a + [s])[|a|] == s;
  }

  /** However the two fetchers interleave what they store of deposits, withdrawals, relays and queue events, the table
      ends up the same, provided queue events and relays are exchangeable wherever the fetchers may be: it depends only
      on what each stored, in its own order. */
  lemma {:induction false} FetcherOrderIrrelevant(origin: Hash -> Chain, t: Table, a: seq<Statement>, b: seq<Statement>)
    requires ByFetchers(origin, a) && ByFetchers(origin, b)
    requires Of(L1, a) == Of(L1, b) && Of(L2, a) == Of(L2, b)
    requires Typed(origin, t) || (QueueFree(a) && QueueFree(b))
    requires AllExchangeable(t, Of(L1, a), Of(L2, a))
    ensures Run(t, a) == Run(t, b)
  {
    RunSplits(origin, t, a);
    RunSplits(origin, t, b);
  }

  /** Without queue events that is always so. */
  lemma {:induction false} UpsertOrderIrrelevant(origin: Hash -> Chain, t: Table, a: seq<Statement>, b: seq<Statement>)
    requires ByFetchers(origin, a) && ByFetchers(origin, b) && QueueFree(a) && QueueFree(b)
    requires Of(L1, a) == Of(L1, b) && Of(L2, a) == Of(L2, b)
    ensures Run(t, a) == Run(t, b)
  {
    hide Run, Execute;
    OfQueueFree(L1, a);
    FetcherOrderIrrelevant(origin, t, a, b);
  }

  lemma {:induction false} OfQueueFree(chain: Chain, run: seq<Statement>)
    requires QueueFree(run)
    ensures QueueFree(Of(chain, run))
  {
    if run != [] {
      OfQueueFree(chain, run[..|run| - 1]);
    }
  }

  // ---------- The object ----------

  /** The merge loop. Its result never makes a conflict update touch a row twice. */
  method MergeRelayedMessages(relayedOn: Chain, messages: seq<Row>) returns (merged: Table)
    ensures merged == Merge(relayedOn, messages)
  {
    merged := map[];
    for i := 0 to |messages|
      invariant merged == Merge(relayedOn, messages[..i])
    {
      var message := messages[i];
      assert messages[..i + 1][..i] == messages[..i];
      if message.messageHash in merged {
        if message.txStatus.Relayed? ||
           BlockNumber(relayedOn, message) > BlockNumber(relayedOn, merged[message.messageHash]) {
          merged := merged[message.messageHash := message];
        }
      } else {
        merged := merged[message.messageHash := message];
      }
    }
    assert messages[..|messages|] == messages;
  }

  class CrossMessage {
    var rows: Table

    constructor ()
      ensures rows == map[]
    {
      rows := map[];
    }

    method InsertOrUpdateRelayedMessages(relayedOn: Chain, messages: seq<Row>)
      modifies this
      ensures rows == Execute(old(rows), StoreRelayed(relayedOn, messages))
    {
      var merged := MergeRelayedMessages(relayedOn, messages);
      rows := UpsertRelayed(relayedOn, rows, merged);
    }

    /** Applies all status changes and then all transaction hashes, each by its own statement. An error at update
        `failAt` leaves those before it applied. */
    method UpdateL1MessageQueueEventsInfo(events: seq<QueueEvent>, failAt: nat) returns (ok: bool)
      modifies this
      ensures ok <==> failAt >= 2 * |events|
      ensures ok ==> rows == Execute(old(rows), StoreQueueEvents(events))
      ensures failAt < |events| ==> rows == UpdateStatuses(old(rows), events[..failAt])
      ensures |events| <= failAt < 2 * |events| ==>
        rows == UpdateTxHashes(UpdateStatuses(old(rows), events), events[..failAt - |events|])
    {
      hide ApplyStatus, ApplyTxHash;
      for i := 0 to |events|
        invariant i <= failAt && rows == UpdateStatuses(old(rows), events[..i])
      {
        if i == failAt {
          return false;
        }
        assert events[..i + 1][..i] == events[..i];
        rows := map h | h in rows :: ApplyStatus(events[i], rows[h]);
      }
      assert events[..|events|] == events;
      ghost var stored := rows;
      for i := 0 to |events|
        invariant |events| + i <= failAt && rows == UpdateTxHashes(stored, events[..i])
      {
        if |events| + i == failAt {
          return false;
        }
        assert events[..i + 1][..i] == events[..i];
        rows := map h | h in rows :: ApplyTxHash(events[i], rows[h]);
      }
      return true;
    }
  }
}
