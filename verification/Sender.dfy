/** The transaction sender: its table of pending transactions, its nonce, and the chain it watches. */
module Senders {
  import opened Bytes

  datatype TxStatus = Pending | Replaced | Confirmed | ConfirmedFailed

  datatype Row = Row(nonce: nat, status: TxStatus, contextId: string)

  /** The pending-transaction table, keyed by its unique transaction hash. */
  type Table = map<Hash, Row>

  datatype Confirmation = Confirmation(contextId: string, txHash: Hash)

  /** A sent transaction that is not in the table yet. */
  datatype Sent = Sent(nonce: nat, contextId: string)

  /** A row of the running check, with the status it had when the check loaded it. */
  datatype Loaded = Loaded(txHash: Hash, status: TxStatus)

  // ---------- Table statements ----------

  function SetStatus(rows: Table, h: Hash, status: TxStatus): Table {
    if h in rows then rows[h := rows[h].(status := status)] else rows
  }

  /** All other transactions of the nonce are marked as failed. */
  function FailOthers(rows: Table, nonce: nat, h: Hash): Table {
    map k | k in rows :: if rows[k].nonce == nonce && k != h then rows[k].(status := ConfirmedFailed) else rows[k]
  }

  /** Marks the confirmed transaction and fails its rivals. */
  function Confirm(rows: Table, nonce: nat, h: Hash): Table {
    FailOthers(SetStatus(rows, h, Confirmed), nonce, h)
  }

  /** Marks the original as replaced and inserts the replacement. */
  function Replace(rows: Table, h: Hash, new_: Hash, row: Row): Table {
    SetStatus(rows, h, Replaced)[new_ := row.(status := Pending)]
  }

  // ---------- What the table keeps ----------

  ghost predicate OnePending(rows: Table) {
    forall g, h :: g in rows && h in rows && rows[g].nonce == rows[h].nonce ==>
      rows[g].status == Pending && rows[h].status == Pending ==> g == h
  }

  /** A confirmed transaction is the one on the chain, and its rivals have failed. */
  ghost predicate ConfirmedAlone(rows: Table, final: map<nat, Hash>) {
    forall h :: h in rows && rows[h].status == Confirmed ==>
      && rows[h].nonce in final && final[rows[h].nonce] == h
      && forall g :: g in rows && g != h && rows[g].nonce == rows[h].nonce ==> rows[g].status == ConfirmedFailed
  }

  /** Every row is a sent transaction. */
  ghost predicate AllSent(rows: Table, sent: map<Hash, nat>) {
    forall h :: h in rows ==> h in sent && sent[h] == rows[h].nonce
  }

  /** A transaction of the nonce is pending or confirmed. */
  ghost predicate Alive(rows: Table, nonce: nat) {
    exists h :: h in rows && rows[h].nonce == nonce && rows[h].status in {Pending, Confirmed}
  }

  /** So it is for every nonce in the table. */
  ghost predicate AllAlive(rows: Table) {
    forall h :: h in rows ==> Alive(rows, rows[h].nonce)
  }

  /** The nonces in the table, and of transactions on their way into it, are below `nonce`. */
  predicate Below(rows: Table, flying: map<Hash, Sent>, nonce: nat) {
    && (forall h :: h in rows ==> rows[h].nonce < nonce)
    && (forall h :: h in flying ==> flying[h].nonce < nonce)
  }

  /** Of every nonce at most one row is pending and at most one confirmed; once one is confirmed, the others have
      failed. */
  ghost predicate Promised(rows: Table) {
    forall g, h :: g in rows && h in rows && rows[g].nonce == rows[h].nonce ==>
      && (rows[g].status == Pending && rows[h].status == Pending ==> g == h)
      && (rows[g].status == Confirmed && rows[h].status == Confirmed ==> g == h)
      && (rows[g].status == Confirmed ==> rows[h].status in {Confirmed, ConfirmedFailed})
  }

  /** Transactions on their way into the table have nonces of their own. */
  ghost predicate InFlight(rows: Table, sent: map<Hash, nat>, flying: map<Hash, Sent>) {
    && (forall h :: h in flying ==> h in sent && sent[h] == flying[h].nonce)
    && (forall h, g :: h in flying && g in rows ==> rows[g].nonce != flying[h].nonce)
    && (forall h, g :: h in flying && g in flying && g != h ==> flying[g].nonce != flying[h].nonce)
  }

  /** A loaded row keeps the status it was loaded with, or has failed since. */
  ghost predicate Fresh(rows: Table, todo: seq<Loaded>) {
    && (forall i :: 0 <= i < |todo| ==>
        && todo[i].txHash in rows && todo[i].status in {Pending, Replaced}
        && rows[todo[i].txHash].status in {todo[i].status, ConfirmedFailed})
    && (forall i, j :: 0 <= i < j < |todo| ==> todo[i].txHash != todo[j].txHash)
  }

  /** Confirmations are for confirmed rows, one each. */
  ghost predicate Emitted(rows: Table, emitted: seq<Confirmation>) {
    && (forall i :: 0 <= i < |emitted| ==>
        && emitted[i].txHash in rows && rows[emitted[i].txHash].status == Confirmed
        && rows[emitted[i].txHash].contextId == emitted[i].contextId)
    && (forall i, j :: 0 <= i < j < |emitted| ==> emitted[i].txHash != emitted[j].txHash)
  }

  // ---------- Steps on the table ----------

  lemma {:induction false} ConfirmStep(rows: Table, final: map<nat, Hash>, h: Hash)
    requires OnePending(rows) && ConfirmedAlone(rows, final)
    requires h in rows && rows[h].nonce in final && final[rows[h].nonce] == h
    ensures OnePending(Confirm(rows, rows[h].nonce, h)) && ConfirmedAlone(Confirm(rows, rows[h].nonce, h), final)
  {
  }

  lemma {:induction false} AliveAfterConfirm(rows: Table, h: Hash)
    requires AllAlive(rows) && h in rows
    ensures AllAlive(Confirm(rows, rows[h].nonce, h))
  {
    var rows' := Confirm(rows, rows[h].nonce, h);
    assert rows'[h].status == Confirmed && rows'[h].nonce == rows[h].nonce;
    forall k | k in rows' && rows'[k].nonce != rows[h].nonce ensures Alive(rows', rows'[k].nonce) {
      assert Alive(rows, rows[k].nonce);
      var g :| g in rows && rows[g].nonce == rows[k].nonce && rows[g].status in {Pending, Confirmed};
      assert rows'[g] == rows[g];
    }
  }

  lemma {:induction false} AliveAfterReplace(rows: Table, h: Hash, new_: Hash)
    requires AllAlive(rows) && h in rows && new_ !in rows
    ensures AllAlive(Replace(rows, h, new_, rows[h]))
  {
    var rows' := Replace(rows, h, new_, rows[h]);
    assert rows'[new_].status == Pending && rows'[new_].nonce == rows[h].nonce;
    forall k | k in rows' && rows'[k].nonce != rows[h].nonce ensures Alive(rows', rows'[k].nonce) {
      assert Alive(rows, rows[k].nonce);
      var g :| g in rows && rows[g].nonce == rows[k].nonce && rows[g].status in {Pending, Confirmed};
      assert rows'[g] == rows[g];
    }
  }

  lemma {:induction false} AliveAfterInsert(rows: Table, h: Hash, row: Row)
    requires AllAlive(rows) && h !in rows && row.status == Pending
    ensures AllAlive(rows[h := row])
  {
    var rows' := rows[h := row];
    assert rows'[h] == row;
    forall k | k in rows ensures Alive(rows', rows[k].nonce) {
      assert Alive(rows, rows[k].nonce);
      var g :| g in rows && rows[g].nonce == rows[k].nonce && rows[g].status in {Pending, Confirmed};
      assert rows'[g] == rows[g];
    }
  }

  lemma {:induction false} ReplaceStep(rows: Table, final: map<nat, Hash>, h: Hash, new_: Hash)
    requires OnePending(rows) && ConfirmedAlone(rows, final)
    requires h in rows && rows[h].status == Pending && new_ !in rows
    ensures OnePending(Replace(rows, h, new_, rows[h])) && ConfirmedAlone(Replace(rows, h, new_, rows[h]), final)
  {
    var rows' := Replace(rows, h, new_, rows[h]);
    forall k | k in rows' && rows'[k].status == Confirmed
      ensures && rows'[k].nonce in final && final[rows'[k].nonce] == k
              && forall g :: g in rows' && g != k && rows'[g].nonce == rows'[k].nonce ==>
                  rows'[g].status == ConfirmedFailed
    {
      assert rows[k].status == Confirmed;
      assert rows[h].nonce != rows[k].nonce;
    }
  }

  /** A row loaded as pending that has not failed since is still pending. */
  lemma StillPending(rows: Table, todo: seq<Loaded>)
    requires Fresh(rows, todo) && todo != [] && todo[0].status == Pending
    requires rows[todo[0].txHash].status != ConfirmedFailed
    ensures rows[todo[0].txHash].status == Pending
  {
  }

  lemma {:induction false} FreshAfterConfirm(rows: Table, todo: seq<Loaded>)
    requires Fresh(rows, todo) && todo != []
    ensures Fresh(Confirm(rows, rows[todo[0].txHash].nonce, todo[0].txHash), todo[1..])
  {
  }

  lemma {:induction false} FreshAfterReplace(rows: Table, todo: seq<Loaded>, new_: Hash)
    requires Fresh(rows, todo) && todo != [] && new_ !in rows
    ensures Fresh(Replace(rows, todo[0].txHash, new_, rows[todo[0].txHash]), todo[1..])
  {
  }

  /** A confirmation is new: nothing was emitted for a row that is still being checked. */
  lemma {:induction false} EmittedAfterConfirm(rows: Table, final: map<nat, Hash>, todo: seq<Loaded>,
      emitted: seq<Confirmation>)
    requires Fresh(rows, todo) && todo != [] && Emitted(rows, emitted) && ConfirmedAlone(rows, final)
    requires var h := todo[0].txHash; rows[h].nonce in final && final[rows[h].nonce] == h
    ensures var h := todo[0].txHash;
      Emitted(Confirm(rows, rows[h].nonce, h), emitted + [Confirmation(rows[h].contextId, h)])
  {
    var h := todo[0].txHash;
    var rows', emitted' := Confirm(rows, rows[h].nonce, h), emitted + [Confirmation(rows[h].contextId, h)];
    forall i | 0 <= i < |emitted|
      ensures emitted[i].txHash != h && rows'[emitted[i].txHash] == rows[emitted[i].txHash]
    {
      var g := emitted[i].txHash;
      assert rows[g].status == Confirmed;
      assert rows[g].nonce in final && final[rows[g].nonce] == g;
    }
  }

  /** A new pending row with a nonce of its own. */
  lemma {:induction false} InsertStep(rows: Table, final: map<nat, Hash>, todo: seq<Loaded>,
      emitted: seq<Confirmation>, h: Hash, row: Row)
    requires OnePending(rows) && ConfirmedAlone(rows, final) && Fresh(rows, todo) && Emitted(rows, emitted)
    requires h !in rows && row.status == Pending && forall g :: g in rows ==> rows[g].nonce != row.nonce
    ensures OnePending(rows[h := row]) && ConfirmedAlone(rows[h := row], final)
    ensures Fresh(rows[h := row], todo) && Emitted(rows[h := row], emitted)
  {
  }

  lemma {:induction false} EmittedAfterReplace(rows: Table, emitted: seq<Confirmation>, h: Hash, new_: Hash)
    requires Emitted(rows, emitted) && h in rows && rows[h].status == Pending && new_ !in rows
    ensures Emitted(Replace(rows, h, new_, rows[h]), emitted)
  {
  }

  /** Confirming changes no nonce. */
  lemma {:induction false} NoncesAfterConfirm(rows: Table, sent: map<Hash, nat>, flying: map<Hash, Sent>, h: Hash)
    requires AllSent(rows, sent) && InFlight(rows, sent, flying) && h in rows
    ensures AllSent(Confirm(rows, rows[h].nonce, h), sent) && InFlight(Confirm(rows, rows[h].nonce, h), sent, flying)
    ensures forall n :: Below(rows, flying, n) ==> Below(Confirm(rows, rows[h].nonce, h), flying, n)
  {
  }

  /** Sending another transaction of a used nonce uses no new nonce. */
  lemma {:induction false} NoncesAfterResend(rows: Table, sent: map<Hash, nat>, flying: map<Hash, Sent>, h: Hash,
      new_: Hash)
    requires AllSent(rows, sent) && InFlight(rows, sent, flying)
    requires h in rows && (new_ in sent ==> sent[new_] == rows[h].nonce)
    ensures var sent' := sent[new_ := rows[h].nonce]; AllSent(rows, sent') && InFlight(rows, sent', flying)
  {
  }

  /** A replacement takes the nonce of its original. */
  lemma {:induction false} NoncesAfterReplace(rows: Table, sent: map<Hash, nat>, flying: map<Hash, Sent>, h: Hash,
      new_: Hash)
    requires AllSent(rows, sent) && InFlight(rows, sent, flying)
    requires h in rows && new_ in sent && sent[new_] == rows[h].nonce
    ensures AllSent(Replace(rows, h, new_, rows[h]), sent) && InFlight(Replace(rows, h, new_, rows[h]), sent, flying)
    ensures forall n :: Below(rows, flying, n) ==> Below(Replace(rows, h, new_, rows[h]), flying, n)
  {
  }

  /** A transaction with the next nonce has a nonce of its own. */
  lemma {:induction false} NoncesAfterSend(rows: Table, sent: map<Hash, nat>, flying: map<Hash, Sent>, nonce: nat,
      h: Hash, contextId: string)
    requires AllSent(rows, sent) && InFlight(rows, sent, flying) && Below(rows, flying, nonce)
    requires h in sent ==> sent[h] == nonce
    ensures var flying', sent' := flying[h := Sent(nonce, contextId)], sent[h := nonce];
      AllSent(rows, sent') && InFlight(rows, sent', flying') && Below(rows, flying', nonce + 1)
  {
    assert h !in rows && h !in flying;
  }

  /** It keeps it in the table. */
  lemma {:induction false} NoncesAfterRecord(rows: Table, sent: map<Hash, nat>, flying: map<Hash, Sent>, h: Hash)
    requires AllSent(rows, sent) && InFlight(rows, sent, flying) && h in flying
    ensures h !in rows && forall g :: g in rows ==> rows[g].nonce != flying[h].nonce
    ensures InFlight(rows, sent, flying - {h}) && forall n :: Below(rows, flying, n) ==> Below(rows, flying - {h}, n)
    ensures var rows' := rows[h := Row(flying[h].nonce, Pending, flying[h].contextId)];
      && AllSent(rows', sent) && InFlight(rows', sent, flying - {h})
      && forall n :: Below(rows, flying, n) ==> Below(rows', flying - {h}, n)
  {
  }

  // ---------- The sender ----------

  /** What the node answers to a transaction; a nonce error comes with the pending nonce to reset to. */
  datatype Answer = Accepted | Rejected | NonceRejected(pendingNonce: nat)

  /** What the node knows of a checked transaction: nothing, a receipt that is not deep enough, or a final one. */
  datatype Receipt = NoReceipt | Shallow | Final

  /** A row loaded as pending that is old enough, has no receipt and has not failed since is resubmitted. */
  predicate Resubmits(rows: Table, next: Loaded, receipt: Receipt, escalate: bool)
    requires next.txHash in rows
  {
    receipt.NoReceipt? && next.status == Pending && escalate && rows[next.txHash].status != ConfirmedFailed
  }

  class Sender {
    var nonce: nat
    var rows: Table
    var flying: map<Hash, Sent>
    var todo: seq<Loaded>
    var emitted: seq<Confirmation>
    /** All transactions ever accepted by the node, and those final on the chain: at most one per nonce. */
    var sent: map<Hash, nat>
    var final: map<nat, Hash>

    /** Everything but the next nonce is in order. */
    ghost predicate Sound()
      reads this
    {
      && OnePending(rows) && ConfirmedAlone(rows, final) && AllSent(rows, sent) && AllAlive(rows)
      && InFlight(rows, sent, flying) && Fresh(rows, todo) && Emitted(rows, emitted)
    }

    ghost predicate Valid()
      reads this
    {
      Sound() && Below(rows, flying, nonce)
    }

    constructor (nonce: nat)
      ensures Valid() && this.nonce == nonce && rows == map[] && emitted == [] && flying == map[] && sent == map[]
    {
      this.nonce, rows, flying, todo, emitted, sent, final := nonce, map[], map[], [], [], map[], map[];
    }

    /** The chain mines a sent transaction for good; no other transaction of its nonce will be. */
    method Mine(h: Hash)
      requires h in sent && sent[h] !in final
      modifies this`final
      ensures final == old(final)[sent[h] := h]
      ensures old(Valid()) ==> Valid()
    {
      final := final[sent[h] := h];
    }

    /** First half of sending: the transaction `h`, with the next nonce, is given to the node. A reset leaves the
        sender in order exactly when no row and no transaction in flight has the new nonce or a higher one. */
    method CreateAndSend(h: Hash, contextId: string, answer: Answer)
      requires h in sent ==> sent[h] == nonce
      modifies this`nonce, this`flying, this`sent
      ensures answer.Accepted? ==>
        && nonce == old(nonce) + 1 && flying == old(flying)[h := Sent(old(nonce), contextId)]
        && sent == old(sent)[h := old(nonce)]
      ensures !answer.Accepted? ==> flying == old(flying) && sent == old(sent)
      ensures answer.Rejected? ==> nonce == old(nonce)
      ensures answer.NonceRejected? ==> nonce == answer.pendingNonce
      ensures old(Valid()) ==> (Valid() <==> answer.NonceRejected? ==> Below(rows, flying, answer.pendingNonce))
      ensures old(Sound()) && answer.NonceRejected? ==> Sound()
    {
      hide OnePending, ConfirmedAlone, AllSent, AllAlive, Below, InFlight, Fresh, Emitted;
      match answer
      case Rejected =>
      case NonceRejected(pendingNonce) => nonce := pendingNonce;
      case Accepted =>
        if Valid() {
          NoncesAfterSend(rows, sent, flying, nonce, h, contextId);
        }
        flying, sent := flying[h := Sent(nonce, contextId)], sent[h := nonce];
        nonce := nonce + 1;
    }

    /** Second half of sending: the transaction is recorded, unless the database fails or has its hash. */
    method InsertPending(h: Hash, dbFails: bool)
      requires h in flying
      modifies this`rows, this`flying
      ensures flying == old(flying) - {h}
      ensures rows == if dbFails || h in old(rows) then old(rows)
                      else old(rows)[h := Row(old(flying)[h].nonce, Pending, old(flying)[h].contextId)]
      ensures old(Sound()) ==> Sound() && h !in old(rows)
      ensures old(Valid()) ==> Valid()
    {
      hide OnePending, ConfirmedAlone, AllSent, AllAlive, Below, InFlight, Fresh, Emitted;
      var row := Row(flying[h].nonce, Pending, flying[h].contextId);
      if Sound() {
        NoncesAfterRecord(rows, sent, flying, h);
      }
      if !dbFails && h !in rows {
        if Sound() {
          InsertStep(rows, final, todo, emitted, h, row);
          AliveAfterInsert(rows, h, row);
        }
        rows := rows[h := row];
      }
      flying := flying - {h};
    }

    /** A check loads pending and replaced rows. */
    method LoadPendingOrReplaced(hashes: seq<Hash>)
      requires todo == []
      requires forall i :: 0 <= i < |hashes| ==> hashes[i] in rows && rows[hashes[i]].status in {Pending, Replaced}
      requires forall i, j :: 0 <= i < j < |hashes| ==> hashes[i] != hashes[j]
      modifies this`todo
      ensures |todo| == |hashes|
      ensures forall i :: 0 <= i < |hashes| ==> todo[i] == Loaded(hashes[i], rows[hashes[i]].status)
      ensures old(Valid()) ==> Valid()
    {
      hide OnePending, ConfirmedAlone, AllSent, AllAlive, Below, InFlight, Emitted;
      for i := 0 to |hashes|
        invariant |todo| == i && (old(Valid()) ==> Valid())
        invariant forall j :: 0 <= j < i ==> todo[j] == Loaded(hashes[j], rows[hashes[j]].status)
      {
        todo := todo + [Loaded(hashes[i], rows[hashes[i]].status)];
      }
    }

    /** A final receipt confirms the next loaded row; a failed transaction ends the check. */
    method ConfirmNext(dbFails: bool)
      requires todo != [] && todo[0].txHash in rows
      requires var h := todo[0].txHash; rows[h].nonce in final && final[rows[h].nonce] == h
      modifies this`rows, this`todo, this`emitted
      ensures old(Valid()) ==> Valid()
      ensures dbFails ==> rows == old(rows) && emitted == old(emitted) && todo == []
      ensures !dbFails ==>
        && rows == Confirm(old(rows), old(rows[todo[0].txHash].nonce), old(todo[0].txHash)) && todo == old(todo[1..])
        && emitted == old(emitted) + [Confirmation(old(rows[todo[0].txHash].contextId), old(todo[0].txHash))]
    {
      hide OnePending, ConfirmedAlone, AllSent, AllAlive, Below, InFlight, Emitted, Confirm;
      if dbFails {
        todo := [];
        return;
      }
      var h := todo[0].txHash;
      if Valid() {
        ConfirmStep(rows, final, h);
        AliveAfterConfirm(rows, h);
        NoncesAfterConfirm(rows, sent, flying, h);
        FreshAfterConfirm(rows, todo);
        EmittedAfterConfirm(rows, final, todo, emitted);
      }
      emitted := emitted + [Confirmation(rows[h].contextId, h)];
      rows := Confirm(rows, rows[h].nonce, h);
      todo := todo[1..];
    }

    /** The next loaded row, not failed since, has been resent as `new_` with the same nonce: it is replaced,
        unless the database fails or has the new hash, which ends the check. */
    method ReplaceNext(new_: Hash, dbFails: bool)
      requires todo != [] && todo[0].txHash in rows
      requires todo[0].status == Pending && rows[todo[0].txHash].status != ConfirmedFailed
      requires new_ in sent ==> sent[new_] == rows[todo[0].txHash].nonce
      modifies this`rows, this`todo, this`sent
      ensures old(Valid()) ==> Valid() && old(rows[todo[0].txHash].status) == Pending
      ensures sent == old(sent)[new_ := old(rows[todo[0].txHash].nonce)]
      ensures dbFails || new_ in old(rows) ==> rows == old(rows) && todo == []
      ensures !dbFails && new_ !in old(rows) ==>
        && rows == Replace(old(rows), old(todo[0].txHash), new_, old(rows[todo[0].txHash])) && todo == old(todo[1..])
    {
      hide OnePending, ConfirmedAlone, AllSent, AllAlive, Below, InFlight, Emitted, Replace;
      var h := todo[0].txHash;
      if Valid() {
        StillPending(rows, todo);
        NoncesAfterResend(rows, sent, flying, h, new_);
      }
      sent := sent[new_ := rows[h].nonce];
      if dbFails || new_ in rows {
        todo := [];
        return;
      }
      if Valid() {
        NoncesAfterReplace(rows, sent, flying, h, new_);
        ReplaceStep(rows, final, h, new_);
        AliveAfterReplace(rows, h, new_);
        FreshAfterReplace(rows, todo, new_);
        EmittedAfterReplace(rows, emitted, h, new_);
      }
      rows := Replace(rows, h, new_, rows[h]);
      todo := todo[1..];
    }

    /** Checks the next loaded row. A final receipt confirms it; without a receipt, a row loaded as pending that is
        old enough (`escalate`) and has not failed since is resubmitted, if the node accepts it. */
    method CheckNext(receipt: Receipt, escalate: bool, accepted: bool, new_: Hash, dbFails: bool)
      requires todo != [] && todo[0].txHash in rows
      requires receipt.Final? ==>
          rows[todo[0].txHash].nonce in final && final[rows[todo[0].txHash].nonce] == todo[0].txHash
      requires new_ in sent ==> sent[new_] == rows[todo[0].txHash].nonce
      modifies this`rows, this`todo, this`emitted, this`sent
      ensures old(Valid()) ==> Valid()
      ensures emitted == if receipt.Final? && !dbFails
                         then old(emitted) + [Confirmation(old(rows[todo[0].txHash].contextId), old(todo[0].txHash))]
                         else old(emitted)
      ensures receipt.Final? && !dbFails ==>
        rows == Confirm(old(rows), old(rows[todo[0].txHash].nonce), old(todo[0].txHash)) && todo == old(todo[1..])
      ensures receipt.Final? && dbFails ==> rows == old(rows) && todo == []
      ensures !receipt.Final? && !old(Resubmits(rows, todo[0], receipt, escalate)) ==>
        rows == old(rows) && todo == old(todo[1..])
      ensures old(Resubmits(rows, todo[0], receipt, escalate)) ==>
        && (rows == if accepted && !dbFails && new_ !in old(rows)
                    then Replace(old(rows), old(todo[0].txHash), new_, old(rows[todo[0].txHash])) else old(rows))
        && todo == if accepted && (dbFails || new_ in old(rows)) then [] else old(todo[1..])
      ensures sent == if accepted && old(Resubmits(rows, todo[0], receipt, escalate))
                      then old(sent)[new_ := old(rows[todo[0].txHash].nonce)] else old(sent)
    {
      hide OnePending, ConfirmedAlone, AllSent, AllAlive, Below, InFlight, Emitted, Confirm, Replace;
      if receipt.Final? {
        ConfirmNext(dbFails);
      } else if Resubmits(rows, todo[0], receipt, escalate) && accepted {
        ReplaceNext(new_, dbFails);
      } else {
        todo := todo[1..];
      }
    }
  }

  // ---------- What every run keeps ----------

  /** Of every nonce there is at most one pending row, at most one confirmed row and at most one confirmation,
      and once one is confirmed no row of the nonce is pending or replaced. */
  lemma {:induction false} AtMostOnePerNonce(s: Sender)
    requires s.Sound()
    ensures Promised(s.rows)
    ensures forall i, j :: 0 <= i < |s.emitted| && 0 <= j < |s.emitted| ==>
      s.rows[s.emitted[i].txHash].nonce == s.rows[s.emitted[j].txHash].nonce ==> i == j
  {
  }

  /** Steps of the sender, of the node and of the chain. */
  datatype Step =
    | Send(h: Hash, contextId: string, answer: Answer)
    | Record(h: Hash, dbFails: bool)
    | Mined(h: Hash)
    | Load(hashes: seq<Hash>)
    | Check(receipt: Receipt, escalate: bool, accepted: bool, new_: Hash, dbFails: bool)

  /** Whether a step can happen: a transaction hash stands for one nonce, the chain mines one transaction per nonce,
      and a final receipt is for the mined one. */
  predicate Enabled(s: Sender, step: Step)
    reads s
  {
    match step
    case Send(h, _, answer) => h in s.sent ==> s.sent[h] == s.nonce
    case Record(h, _) => h in s.flying
    case Mined(h) => h in s.sent && s.sent[h] !in s.final
    case Load(hashes) =>
      && s.todo == [] && (forall i, j :: 0 <= i < j < |hashes| ==> hashes[i] != hashes[j])
      && forall i :: 0 <= i < |hashes| ==> hashes[i] in s.rows && s.rows[hashes[i]].status in {Pending, Replaced}
    case Check(receipt, _, _, new_, _) =>
      && s.todo != [] && s.todo[0].txHash in s.rows
      && (var h := s.todo[0].txHash;
          && (receipt.Final? ==> s.rows[h].nonce in s.final && s.final[s.rows[h].nonce] == h)
          && (new_ in s.sent ==> s.sent[new_] == s.rows[h].nonce))
  }

  /** A reset to a nonce that a row or a transaction in flight has, or a higher one has. */
  predicate ResetsLow(s: Sender, step: Step)
    reads s
  {
    step.Send? && step.answer.NonceRejected? && !Below(s.rows, s.flying, step.answer.pendingNonce)
  }

  /** Every run of enabled steps without a low reset keeps the guarantees for every nonce. */
  method Run(s: Sender, steps: seq<Step>) returns (low: bool)
    requires s.Valid()
    modifies s
    ensures !low ==> s.Valid() && Promised(s.rows)
  {
    hide OnePending, ConfirmedAlone, AllSent, AllAlive, Below, InFlight, Fresh, Emitted, Confirm, Replace, Promised;
    low := false;
    for i := 0 to |steps|
      invariant !low ==> s.Valid()
    {
      if Enabled(s, steps[i]) {
        low := low || ResetsLow(s, steps[i]);
        match steps[i]
        case Send(h, contextId, answer) => s.CreateAndSend(h, contextId, answer);
        case Record(h, dbFails) => s.InsertPending(h, dbFails);
        case Mined(h) => s.Mine(h);
        case Load(hashes) => s.LoadPendingOrReplaced(hashes);
        case Check(receipt, escalate, accepted, new_, dbFails) =>
          s.CheckNext(receipt, escalate, accepted, new_, dbFails);
      }
    }
    if !low {
      AtMostOnePerNonce(s);
    }
  }

  // ---------- After a low reset ----------

  /** Sends transactions until the next nonce is `to`; each is recorded, or the database fails. */
  method SendUpTo(s: Sender, to: nat, hashes: seq<Hash>, dbFails: seq<bool>)
    requires s.nonce + |hashes| == to && forall i, j :: 0 <= i < j < |hashes| ==> hashes[i] != hashes[j]
    requires forall i :: 0 <= i < |hashes| ==> hashes[i] !in s.sent && hashes[i] !in s.flying && hashes[i] !in s.rows
    requires |dbFails| == |hashes|
    modifies s`nonce, s`flying, s`sent, s`rows
    ensures s.nonce == to && s.flying == old(s.flying)
    ensures forall h :: h in old(s.rows) ==> h in s.rows && s.rows[h] == old(s.rows)[h]
    ensures forall h :: h in s.rows ==> h in old(s.rows) || h in hashes
    ensures forall h :: h in s.sent ==> h in old(s.sent) || h in hashes
  {
    hide OnePending, ConfirmedAlone, AllSent, AllAlive, Below, InFlight, Fresh, Emitted;
    for i := 0 to |hashes|
      invariant s.nonce == old(s.nonce) + i && s.flying == old(s.flying)
      invariant forall h :: h in old(s.rows) ==> h in s.rows && s.rows[h] == old(s.rows)[h]
      invariant forall h :: h in s.rows ==> h in old(s.rows) || h in hashes[..i]
      invariant forall h :: h in s.sent ==> h in old(s.sent) || h in hashes[..i]
    {
      s.CreateAndSend(hashes[i], "", Accepted);
      s.InsertPending(hashes[i], dbFails[i]);
    }
  }

  /** A second pending transaction of a nonce that has a pending or a confirmed one breaks the promise. */
  lemma {:induction false} SecondPending(rows: Table, h: Hash, row: Row)
    requires Alive(rows, row.nonce) && h !in rows && row.status == Pending
    ensures !Promised(rows[h := row])
  {
    var g :| g in rows && rows[g].nonce == row.nonce && rows[g].status in {Pending, Confirmed};
    var rows' := rows[h := row];
    assert rows'[g] == rows[g] && rows'[h] == row;
  }

  lemma {:induction false} AliveStays(before: Table, after: Table, nonce: nat)
    requires Alive(before, nonce) && forall h :: h in before ==> h in after && after[h] == before[h]
    ensures Alive(after, nonce)
  {
    var h :| h in before && before[h].nonce == nonce && before[h].status in {Pending, Confirmed};
    assert after[h] == before[h];
  }

  /** After a reset to a nonce that is not above all rows and transactions in flight, sending on breaks the promise:
      `g` is such a row or transaction, and the node accepts the transactions `hashes` from the reset nonce up to
      its, whether those before the last are recorded or not. */
  method BreakPromise(s: Sender, g: Hash, hashes: seq<Hash>, dbFails: seq<bool>)
    requires s.Sound() && (g in s.rows || g in s.flying)
    requires var q := if g in s.rows then s.rows[g].nonce else s.flying[g].nonce;
      s.nonce <= q && s.nonce + |hashes| == q + 1
    requires forall i, j :: 0 <= i < j < |hashes| ==> hashes[i] != hashes[j]
    requires forall i :: 0 <= i < |hashes| ==> hashes[i] !in s.sent
    requires |dbFails| + 1 == |hashes|
    modifies s
    ensures !Promised(s.rows)
  {
    hide OnePending, ConfirmedAlone, Fresh, Emitted, Promised, Alive;
    if g !in s.rows {
      s.InsertPending(g, false);
    }
    assert s.Sound() && g in s.rows && s.rows[g].nonce == s.nonce + |hashes| - 1;
    assert Alive(s.rows, s.rows[g].nonce);
    var last := hashes[|hashes| - 1];
    assert last !in s.rows;
    ghost var before := s.rows;
    SendUpTo(s, s.rows[g].nonce, hashes[..|hashes| - 1], dbFails);
    AliveStays(before, s.rows, s.rows[g].nonce);
    s.CreateAndSend(last, "", Accepted);
    SecondPending(s.rows, last, Row(s.rows[g].nonce, Pending, ""));
    s.InsertPending(last, false);
  }

  /** The node loses a recorded transaction and makes the sender reset to its nonce: two pending rows of one nonce. */
  method TwoPending(g: Hash, h: Hash, contextId: string) returns (s: Sender)
    requires g != h
    ensures s.rows == map[g := Row(0, Pending, contextId), h := Row(0, Pending, contextId)] && !Promised(s.rows)
  {
    hide OnePending, ConfirmedAlone, AllSent, AllAlive, Below, InFlight, Fresh, Emitted;
    s := new Sender(0);
    s.CreateAndSend(g, contextId, Accepted);
    s.InsertPending(g, false);
    s.CreateAndSend(h, contextId, NonceRejected(0));
    s.CreateAndSend(h, contextId, Accepted);
    s.InsertPending(h, false);
    assert s.rows[g].status == Pending && s.rows[h].status == Pending;
  }
}
