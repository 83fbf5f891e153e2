/** The coordinator's assignment of chunks to provers: attempt counters changed by concurrent
    read-then-compare-and-swap, and the prover tasks that timeouts and submissions close. */
module Coordinators {

  datatype ProvingStatus = Unassigned | Assigned | Proved | Verified | TaskFailed

  datatype ChunkTask = ChunkTask(startBlock: nat, endBlock: nat, status: ProvingStatus, active: nat, total: nat)

  /** What a worker read before its compare-and-swap. */
  datatype Snapshot = Snapshot(index: nat, active: nat, total: nat)

  /** The prover task of an attempt: not stored yet, open, or closed with a valid or an invalid proof. */
  datatype TaskStatus = NotInserted | Open | ProofValid | ProofInvalid

  /** The worker that won an attempt: it inserts the task, formats it, gives the attempt back when either fails, and
      is done, or gives up when the database refuses that. */
  datatype WorkerStage = Inserting | Formatting | Recovering | Done | GaveUp

  datatype Attempt = Attempt(task: TaskStatus, worker: WorkerStage)

  /** A submission that passed validation: its task was open then. It may still verify, or only close. */
  datatype Submission = Submission(task: nat, mayVerify: bool)

  // ---------- Row updates ----------

  function DecreaseActive(c: ChunkTask): ChunkTask {
    if c.status != Verified && c.active > 0 then c.(active := c.active - 1) else c
  }

  /** The attempts are used up: the status becomes failed, unless it is `Assigned`, whose number is the one
      that the guard compares with. */
  function MarkFailed(c: ChunkTask, maxTotal: nat): ChunkTask {
    if c.total >= maxTotal && c.status != Assigned then c.(status := TaskFailed) else c
  }

  function AfterTimeout(c: ChunkTask, maxTotal: nat): ChunkTask {
    MarkFailed(DecreaseActive(c), maxTotal)
  }

  /** A proof closes the attempt; a valid one for a chunk not yet verified makes it verified. */
  function AfterSubmit(c: ChunkTask, valid: bool): ChunkTask {
    var d := DecreaseActive(c);
    if d.status == Verified || !valid then d else d.(status := Verified)
  }

  function AfterAssign(c: ChunkTask): ChunkTask {
    c.(status := Assigned, active := c.active + 1, total := c.total + 1)
  }

  /** A proof that verifies a chunk while none of its attempts is counted as active. */
  predicate Late(c: ChunkTask, valid: bool) {
    valid && c.status != Verified && c.active == 0
  }

  // ---------- The assignment log ----------

  /** How often a chunk was assigned. */
  function Count(log: seq<nat>, index: nat): nat {
    if log == [] then 0 else Count(log[..|log| - 1], index) + if log[|log| - 1] == index then 1 else 0
  }

  lemma {:induction false} CountConcat(a: seq<nat>, b: seq<nat>, index: nat)
    ensures Count(a + b, index) == Count(a, index) + Count(b, index)
  {
    if b == [] {
      assert a + b == a;
    } else {
      CountConcat(a, b[..|b| - 1], index);
      assert (a + b)[..|a + b| - 1] == a + b[..|b| - 1];
    }
  }

  lemma {:induction false} CountZero(log: seq<nat>, index: nat)
    ensures Count(log, index) == 0 <==> index !in log
  {
    if log != [] {
      CountZero(log[..|log| - 1], index);
    }
  }

  // ---------- Attempts ----------

  /** An attempt accounts for one active attempt of its chunk: its task is open, or was not stored and the attempt not
      given back. */
  predicate Holds(a: Attempt) {
    a.task.Open? || (a.task.NotInserted? && !a.worker.Done?)
  }

  function One(b: bool): nat {
    if b then 1 else 0
  }

  /** The attempts that account for chunk `i`; attempt `k` is of chunk `log[k]`. */
  function Held(log: seq<nat>, attempts: seq<Attempt>, i: nat): nat
    requires |log| == |attempts|
  {
    if log == [] then 0
    else
      Held(log[..|log| - 1], attempts[..|log| - 1], i) +
      One(log[|log| - 1] == i && Holds(attempts[|log| - 1]))
  }

  lemma {:induction false} HeldUpdate(log: seq<nat>, attempts: seq<Attempt>, k: nat, a: Attempt, i: nat)
    requires k < |log| == |attempts|
    ensures Held(log, attempts[k := a], i) + One(log[k] == i && Holds(attempts[k]))
            == Held(log, attempts, i) + One(log[k] == i && Holds(a))
  {
    hide Holds;
    var last := |log| - 1;
    if k < last {
      HeldUpdate(log[..last], attempts[..last], k, a, i);
      assert attempts[k := a][..last] == attempts[..last][k := a];
    } else {
      assert attempts[k := a][..last] == attempts[..last];
    }
  }

  lemma {:induction false} HeldSnoc(log: seq<nat>, attempts: seq<Attempt>, index: nat, a: Attempt, i: nat)
    requires |log| == |attempts|
    ensures Held(log + [index], attempts + [a], i) == Held(log, attempts, i) + One(index == i && Holds(a))
  {
    assert (log + [index])[..|log|] == log && (attempts + [a])[..|log|] == attempts;
  }

  /** As long as a chunk is not verified or failed, every active attempt is accounted for. */
  ghost predicate Accounted(chunks: seq<ChunkTask>, log: seq<nat>, attempts: seq<Attempt>) {
    && |log| == |attempts|
    && forall i :: 0 <= i < |chunks| && chunks[i].status in {Assigned, Unassigned} ==>
         chunks[i].active <= Held(log, attempts, i)
  }

  /** One active attempt less, and at most one attempt less that accounts for it. */
  lemma {:induction false} AccountedAfter(chunks: seq<ChunkTask>, log: seq<nat>, attempts: seq<Attempt>, k: nat,
      a: Attempt, c: ChunkTask)
    requires Accounted(chunks, log, attempts) && k < |log| && log[k] < |chunks|
    requires c.status in {Assigned, Unassigned} ==>
      chunks[log[k]].status == c.status && c.active == DecreaseActive(chunks[log[k]]).active
    ensures Accounted(chunks[log[k] := c], log, attempts[k := a])
  {
    hide Held, Holds;
    var rows := chunks[log[k] := c];
    forall i | 0 <= i < |rows| && rows[i].status in {Assigned, Unassigned}
      ensures rows[i].active <= Held(log, attempts[k := a], i)
    {
      HeldUpdate(log, attempts, k, a, i);
    }
  }

  /** A step of the worker that still accounts for its attempt. */
  lemma {:induction false} StillAccounted(chunks: seq<ChunkTask>, log: seq<nat>, attempts: seq<Attempt>, k: nat,
      a: Attempt)
    requires Accounted(chunks, log, attempts) && k < |log| && (Holds(attempts[k]) ==> Holds(a))
    ensures Accounted(chunks, log, attempts[k := a])
  {
    hide Held, Holds;
    forall i | 0 <= i < |chunks| && chunks[i].status in {Assigned, Unassigned}
      ensures chunks[i].active <= Held(log, attempts[k := a], i)
    {
      HeldUpdate(log, attempts, k, a, i);
    }
  }

  lemma {:induction false} AccountedAssign(chunks: seq<ChunkTask>, log: seq<nat>, attempts: seq<Attempt>, index: nat)
    requires Accounted(chunks, log, attempts) && index < |chunks|
    requires chunks[index].status in {Assigned, Unassigned} || chunks[index].active == 0
    ensures Accounted(chunks[index := AfterAssign(chunks[index])], log + [index],
                      attempts + [Attempt(NotInserted, Inserting)])
  {
    hide Held;
    var a := Attempt(NotInserted, Inserting);
    forall i | 0 <= i < |chunks|
      ensures Held(log + [index], attempts + [a], i) == Held(log, attempts, i) + One(index == i)
    {
      HeldSnoc(log, attempts, index, a, i);
    }
  }

  // ---------- Invariants ----------

  /** A failed chunk has used up its attempts. */
  ghost predicate WithinLimits(c: ChunkTask, maxActive: nat, maxTotal: nat) {
    && c.active <= maxActive && c.active <= c.total <= maxTotal
    && c.status != Proved && (c.status == TaskFailed ==> c.total == maxTotal)
  }

  /** Every row is within the limits, and its total is the number of its assignments. */
  ghost predicate Counted(chunks: seq<ChunkTask>, log: seq<nat>, maxActive: nat, maxTotal: nat) {
    && (forall i :: 0 <= i < |chunks| ==>
        WithinLimits(chunks[i], maxActive, maxTotal) && chunks[i].total == Count(log, i))
    && (forall i :: i in log ==> i < |chunks|)
  }

  /** A worker read a row with attempts left, when the log was `at` long. */
  ghost predicate IsSnapshot(s: Snapshot, at: nat, chunks: seq<ChunkTask>, log: seq<nat>, maxActive: nat,
      maxTotal: nat) {
    && s.index < |chunks| && s.active < maxActive && s.active <= s.total < maxTotal
    && at <= |log| && s.total == Count(log[..at], s.index)
  }

  /** A worker's snapshot against its row now: the total has only grown, and as long as it is the one read, the active
      attempts have only shrunk. They are fewer than read once the chunk is verified, unless its proof came in while
      no attempt was active. */
  predicate NotAhead(s: Snapshot, c: ChunkTask, idle: bool) {
    && s.total <= c.total
    && (s.total == c.total ==> c.active <= s.active)
    && (s.total == c.total && c.status == Verified && !idle ==> c.active < s.active)
  }

  /** The swap of a worker with this snapshot would succeed. */
  predicate Matches(s: Snapshot, c: ChunkTask) {
    s.active == c.active && s.total == c.total
  }

  /** Every snapshot is one, and none is ahead of its row; a chunk with a late proof has no active attempt. */
  ghost predicate Consistent(workers: map<nat, Snapshot>, readAt: map<nat, nat>, chunks: seq<ChunkTask>, log: seq<nat>,
                             idle: set<nat>, maxActive: nat, maxTotal: nat)
  {
    && workers.Keys == readAt.Keys
    && (forall w :: w in workers ==> IsSnapshot(workers[w], readAt[w], chunks, log, maxActive, maxTotal))
    && (forall w :: w in workers ==> NotAhead(workers[w], chunks[workers[w].index], workers[w].index in idle))
    && (forall i :: i in idle ==> i < |chunks| && chunks[i].active == 0)
  }

  /** A task is stored before it is formatted; loaded timeouts and submissions are of stored tasks. */
  ghost predicate Stored(timeouts: seq<nat>, submissions: map<nat, Submission>, attempts: seq<Attempt>) {
    && (forall k :: 0 <= k < |attempts| ==>
          && (attempts[k].worker.Inserting? ==> attempts[k].task.NotInserted?)
          && (attempts[k].worker.Formatting? ==> !attempts[k].task.NotInserted?))
    && (forall k :: k in timeouts ==> k < |attempts| && !attempts[k].task.NotInserted?)
    && (forall s :: s in submissions ==>
          submissions[s].task < |attempts| && !attempts[submissions[s].task].task.NotInserted?)
  }

  /** What a timeout, a submission or a worker giving back does to a row: the total stays, the active attempts do not
      grow, a chunk fails only when `full`, and one that becomes verified loses an attempt, unless its proof is late. */
  predicate Lowers(c: ChunkTask, d: ChunkTask, late: bool, full: bool) {
    && d.total == c.total && d.active <= c.active
    && d.status != Proved && (d.status == TaskFailed ==> c.status == TaskFailed || full)
    && (d.status == Verified && !late ==> d.active < c.active || (c.status == Verified && d.active == c.active))
    && (late ==> d.active == 0)
  }

  /** What a submission does to a row. */
  lemma {:induction false} SubmitFacts(c: ChunkTask, valid: bool, maxActive: nat, maxTotal: nat)
    requires WithinLimits(c, maxActive, maxTotal)
    ensures var d := AfterSubmit(c, valid);
      && Lowers(c, d, Late(c, valid), c.total >= maxTotal)
      && (d.status == Verified <==> c.status == Verified || valid)
      && (c.status == Verified ==> d == c && !Late(c, valid)) && d.total == c.total
      && (d.status in {Assigned, Unassigned} ==> c.status == d.status && d.active == DecreaseActive(c).active)
  {
  }

  lemma {:induction false} LowersCounted(chunks: seq<ChunkTask>, log: seq<nat>, i: nat, d: ChunkTask, late: bool,
      maxActive: nat, maxTotal: nat)
    requires Counted(chunks, log, maxActive, maxTotal)
    requires i < |chunks| && Lowers(chunks[i], d, late, chunks[i].total >= maxTotal)
    ensures Counted(chunks[i := d], log, maxActive, maxTotal)
  {
    hide Count;
  }

  lemma {:induction false} LowersConsistent(workers: map<nat, Snapshot>, readAt: map<nat, nat>, chunks: seq<ChunkTask>,
      log: seq<nat>, idle: set<nat>, i: nat, d: ChunkTask, late: bool, maxActive: nat, maxTotal: nat)
    requires Consistent(workers, readAt, chunks, log, idle, maxActive, maxTotal)
    requires i < |chunks| && Lowers(chunks[i], d, late, chunks[i].total >= maxTotal)
    ensures Consistent(workers, readAt, chunks[i := d], log, if late then idle + {i} else idle, maxActive, maxTotal)
  {
    hide Count;
  }

  /** No total ever decreases. */
  ghost predicate TotalsGrow(before: seq<ChunkTask>, after: seq<ChunkTask>) {
    |before| <= |after| && forall i :: 0 <= i < |before| ==> before[i].total <= after[i].total
  }

  class Coordinator {
    const maxActive: nat
    const maxTotal: nat
    var chunks: seq<ChunkTask>
    var workers: map<nat, Snapshot>
    /** The chunks of the successful assignments so far, and how many there were when each worker read. */
    var log: seq<nat>
    var readAt: map<nat, nat>
    /** Every assignment's prover task and worker. */
    var attempts: seq<Attempt>
    /** The tasks that the collector has loaded and not checked yet. */
    var timeouts: seq<nat>
    var submissions: map<nat, Submission>
    /** The chunks verified by a proof that came in while no attempt was active, and not assigned since. */
    var idle: set<nat>

    ghost predicate Valid()
      reads this
    {
      && Counted(chunks, log, maxActive, maxTotal)
      && Consistent(workers, readAt, chunks, log, idle, maxActive, maxTotal)
      && Accounted(chunks, log, attempts) && Stored(timeouts, submissions, attempts)
    }

    /** The task of attempt `k` can still time out: it is open, will be, or is loaded. */
    predicate Live(k: nat)
      reads this
    {
      k in timeouts || (k < |attempts| && (attempts[k].task.Open? || attempts[k].worker.Inserting?))
    }

    ghost predicate NoneLive(i: nat)
      reads this
    {
      forall k :: 0 <= k < |log| && log[k] == i ==> !Live(k)
    }

    /** Chunk `i` is verified, no worker's snapshot matches it, and it has attempts left or no task of it can time
        out. */
    ghost predicate Settled(i: nat)
      reads this
    {
      && i < |chunks| && chunks[i].status == Verified
      && (forall w :: w in workers && workers[w].index == i ==> !Matches(workers[w], chunks[i]))
      && (chunks[i].total < maxTotal || NoneLive(i))
    }

    constructor (maxActive: nat, maxTotal: nat)
      ensures Valid() && this.maxActive == maxActive && this.maxTotal == maxTotal
      ensures chunks == [] && log == [] && attempts == [] && workers == map[] && idle == {}
      ensures timeouts == [] && submissions == map[]
    {
      this.maxActive, this.maxTotal := maxActive, maxTotal;
      chunks, workers, log, readAt, attempts, idle := [], map[], [], map[], [], {};
      timeouts, submissions := [], map[];
    }

    /** A new chunk to prove. */
    method AddChunk(startBlock: nat, endBlock: nat)
      requires Valid()
      modifies this`chunks
      ensures Valid() && chunks == old(chunks) + [ChunkTask(startBlock, endBlock, Unassigned, 0, 0)]
      ensures forall i: nat :: old(Settled(i)) ==> Settled(i) && chunks[i] == old(chunks)[i]
    {
      hide Count, Held;
      CountZero(log, |chunks|);
      chunks := chunks + [ChunkTask(startBlock, endBlock, Unassigned, 0, 0)];
    }

    predicate Available(c: ChunkTask, status: ProvingStatus, fromBlock: nat, toBlock: nat)
    {
      && c.status == status && c.total < maxTotal && c.active < maxActive
      && c.startBlock >= fromBlock && c.endBlock < toBlock
    }

    /** The first chunk of the given status in the block range with attempts left, or `|chunks|`. */
    method FindChunk(status: ProvingStatus, fromBlock: nat, toBlock: nat) returns (i: nat)
      ensures i <= |chunks|
      ensures i < |chunks| ==> Available(chunks[i], status, fromBlock, toBlock)
      ensures forall j :: 0 <= j < i ==> !Available(chunks[j], status, fromBlock, toBlock)
    {
      i := 0;
      while i < |chunks| && !Available(chunks[i], status, fromBlock, toBlock)
        invariant i <= |chunks|
        invariant forall j :: 0 <= j < i ==> !Available(chunks[j], status, fromBlock, toBlock)
      {
        i := i + 1;
      }
    }

    /** A worker reads the first available assigned or unassigned chunk. */
    method Read(w: nat, status: ProvingStatus, fromBlock: nat, toBlock: nat) returns (found: bool)
      requires Valid() && (status == Assigned || status == Unassigned)
      modifies this`workers, this`readAt
      ensures Valid()
      ensures found <==> exists i :: 0 <= i < |chunks| && Available(chunks[i], status, fromBlock, toBlock)
      ensures found ==> exists i ::
        && 0 <= i < |chunks| && Available(chunks[i], status, fromBlock, toBlock)
        && (forall j :: 0 <= j < i ==> !Available(chunks[j], status, fromBlock, toBlock))
        && workers == old(workers)[w := Snapshot(i, chunks[i].active, chunks[i].total)]
      ensures found ==> readAt == old(readAt)[w := |log|]
      ensures !found ==> workers == old(workers) && readAt == old(readAt)
      ensures forall i: nat :: old(Settled(i)) ==> Settled(i) && chunks[i] == old(chunks)[i]
    {
      hide Counted, Consistent, Accounted, Stored, Matches;
      var i := FindChunk(status, fromBlock, toBlock);
      found := i < |chunks|;
      if found {
        ReadConsistent(workers, readAt, chunks, log, idle, w, i, maxActive, maxTotal);
        workers := workers[w := Snapshot(i, chunks[i].active, chunks[i].total)];
        readAt := readAt[w := |log|];
      }
    }

    /** The compare-and-swap of a worker. It succeeds exactly when the counters are those read, and then the
        chunk was assigned to nobody since the read. On a verified chunk it succeeds exactly when the proof came in
        while no attempt was active, the worker read the chunk so too, and nothing was assigned in between. */
    method CompareAndSwap(w: nat) returns (ok: bool)
      requires Valid() && w in workers
      modifies this`chunks, this`log, this`attempts, this`idle
      ensures Valid() && TotalsGrow(old(chunks), chunks)
      ensures var s := workers[w];
        && s.index < |old(chunks)|
        && (ok <==> Matches(s, old(chunks)[s.index]))
        && (old(chunks)[s.index].status == Verified ==>
              (ok <==> s.index in old(idle) && s.active == 0 && s.total == old(chunks)[s.index].total))
        && idle == (if ok then old(idle) - {s.index} else old(idle))
        && (ok ==> chunks == old(chunks)[s.index := AfterAssign(old(chunks)[s.index])] && log == old(log) + [s.index])
        && (ok ==> attempts == old(attempts) + [Attempt(NotInserted, Inserting)])
        && (ok ==> readAt[w] <= |old(log)| && s.index !in old(log)[readAt[w]..])
        && (!ok ==> chunks == old(chunks) && log == old(log) && attempts == old(attempts))
      ensures forall i: nat :: old(Settled(i)) ==> Settled(i) && chunks[i] == old(chunks)[i]
    {
      hide Counted, Consistent, Count, Held, Holds;
      SwapFacts(workers, readAt, chunks, log, idle, w, maxActive, maxTotal);
      var s := workers[w];
      ok := Matches(s, chunks[s.index]);
      assert ok ==> !Settled(s.index);
      if ok {
        NoneSince(log, readAt[w], s.index);
        AssignCounted(chunks, log, s.index, maxActive, maxTotal);
        AssignConsistent(workers, readAt, chunks, log, idle, s.index, maxActive, maxTotal);
        AccountedAssign(chunks, log, attempts, s.index);
        chunks := chunks[s.index := AfterAssign(chunks[s.index])];
        log := log + [s.index];
        attempts := attempts + [Attempt(NotInserted, Inserting)];
        idle := idle - {s.index};
      }
    }

    /** The worker that won attempt `k` stores its prover task. */
    method InsertTask(k: nat, dbFails: bool)
      requires Valid() && k < |attempts| && attempts[k].worker.Inserting?
      modifies this`attempts
      ensures Valid()
      ensures attempts == old(attempts)[k := if dbFails then Attempt(NotInserted, Recovering)
                                             else Attempt(Open, Formatting)]
      ensures forall i: nat :: old(Settled(i)) ==> Settled(i) && chunks[i] == old(chunks)[i]
    {
      hide Counted, Consistent, Held;
      var a := if dbFails then Attempt(NotInserted, Recovering) else Attempt(Open, Formatting);
      StillAccounted(chunks, log, attempts, k, a);
      attempts := attempts[k := a];
    }

    /** It makes the message for the prover. When that fails the task stays open. */
    method FormatTask(k: nat, ok: bool)
      requires Valid() && k < |attempts| && attempts[k].worker.Formatting?
      modifies this`attempts
      ensures Valid()
      ensures attempts == old(attempts)[k := old(attempts)[k].(worker := if ok then Done else Recovering)]
      ensures forall i: nat :: old(Settled(i)) ==> Settled(i) && chunks[i] == old(chunks)[i]
    {
      hide Counted, Consistent, Held;
      var a := attempts[k].(worker := if ok then Done else Recovering);
      StillAccounted(chunks, log, attempts, k, a);
      attempts := attempts[k := a];
    }

    /** It gives the active attempt back, unless the database fails. */
    method RecoverActiveAttempts(k: nat, dbFails: bool)
      requires Valid() && k < |attempts| && attempts[k].worker.Recovering?
      modifies this`chunks, this`attempts
      ensures Valid() && TotalsGrow(old(chunks), chunks) && log[k] < |old(chunks)|
      ensures attempts == old(attempts)[k := old(attempts)[k].(worker := if dbFails then GaveUp else Done)]
      ensures chunks == if dbFails then old(chunks) else old(chunks)[log[k] := DecreaseActive(old(chunks)[log[k]])]
      ensures forall i: nat :: old(Settled(i)) ==> Settled(i) && chunks[i] == old(chunks)[i]
    {
      hide Counted, Consistent, Held;
      KnownChunk(chunks, log, attempts, k, maxActive, maxTotal);
      var a := attempts[k].(worker := if dbFails then GaveUp else Done);
      if dbFails {
        StillAccounted(chunks, log, attempts, k, a);
      } else {
        var i := log[k];
        var c := DecreaseActive(chunks[i]);
        LowersCounted(chunks, log, i, c, false, maxActive, maxTotal);
        LowersConsistent(workers, readAt, chunks, log, idle, i, c, false, maxActive, maxTotal);
        AccountedAfter(chunks, log, attempts, k, a, c);
        chunks := chunks[i := c];
      }
      attempts := attempts[k := a];
    }

    /** The collector loads open tasks that have timed out, at most ten. */
    method LoadTimeouts(ks: seq<nat>)
      requires Valid() && timeouts == [] && |ks| <= 10
      requires forall j :: 0 <= j < |ks| ==> ks[j] < |attempts| && attempts[ks[j]].task.Open?
      modifies this`timeouts
      ensures Valid() && timeouts == ks
      ensures forall i: nat :: old(Settled(i)) ==> Settled(i) && chunks[i] == old(chunks)[i]
    {
      hide Counted, Consistent, Accounted;
      timeouts := ks;
    }

    /** It closes the next loaded task, open or not by now, in one transaction: the attempt is given back, and the chunk
        is marked failed exactly when its attempts are used up and it is not assigned, be it verified or not. */
    method CheckTimeout(dbFails: bool)
      requires Valid() && timeouts != []
      modifies this`chunks, this`attempts, this`timeouts
      ensures Valid() && TotalsGrow(old(chunks), chunks) && timeouts == old(timeouts)[1..]
      ensures dbFails ==> chunks == old(chunks) && attempts == old(attempts)
      ensures var k := old(timeouts)[0];
        && k < |log| && log[k] < |old(chunks)|
        && (var c := old(chunks)[log[k]];
            !dbFails ==>
              && attempts == old(attempts)[k := old(attempts)[k].(task := ProofInvalid)]
              && chunks == old(chunks)[log[k] := AfterTimeout(c, maxTotal)]
              && (chunks[log[k]].status == TaskFailed <==>
                    c.status == TaskFailed || (c.total >= maxTotal && c.status != Assigned))
              && (c.status == Verified ==> (chunks[log[k]] == c <==> c.total < maxTotal)))
      ensures forall i: nat :: old(Settled(i)) ==> Settled(i) && chunks[i] == old(chunks)[i]
    {
      hide Counted, Consistent, Held;
      var k := timeouts[0];
      assert k in timeouts && forall j :: j in timeouts[1..] ==> j in timeouts;
      KnownChunk(chunks, log, attempts, k, maxActive, maxTotal);
      assert Live(k);
      if !dbFails {
        var i := log[k];
        var a, c := attempts[k].(task := ProofInvalid), AfterTimeout(chunks[i], maxTotal);
        LowersCounted(chunks, log, i, c, false, maxActive, maxTotal);
        LowersConsistent(workers, readAt, chunks, log, idle, i, c, false, maxActive, maxTotal);
        AccountedAfter(chunks, log, attempts, k, a, c);
        chunks := chunks[i := c];
        attempts := attempts[k := a];
      }
      timeouts := timeouts[1..];
    }

    /** A prover submits to task `k`. The submission is taken up when the task is open and, unless the prover reports a
        failure, the chunk is not verified yet; otherwise the task is left as it is. */
    method ValidateSubmission(s: nat, k: nat, statusOk: bool) returns (taken: bool)
      requires Valid() && s !in submissions && k < |attempts|
      modifies this`submissions
      ensures Valid() && log[k] < |chunks|
      ensures taken <==> attempts[k].task.Open? && (statusOk ==> chunks[log[k]].status != Verified)
      ensures submissions == if taken then old(submissions)[s := Submission(k, statusOk)] else old(submissions)
      ensures forall i: nat :: old(Settled(i)) ==> Settled(i) && chunks[i] == old(chunks)[i]
    {
      hide Counted, Consistent, Held;
      KnownChunk(chunks, log, attempts, k, maxActive, maxTotal);
      taken := attempts[k].task.Open? && (statusOk ==> chunks[log[k]].status != Verified);
      if taken {
        submissions := submissions[s := Submission(k, statusOk)];
      }
    }

    /** The transaction that closes task `k` for a submission: the attempt is given back and, with a valid proof, the
        chunk is verified, if it is not already. */
    method UpdateProofStatus(k: nat, valid: bool)
      requires Valid() && k < |attempts| && !attempts[k].task.NotInserted?
      modifies this`chunks, this`attempts, this`idle
      ensures Valid() && TotalsGrow(old(chunks), chunks) && k < |log| && log[k] < |old(chunks)|
      ensures attempts == old(attempts)[k := old(attempts)[k].(task := if valid then ProofValid else ProofInvalid)]
      ensures var c := old(chunks)[log[k]];
        && chunks == old(chunks)[log[k] := AfterSubmit(c, valid)]
        && (chunks[log[k]].status == Verified <==> c.status == Verified || valid)
        && (c.status == Verified ==> chunks[log[k]] == c)
        && idle == (if Late(c, valid) then old(idle) + {log[k]} else old(idle))
      ensures forall i: nat :: old(Settled(i)) ==> Settled(i) && chunks[i] == old(chunks)[i]
    {
      hide Counted, Consistent, Held, Lowers, AfterSubmit, DecreaseActive, WithinLimits, Late, Holds, Matches;
      KnownChunk(chunks, log, attempts, k, maxActive, maxTotal);
      var i := log[k];
      var a := attempts[k].(task := if valid then ProofValid else ProofInvalid);
      var c, late := AfterSubmit(chunks[i], valid), Late(chunks[i], valid);
      SubmitFacts(chunks[i], valid, maxActive, maxTotal);
      LowersCounted(chunks, log, i, c, late, maxActive, maxTotal);
      LowersConsistent(workers, readAt, chunks, log, idle, i, c, late, maxActive, maxTotal);
      AccountedAfter(chunks, log, attempts, k, a, c);
      chunks := chunks[i := c];
      attempts := attempts[k := a];
      idle := if late then idle + {i} else idle;
    }

    /** A taken submission closes its task, unless the database fails. When a valid one fails, or the check of the
        batch's chunks after it, the task is still to be closed once more as invalid. */
    method CloseTask(s: nat, valid: bool, dbFails: bool, notReady: bool)
      requires Valid() && s in submissions && (valid ==> submissions[s].mayVerify)
      modifies this`chunks, this`attempts, this`submissions, this`idle
      ensures Valid() && TotalsGrow(old(chunks), chunks)
      ensures submissions == if valid && (dbFails || notReady)
                             then old(submissions)[s := Submission(old(submissions)[s].task, false)]
                             else old(submissions) - {s}
      ensures dbFails ==> chunks == old(chunks) && attempts == old(attempts) && idle == old(idle)
      ensures var k := old(submissions)[s].task;
        && k < |log| && log[k] < |old(chunks)| && k < |old(attempts)|
        && (var c := old(chunks)[log[k]];
            !dbFails ==>
              && attempts == old(attempts)[k := old(attempts)[k].(task := if valid then ProofValid else ProofInvalid)]
              && chunks == old(chunks)[log[k] := AfterSubmit(c, valid)]
              && idle == (if Late(c, valid) then old(idle) + {log[k]} else old(idle)))
      ensures forall i: nat :: old(Settled(i)) ==> Settled(i) && chunks[i] == old(chunks)[i]
    {
      hide Counted, Consistent, Held, AfterSubmit, Late, Matches;
      var k := submissions[s].task;
      KnownChunk(chunks, log, attempts, k, maxActive, maxTotal);
      if !dbFails {
        UpdateProofStatus(k, valid);
      }
      submissions := if valid && (dbFails || notReady) then submissions[s := Submission(k, false)]
                     else submissions - {s};
    }
  }

  // ---------- Proofs about the log ----------

  lemma {:induction false} NoneSince(log: seq<nat>, at: nat, index: nat)
    requires at <= |log| && Count(log, index) == Count(log[..at], index)
    ensures index !in log[at..]
  {
    assert log == log[..at] + log[at..];
    CountConcat(log[..at], log[at..], index);
    CountZero(log[at..], index);
  }

  lemma {:induction false} AssignCounted(chunks: seq<ChunkTask>, log: seq<nat>, index: nat, maxActive: nat,
      maxTotal: nat)
    requires Counted(chunks, log, maxActive, maxTotal) && index < |chunks|
    requires chunks[index].active < maxActive && chunks[index].total < maxTotal
    ensures Counted(chunks[index := AfterAssign(chunks[index])], log + [index], maxActive, maxTotal)
  {
    assert (log + [index])[..|log|] == log;
  }

  /** An attempt is of an existing chunk. */
  lemma {:induction false} KnownChunk(chunks: seq<ChunkTask>, log: seq<nat>, attempts: seq<Attempt>, k: nat,
      maxActive: nat, maxTotal: nat)
    requires Counted(chunks, log, maxActive, maxTotal) && k < |attempts| == |log|
    ensures log[k] < |chunks| && WithinLimits(chunks[log[k]], maxActive, maxTotal)
  {
    hide Count;
    assert log[k] in log;
  }

  /** A worker reads a row of attempts left. */
  lemma {:induction false} ReadConsistent(workers: map<nat, Snapshot>, readAt: map<nat, nat>, chunks: seq<ChunkTask>,
      log: seq<nat>, idle: set<nat>, w: nat, i: nat, maxActive: nat, maxTotal: nat)
    requires Counted(chunks, log, maxActive, maxTotal)
    requires Consistent(workers, readAt, chunks, log, idle, maxActive, maxTotal)
    requires i < |chunks| && chunks[i].status != Verified && chunks[i].active < maxActive && chunks[i].total < maxTotal
    ensures Consistent(workers[w := Snapshot(i, chunks[i].active, chunks[i].total)], readAt[w := |log|], chunks, log,
                       idle, maxActive, maxTotal)
  {
    hide Count;
    assert log[..|log|] == log;
  }

  /** What a worker's snapshot says of its row when the swap succeeds. */
  lemma {:induction false} SwapFacts(workers: map<nat, Snapshot>, readAt: map<nat, nat>, chunks: seq<ChunkTask>,
      log: seq<nat>, idle: set<nat>, w: nat, maxActive: nat, maxTotal: nat)
    requires Counted(chunks, log, maxActive, maxTotal) && w in workers
    requires Consistent(workers, readAt, chunks, log, idle, maxActive, maxTotal)
    ensures w in readAt && workers[w].index < |chunks| && readAt[w] <= |log|
    ensures var s, c := workers[w], chunks[workers[w].index];
      && (c.status == Verified ==> (Matches(s, c) <==> s.index in idle && s.active == 0 && s.total == c.total))
      && (Matches(s, c) ==>
            && c.active < maxActive && c.total < maxTotal
            && Count(log, s.index) == Count(log[..readAt[w]], s.index)
            && (c.status in {Assigned, Unassigned} || c.active == 0))
  {
    hide Count;
    assert IsSnapshot(workers[w], readAt[w], chunks, log, maxActive, maxTotal);
    assert WithinLimits(chunks[workers[w].index], maxActive, maxTotal);
  }

  lemma {:induction false} AssignConsistent(workers: map<nat, Snapshot>, readAt: map<nat, nat>, chunks: seq<ChunkTask>,
      log: seq<nat>, idle: set<nat>, index: nat, maxActive: nat, maxTotal: nat)
    requires Consistent(workers, readAt, chunks, log, idle, maxActive, maxTotal) && index < |chunks|
    ensures Consistent(workers, readAt, chunks[index := AfterAssign(chunks[index])], log + [index], idle - {index},
                       maxActive, maxTotal)
  {
    hide Count;
    forall w | w in workers ensures (log + [index])[..readAt[w]] == log[..readAt[w]] {
      assert IsSnapshot(workers[w], readAt[w], chunks, log, maxActive, maxTotal);
    }
  }

  // ---------- Whole runs ----------

  /** Steps of the workers, of the timeout collector and of the proof receiver, in any order. A worker reads assigned
      or unassigned chunks. */
  datatype Step =
    | NewChunk(startBlock: nat, endBlock: nat)
    | ReadChunk(w: nat, taken: bool, fromBlock: nat, toBlock: nat)
    | Swap(w: nat)
    | Insert(k: nat, dbFails: bool)
    | Format(k: nat, ok: bool)
    | Recover(k: nat, dbFails: bool)
    | Load(ks: seq<nat>)
    | Check(dbFails: bool)
    | Submit(s: nat, k: nat, statusOk: bool)
    | Close(s: nat, valid: bool, dbFails: bool, notReady: bool)

  predicate Enabled(c: Coordinator, step: Step)
    reads c
  {
    match step
    case NewChunk(_, _) => true
    case ReadChunk(_, _, _, _) => true
    case Swap(w) => w in c.workers
    case Insert(k, _) => k < |c.attempts| && c.attempts[k].worker.Inserting?
    case Format(k, _) => k < |c.attempts| && c.attempts[k].worker.Formatting?
    case Recover(k, _) => k < |c.attempts| && c.attempts[k].worker.Recovering?
    case Load(ks) =>
      && c.timeouts == [] && |ks| <= 10
      && forall j :: 0 <= j < |ks| ==> ks[j] < |c.attempts| && c.attempts[ks[j]].task.Open?
    case Check(_) => c.timeouts != []
    case Submit(s, k, _) => s !in c.submissions && k < |c.attempts|
    case Close(s, valid, _, _) => s in c.submissions && (valid ==> c.submissions[s].mayVerify)
  }

  /** One step. A settled chunk stays as it is, and settled; only a chunk with a late proof is assigned again while
      verified. */
  method Perform(c: Coordinator, step: Step)
    requires c.Valid() && Enabled(c, step)
    modifies c
    ensures c.Valid() && TotalsGrow(old(c.chunks), c.chunks)
    ensures forall i: nat :: old(c.Settled(i)) ==> c.Settled(i) && c.chunks[i] == old(c.chunks)[i]
    ensures old(c.log) <= c.log
    ensures forall i :: 0 <= i < |old(c.chunks)| && old(c.chunks)[i].status == Verified && i !in old(c.idle) ==>
      i !in c.log[|old(c.log)|..]
  {
    hide Counted, Consistent, Accounted, Stored, Matches, AfterTimeout, AfterSubmit, AfterAssign, DecreaseActive, Late,
         Coordinator.Settled;
    match step
    case NewChunk(s, e) => c.AddChunk(s, e);
    case ReadChunk(w, taken, from, to) => var _ := c.Read(w, if taken then Assigned else Unassigned, from, to);
    case Swap(w) => var _ := c.CompareAndSwap(w);
    case Insert(k, dbFails) => c.InsertTask(k, dbFails);
    case Format(k, ok) => c.FormatTask(k, ok);
    case Recover(k, dbFails) => c.RecoverActiveAttempts(k, dbFails);
    case Load(ks) => c.LoadTimeouts(ks);
    case Check(dbFails) => c.CheckTimeout(dbFails);
    case Submit(s, k, statusOk) => var _ := c.ValidateSubmission(s, k, statusOk);
    case Close(s, valid, dbFails, notReady) => c.CloseTask(s, valid, dbFails, notReady);
  }

  /** Under every interleaving the counters stay within the limits, each total counts the assignments of its chunk,
      no total decreases, active attempts are accounted for until the chunk is verified or failed, and a settled chunk
      stays verified and is never assigned again. */
  method Run(c: Coordinator, steps: seq<Step>)
    requires c.Valid()
    modifies c
    ensures c.Valid() && TotalsGrow(old(c.chunks), c.chunks)
    ensures forall i: nat :: old(c.Settled(i)) ==> c.Settled(i) && c.chunks[i] == old(c.chunks)[i]
  {
    hide Counted, Consistent, Accounted, Stored, Coordinator.NoneLive, Enabled, Matches;
    for j := 0 to |steps|
      invariant c.Valid() && TotalsGrow(old(c.chunks), c.chunks)
      invariant forall i: nat :: old(c.Settled(i)) ==> c.Settled(i) && c.chunks[i] == old(c.chunks)[i]
    {
      if Enabled(c, steps[j]) {
        Perform(c, steps[j]);
      }
    }
  }

  /** No snapshot matches a verified chunk, unless its proof came in while no attempt was active: it is settled when it
      has attempts left or no task of it can time out. */
  lemma {:induction false} VerifiedIsSettled(c: Coordinator, i: nat)
    requires c.Valid() && i < |c.chunks| && c.chunks[i].status == Verified && i !in c.idle
    ensures c.Settled(i) <==> c.chunks[i].total < c.maxTotal || c.NoneLive(i)
  {
    hide Count, Held;
    forall w | w in c.workers && c.workers[w].index == i ensures !Matches(c.workers[w], c.chunks[i]) {
      assert NotAhead(c.workers[w], c.chunks[i], false);
    }
  }

  /** The collector checks all it has loaded: an exhausted verified chunk is failed when a task of it is loaded. */
  method CheckLoaded(c: Coordinator, i: nat)
    requires c.Valid() && i < |c.chunks| && c.chunks[i].status == Verified && c.chunks[i].total >= c.maxTotal
    modifies c`chunks, c`attempts, c`timeouts
    ensures c.Valid() && c.timeouts == [] && i < |c.chunks| && c.chunks[i].total == old(c.chunks)[i].total
    ensures |c.attempts| == |c.log| && |old(c.attempts)| == |c.log|
    ensures c.chunks[i].status in {Verified, TaskFailed}
    ensures forall k :: 0 <= k < |c.log| && k in old(c.timeouts) && c.log[k] == i ==> c.chunks[i].status == TaskFailed
    ensures forall k :: 0 <= k < |c.log| && k !in old(c.timeouts) ==> c.attempts[k] == old(c.attempts)[k]
  {
    hide Counted, Consistent, Held, Stored, Coordinator.Settled, Coordinator.Live, TotalsGrow;
    while c.timeouts != []
      invariant c.Valid() && i < |c.chunks| && c.chunks[i].total == old(c.chunks)[i].total
      invariant |c.attempts| == |c.log|
      invariant c.chunks[i].status in {Verified, TaskFailed}
      invariant forall k :: k in c.timeouts ==> k in old(c.timeouts)
      invariant forall k :: 0 <= k < |c.log| && k in old(c.timeouts) && c.log[k] == i ==>
        k in c.timeouts || c.chunks[i].status == TaskFailed
      invariant forall k :: 0 <= k < |c.log| && k !in old(c.timeouts) ==> c.attempts[k] == old(c.attempts)[k]
      decreases |c.timeouts|
    {
      ghost var before := c.timeouts;
      assert before[0] in before && forall k :: k in before ==> k == before[0] || k in before[1..];
      c.CheckTimeout(false);
    }
  }

  /** A verified chunk that is not settled can still be failed, when its attempts are used up, or assigned again. */
  method Unsettle(c: Coordinator, i: nat)
    requires c.Valid() && i < |c.chunks| && c.chunks[i].status == Verified && !c.Settled(i)
    modifies c
    ensures c.Valid() && i < |c.chunks|
    ensures c.chunks[i].status == if old(c.chunks)[i].total >= c.maxTotal then TaskFailed else Assigned
  {
    hide Counted, Consistent, Accounted, Stored, TotalsGrow;
    ExhaustedUnmatched(c, i);
    if c.chunks[i].total < c.maxTotal {
      var w :| w in c.workers && c.workers[w].index == i && Matches(c.workers[w], c.chunks[i]);
      var _ := c.CompareAndSwap(w);
      return;
    }
    var k :| 0 <= k < |c.log| && c.log[k] == i && c.Live(k);
    CheckLoaded(c, i);
    if c.chunks[i].status == TaskFailed {
      return;
    }
    if c.attempts[k].worker.Inserting? {
      c.InsertTask(k, false);
    }
    c.LoadTimeouts([k]);
    c.CheckTimeout(false);
  }

  lemma {:induction false} ExhaustedUnmatched(c: Coordinator, i: nat)
    requires c.Valid() && i < |c.chunks|
    ensures c.chunks[i].total >= c.maxTotal ==>
      forall w :: w in c.workers && c.workers[w].index == i ==> !Matches(c.workers[w], c.chunks[i])
  {
    hide Count, Held;
    forall w | w in c.workers && c.workers[w].index == i
      ensures c.chunks[i].total >= c.maxTotal ==> !Matches(c.workers[w], c.chunks[i])
    {
      assert IsSnapshot(c.workers[w], c.readAt[w], c.chunks, c.log, c.maxActive, c.maxTotal);
    }
  }

  // ---------- Runs from a new coordinator ----------

  /** A worker reads the only chunk. */
  method ReadOnlyChunk(c: Coordinator, w: nat)
    requires c.Valid() && |c.chunks| == 1 && c.chunks[0].status in {Assigned, Unassigned}
    requires c.chunks[0].active < c.maxActive && c.chunks[0].total < c.maxTotal
    modifies c`workers, c`readAt
    ensures c.Valid() && c.workers == old(c.workers)[w := Snapshot(0, c.chunks[0].active, c.chunks[0].total)]
  {
    hide Counted, Consistent, Accounted, Stored, TotalsGrow, Coordinator.Settled;
    var row := c.chunks[0];
    assert c.Available(row, row.status, row.startBlock, row.endBlock + 1);
    var _ := c.Read(w, row.status, row.startBlock, row.endBlock + 1);
  }

  /** ... is assigned it and stores the task; `ok` tells whether the prover gets its message. */
  method AssignOnlyChunk(c: Coordinator, w: nat, ok: bool)
    requires c.Valid() && |c.chunks| == 1 && c.chunks[0].status in {Assigned, Unassigned}
    requires c.chunks[0].active < c.maxActive && c.chunks[0].total < c.maxTotal
    modifies c`workers, c`readAt, c`chunks, c`log, c`attempts, c`idle
    ensures c.Valid() && c.chunks == [AfterAssign(old(c.chunks)[0])] && c.log == old(c.log) + [0]
    ensures c.attempts == old(c.attempts) + [Attempt(Open, if ok then Done else Recovering)]
  {
    hide Counted, Consistent, Accounted, Stored, TotalsGrow, Coordinator.Settled;
    ReadOnlyChunk(c, w);
    var _ := c.CompareAndSwap(w);
    var k := |c.attempts| - 1;
    c.InsertTask(k, false);
    c.FormatTask(k, ok);
  }

  /** A proof of open task `k` of the only chunk comes in and is valid. */
  method ProveOnlyChunk(c: Coordinator, k: nat)
    requires c.Valid() && |c.chunks| == 1 && c.chunks[0].status != Verified
    requires k < |c.attempts| && c.attempts[k].task.Open? && c.submissions == map[]
    modifies c`chunks, c`attempts, c`submissions, c`idle
    ensures c.Valid() && c.chunks == [AfterSubmit(old(c.chunks)[0], true)] && c.submissions == map[]
    ensures c.attempts == old(c.attempts)[k := old(c.attempts)[k].(task := ProofValid)]
  {
    hide Counted, Consistent, Held, Stored, TotalsGrow, Coordinator.Settled;
    var taken := c.ValidateSubmission(0, k, true);
    assert c.log[k] == 0 && taken;
    c.CloseTask(0, true, false, false);
  }

  /** Open or loaded task `k` of the only chunk times out. */
  method TimeOutOnlyChunk(c: Coordinator, k: nat)
    requires c.Valid() && |c.chunks| == 1 && k < |c.attempts|
    requires c.timeouts == [k] || (c.timeouts == [] && c.attempts[k].task.Open?)
    modifies c`chunks, c`attempts, c`timeouts
    ensures c.Valid() && c.chunks == [AfterTimeout(old(c.chunks)[0], c.maxTotal)] && c.timeouts == []
    ensures c.attempts == old(c.attempts)[k := old(c.attempts)[k].(task := ProofInvalid)]
  {
    hide Counted, Consistent, Accounted, Stored, TotalsGrow, Coordinator.Settled, AfterTimeout;
    if c.timeouts == [] {
      c.LoadTimeouts([k]);
    }
    c.CheckTimeout(false);
  }

  /** Two workers assign the only chunk; `ok` tells whether the first prover gets its message. If not, the attempt is
      given back before the second. */
  method AssignTwice(maxActive: nat, maxTotal: nat, ok: bool) returns (c: Coordinator)
    requires maxTotal >= 2 && maxActive >= if ok then 2 else 1
    ensures fresh(c) && c.Valid() && c.maxActive == maxActive && c.maxTotal == maxTotal
    ensures c.log == [0, 0] && c.chunks == [ChunkTask(0, 0, Assigned, if ok then 2 else 1, 2)]
    ensures c.attempts == [Attempt(Open, Done), Attempt(Open, Done)] && c.timeouts == [] && c.submissions == map[]
  {
    hide Counted, Consistent, Accounted, Stored, TotalsGrow, Coordinator.Settled;
    c := new Coordinator(maxActive, maxTotal);
    c.AddChunk(0, 0);
    AssignOnlyChunk(c, 0, ok);
    if !ok {
      c.RecoverActiveAttempts(0, false);
    }
    assert c.chunks == [ChunkTask(0, 0, Assigned, if ok then 1 else 0, 1)] && c.attempts == [Attempt(Open, Done)];
    AssignOnlyChunk(c, 1, true);
  }

  /** A task that could not be formatted is given back but stays open, and its timeout gives back another attempt. */
  method GivenBackTwice(maxActive: nat, maxTotal: nat) returns (c: Coordinator)
    requires maxActive >= 1 && maxTotal >= 3
    ensures fresh(c) && c.Valid() && c.maxActive == maxActive && c.maxTotal == maxTotal
    ensures c.log == [0, 0] && c.chunks == [ChunkTask(0, 0, Assigned, 0, 2)]
    ensures c.attempts == [Attempt(ProofInvalid, Done), Attempt(Open, Done)] && c.submissions == map[]
  {
    hide Counted, Consistent, Accounted, Stored, TotalsGrow, Coordinator.Settled;
    c := AssignTwice(maxActive, maxTotal, false);
    TimeOutOnlyChunk(c, 0);
  }

  /** The proof of that other attempt then verifies the chunk without changing the counters: the swap of a worker that
      read the chunk before assigns it again. */
  method VerifiedThenAssigned(maxActive: nat, maxTotal: nat) returns (c: Coordinator)
    requires maxActive >= 1 && maxTotal >= 3
    ensures c.Valid() && c.log == [0, 0, 0] && c.chunks == [ChunkTask(0, 0, Assigned, 1, 3)]
  {
    hide Counted, Consistent, Accounted, Stored, TotalsGrow, Coordinator.Settled;
    c := GivenBackTwice(maxActive, maxTotal);
    ReadOnlyChunk(c, 2);
    ProveOnlyChunk(c, 1);
    assert c.chunks[0] == ChunkTask(0, 0, Verified, 0, 2);
    var _ := c.CompareAndSwap(2);
  }

  /** Two provers, two attempts: the first proof verifies the chunk, so the second is not taken up and its task stays
      open, until its timeout marks the chunk failed. */
  method VerifiedThenFailed(maxActive: nat) returns (c: Coordinator)
    requires maxActive >= 2
    ensures c.Valid() && c.chunks == [ChunkTask(0, 0, TaskFailed, 1, 2)]
  {
    hide Counted, Consistent, Accounted, Stored, TotalsGrow, Coordinator.Settled;
    c := AssignTwice(maxActive, 2, true);
    ProveOnlyChunk(c, 0);
    assert c.chunks == [ChunkTask(0, 0, Verified, 1, 2)];
    var taken := c.ValidateSubmission(1, 1, true);
    assert !taken && c.attempts[1].task.Open?;
    TimeOutOnlyChunk(c, 1);
  }

  /** One prover, one attempt: the proof comes in after the collector has loaded its task. */
  method VerifiedAfterLoading(maxActive: nat) returns (c: Coordinator)
    requires maxActive >= 1
    ensures c.Valid() && c.chunks == [ChunkTask(0, 0, TaskFailed, 0, 1)]
  {
    hide Counted, Consistent, Accounted, Stored, TotalsGrow, Coordinator.Settled;
    c := new Coordinator(maxActive, 1);
    c.AddChunk(0, 0);
    AssignOnlyChunk(c, 0, true);
    c.LoadTimeouts([0]);
    ProveOnlyChunk(c, 0);
    assert c.chunks[0].status == Verified;
    TimeOutOnlyChunk(c, 0);
  }
}
