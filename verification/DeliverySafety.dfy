/** No job is ever lost: what every step of the delivery protocol keeps, crashes included. */
module DeliverySafety {
  import opened Types
  import opened Tables
  import opened Delivery
  import Q = QueueState

  /** A copy of a job outside the table agrees with its row and keeps the retry bound. */
  ghost predicate CopyOk(db: Db, job: Job) {
    && job.id in db.jobs
    && var row := db.jobs[job.id];
    && job.retryCount <= job.maxRetries == row.maxRetries
    && job.kind == row.kind && job.payload == row.payload
  }

  ghost predicate RowsOk(db: Db) {
    && (forall j :: j in db.jobs ==> j < db.nextJob && db.jobs[j].retryCount <= db.jobs[j].maxRetries)
    && (forall j: nat {:trigger RowCount(db.outbox, j)} :: RowCount(db.outbox, j) <= 1 && (RowCount(db.outbox, j) > 0 ==> j in db.jobs))
  }

  ghost predicate CopiesOk(d: Disk) {
    Q.Kept(d.q) && forall j :: j in d.q.payloads ==> CopyOk(d.db, d.q.payloads[j])
  }

  /** An unsettled job is running, or waits in the outbox, or is known to the queue. */
  predicate Found(d: Disk, j: nat)
    requires j in d.db.jobs
  {
    Settled(d.db.jobs[j].status) || d.db.jobs[j].status == Running || RowCount(d.db.outbox, j) > 0 || j in d.q.queued
  }

  /** The durable state is sound, and every job outside `lost` (and outside j, while it is being written) can be found. */
  ghost predicate DurableBut(d: Disk, j: nat, lost: set<nat>) {
    RowsOk(d.db) && CopiesOk(d) && forall k :: k in d.db.jobs && k != j && k !in lost ==> Found(d, k)
  }

  ghost predicate Durable(d: Disk, lost: set<nat>) {
    RowsOk(d.db) && CopiesOk(d) && forall k :: k in d.db.jobs && k !in lost ==> Found(d, k)
  }

  // ----- one durable write at a time -----

  lemma StateWrite(d: Disk, j: nat, status: Status, rc: nat, lost: set<nat>)
    requires DurableBut(d, j, lost) && j in d.db.jobs && rc <= d.db.jobs[j].maxRetries
    ensures DurableBut(SetState(d, j, status, rc), j, lost)
    ensures Settled(status) || status == Running || RowCount(d.db.outbox, j) > 0 || j in d.q.queued ==> Durable(SetState(d, j, status, rc), lost)
  {
  }

  lemma CompleteWrite(d: Disk, j: nat, output: string, lost: set<nat>)
    requires DurableBut(d, j, lost) && j in d.db.jobs
    ensures Durable(d.(db := CompleteJob(d.db, j, output)), lost)
  {
  }

  lemma SettleWrite(d: Disk, j: nat, lost: set<nat>)
    requires Durable(d, lost)
    requires j in d.db.jobs ==> Settled(d.db.jobs[j].status) || d.db.jobs[j].status == Running
    ensures Durable(d.(q := Q.Settle(d.q, j)), lost)
  {
    Q.SettleKept(d.q, j);
  }

  lemma WithdrawWrite(d: Disk, j: nat, lost: set<nat>)
    requires Durable(d, lost) && j in d.db.jobs && Settled(d.db.jobs[j].status)
    ensures Durable(d.(q := Q.Cancel(d.q, j)), lost)
  {
    Q.CancelKept(d.q, j);
  }

  lemma RetryWrite(d: Disk, job: Job, delay: int, now: int, lost: set<nat>)
    requires DurableBut(d, job.id, lost) && CopyOk(d.db, job)
    ensures Durable(PutBack(d, job, delay, now), lost)
  {
    Q.RetryKept(d.q, job, Q.Millis(now + delay));
  }

  lemma EnqueueWrite(d: Disk, job: Job, lost: set<nat>)
    requires Durable(d, lost) && CopyOk(d.db, job)
    ensures Durable(d.(q := Q.Enqueue(d.q, job)), lost)
  {
    Q.EnqueueKept(d.q, job);
  }

  lemma TakeWrite(d: Disk, lost: set<nat>)
    requires Durable(d, lost)
    ensures Durable(d.(q := Q.Consume(d.q).0), lost)
    ensures var got := Q.Consume(d.q).1;
      got.Some? ==> CopyOk(d.db, got.value) && got.value.id in d.q.queued
  {
    Q.ConsumeKept(d.q);
    Q.ConsumeGives(d.q);
    Q.ConsumePlaces(d.q, 0);
    hide Q.Consume;
    hide Q.Places;
  }

  lemma MarkJobsRows(db: Db, gone: set<nat>, now: int)
    requires RowsOk(db)
    ensures RowsOk(db.(outbox := MarkJobs(db.outbox, gone, now)))
  {
    forall j: nat ensures RowCount(MarkJobs(db.outbox, gone, now), j) <= RowCount(db.outbox, j) {
      MarkJobsCount(db.outbox, gone, now, j);
    }
    hide RowCount;
    hide MarkJobs;
  }

  lemma MarkJobsWrite(d: Disk, gone: set<nat>, now: int, lost: set<nat>)
    requires Durable(d, lost) && forall j :: j in gone && j in d.db.jobs ==> Settled(d.db.jobs[j].status)
    ensures Durable(d.(db := d.db.(outbox := MarkJobs(d.db.outbox, gone, now))), lost)
  {
    var d' := d.(db := d.db.(outbox := MarkJobs(d.db.outbox, gone, now)));
    MarkJobsRows(d.db, gone, now);
    hide Q.Kept;
    hide RowsOk;
    forall k | k in d.db.jobs && k !in lost ensures Found(d', k) {
      assert Found(d, k);
      MarkJobsCount(d.db.outbox, gone, now, k);
    }
  }

  lemma AddJobWrite(d: Disk, row: JobRow, lost: set<nat>)
    requires Durable(d, lost) && row.retryCount <= row.maxRetries
    ensures Durable(d.(db := AddJob(d.db, row)), lost)
  {
    var db' := AddJob(d.db, row);
    var r := OutboxRow(d.db.nextRow, d.db.nextJob, false, 0);
    forall j: nat ensures RowCount(db'.outbox, j) == RowCount(d.db.outbox, j) + if j == d.db.nextJob then 1 else 0 {
      AppendCount(d.db.outbox, r, j);
    }
    assert RowCount(d.db.outbox, d.db.nextJob) == 0;
    hide RowCount;
  }

  lemma {:induction false} EnqueueAllWrite(d: Disk, entries: seq<Entry>, lost: set<nat>)
    requires Durable(d, lost) && forall e :: e in entries ==> CopyOk(d.db, e.job)
    ensures Durable(d.(q := EnqueueAll(d.q, entries)), lost)
    ensures forall e :: e in entries ==> e.job.id in EnqueueAll(d.q, entries).queued
    ensures d.q.queued <= EnqueueAll(d.q, entries).queued
    decreases |entries|
  {
    hide Durable;
    hide CopyOk;
    if entries != [] {
      assert entries[0] in entries;
      EnqueueWrite(d, entries[0].job, lost);
      var next := d.(q := Q.Enqueue(d.q, entries[0].job));
      EnqueueAllWrite(next, entries[1..], lost);
      assert next.(q := EnqueueAll(next.q, entries[1..])) == d.(q := EnqueueAll(d.q, entries));
      assert forall e :: e in entries ==> e == entries[0] || e in entries[1..];
    }
  }

  lemma EntriesOk(d: Disk, lost: set<nat>)
    requires Durable(d, lost)
    ensures forall e :: e in RelayEntries(d) ==> CopyOk(d.db, e.job) && RowCount(d.db.outbox, e.job.id) > 0
  {
    forall e | e in RelayEntries(d) ensures CopyOk(d.db, e.job) && RowCount(d.db.outbox, e.job.id) > 0 {
      EntriesSound(d.db.outbox, d.db.jobs, e);
    }
  }

  lemma RelayWrite(d: Disk, now: int, lost: set<nat>)
    requires Durable(d, lost)
    ensures Durable(RelayDisk(d, now), lost)
    ensures forall j :: RowCount(d.db.outbox, j) > 0 ==> j in RelayDisk(d, now).q.queued
    ensures forall j :: RowCount(RelayDisk(d, now).db.outbox, j) == 0
  {
    var entries := RelayEntries(d);
    EntriesOk(d, lost);
    EnqueueAllWrite(d, entries, lost);
    forall j: nat | RowCount(d.db.outbox, j) > 0 ensures j in EnqueueAll(d.q, entries).queued {
      var i := CountedRow(d.db.outbox, j);
      EntriesCover(d.db.outbox, d.db.jobs, i);
    }
    forall j: nat ensures RowCount(MarkIds(d.db.outbox, Rows(entries), now), j) == 0 {
      RelayedCount(d.db, now, j);
    }
    hide RowCount;
    hide MarkIds;
    hide EnqueueAll;
    hide Q.Kept;
  }

  lemma RelayFailWrite(d: Disk, k: nat, lost: set<nat>)
    requires Durable(d, lost)
    ensures Durable(RelayFailDisk(d, k), lost)
  {
    var entries := RelayEntries(d);
    if k <= |entries| {
      EntriesOk(d, lost);
      assert forall e :: e in entries[..k] ==> e in entries;
      EnqueueAllWrite(d, entries[..k], lost);
    }
  }

  lemma ResetWrite(d: Disk, lost: set<nat>)
    requires Durable(d, lost)
    ensures Durable(d.(db := ResetRunningJobs(d.db)), lost)
    ensures forall j :: j in d.db.jobs ==> ResetRunningJobs(d.db).jobs[j].status != Running
  {
    var db' := ResetRunningJobs(d.db);
    forall j: nat ensures RowCount(db'.outbox, j) == RowCount(d.db.outbox, j) + if j < d.db.nextJob && Orphan(d.db, j) then 1 else 0 {
      WithOrphansCount(d.db, d.db.nextJob, j);
    }
    hide RowCount;
    hide WithOrphans;
    hide Q.Kept;
  }

  lemma BootWrite(d: Disk, now: int, lost: set<nat>)
    requires Durable(d, lost)
    ensures Durable(Boot(d, now).disk, lost)
  {
    ResetWrite(d, lost);
    Q.RecoverKept(d.q);
  }

  lemma CancelRunWrite(d: Disk, run: nat, now: int, lost: set<nat>)
    requires Durable(d, lost)
    ensures Durable(d.(db := CancelWorkflowRun(d.db, run, now)), lost)
  {
    if run in d.db.runs && d.db.runs[run].status == RunRunning {
      var gone := Cancellable(d.db, run);
      var jobs' := map j | j in d.db.jobs :: if j in gone then d.db.jobs[j].(status := Cancelled) else d.db.jobs[j];
      var d1 := d.(db := SetRunStatus(d.db, run, RunCancelled).(jobs := jobs'));
      assert Durable(d1, lost) by { hide RowCount; hide Q.Kept; }
      MarkJobsWrite(d1, gone, now, lost);
    }
  }

  lemma CleanUpWrite(d: Disk, cutoff: int, lost: set<nat>)
    requires Durable(d, lost)
    ensures Durable(d.(db := d.db.(outbox := Cleanup(d.db.outbox, cutoff))), lost)
  {
    forall j: nat ensures RowCount(Cleanup(d.db.outbox, cutoff), j) == RowCount(d.db.outbox, j) {
      CleanupCount(d.db.outbox, cutoff, j);
    }
    hide RowCount;
    hide Cleanup;
    hide Q.Kept;
  }

  lemma PromoteWrite(d: Disk, now: int, batch: seq<nat>, lost: set<nat>)
    requires Durable(d, lost) && Q.IsDueBatch(d.q.delayed, now, batch)
    ensures Durable(d.(q := Q.Promote(d.q, batch)), lost)
  {
    Q.PromoteKept(d.q, now, batch);
  }

  // ----- whole handlers, cut anywhere -----

  lemma ReturnWrites(d: Disk, job: Job, now: int, cut: nat, lost: set<nat>)
    requires Durable(d, lost) && CopyOk(d.db, job)
    requires cut == 1 ==> RowCount(d.db.outbox, job.id) > 0 || job.id in d.q.queued
    ensures Durable(ReturnJob(d, job, now, cut), lost)
  {
    hide RowCount;
    hide Q.Kept;
    if cut > 0 {
      StateWrite(d, job.id, Pending, job.retryCount, lost);
      if cut > 1 { RetryWrite(SetState(d, job.id, Pending, job.retryCount), job, 0, now, lost); }
    }
  }

  lemma ReadyWrites(d: Disk, sent: bool, now: int, cut: nat, lost: set<nat>)
    requires Durable(d, lost)
    ensures Durable(ReadyDisk(d, sent, now, cut), lost)
  {
    TakeWrite(d, lost);
    var (q, got) := Q.Consume(d.q);
    Q.ConsumePlaces(d.q, 0);
    hide RowCount;
    hide Q.Kept;
    hide Q.Consume;
    if cut > 1 && got.Some? {
      var job := got.value;
      StateWrite(d.(q := q), job.id, Running, job.retryCount, lost);
      if !sent { ReturnWrites(SetState(d.(q := q), job.id, Running, job.retryCount), job, now, cut - 2, lost); }
    }
  }

  lemma RunStatusWrite(d: Disk, run: nat, status: RunStatus, lost: set<nat>)
    requires Durable(d, lost)
    ensures Durable(d.(db := SetRunStatus(d.db, run, status)), lost)
  {
  }

  lemma SuccessWrites(d: Disk, j: nat, output: string, now: int, cut: nat, lost: set<nat>)
    requires Durable(d, lost) && j in d.db.jobs && d.db.jobs[j].status == Running
    ensures Durable(ResultDisk(d, j, true, output, now, cut), lost)
  {
    hide RowCount;
    hide Q.Kept;
    SettleWrite(d, j, lost);
    CompleteWrite(d.(q := Q.Settle(d.q, j)), j, output, lost);
  }

  lemma RetryWrites(d: Disk, j: nat, output: string, now: int, cut: nat, lost: set<nat>)
    requires Durable(d, lost) && j in d.db.jobs && j in d.q.queued
    requires d.db.jobs[j].retryCount < d.db.jobs[j].maxRetries
    ensures Durable(ResultDisk(d, j, false, output, now, cut), lost)
  {
    hide RowCount;
    hide Q.Kept;
    var job := RowCopy(j, d.db.jobs[j]).(retryCount := d.db.jobs[j].retryCount + 1);
    StateWrite(d, j, Retrying, job.retryCount, lost);
    RetryWrite(SetState(d, j, Retrying, job.retryCount), job, Backoff.RetryDelay(job.retryCount), now, lost);
  }

  lemma FailureWrites(d: Disk, j: nat, output: string, now: int, cut: nat, lost: set<nat>)
    requires Durable(d, lost) && j in d.db.jobs
    requires d.db.jobs[j].retryCount >= d.db.jobs[j].maxRetries
    ensures Durable(ResultDisk(d, j, false, output, now, cut), lost)
  {
    hide RowCount;
    hide Q.Kept;
    var row := d.db.jobs[j];
    var d1 := SetState(d, j, Failed, row.retryCount);
    StateWrite(d, j, Failed, row.retryCount, lost);
    SettleWrite(d1, j, lost);
    if row.key.Some? { RunStatusWrite(d1.(q := Q.Settle(d1.q, j)), row.key.value.run, RunFailed, lost); }
    hide Durable;
  }

  lemma ResultWrites(d: Disk, j: nat, success: bool, output: string, now: int, cut: nat, lost: set<nat>)
    requires Durable(d, lost) && j in d.db.jobs && d.db.jobs[j].status == Running && j in d.q.queued
    ensures Durable(ResultDisk(d, j, success, output, now, cut), lost)
  {
    if success {
      SuccessWrites(d, j, output, now, cut, lost);
    } else if d.db.jobs[j].retryCount < d.db.jobs[j].maxRetries {
      RetryWrites(d, j, output, now, cut, lost);
    } else {
      FailureWrites(d, j, output, now, cut, lost);
    }
    hide ResultDisk;
    hide Durable;
  }

  lemma CancelWrites(d: Disk, j: nat, now: int, cut: nat, lost: set<nat>)
    requires Durable(d, lost) && j in d.db.jobs
    ensures Durable(CancelDisk(d, j, now, cut), lost)
  {
    hide RowCount;
    hide Q.Kept;
    var d1 := SetState(d, j, Cancelled, d.db.jobs[j].retryCount);
    StateWrite(d, j, Cancelled, d.db.jobs[j].retryCount, lost);
    MarkJobsWrite(d1, {j}, now, lost);
    WithdrawWrite(d1.(db := CancelOutboxEntry(d1.db, j, now)), j, lost);
  }
}
