/**
  What the server makes of each message of a worker stream and of a cancellation (internal/server/server.go,
  internal/service/job_service.go), field by field, in every state.
*/
module Messages {
  import opened Prelude
  import opened Types
  import opened Tables
  import opened Delivery
  import opened Backoff
  import Q = QueueState

  predicate Open(status: Status) { status == Pending || status == Running || status == Retrying }

  /** The queue knows nothing of job j, wherever its id may still stand. */
  predicate Withdrawn(q: Q.Queue, j: nat) { j !in q.queued && j !in q.payloads && j !in q.delayed }

  /** Job j waits in delayed with this copy as its payload. */
  predicate Waits(q: Q.Queue, job: Job, due: int) {
    && job.id in q.queued && job.id in q.payloads && q.payloads[job.id] == job
    && job.id in q.delayed && q.delayed[job.id] == due
  }

  /** Job j has the given row now, if it had one; every other row is the same, and so is the outbox. */
  ghost predicate OneRow(db: Db, db': Db, j: nat, status: Status, retryCount: nat) {
    && db'.outbox == db.outbox && db'.runs == db.runs
    && db'.jobs == if j in db.jobs then db.jobs[j := db.jobs[j].(status := status, retryCount := retryCount)] else db.jobs
  }

  /** A result ends the stream's hold in any case. Only the owner's is looked at, and ends the ownership; only an
      open job's goes further. */
  lemma ResultIgnored(s: Sys, w: string, success: bool, output: string)
    requires w in s.inFlight
    ensures var j, s' := s.inFlight[w].id, Next(s, Result(w, success, output));
      && s'.inFlight == s.inFlight - {w} && s'.now == s.now
      && (j !in s.owner || s.owner[j] != w ==> s' == s.(inFlight := s.inFlight - {w}))
      && (j in s.owner && s.owner[j] == w ==> s'.owner == s.owner - {j} && s'.lastSeen == s.lastSeen - {j})
      && (j !in s.disk.db.jobs || !Open(s.disk.db.jobs[j].status) ==> s'.disk == s.disk)
  {
    hide RemoveFirst;
    hide RetryDelay;
  }

  /** The owner's success of an open job: completed with its output, and out of the queue. */
  lemma SuccessTaken(s: Sys, w: string, output: string)
    requires w in s.inFlight && s.inFlight[w].id in s.owner && s.owner[s.inFlight[w].id] == w
    requires s.inFlight[w].id in s.disk.db.jobs && Open(s.disk.db.jobs[s.inFlight[w].id].status)
    ensures var j, s' := s.inFlight[w].id, Next(s, Result(w, true, output));
      && s'.disk.db == s.disk.db.(jobs := s.disk.db.jobs[j := s.disk.db.jobs[j].(status := Completed, output := Some(output))])
      && Withdrawn(s'.disk.q, j) && s'.disk.q.ready == s.disk.q.ready
  {
    hide RemoveFirst;
  }

  /** The owner's failure of an open job: retrying with one retry more while there is one, failed and out of the
      queue, together with its run, when there is none. */
  lemma FailureTaken(s: Sys, w: string, output: string)
    requires w in s.inFlight && s.inFlight[w].id in s.owner && s.owner[s.inFlight[w].id] == w
    requires s.inFlight[w].id in s.disk.db.jobs && Open(s.disk.db.jobs[s.inFlight[w].id].status)
    ensures var j, s' := s.inFlight[w].id, Next(s, Result(w, false, output)); var row := s.disk.db.jobs[j];
      if row.retryCount < row.maxRetries then
        && OneRow(s.disk.db, s'.disk.db, j, Retrying, row.retryCount + 1)
        && Waits(s'.disk.q, Job(j, row.retryCount + 1, row.maxRetries, row.kind, row.payload), (s.now + RetryDelay(row.retryCount + 1)) / 1_000_000)
      else
        && OneRow(s.disk.db, s'.disk.db.(runs := s.disk.db.runs), j, Failed, row.retryCount) && Withdrawn(s'.disk.q, j)
        && s'.disk.db.runs ==
             if row.key.Some? && row.key.value.run in s.disk.db.runs
             then s.disk.db.runs[row.key.value.run := s.disk.db.runs[row.key.value.run].(status := RunFailed)] else s.disk.db.runs
  {
    hide RemoveFirst;
    hide RetryDelay;
  }

  /** A ready worker that gets the job: its row runs, the worker owns and holds it from now on. */
  lemma ReadySent(s: Sys, w: string)
    requires w !in s.inFlight && Q.Consume(s.disk.q).1.Some?
    ensures var s', job := Next(s, Ready(w, true)), Q.Consume(s.disk.q).1.value;
      && s'.owner == s.owner[job.id := w] && s'.lastSeen == s.lastSeen[job.id := s.now] && s'.inFlight == s.inFlight[w := job]
      && OneRow(s.disk.db, s'.disk.db, job.id, Running, job.retryCount) && s'.disk.q == Q.Consume(s.disk.q).0
  {
    hide Q.Consume;
  }

  /** When Send fails, the job is nobody's and waits again, due at once. */
  lemma ReadyNotSent(s: Sys, w: string)
    requires w !in s.inFlight && Q.Consume(s.disk.q).1.Some?
    ensures var s', job := Next(s, Ready(w, false)), Q.Consume(s.disk.q).1.value;
      && s'.owner == s.owner - {job.id} && s'.lastSeen == s.lastSeen - {job.id} && s'.inFlight == s.inFlight
      && OneRow(s.disk.db, s'.disk.db, job.id, Pending, job.retryCount) && Waits(s'.disk.q, job, s.now / 1_000_000)
  {
    hide Q.Consume;
    hide RemoveFirst;
  }

  /** A stream that breaks: what it holds is pending, nobody's, and waits again, due at once. */
  lemma DropPutsBack(s: Sys, w: string)
    requires w in s.inFlight
    ensures var s', job := Next(s, Disconnect(w)), s.inFlight[w];
      && s'.owner == s.owner - {job.id} && s'.lastSeen == s.lastSeen - {job.id} && s'.inFlight == s.inFlight - {w}
      && OneRow(s.disk.db, s'.disk.db, job.id, Pending, job.retryCount) && Waits(s'.disk.q, job, s.now / 1_000_000)
  {
    hide RemoveFirst;
  }

  /** CancelJob withdraws an open job from row, outbox and queue, and does nothing about any other; who owns or
      holds it does not change. */
  lemma CancelWithdraws(s: Sys, j: nat)
    ensures var s' := Next(s, CancelJob(j));
      if j in s.disk.db.jobs && Open(s.disk.db.jobs[j].status) then
        && s' == s.(disk := s'.disk) && Withdrawn(s'.disk.q, j) && RowCount(s'.disk.db.outbox, j) == 0
        && OneRow(s.disk.db, s'.disk.db.(outbox := s.disk.db.outbox), j, Cancelled, s.disk.db.jobs[j].retryCount)
      else s' == s
  {
    MarkJobsCount(s.disk.db.outbox, {j}, s.now, j);
    hide RemoveFirst;
    hide RowCount;
  }
}
