/** No job is lost, retries stay within their limit, and restart recovery is complete. */
module Recovery {
  import opened Types
  import opened Tables
  import opened Delivery
  import opened DeliverySafety
  import opened DeliveryRuns
  import Positions
  import Backoff
  import Q = QueueState

  // ----- nothing is lost -----

  /** Some position of the queue holds the id. */
  predicate Placed(q: Q.Queue, j: nat) { j in q.ready || j in q.processing || j in q.delayed }

  lemma PlacedIfQueued(q: Q.Queue, j: nat)
    requires Q.Kept(q) && j in q.queued
    ensures j in q.payloads && Placed(q, j)
  {
    Q.Count(q.ready, j);
    Q.Count(q.processing, j);
  }

  /** In every reachable state, whatever crashed, was rolled back or dropped: an unsettled job that no
      crash hit between the two writes of a disconnect is running, or has exactly one unprocessed
      outbox row, or is queued with its payload; and each copy agrees with the job's row. */
  lemma NoJobLost(es: seq<Event>, j: nat)
    ensures var d := Exec(START, es).disk;
      && (j in d.db.jobs && !Settled(d.db.jobs[j].status) && j !in LostIn(START, es) ==>
            d.db.jobs[j].status == Running || RowCount(d.db.outbox, j) == 1 || j in d.q.queued)
      && (j in d.q.queued <==> j in d.q.payloads)
      && (j in d.q.queued ==> Placed(d.q, j) && CopyOk(d.db, d.q.payloads[j]))
  {
    StartInv();
    ExecInv(START, es, {});
    var d := Exec(START, es).disk;
    hide Exec;
    hide LostIn;
    if j in d.q.queued { PlacedIfQueued(d.q, j); }
    hide Placed;
  }

  predicate WithinLimit(db: Db, job: Job) {
    job.id in db.jobs && job.retryCount <= job.maxRetries == db.jobs[job.id].maxRetries
  }

  /** The retry bound, on every copy and in every reachable state. */
  lemma RetryBound(es: seq<Event>)
    ensures var s := Exec(START, es);
      && (forall j :: j in s.disk.db.jobs ==> s.disk.db.jobs[j].retryCount <= s.disk.db.jobs[j].maxRetries)
      && (forall j :: j in s.disk.q.payloads ==> WithinLimit(s.disk.db, s.disk.q.payloads[j]))
      && (forall w :: w in s.inFlight ==> WithinLimit(s.disk.db, s.inFlight[w]))
  {
    StartInv();
    ExecInv(START, es, {});
  }

  /** That crash, and no other event, leaves a job nobody will find. */
  lemma LosesExactly(s: Sys, e: Event)
    requires Inv(s, {})
    ensures Durable(Next(s, e).disk, {}) <==> !LosesJob(s, e)
  {
    NextInv(s, e, {});
    if LosesJob(s, e) {
      var job := s.inFlight[e.during.w];
      WithOrphansCount(DiskAfter(s, e.during, e.cut).db, s.disk.db.nextJob, job.id);
      assert !Found(Next(s, e).disk, job.id);
    } else {
      assert {} + LostBy(s, e) == {};
    }
  }

  // ----- restart -----

  lemma ResetClears(db: Db, j: nat)
    ensures j in ResetRunningJobs(db).jobs <==> j in db.jobs
    ensures j in db.jobs ==> ResetRunningJobs(db).jobs[j].status != Running
  {
    hide WithOrphans;
  }

  /** After ResetRunningJobs and Recover nothing is running or in processing, and every unsettled job
      is in ready, in delayed, or has exactly one unprocessed outbox row; one relay pass then leaves
      each of them in ready or delayed with its payload, and the outbox drained. */
  lemma RestartComplete(s: Sys, lost: set<nat>, at: int)
    requires Inv(s, lost)
    ensures var d := Boot(s.disk, s.now).disk;
      && d.q.processing == []
      && (forall j :: j in d.db.jobs ==> d.db.jobs[j].status != Running)
      && (forall j :: j in d.db.jobs && !Settled(d.db.jobs[j].status) && j !in lost ==>
            RowCount(d.db.outbox, j) == 1 || (j in d.q.payloads && (j in d.q.ready || j in d.q.delayed)))
    ensures var d := RelayDisk(Boot(s.disk, s.now).disk, at);
      && (forall j: nat :: RowCount(d.db.outbox, j) == 0)
      && (forall j :: j in d.db.jobs && !Settled(d.db.jobs[j].status) && j !in lost ==>
            j in d.q.payloads && (j in d.q.ready || j in d.q.delayed))
  {
    var d := Boot(s.disk, s.now).disk;
    BootWrite(s.disk, s.now, lost);
    forall j ensures j in d.db.jobs ==> d.db.jobs[j].status != Running { if j in d.db.jobs { ResetClears(s.disk.db, j); } }
    assert d.q.processing == [];
    hide Boot;
    AtRest(d, lost);
    RelayWrite(d, at, lost);
    Positions.EnqueueAllFrame(d.q, RelayEntries(d));
    AtRest(RelayDisk(d, at), lost);
  }

  lemma AtRest(d: Disk, lost: set<nat>)
    requires Durable(d, lost) && d.q.processing == []
    requires forall j :: j in d.db.jobs ==> d.db.jobs[j].status != Running
    ensures forall j :: j in d.db.jobs && !Settled(d.db.jobs[j].status) && j !in lost ==>
      RowCount(d.db.outbox, j) == 1 || (j in d.q.payloads && (j in d.q.ready || j in d.q.delayed))
  {
    forall j | j in d.db.jobs && !Settled(d.db.jobs[j].status) && j !in lost
      ensures RowCount(d.db.outbox, j) == 1 || (j in d.q.payloads && (j in d.q.ready || j in d.q.delayed))
    {
      assert Found(d, j);
      if j in d.q.queued { PlacedIfQueued(d.q, j); }
    }
  }

  /** A crash between ResetRunningJobs and Recover does no harm: the next start ends where one
      undisturbed start would have. */
  lemma InterruptedRestart(d: Disk, now: int)
    requires forall j :: j in d.db.jobs ==> j < d.db.nextJob
    ensures var half := d.(db := ResetRunningJobs(d.db));
      && Boot(half, now).disk.q == Boot(d, now).disk.q
      && Boot(half, now).disk.db.jobs == Boot(d, now).disk.db.jobs
      && Boot(half, now).disk.db.outbox == Boot(d, now).disk.db.outbox
  {
    var db := ResetRunningJobs(d.db);
    NoOrphans(db, db.nextJob);
  }

  lemma {:induction false} NoOrphans(db: Db, n: nat)
    requires forall j :: j in db.jobs ==> db.jobs[j].status != Running
    ensures WithOrphans(db, n) == db.outbox
  {
    if n > 0 { NoOrphans(db, n - 1); }
  }

  // ----- crashes inside a handler -----

  /** A success acknowledges first: between its two writes the job has left the queue, and its row still runs. */
  lemma HalfSuccess(s: Sys, w: string, output: string)
    requires Accepts(s, w)
    ensures var d, j := DiskAfter(s, Result(w, true, output), 1), s.inFlight[w].id;
      j !in d.q.queued && j !in d.q.payloads && d.db == s.disk.db
  {
  }

  /** A failure writes the row first: between its writes the queue is as it was. */
  lemma HalfFailure(s: Sys, w: string, output: string)
    requires Accepts(s, w)
    ensures var d, j, row := DiskAfter(s, Result(w, false, output), 1), s.inFlight[w].id, s.disk.db.jobs[s.inFlight[w].id];
      && d.q == s.disk.q && d.db.runs == s.disk.db.runs
      && d.db.jobs[j].status == (if row.retryCount < row.maxRetries then Retrying else Failed)
    ensures var d, row := DiskAfter(s, Result(w, false, output), 2), s.disk.db.jobs[s.inFlight[w].id];
      row.retryCount >= row.maxRetries ==> s.inFlight[w].id !in d.q.queued && d.db.runs == s.disk.db.runs
  {
    hide RowCount;
    hide Backoff.RetryDelay;
  }

  /** CancelJob: the row, then the outbox, then the queue. */
  lemma HalfCancel(s: Sys, j: nat)
    requires Cancels(s, j)
    ensures var d := DiskAfter(s, CancelJob(j), 1);
      d.db.jobs[j].status == Cancelled && d.db.outbox == s.disk.db.outbox && d.q == s.disk.q
    ensures var d := DiskAfter(s, CancelJob(j), 2);
      d.db.jobs[j].status == Cancelled && RowCount(d.db.outbox, j) == 0 && d.q == s.disk.q
  {
    MarkJobsCount(s.disk.db.outbox, {j}, s.now, j);
    hide RowCount;
  }

  /** Ready: the job leaves ready first, and its row runs only then. */
  lemma HalfReady(s: Sys, w: string, sent: bool)
    requires w !in s.inFlight
    ensures var d := DiskAfter(s, Ready(w, sent), 1); d.db == s.disk.db && d.q == Q.Consume(s.disk.q).0
    ensures Q.Consume(s.disk.q).1.Some? && Q.Consume(s.disk.q).1.value.id in s.disk.db.jobs ==>
      DiskAfter(s, Ready(w, sent), 2).db.jobs[Q.Consume(s.disk.q).1.value.id].status == Running
  {
    hide Q.Consume;
  }

  /** A job put back is pending first, and queued only then. */
  lemma HalfReturn(s: Sys, w: string)
    requires w in s.inFlight && s.inFlight[w].id in s.disk.db.jobs
    ensures var d := DiskAfter(s, Disconnect(w), 1); d.q == s.disk.q && d.db.jobs[s.inFlight[w].id].status == Pending
  {
  }

  /** The hourly cleanup: unprocessed rows stay, and processed ones for as long as they are not older than the age. */
  lemma CleanUpExact(s: Sys, age: nat, r: OutboxRow)
    ensures var o, o' := s.disk.db.outbox, Next(s, CleanUp(age)).disk.db.outbox;
      r in o' <==> r in o && (!r.processed || s.now - r.at <= age)
    ensures Next(s, CleanUp(age)).disk.db.jobs == s.disk.db.jobs && Next(s, CleanUp(age)).disk.q == s.disk.q
  {
    CleanupExact(s.disk.db.outbox, s.now - age, r);
  }
}
