/** The Server object (internal/server/server.go) and the start of the process (cmd/server/main.go). */
module Server {
  import opened Prelude
  import opened Types
  import T = Tables
  import R = RunTables
  import opened Delivery
  import opened Backoff
  import opened Reaper
  import opened Handling
  import Q = QueueState
  import opened Steps
  import opened Postgres
  import opened Redis
  import opened Relay
  import WorkflowService

  class Server {
    const db: Database
    const queue: RedisQueue
    const workflows: WorkflowService.Service
    var owner: map<nat, string>
    var lastSeen: map<nat, int>
    /** The inFlight variable of each worker's Work stream. */
    var inFlight: map<string, Job>

    ghost predicate Valid()
      reads this, db, workflows, workflows.db, workflows.registry.Values
    {
      workflows.db == db && workflows.Valid()
    }

    function View(now: int): Sys
      reads this, db, queue
    {
      Sys(DiskOf(db, queue), owner, lastSeen, inFlight, now)
    }

    constructor (db: Database, queue: RedisQueue, workflows: WorkflowService.Service)
      requires workflows.db == db && workflows.Valid()
      ensures this.db == db && this.queue == queue && this.workflows == workflows && Valid()
      ensures owner == map[] && lastSeen == map[] && inFlight == map[]
    {
      this.db, this.queue, this.workflows := db, queue, workflows;
      owner, lastSeen, inFlight := map[], map[], map[];
    }

    method ClearOwnership(id: nat)
      modifies this`owner, this`lastSeen
      ensures owner == old(owner) - {id} && lastSeen == old(lastSeen) - {id}
    {
      lastSeen := lastSeen - {id};
      owner := owner - {id};
    }

    /** The three statements that put a job back: on a failed Send, a disconnect and a reap. */
    method GiveBack(job: Job, now: int)
      requires Valid()
      modifies this`owner, this`lastSeen, db, queue
      ensures Valid() && DiskOf(db, queue) == ReturnJob(old(DiskOf(db, queue)), job, now, ALL)
      ensures owner == old(owner) - {job.id} && lastSeen == old(lastSeen) - {job.id}
    {
      ClearOwnership(job.id);
      db.UpdateJobState(job.id, Pending, job.retryCount);
      queue.Retry(job, 0, now);
    }

    method WorkerOwnsJob(id: nat, w: string) returns (yes: bool)
      ensures yes <==> id in owner && owner[id] == w
    {
      yes := id in owner && owner[id] == w;
    }

    method RecordHeartbeat(id: nat, w: string, now: int) returns (ok: bool)
      modifies this`lastSeen
      ensures View(now) == Next(old(View(now)), Heartbeat(w, id))
      ensures ok <==> id in owner && owner[id] == w
    {
      ok := WorkerOwnsJob(id, w);
      if ok {
        lastSeen := lastSeen[id := now];
      }
    }

    /** Work, on a ready message; `sent` is the outcome of stream.Send. The worker loop sends ready
        only when it has no task. False is the call that goes on blocking in Consume. */
    method OnReady(w: string, sent: bool, now: int) returns (got: bool)
      requires Valid() && w !in inFlight
      modifies this, db, queue
      ensures Valid() && View(now) == Next(old(View(now)), Ready(w, sent))
      ensures got <==> Q.Consume(old(queue.State())).1.Some?
    {
      hide Q.Consume;
      hide Q.Retry;
      hide T.UpdateJobState;
      var job := queue.Consume();
      if job.None? {
        return false;
      }
      var j := job.value;
      owner := owner[j.id := w];
      lastSeen := lastSeen[j.id := now];
      db.UpdateJobState(j.id, Running, j.retryCount);
      if sent {
        inFlight := inFlight[w := j];
      } else {
        GiveBack(j, now);
      }
      got := true;
    }

    /** Work, when Recv fails. */
    method OnDisconnect(w: string, now: int)
      requires Valid()
      modifies this, db, queue
      ensures Valid() && View(now) == Next(old(View(now)), Disconnect(w))
    {
      if w in inFlight {
        var job := inFlight[w];
        inFlight := inFlight - {w};
        GiveBack(job, now);
      }
    }

    /** Work, on a result message; the worker loop reports on the job it was given. */
    method OnResult(w: string, jobID: nat, success: bool, output: string, now: int)
      requires Valid() && w in inFlight && inFlight[w].id == jobID
      modifies this, db, queue, workflows.registry.Values
      ensures Valid() && workflows.Workflows() == old(workflows.Workflows())
      ensures View(now) == AfterResult(old(View(now)), workflows.Workflows(), w, success, output)
    {
      ResultIsHandled(View(now), workflows.Workflows(), w, success, output);
      inFlight := inFlight - {w};
      HandleResult(jobID, success, output, w, now);
    }

    method HandleResult(jobID: nat, success: bool, output: string, sender: string, now: int)
      requires Valid()
      modifies this, db, queue, workflows.registry.Values
      ensures Valid() && workflows.Workflows() == old(workflows.Workflows())
      ensures View(now) == Handled(old(View(now)), workflows.Workflows(), sender, jobID, success, output)
    {
      hide Finished;
      hide Normalized;
      var owns := WorkerOwnsJob(jobID, sender);
      if !owns {
        return;
      }
      var found := db.GetJob(jobID);
      if found.None? || Settled(found.value.status) {
        ClearOwnership(jobID);
        return;
      }
      var row := found.value;
      if success {
        Succeed(jobID, row, output, now);
      } else {
        FailOrRetry(jobID, row, output, now);
      }
    }

    method Succeed(id: nat, row: T.JobRow, output: string, now: int)
      requires Valid() && id in db.jobs && row == db.jobs[id]
      modifies this, db, queue, workflows.registry.Values
      ensures Valid() && workflows.Workflows() == old(workflows.Workflows())
      ensures View(now) == Finished(old(View(now)), workflows.Workflows(), id, true, output)
    {
      hide Q.Settle;
      hide T.CompleteJob;
      hide R.Advanced;
      hide Normalized;
      queue.Ack(id);
      db.CompleteJob(id, output);
      ClearOwnership(id);
      if row.key.Some? {
        workflows.Advance(row.key.value.run);
      }
    }

    method FailOrRetry(id: nat, row: T.JobRow, output: string, now: int)
      requires Valid() && id in db.jobs && row == db.jobs[id]
      modifies this, db, queue
      ensures Valid()
      ensures View(now) == Finished(old(View(now)), workflows.Workflows(), id, false, output)
    {
      hide Q.Retry;
      hide Q.Settle;
      hide RetryDelay;
      hide T.UpdateJobState;
      hide T.SetRunStatus;
      hide R.Advanced;
      hide Normalized;
      var job := RowCopy(id, row);
      if job.retryCount < job.maxRetries {
        job := job.(retryCount := job.retryCount + 1);
        db.UpdateJobState(id, Retrying, job.retryCount);
        ClearOwnership(id);
        queue.Retry(job, RetryDelay(job.retryCount), now);
      } else {
        db.UpdateJobState(id, Failed, job.retryCount);
        ClearOwnership(id);
        queue.Fail(id);
        if row.key.Some? {
          db.SetRunStatus(row.key.value.run, RunFailed);
        }
      }
    }

    method ReaperTick(now: int)
      requires Valid()
      modifies this, db, queue
      ensures Valid()
      ensures View(now) == Exec(old(View(now)), Sweep(T.Listed(old(db.jobs), Running, old(db.nextJob))))
    {
      var rows := db.ListJobs(Running);
      ghost var was := View(now);
      T.ListedExactly(db.jobs, Running, db.nextJob);
      hide T.Listed;
      hide Next;
      for i := 0 to |rows|
        invariant Valid()
        invariant forall k :: i <= k < |rows| ==> rows[k].id in db.jobs && db.jobs[rows[k].id] == rows[k].row
        invariant Exec(View(now), Sweep(rows[i..])) == Exec(was, Sweep(rows))
      {
        assert Sweep(rows[i..])[0] == Reap(rows[i].id) && Sweep(rows[i..])[1..] == Sweep(rows[i + 1..]);
        ReapOne(rows[i], now);
      }
    }

    /** One round of the sweep: the row is the one ListJobs read. */
    method ReapOne(job: T.Listing, now: int)
      requires Valid() && job.id in db.jobs && db.jobs[job.id] == job.row && job.row.status == Running
      modifies this, db, queue
      ensures Valid() && View(now) == Next(old(View(now)), Reap(job.id))
      ensures forall j :: j in old(db.jobs) && j != job.id ==> j in db.jobs && db.jobs[j] == old(db.jobs)[j]
    {
      if job.id !in lastSeen || now - lastSeen[job.id] < HEARTBEAT_TIMEOUT || job.id !in owner {
        return;
      }
      GiveBack(RowCopy(job.id, job.row), now);
    }
  }

  /** main: reset, recover, and only then serve. */
  method Startup(db: Database, queue: RedisQueue, workflows: WorkflowService.Service, now: int) returns (server: Server)
    requires workflows.db == db && workflows.Valid()
    modifies db, queue
    ensures fresh(server) && server.Valid() && server.db == db && server.queue == queue
    ensures server.View(now) == Boot(old(DiskOf(db, queue)), now)
  {
    db.ResetRunningJobs();
    queue.Recover();
    server := new Server(db, queue, workflows);
  }
}
