/** The database object (internal/db): every statement against the table value. */
module Postgres {
  import opened Prelude
  import opened Types
  import T = Tables

  class Database {
    var jobs: map<nat, T.JobRow>
    var nextJob: nat
    var outbox: seq<T.OutboxRow>
    var nextRow: nat
    var runs: map<nat, T.RunRow>
    var nextRun: nat

    function State(): T.Db
      reads this
    {
      T.Db(jobs, nextJob, outbox, nextRow, runs, nextRun)
    }

    /** Keys come from the sequence. */
    ghost predicate Valid()
      reads this
    {
      T.IdsBelowNext(State()) && T.KeysKnown(State())
    }

    constructor ()
      ensures State() == T.EMPTY_DB && Valid()
    {
      jobs, nextJob, outbox, nextRow, runs, nextRun := map[], 1, [], 1, map[], 1;
    }

    // ----- outbox.go -----

    method AddJob(row: T.JobRow) returns (id: nat)
      requires Valid() && (row.key.Some? ==> row.key.value.run in runs)
      modifies this
      ensures Valid() && id == old(nextJob) && State() == T.AddJob(old(State()), row)
    {
      id := nextJob;
      jobs, nextJob := jobs[id := row], nextJob + 1;
      outbox, nextRow := outbox + [T.OutboxRow(nextRow, id, false, 0)], nextRow + 1;
    }

    method InsertJob(maxRetries: int, kind: string, payload: Payload) returns (r: T.Inserted)
      requires Valid()
      modifies this
      ensures Valid() && (State(), r) == T.InsertJob(old(State()), maxRetries, kind, payload)
    {
      if !RetriesFit(maxRetries) {
        return T.Rejected;
      }
      var id := AddJob(T.JobRow(Pending, 0, maxRetries, kind, payload, None, None));
      r := T.Created(id);
    }

    /** The unique index on (workflow_run_id, step_index). */
    method KeyTaken(key: T.StepKey) returns (taken: bool)
      requires Valid()
      ensures taken <==> T.HasKey(State(), key)
    {
      taken := false;
      for j := 0 to nextJob
        invariant !taken
        invariant forall k :: 0 <= k < j && k in jobs ==> jobs[k].key != Some(key)
      {
        if j in jobs && jobs[j].key == Some(key) {
          return true;
        }
      }
    }

    method InsertWorkflowStep(key: T.StepKey, maxRetries: int, payload: Payload) returns (r: T.Inserted)
      requires Valid()
      modifies this
      ensures Valid() && (State(), r) == T.InsertWorkflowStep(old(State()), key, maxRetries, payload)
    {
      if !RetriesFit(maxRetries) || key.run !in runs {
        return T.Rejected;
      }
      var taken := KeyTaken(key);
      if taken {
        return T.Conflict;
      }
      var id := AddJob(T.JobRow(Pending, 0, maxRetries, "shell", payload, None, Some(key)));
      r := T.Created(id);
    }

    method GetUnprocessedOutbox() returns (entries: seq<T.Entry>)
      ensures entries == T.Entries(outbox, jobs)
    {
      entries := [];
      for i := 0 to |outbox|
        invariant entries == T.Entries(outbox[..i], jobs)
      {
        var r := outbox[i];
        if !r.processed && r.job in jobs {
          entries := entries + [T.Entry(r.id, T.FirstCopy(r.job, jobs[r.job]))];
        }
        assert outbox[..i + 1][..i] == outbox[..i];
      }
      assert outbox[..|outbox|] == outbox;
    }

    method MarkOutboxProcessed(id: nat, at: int)
      modifies this`outbox
      ensures outbox == T.MarkIds(old(outbox), {id}, at)
    {
      var rows := outbox;
      var marked := [];
      for i := 0 to |rows|
        invariant outbox == rows && marked == T.MarkIds(rows[..i], {id}, at)
      {
        marked := marked + [if rows[i].id == id then rows[i].(processed := true, at := at) else rows[i]];
        assert rows[..i + 1][..i] == rows[..i];
      }
      assert rows[..|rows|] == rows;
      outbox := marked;
    }

    method CancelOutboxEntry(job: nat, at: int)
      modifies this`outbox
      ensures State() == T.CancelOutboxEntry(old(State()), job, at)
    {
      MarkJobs({job}, at);
    }

    method MarkJobs(gone: set<nat>, at: int)
      modifies this`outbox
      ensures outbox == T.MarkJobs(old(outbox), gone, at)
    {
      var rows := outbox;
      var marked := [];
      for i := 0 to |rows|
        invariant outbox == rows && marked == T.MarkJobs(rows[..i], gone, at)
      {
        marked := marked + [if rows[i].job in gone && !rows[i].processed then rows[i].(processed := true, at := at) else rows[i]];
        assert rows[..i + 1][..i] == rows[..i];
      }
      assert rows[..|rows|] == rows;
      outbox := marked;
    }

    method CleanupProcessedOutbox(now: int, olderThan: int) returns (deleted: nat)
      modifies this`outbox
      ensures outbox == T.Cleanup(old(outbox), now - olderThan)
      ensures deleted + |outbox| == |old(outbox)|
    {
      var rows := outbox;
      var kept := [];
      deleted := 0;
      for i := 0 to |rows|
        invariant outbox == rows && kept == T.Cleanup(rows[..i], now - olderThan)
        invariant deleted + |kept| == i
      {
        assert rows[..i + 1][..i] == rows[..i];
        if rows[i].processed && rows[i].at < now - olderThan {
          deleted := deleted + 1;
        } else {
          kept := kept + [rows[i]];
        }
      }
      assert rows[..|rows|] == rows;
      outbox := kept;
    }

    // ----- jobs.go -----

    method GetJob(id: nat) returns (row: Option<T.JobRow>)
      ensures row == if id in jobs then Some(jobs[id]) else None
    {
      row := if id in jobs then Some(jobs[id]) else None;
    }

    method UpdateJobState(id: nat, status: Status, retryCount: nat)
      modifies this`jobs
      ensures State() == T.UpdateJobState(old(State()), id, status, retryCount)
      ensures old(Valid()) ==> Valid()
    {
      if id in jobs {
        jobs := jobs[id := jobs[id].(status := status, retryCount := retryCount)];
      }
    }

    method CompleteJob(id: nat, output: string)
      modifies this`jobs
      ensures State() == T.CompleteJob(old(State()), id, output)
      ensures old(Valid()) ==> Valid()
    {
      if id in jobs {
        jobs := jobs[id := jobs[id].(status := Completed, output := Some(output))];
      }
    }

    /** NOT EXISTS over the unprocessed rows of a job. */
    method HasUnprocessed(job: nat) returns (found: bool)
      ensures found <==> T.RowCount(outbox, job) > 0
    {
      found := false;
      for i := 0 to |outbox|
        invariant found <==> T.RowCount(outbox[..i], job) > 0
      {
        assert outbox[..i + 1][..i] == outbox[..i];
        if outbox[i].job == job && !outbox[i].processed {
          found := true;
        }
      }
      assert outbox[..|outbox|] == outbox;
    }

    /** A row for each running job that has no unprocessed one. */
    method EnrolOrphans()
      requires Valid()
      modifies this`outbox, this`nextRow
      ensures Valid() && outbox == T.WithOrphans(old(State()), nextJob) && nextRow == old(nextRow) + nextJob
    {
      ghost var was := State();
      var added := [];
      for j := 0 to nextJob
        invariant State() == was && outbox + added == T.WithOrphans(was, j)
      {
        if j in jobs && jobs[j].status == Running {
          var found := HasUnprocessed(j);
          if !found {
            assert outbox + (added + [T.OutboxRow(nextRow + j, j, false, 0)]) == (outbox + added) + [T.OutboxRow(nextRow + j, j, false, 0)];
            added := added + [T.OutboxRow(nextRow + j, j, false, 0)];
          }
        }
      }
      outbox, nextRow := outbox + added, nextRow + nextJob;
    }

    method ResetRunningJobs()
      requires Valid()
      modifies this
      ensures Valid() && State() == T.ResetRunningJobs(old(State()))
    {
      EnrolOrphans();
      hide T.WithOrphans;
      hide T.KeysKnown;
      SetRunningPending();
      T.ResetKeepsKeys(old(State()));
    }

    method SetRunningPending()
      requires T.IdsBelowNext(State())
      modifies this`jobs
      ensures jobs.Keys == old(jobs).Keys
      ensures forall k :: k in jobs ==>
        jobs[k] == if old(jobs)[k].status == Running then old(jobs)[k].(status := Pending) else old(jobs)[k]
    {
      ghost var start := jobs;
      for j := 0 to nextJob
        invariant jobs.Keys == start.Keys
        invariant forall k :: k in jobs ==>
          jobs[k] == if k < j && start[k].status == Running then start[k].(status := Pending) else start[k]
      {
        if j in jobs && jobs[j].status == Running {
          jobs := jobs[j := jobs[j].(status := Pending)];
        }
      }
    }

    /** ListJobs with a status filter, newest first. */
    method ListJobs(status: Status) returns (rows: seq<T.Listing>)
      ensures rows == T.Listed(jobs, status, nextJob)
    {
      rows := [];
      for j := nextJob downto 0
        invariant rows + T.Listed(jobs, status, j) == T.Listed(jobs, status, nextJob)
      {
        ghost var rest := T.Listed(jobs, status, j);
        if j in jobs && jobs[j].status == status {
          assert T.Listed(jobs, status, j + 1) == [T.Listing(j, jobs[j])] + rest;
          hide T.Listed;
          assert (rows + [T.Listing(j, jobs[j])]) + rest == rows + ([T.Listing(j, jobs[j])] + rest);
          rows := rows + [T.Listing(j, jobs[j])];
        } else {
          assert T.Listed(jobs, status, j + 1) == rest;
        }
      }
    }

    // ----- workflows.go -----

    method CreateWorkflowRun(name: string, total: nat) returns (id: nat)
      modifies this
      ensures id == old(nextRun) && State() == T.CreateWorkflowRun(old(State()), name, total)
      ensures old(Valid()) ==> Valid()
    {
      id := nextRun;
      runs, nextRun := runs[id := T.RunRow(name, RunRunning, 0, total)], nextRun + 1;
    }

    /** None is pgx.ErrNoRows: the run is not active. */
    method AdvanceWorkflowRun(run: nat) returns (row: Option<T.RunRow>)
      modifies this`runs
      ensures State() == T.AdvanceWorkflowRun(old(State()), run)
      ensures old(Valid()) ==> Valid()
      ensures row == if run in old(runs) && old(runs)[run].status == RunRunning then Some(runs[run]) else None
    {
      if run in runs && runs[run].status == RunRunning {
        runs := runs[run := runs[run].(current := runs[run].current + 1)];
        row := Some(runs[run]);
      } else {
        row := None;
      }
    }

    method SetRunStatus(run: nat, status: RunStatus)
      modifies this`runs
      ensures State() == T.SetRunStatus(old(State()), run, status)
      ensures old(Valid()) ==> Valid()
    {
      if run in runs {
        runs := runs[run := runs[run].(status := status)];
      }
    }

    /** The update of the jobs of a cancelled run, with RETURNING id. */
    method CancelJobs(run: nat) returns (cancelled: set<nat>)
      requires T.IdsBelowNext(State())
      modifies this`jobs
      ensures cancelled == T.Cancellable(old(State()), run)
      ensures jobs.Keys == old(jobs).Keys
      ensures forall k :: k in jobs ==> jobs[k] == if k in cancelled then old(jobs)[k].(status := Cancelled) else old(jobs)[k]
    {
      ghost var was := State();
      cancelled := {};
      for j := 0 to nextJob
        invariant jobs.Keys == was.jobs.Keys
        invariant cancelled == set k | k in T.Cancellable(was, run) && k < j
        invariant forall k :: k in jobs ==> jobs[k] == if k in cancelled then was.jobs[k].(status := Cancelled) else was.jobs[k]
      {
        if j in jobs && T.OfRun(jobs[j], run) && (jobs[j].status == Pending || jobs[j].status == Retrying) {
          jobs := jobs[j := jobs[j].(status := Cancelled)];
          cancelled := cancelled + {j};
        }
      }
      assert cancelled == T.Cancellable(was, run);
    }

    /** False is pgx.ErrNoRows: the run is not active. */
    method CancelWorkflowRunAtomic(run: nat, at: int) returns (ok: bool)
      requires Valid()
      modifies this
      ensures Valid() && State() == T.CancelWorkflowRun(old(State()), run, at)
      ensures ok <==> run in old(runs) && old(runs)[run].status == RunRunning
    {
      hide T.MarkJobs;
      hide T.KeysKnown;
      T.CancelKeepsKeys(State(), run, at);
      ok := run in runs && runs[run].status == RunRunning;
      if ok {
        SetRunStatus(run, RunCancelled);
        var cancelled := CancelJobs(run);
        MarkJobs(cancelled, at);
        assert cancelled == T.Cancellable(old(State()), run);
        assert jobs == T.CancelWorkflowRun(old(State()), run, at).jobs;
      }
    }

    method GetSubmittedStepIndices(run: nat) returns (steps: set<nat>)
      requires Valid()
      ensures steps == T.SubmittedSteps(State(), run)
    {
      steps := {};
      for j := 0 to nextJob
        invariant forall k :: k in steps <==> exists i :: i in jobs && i < j && T.OfRun(jobs[i], run) && jobs[i].key.value.step == k
      {
        if j in jobs && T.OfRun(jobs[j], run) {
          steps := steps + {jobs[j].key.value.step};
        }
      }
    }

    method GetCompletedStepIndices(run: nat) returns (steps: set<nat>)
      requires Valid()
      ensures steps == T.CompletedSteps(State(), run)
    {
      steps := {};
      for j := 0 to nextJob
        invariant forall k :: k in steps <==>
          exists i :: i in jobs && i < j && T.OfRun(jobs[i], run) && jobs[i].status == Completed && jobs[i].key.value.step == k
      {
        if j in jobs && T.OfRun(jobs[j], run) && jobs[j].status == Completed {
          steps := steps + {jobs[j].key.value.step};
        }
      }
    }

    method GetJobOutputByWorkflowStep(key: T.StepKey) returns (output: Option<string>)
      requires Valid()
      ensures output == T.FindOutput(State(), key, nextJob)
    {
      output := None;
      for j := 0 to nextJob
        invariant output == T.FindOutput(State(), key, j)
      {
        if output.None? && j in jobs && jobs[j].key == Some(key) && jobs[j].status == Completed {
          output := Some(T.OutputOf(jobs[j]));
        }
      }
    }
  }
}
