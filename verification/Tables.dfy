/**
  The Postgres tables as one value and what each statement of internal/db makes of it.
  The outbox is kept in created_at order; BIGSERIAL keys are counters.
*/
module Tables {
  import opened Prelude
  import opened Types

  datatype StepKey = StepKey(run: nat, step: nat)

  datatype JobRow = JobRow(
    status: Status, retryCount: nat, maxRetries: int, kind: string, payload: Payload,
    output: Option<string>, key: Option<StepKey>)

  datatype OutboxRow = OutboxRow(id: nat, job: nat, processed: bool, at: int)

  datatype RunRow = RunRow(name: string, status: RunStatus, current: nat, total: nat)

  datatype Db = Db(
    jobs: map<nat, JobRow>, nextJob: nat, outbox: seq<OutboxRow>, nextRow: nat,
    runs: map<nat, RunRow>, nextRun: nat)

  const EMPTY_DB := Db(map[], 1, [], 1, map[], 1)

  datatype Inserted = Created(id: nat) | Conflict | Rejected

  /** An outbox row joined with its job, as the relay reads it: the retry count is not among the columns. */
  datatype Entry = Entry(row: nat, job: Job)

  // ----- internal/db/outbox.go -----

  function AddJob(db: Db, row: JobRow): Db {
    db.(jobs := db.jobs[db.nextJob := row], nextJob := db.nextJob + 1,
        outbox := db.outbox + [OutboxRow(db.nextRow, db.nextJob, false, 0)], nextRow := db.nextRow + 1)
  }

  function InsertJob(db: Db, maxRetries: int, kind: string, payload: Payload): (Db, Inserted) {
    if RetriesFit(maxRetries)
    then (AddJob(db, JobRow(Pending, 0, maxRetries, kind, payload, None, None)), Created(db.nextJob))
    else (db, Rejected)
  }

  predicate HasKey(db: Db, key: StepKey) {
    exists id :: id in db.jobs && db.jobs[id].key == Some(key)
  }

  /** CHECK and REFERENCES fail the insert; the unique (run, step) key makes it a no-op. */
  function InsertWorkflowStep(db: Db, key: StepKey, maxRetries: int, payload: Payload): (Db, Inserted) {
    if !RetriesFit(maxRetries) || key.run !in db.runs then (db, Rejected)
    else if HasKey(db, key) then (db, Conflict)
    else (AddJob(db, JobRow(Pending, 0, maxRetries, "shell", payload, None, Some(key))), Created(db.nextJob))
  }

  /** The unprocessed rows that join a job, in order. */
  function Entries(outbox: seq<OutboxRow>, jobs: map<nat, JobRow>): seq<Entry> {
    if outbox == [] then []
    else
      var n := |outbox| - 1;
      var r := outbox[n];
      Entries(outbox[..n], jobs) +
      if !r.processed && r.job in jobs then [Entry(r.id, FirstCopy(r.job, jobs[r.job]))] else []
  }

  /** The queue payload relay builds; RetryCount is left at zero. */
  function FirstCopy(id: nat, row: JobRow): Job { Job(id, 0, row.maxRetries, row.kind, row.payload) }

  function MarkIds(outbox: seq<OutboxRow>, ids: set<nat>, at: int): seq<OutboxRow> {
    if outbox == [] then []
    else
      var n := |outbox| - 1;
      var r := outbox[n];
      MarkIds(outbox[..n], ids, at) + [if r.id in ids then r.(processed := true, at := at) else r]
  }

  function MarkJobs(outbox: seq<OutboxRow>, jobs: set<nat>, at: int): seq<OutboxRow> {
    if outbox == [] then []
    else
      var n := |outbox| - 1;
      var r := outbox[n];
      MarkJobs(outbox[..n], jobs, at) + [if r.job in jobs && !r.processed then r.(processed := true, at := at) else r]
  }

  function CancelOutboxEntry(db: Db, job: nat, at: int): Db {
    db.(outbox := MarkJobs(db.outbox, {job}, at))
  }

  function Cleanup(outbox: seq<OutboxRow>, cutoff: int): seq<OutboxRow> {
    if outbox == [] then []
    else
      var n := |outbox| - 1;
      Cleanup(outbox[..n], cutoff) + if outbox[n].processed && outbox[n].at < cutoff then [] else [outbox[n]]
  }

  /** How many unprocessed outbox rows a job has. */
  function RowCount(outbox: seq<OutboxRow>, j: nat): nat {
    if outbox == [] then 0
    else
      var n := |outbox| - 1;
      RowCount(outbox[..n], j) + if outbox[n].job == j && !outbox[n].processed then 1 else 0
  }

  // ----- internal/db/jobs.go -----

  function UpdateJobState(db: Db, id: nat, status: Status, retryCount: nat): Db {
    if id in db.jobs
    then db.(jobs := db.jobs[id := db.jobs[id].(status := status, retryCount := retryCount)])
    else db
  }

  function CompleteJob(db: Db, id: nat, output: string): Db {
    if id in db.jobs
    then db.(jobs := db.jobs[id := db.jobs[id].(status := Completed, output := Some(output))])
    else db
  }

  predicate Orphan(db: Db, j: nat) {
    j in db.jobs && db.jobs[j].status == Running && RowCount(db.outbox, j) == 0
  }

  /** The outbox with one new row for each orphan below n. */
  function WithOrphans(db: Db, n: nat): seq<OutboxRow> {
    if n == 0 then db.outbox
    else
      var o := WithOrphans(db, n - 1);
      if Orphan(db, n - 1) then o + [OutboxRow(db.nextRow + n - 1, n - 1, false, 0)] else o
  }

  function ResetRunningJobs(db: Db): Db {
    db.(jobs := map j | j in db.jobs :: if db.jobs[j].status == Running then db.jobs[j].(status := Pending) else db.jobs[j],
        outbox := WithOrphans(db, db.nextJob), nextRow := db.nextRow + db.nextJob)
  }

  datatype Listing = Listing(id: nat, row: JobRow)

  /** ListJobs: the jobs of one status, newest first, among the ids below n. */
  function Listed(jobs: map<nat, JobRow>, status: Status, n: nat): seq<Listing> {
    if n == 0 then []
    else
      (if n - 1 in jobs && jobs[n - 1].status == status then [Listing(n - 1, jobs[n - 1])] else [])
      + Listed(jobs, status, n - 1)
  }

  lemma {:induction false} ListedExactly(jobs: map<nat, JobRow>, status: Status, n: nat)
    ensures var rows := Listed(jobs, status, n);
      && (forall r :: r in rows <==> r.id < n && r.id in jobs && jobs[r.id] == r.row && r.row.status == status)
      && (forall i, k :: 0 <= i < k < |rows| ==> rows[i].id > rows[k].id)
  {
    if n > 0 {
      ListedExactly(jobs, status, n - 1);
      var rest, rows := Listed(jobs, status, n - 1), Listed(jobs, status, n);
      assert forall k :: 0 <= k < |rest| ==> rest[k] in rest;
    }
  }

  function OutputOf(row: JobRow): string { if row.output.Some? then row.output.value else "" }

  /** GetJobOutputByWorkflowStep: the output of a completed job of that step, among the ids below n. */
  function FindOutput(db: Db, key: StepKey, n: nat): Option<string> {
    if n == 0 then None
    else
      var found := FindOutput(db, key, n - 1);
      if found.None? && n - 1 in db.jobs && db.jobs[n - 1].key == Some(key) && db.jobs[n - 1].status == Completed
      then Some(OutputOf(db.jobs[n - 1])) else found
  }

  // ----- internal/db/workflows.go -----

  function CreateWorkflowRun(db: Db, name: string, total: nat): Db {
    db.(runs := db.runs[db.nextRun := RunRow(name, RunRunning, 0, total)], nextRun := db.nextRun + 1)
  }

  function AdvanceWorkflowRun(db: Db, run: nat): Db {
    if run in db.runs && db.runs[run].status == RunRunning
    then db.(runs := db.runs[run := db.runs[run].(current := db.runs[run].current + 1)])
    else db
  }

  function SetRunStatus(db: Db, run: nat, status: RunStatus): Db {
    if run in db.runs then db.(runs := db.runs[run := db.runs[run].(status := status)]) else db
  }

  predicate OfRun(row: JobRow, run: nat) { row.key.Some? && row.key.value.run == run }

  /** The jobs CancelWorkflowRunAtomic touches. */
  function Cancellable(db: Db, run: nat): set<nat> {
    set j | j in db.jobs && OfRun(db.jobs[j], run) && (db.jobs[j].status == Pending || db.jobs[j].status == Retrying)
  }

  function CancelWorkflowRun(db: Db, run: nat, at: int): Db {
    if run in db.runs && db.runs[run].status == RunRunning then
      var gone := Cancellable(db, run);
      SetRunStatus(db, run, RunCancelled).(
        jobs := map j | j in db.jobs :: if j in gone then db.jobs[j].(status := Cancelled) else db.jobs[j],
        outbox := MarkJobs(db.outbox, gone, at))
    else db
  }

  function SubmittedSteps(db: Db, run: nat): set<nat> {
    set j | j in db.jobs && OfRun(db.jobs[j], run) :: db.jobs[j].key.value.step
  }

  function CompletedSteps(db: Db, run: nat): set<nat> {
    set j | j in db.jobs && OfRun(db.jobs[j], run) && db.jobs[j].status == Completed :: db.jobs[j].key.value.step
  }

  // ----- what the statements do to the outbox, row by row -----

  /** An entry for each unprocessed row whose job exists, carrying that row's id, and nothing else. */
  lemma {:induction false} EntriesExact(o: seq<OutboxRow>, jobs: map<nat, JobRow>, e: Entry)
    ensures e in Entries(o, jobs) <==>
      exists i :: 0 <= i < |o| && !o[i].processed && o[i].job in jobs && e == Entry(o[i].id, FirstCopy(o[i].job, jobs[o[i].job]))
  {
    if o != [] {
      var n := |o| - 1;
      EntriesExact(o[..n], jobs, e);
      assert forall i :: 0 <= i < n ==> o[..n][i] == o[i];
    }
  }

  lemma {:induction false} MarkIdsAt(o: seq<OutboxRow>, ids: set<nat>, at: int)
    ensures |MarkIds(o, ids, at)| == |o|
    ensures forall i :: 0 <= i < |o| ==> MarkIds(o, ids, at)[i] == if o[i].id in ids then o[i].(processed := true, at := at) else o[i]
  {
    if o != [] {
      MarkIdsAt(o[..|o| - 1], ids, at);
    }
  }

  /** CancelOutboxEntry and CancelWorkflowRunAtomic: rows already processed keep their time. */
  lemma {:induction false} MarkJobsAt(o: seq<OutboxRow>, jobs: set<nat>, at: int)
    ensures |MarkJobs(o, jobs, at)| == |o|
    ensures forall i :: 0 <= i < |o| ==>
      MarkJobs(o, jobs, at)[i] == if o[i].job in jobs && !o[i].processed then o[i].(processed := true, at := at) else o[i]
  {
    if o != [] {
      MarkJobsAt(o[..|o| - 1], jobs, at);
    }
  }

  /** Only processed rows older than the cutoff go, and all of them do. */
  lemma {:induction false} CleanupExact(o: seq<OutboxRow>, cutoff: int, r: OutboxRow)
    ensures r in Cleanup(o, cutoff) <==> r in o && !(r.processed && r.at < cutoff)
  {
    if o != [] {
      var n := |o| - 1;
      CleanupExact(o[..n], cutoff, r);
      assert o == o[..n] + [o[n]];
    }
  }

  // ----- what the inserts create -----

  /** The foreign key of jobs on workflow_runs, and keys that come from a sequence. */
  ghost predicate KeysKnown(db: Db) {
    && (forall j :: j in db.jobs && db.jobs[j].key.Some? ==> db.jobs[j].key.value.run in db.runs)
    && (forall run :: run in db.runs ==> run < db.nextRun)
  }

  lemma ResetKeepsKeys(db: Db)
    requires KeysKnown(db)
    ensures KeysKnown(ResetRunningJobs(db))
  {
    hide WithOrphans;
  }

  lemma CancelKeepsKeys(db: Db, run: nat, at: int)
    requires KeysKnown(db)
    ensures KeysKnown(CancelWorkflowRun(db, run, at))
  {
    hide MarkJobs;
  }

  ghost predicate IdsBelowNext(db: Db) { forall j :: j in db.jobs ==> j < db.nextJob }

  /** One new job and one new unprocessed row for it, in a row of its own; nothing else changes. */
  ghost predicate OneMore(db: Db, db': Db, id: nat) {
    && id !in db.jobs && db'.jobs.Keys == db.jobs.Keys + {id}
    && (forall j :: j in db.jobs ==> db'.jobs[j] == db.jobs[j])
    && |db'.outbox| == |db.outbox| + 1 && db'.outbox[..|db.outbox|] == db.outbox
    && (var r := db'.outbox[|db.outbox|]; r.job == id && !r.processed && r.id == db.nextRow < db'.nextRow)
    && db'.runs == db.runs && IdsBelowNext(db')
  }

  /** InsertJob: a fresh pending job with the limit, type and text it was given, and no step. */
  lemma InsertJobExact(db: Db, maxRetries: int, kind: string, payload: Payload)
    requires IdsBelowNext(db)
    ensures var (db', r) := InsertJob(db, maxRetries, kind, payload);
      if 0 <= maxRetries <= 2_147_483_647 then
        && r.Created? && OneMore(db, db', r.id)
        && db'.jobs[r.id].status == Pending && db'.jobs[r.id].retryCount == 0 && db'.jobs[r.id].maxRetries == maxRetries
        && db'.jobs[r.id].kind == kind && db'.jobs[r.id].payload == payload
        && db'.jobs[r.id].output.None? && db'.jobs[r.id].key.None?
      else r.Rejected? && db' == db
  {
  }

  /** InsertWorkflowStep: the same for a step of a run, once. */
  lemma InsertStepExact(db: Db, key: StepKey, maxRetries: int, payload: Payload)
    requires IdsBelowNext(db)
    ensures var (db', r) := InsertWorkflowStep(db, key, maxRetries, payload);
      if !(0 <= maxRetries <= 2_147_483_647) || key.run !in db.runs then r.Rejected? && db' == db
      else if exists j :: j in db.jobs && db.jobs[j].key == Some(key) then r.Conflict? && db' == db
      else
        && r.Created? && OneMore(db, db', r.id)
        && db'.jobs[r.id].status == Pending && db'.jobs[r.id].retryCount == 0 && db'.jobs[r.id].maxRetries == maxRetries
        && db'.jobs[r.id].kind == "shell" && db'.jobs[r.id].payload == payload
        && db'.jobs[r.id].output.None? && db'.jobs[r.id].key == Some(key)
  {
  }

  /** CancelWorkflowRunAtomic: of an active run, exactly the jobs of that run that are pending or retrying are
      cancelled; jobs of other runs, and jobs of none, stay as they are. */
  lemma CancelRunRows(db: Db, run: nat, at: int, j: nat)
    requires j in db.jobs
    ensures var row, row' := db.jobs[j], CancelWorkflowRun(db, run, at).jobs[j];
      if run in db.runs && db.runs[run].status == RunRunning
         && row.key.Some? && row.key.value.run == run && (row.status == Pending || row.status == Retrying)
      then row' == row.(status := Cancelled) else row' == row
    ensures CancelWorkflowRun(db, run, at).jobs.Keys == db.jobs.Keys
  {
    hide MarkJobs;
  }

  // ----- what the statements do to the row counts -----

  lemma {:induction false} MarkIdsCount(o: seq<OutboxRow>, ids: set<nat>, at: int, j: nat)
    ensures RowCount(MarkIds(o, ids, at), j) <= RowCount(o, j)
    ensures (forall i :: 0 <= i < |o| && o[i].job == j && !o[i].processed ==> o[i].id in ids) ==> RowCount(MarkIds(o, ids, at), j) == 0
  {
    if o != [] {
      var n := |o| - 1;
      MarkIdsCount(o[..n], ids, at, j);
      assert MarkIds(o, ids, at)[..|MarkIds(o, ids, at)| - 1] == MarkIds(o[..n], ids, at);
      assert forall i :: 0 <= i < n ==> o[..n][i] == o[i];
    }
  }

  lemma {:induction false} MarkJobsCount(o: seq<OutboxRow>, jobs: set<nat>, at: int, j: nat)
    ensures RowCount(MarkJobs(o, jobs, at), j) == if j in jobs then 0 else RowCount(o, j)
  {
    if o != [] {
      MarkJobsCount(o[..|o| - 1], jobs, at, j);
      assert MarkJobs(o, jobs, at)[..|MarkJobs(o, jobs, at)| - 1] == MarkJobs(o[..|o| - 1], jobs, at);
    }
  }

  lemma {:induction false} CleanupCount(o: seq<OutboxRow>, cutoff: int, j: nat)
    ensures RowCount(Cleanup(o, cutoff), j) == RowCount(o, j)
  {
    if o != [] {
      CleanupCount(o[..|o| - 1], cutoff, j);
      var kept := Cleanup(o[..|o| - 1], cutoff);
      AppendCount(kept, o[|o| - 1], j);
      assert kept + [] == kept;
    }
  }

  lemma AppendCount(o: seq<OutboxRow>, r: OutboxRow, j: nat)
    ensures RowCount(o + [r], j) == RowCount(o, j) + if r.job == j && !r.processed then 1 else 0
  {
    assert (o + [r])[..|o|] == o;
  }

  lemma {:induction false} WithOrphansCount(db: Db, n: nat, j: nat)
    ensures RowCount(WithOrphans(db, n), j) == RowCount(db.outbox, j) + if j < n && Orphan(db, j) then 1 else 0
  {
    hide RowCount;
    if n > 0 {
      WithOrphansCount(db, n - 1, j);
      AppendCount(WithOrphans(db, n - 1), OutboxRow(db.nextRow + n - 1, n - 1, false, 0), j);
    }
  }

  function Rows(entries: seq<Entry>): set<nat> { set e | e in entries :: e.row }

  lemma {:induction false} EntriesCover(o: seq<OutboxRow>, jobs: map<nat, JobRow>, i: nat)
    requires i < |o| && !o[i].processed && o[i].job in jobs
    ensures Entry(o[i].id, FirstCopy(o[i].job, jobs[o[i].job])) in Entries(o, jobs)
  {
    if i < |o| - 1 { EntriesCover(o[..|o| - 1], jobs, i); }
  }

  lemma {:induction false} EntriesSound(o: seq<OutboxRow>, jobs: map<nat, JobRow>, e: Entry)
    requires e in Entries(o, jobs)
    ensures RowCount(o, e.job.id) > 0 && e.job.id in jobs && e.job == FirstCopy(e.job.id, jobs[e.job.id])
  {
    if e in Entries(o[..|o| - 1], jobs) { EntriesSound(o[..|o| - 1], jobs, e); }
  }

  lemma {:induction false} CountedRow(o: seq<OutboxRow>, j: nat) returns (i: nat)
    requires RowCount(o, j) > 0
    ensures i < |o| && o[i].job == j && !o[i].processed
  {
    i := |o| - 1;
    if !(o[i].job == j && !o[i].processed) { i := CountedRow(o[..i], j); }
  }

  /** A committed relay pass leaves no unprocessed row that joins a job. */
  lemma RelayedCount(db: Db, at: int, j: nat)
    requires RowCount(db.outbox, j) > 0 ==> j in db.jobs
    ensures RowCount(MarkIds(db.outbox, Rows(Entries(db.outbox, db.jobs)), at), j) == 0
  {
    var ids := Rows(Entries(db.outbox, db.jobs));
    if RowCount(db.outbox, j) > 0 {
      forall i | 0 <= i < |db.outbox| && db.outbox[i].job == j && !db.outbox[i].processed ensures db.outbox[i].id in ids {
        EntriesCover(db.outbox, db.jobs, i);
      }
    }
    MarkIdsCount(db.outbox, ids, at, j);
  }
}
