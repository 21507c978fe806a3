/**
  The tables show a workflow run: each statement of TriggerWorkflow and Advance on the tables is the
  corresponding step of the run, read through the (run, step) keys of the jobs.
*/
module RunRefinement {
  import opened Prelude
  import opened Types
  import opened Steps
  import opened Tables
  import M = RunMachine
  import R = RunTables

  function JobOf(row: JobRow): M.StepJob { M.StepJob(row.status, OutputOf(row), row.payload) }

  predicate AtStep(db: Db, j: nat, run: nat, k: nat) {
    j in db.jobs && db.jobs[j].key == Some(StepKey(run, k))
  }

  ghost predicate SameJobs(db: Db, run: nat, jobs: map<nat, M.StepJob>) {
    && (forall j, k {:trigger AtStep(db, j, run, k)} :: AtStep(db, j, run, k) ==> k in jobs && jobs[k] == JobOf(db.jobs[j]))
    && (forall k :: k in jobs ==> exists j :: AtStep(db, j, run, k))
  }

  ghost predicate KeysOk(db: Db, run: nat) {
    && (forall j :: j in db.jobs ==> j < db.nextJob)
    && (forall i, j, k {:trigger AtStep(db, i, run, k), AtStep(db, j, run, k)} ::
          AtStep(db, i, run, k) && AtStep(db, j, run, k) ==> i == j)
  }

  ghost predicate SameRow(db: Db, run: nat, steps: seq<Step>, r: M.Run) {
    && run in db.runs && run < db.nextRun
    && db.runs[run].status == r.status && db.runs[run].current == r.current && db.runs[run].total == |steps|
  }

  /** Each job of the run has its step's retry limit and is a shell job. */
  ghost predicate RowsFit(db: Db, run: nat, steps: seq<Step>) {
    forall j, k: nat {:trigger AtStep(db, j, run, k)} :: AtStep(db, j, run, k) ==>
      k < |steps| && db.jobs[j].maxRetries == steps[k].retries && db.jobs[j].kind == "shell"
  }

  ghost predicate Shows(db: Db, run: nat, steps: seq<Step>, r: M.Run) {
    KeysOk(db, run) && SameRow(db, run, steps, r) && SameJobs(db, run, r.jobs) && RowsFit(db, run, steps)
  }

  lemma RowsFitKept(db: Db, db': Db, run: nat, steps: seq<Step>)
    requires RowsFit(db, run, steps)
    requires forall j, k {:trigger AtStep(db', j, run, k)} :: AtStep(db', j, run, k) ==>
      AtStep(db, j, run, k) && db'.jobs[j].maxRetries == db.jobs[j].maxRetries && db'.jobs[j].kind == db.jobs[j].kind
    ensures RowsFit(db', run, steps)
  {
  }

  // ----- what is read -----

  lemma SubmittedShown(db: Db, run: nat, jobs: map<nat, M.StepJob>)
    requires SameJobs(db, run, jobs)
    ensures SubmittedSteps(db, run) == jobs.Keys
  {
    forall k ensures k in SubmittedSteps(db, run) <==> k in jobs.Keys {
      if k in jobs {
        var j :| AtStep(db, j, run, k);
        assert OfRun(db.jobs[j], run);
      }
      if k in SubmittedSteps(db, run) {
        var j :| j in db.jobs && OfRun(db.jobs[j], run) && db.jobs[j].key.value.step == k;
        assert AtStep(db, j, run, k);
      }
    }
  }

  lemma CompletedShown(db: Db, run: nat, r: M.Run)
    requires SameJobs(db, run, r.jobs)
    ensures CompletedSteps(db, run) == M.Done(r)
  {
    forall k ensures k in CompletedSteps(db, run) <==> k in M.Done(r) {
      if k in M.Done(r) {
        var j :| AtStep(db, j, run, k);
        assert OfRun(db.jobs[j], run);
      }
      if k in CompletedSteps(db, run) {
        var j :| j in db.jobs && OfRun(db.jobs[j], run) && db.jobs[j].status == Completed && db.jobs[j].key.value.step == k;
        assert AtStep(db, j, run, k);
      }
    }
  }

  lemma {:induction false} FindOutputShown(db: Db, run: nat, k: nat, n: nat)
    requires KeysOk(db, run)
    ensures FindOutput(db, StepKey(run, k), n).Some? ==>
      exists j :: AtStep(db, j, run, k) && db.jobs[j].status == Completed && FindOutput(db, StepKey(run, k), n).value == OutputOf(db.jobs[j])
    ensures FindOutput(db, StepKey(run, k), n).None? ==>
      forall j: nat :: AtStep(db, j, run, k) && db.jobs[j].status == Completed ==> j >= n
  {
    if n > 0 {
      FindOutputShown(db, run, k, n - 1);
      if n - 1 in db.jobs && db.jobs[n - 1].key == Some(StepKey(run, k)) { assert AtStep(db, n - 1, run, k); }
    }
  }

  lemma PreviousOutputShown(db: Db, run: nat, steps: seq<Step>, jobs: map<nat, M.StepJob>, k: nat)
    requires KeysOk(db, run) && SameJobs(db, run, jobs) && k < |steps|
    ensures R.PreviousOutput(db, run, steps, k) == M.PreviousOutput(steps, jobs, k)
  {
    var deps := Deps(steps[k]);
    if |deps| == 1 && M.FirstWithId(steps, deps[0], 0).Some? {
      var d := M.FirstWithId(steps, deps[0], 0).value;
      FindOutputShown(db, run, d, db.nextJob);
      if d in jobs {
        var j :| AtStep(db, j, run, d);
      }
    }
  }

  // ----- what is written -----

  lemma HasKeyShown(db: Db, run: nat, k: nat, jobs: map<nat, M.StepJob>)
    requires SameJobs(db, run, jobs)
    ensures HasKey(db, StepKey(run, k)) <==> k in jobs
  {
    if HasKey(db, StepKey(run, k)) {
      var j :| j in db.jobs && db.jobs[j].key == Some(StepKey(run, k));
      assert AtStep(db, j, run, k);
    }
    if k in jobs {
      var j :| AtStep(db, j, run, k);
    }
  }

  /** InsertWorkflowStep is the insert of the run, and it fails exactly on a bad retry limit. */
  lemma InsertShown(db: Db, run: nat, steps: seq<Step>, r: M.Run, k: nat, prev: string)
    requires Shows(db, run, steps, r) && k < |steps|
    ensures Shows(R.Submitted(db, run, steps, k, prev).0, run, steps, r.(jobs := M.Insert(steps, r.jobs, k, prev)))
    ensures R.Submitted(db, run, steps, k, prev).1.Rejected? <==> !RetriesFit(steps[k].retries)
    ensures var db' := R.Submitted(db, run, steps, k, prev).0;
      forall j :: AtStep(db', j, run, k) ==> db'.jobs[j].maxRetries == steps[k].retries && db'.jobs[j].kind == "shell"
  {
    HasKeyShown(db, run, k, r.jobs);
    var db' := R.Submitted(db, run, steps, k, prev).0;
    var jobs' := M.Insert(steps, r.jobs, k, prev);
    if db' != db {
      hide HasKey;
      var row := JobRow(Pending, 0, steps[k].retries, "shell", Shell(steps[k].command, prev), None, Some(StepKey(run, k)));
      assert db' == AddJob(db, row) && jobs' == r.jobs[k := JobOf(row)];
      forall j, m ensures AtStep(db', j, run, m) <==> AtStep(db, j, run, m) || (j == db.nextJob && m == k) {}
      assert AtStep(db', db.nextJob, run, k);
      forall m | m in jobs' ensures exists j :: AtStep(db', j, run, m) {
        if m != k {
          var j :| AtStep(db, j, run, m);
          assert AtStep(db', j, run, m);
        }
      }
    }
  }

  /** A change of one row that keeps its key is a change of that step's job. */
  lemma RowShown(db: Db, db': Db, run: nat, jobs: map<nat, M.StepJob>, j: nat, k: nat)
    requires KeysOk(db, run) && SameJobs(db, run, jobs) && AtStep(db, j, run, k)
    requires db'.jobs.Keys == db.jobs.Keys && db'.nextJob == db.nextJob && db'.jobs[j].key == db.jobs[j].key
    requires forall i :: i in db.jobs && i != j ==> db'.jobs[i] == db.jobs[i]
    ensures KeysOk(db', run) && SameJobs(db', run, jobs[k := JobOf(db'.jobs[j])])
  {
    forall i, m ensures AtStep(db', i, run, m) <==> AtStep(db, i, run, m) {}
    assert AtStep(db', j, run, k);
    var jobs' := jobs[k := JobOf(db'.jobs[j])];
    forall m | m in jobs' ensures exists i :: AtStep(db', i, run, m) {
      if m != k {
        var i :| AtStep(db, i, run, m);
        assert AtStep(db', i, run, m);
      }
    }
  }

  /** Rows of other runs, and jobs outside any run, may change freely. */
  lemma OthersShown(db: Db, db': Db, run: nat, jobs: map<nat, M.StepJob>)
    requires KeysOk(db, run) && SameJobs(db, run, jobs)
    requires forall j :: j in db'.jobs ==> j < db'.nextJob
    requires forall j, k {:trigger AtStep(db, j, run, k)} :: AtStep(db, j, run, k) ==> AtStep(db', j, run, k) && db'.jobs[j] == db.jobs[j]
    requires forall j, k {:trigger AtStep(db', j, run, k)} :: AtStep(db', j, run, k) ==> AtStep(db, j, run, k)
    ensures KeysOk(db', run) && SameJobs(db', run, jobs)
  {
  }

  predicate AtRun(db: Db, j: nat, run: nat) { j in db.jobs && OfRun(db.jobs[j], run) }

  /** The run after job j's status was written, if j belongs to it. */
  function Restated(db: Db, run: nat, r: M.Run, j: nat, status: Status): M.Run {
    if AtRun(db, j, run) && db.jobs[j].key.value.step in r.jobs
    then M.SetStatus(r, db.jobs[j].key.value.step, status) else r
  }

  lemma StateShown(db: Db, run: nat, steps: seq<Step>, r: M.Run, j: nat, status: Status, retryCount: nat)
    requires Shows(db, run, steps, r)
    ensures Shows(UpdateJobState(db, j, status, retryCount), run, steps, Restated(db, run, r, j, status))
    ensures AtRun(db, j, run) ==> db.jobs[j].key.value.step in r.jobs && r.jobs[db.jobs[j].key.value.step] == JobOf(db.jobs[j])
  {
    var db' := UpdateJobState(db, j, status, retryCount);
    RowsFitKept(db, db', run, steps);
    if AtRun(db, j, run) {
      var k := db.jobs[j].key.value.step;
      assert AtStep(db, j, run, k);
      RowShown(db, db', run, r.jobs, j, k);
    } else {
      OthersShown(db, db', run, r.jobs);
    }
  }

  lemma CompleteShown(db: Db, run: nat, steps: seq<Step>, r: M.Run, j: nat, output: string, call: nat)
    requires Shows(db, run, steps, r) && AtRun(db, j, run) && !Settled(db.jobs[j].status) && call !in r.threads
    ensures Shows(CompleteJob(db, j, output), run, steps, M.Complete(r, db.jobs[j].key.value.step, output, call))
    ensures M.Complete(r, db.jobs[j].key.value.step, output, call).threads == r.threads[call := M.Entered]
  {
    var k := db.jobs[j].key.value.step;
    assert AtStep(db, j, run, k);
    RowShown(db, CompleteJob(db, j, output), run, r.jobs, j, k);
    RowsFitKept(db, CompleteJob(db, j, output), run, steps);
  }

  /** Statements on rows of other runs, on the outbox and on other runs' rows show the same run. */
  lemma ElsewhereShown(db: Db, db': Db, run: nat, steps: seq<Step>, r: M.Run)
    requires Shows(db, run, steps, r)
    requires run in db'.runs && db'.runs[run] == db.runs[run] && db'.nextRun >= db.nextRun
    requires forall j :: j in db'.jobs ==> j < db'.nextJob
    requires forall j :: AtRun(db, j, run) ==> AtRun(db', j, run) && db'.jobs[j] == db.jobs[j]
    requires forall j :: AtRun(db', j, run) ==> AtRun(db, j, run)
    ensures Shows(db', run, steps, r)
  {
    forall j, k | AtStep(db, j, run, k) ensures AtStep(db', j, run, k) && db'.jobs[j] == db.jobs[j] { assert AtRun(db, j, run); }
    forall j, k | AtStep(db', j, run, k) ensures AtStep(db, j, run, k) { assert AtRun(db', j, run); }
    OthersShown(db, db', run, r.jobs);
  }

  /** The tables say nothing about the local state of the calls. */
  lemma LocalsAreFree(db: Db, run: nat, steps: seq<Step>, r: M.Run, r': M.Run)
    requires Shows(db, run, steps, r) && r'.jobs == r.jobs && r'.status == r.status && r'.current == r.current
    ensures Shows(db, run, steps, r')
  {
  }

  function ResetAll(jobs: map<nat, M.StepJob>): map<nat, M.StepJob> {
    map k | k in jobs :: if jobs[k].status == Running then jobs[k].(status := Pending) else jobs[k]
  }

  lemma ResetShown(db: Db, run: nat, steps: seq<Step>, r: M.Run)
    requires Shows(db, run, steps, r)
    ensures Shows(ResetRunningJobs(db), run, steps, r.(jobs := ResetAll(r.jobs)))
  {
    hide WithOrphans;
    var db' := ResetRunningJobs(db);
    forall j, k ensures AtStep(db', j, run, k) <==> AtStep(db, j, run, k) {}
    RowsFitKept(db, db', run, steps);
    hide RowsFit;
    forall j, k | AtStep(db, j, run, k) ensures JobOf(db'.jobs[j]) == ResetAll(r.jobs)[k] {
      assert r.jobs[k] == JobOf(db.jobs[j]);
    }
    forall k | k in ResetAll(r.jobs) ensures exists j :: AtStep(db', j, run, k) {
      var j :| AtStep(db, j, run, k);
      assert AtStep(db', j, run, k);
    }
  }

  lemma CancelShown(db: Db, run: nat, steps: seq<Step>, r: M.Run, at: int)
    requires Shows(db, run, steps, r)
    ensures Shows(CancelWorkflowRun(db, run, at), run, steps, M.Next(steps, r, M.CancelRun))
  {
    if r.status == RunRunning {
      var db' := CancelWorkflowRun(db, run, at);
      var gone := Cancellable(db, run);
      hide MarkJobs;
      forall j, k ensures AtStep(db', j, run, k) <==> AtStep(db, j, run, k) {}
      forall j, k | AtStep(db, j, run, k) ensures JobOf(db'.jobs[j]) == M.CancelAll(r.jobs)[k] {
        assert r.jobs[k] == JobOf(db.jobs[j]);
        assert OfRun(db.jobs[j], run);
      }
      forall k | k in M.CancelAll(r.jobs) ensures exists j :: AtStep(db', j, run, k) {
        var j :| AtStep(db, j, run, k);
        assert AtStep(db', j, run, k);
      }
    }
  }

  // ----- the statements of one Advance call -----

  /** The next statement of an Advance call on the tables, and where the call stands after it. */
  function Statement(db: Db, run: nat, steps: seq<Step>, ph: M.Phase): (Db, Option<M.Phase>) {
    match ph
    case Entered =>
      if run !in db.runs || db.runs[run].status != RunRunning then (db, None)
      else
        var counted := AdvanceWorkflowRun(db, run);
        (counted, Some(if counted.runs[run].current >= counted.runs[run].total then M.Finishing else M.Counted))
    case Finishing => (SetRunStatus(db, run, RunCompleted), None)
    case Counted => (db, Some(M.Read(CompletedSteps(db, run))))
    case Read(done) => (db, Some(M.Submitting(R.Frontier(steps, done, SubmittedSteps(db, run)))))
    case Submitting(todo) =>
      if todo == [] || todo[0] >= |steps| then (db, None)
      else (db, Some(M.Fetched(todo[0], todo[1..], R.PreviousOutput(db, run, steps, todo[0]))))
    case Fetched(k, rest, prev) =>
      if k >= |steps| then (db, Some(ph)) else (R.Submitted(db, run, steps, k, prev).0, Some(M.Submitting(rest)))
  }

  function Moved(calls: map<nat, M.Phase>, t: nat, ph: Option<M.Phase>): map<nat, M.Phase> {
    if ph.Some? then calls[t := ph.value] else calls - {t}
  }

  /** Every statement of Advance on the tables is the run's own step. */
  lemma StatementShown(db: Db, run: nat, steps: seq<Step>, r: M.Run, t: nat)
    requires Shows(db, run, steps, r) && t in r.threads
    ensures var (db', ph) := Statement(db, run, steps, r.threads[t]);
      Shows(db', run, steps, M.Advance(steps, r, t)) && M.Advance(steps, r, t).threads == Moved(r.threads, t, ph)
  {
    var (db', ph) := Statement(db, run, steps, r.threads[t]);
    if db'.jobs == db.jobs { RowsFitKept(db, db', run, steps); }
    match r.threads[t] {
      case Entered => RunsOnly(db, db', run, r.jobs);
      case Finishing => RunsOnly(db, db', run, r.jobs);
      case Counted => CompletedShown(db, run, r);
      case Read(done) => SubmittedShown(db, run, r.jobs);
      case Submitting(todo) => if todo != [] && todo[0] < |steps| { PreviousOutputShown(db, run, steps, r.jobs, todo[0]); }
      case Fetched(k, rest, prev) =>
        if k < |steps| {
          InsertShown(db, run, steps, r, k, prev);
        } else {
          assert Moved(r.threads, t, ph) == r.threads;
        }
    }
  }

  lemma RunsOnly(db: Db, db': Db, run: nat, jobs: map<nat, M.StepJob>)
    requires KeysOk(db, run) && SameJobs(db, run, jobs) && db'.jobs == db.jobs && db'.nextJob == db.nextJob
    ensures KeysOk(db', run) && SameJobs(db', run, jobs)
  {
    forall j, k ensures AtStep(db', j, run, k) <==> AtStep(db, j, run, k) {}
    forall k | k in jobs ensures exists j :: AtStep(db', j, run, k) {
      var j :| AtStep(db, j, run, k);
      assert AtStep(db', j, run, k);
    }
  }
}
