/**
  TriggerWorkflow and Advance over the tables (internal/service/workflow_service.go), as functions
  of the database and of the registered, normalized workflows.
*/
module RunTables {
  import opened Prelude
  import opened Types
  import opened Steps
  import opened Tables
  import opened Delivery
  import M = RunMachine

  function StepPayload(steps: seq<Step>, k: nat, prev: string): Payload
    requires k < |steps|
  {
    Shell(steps[k].command, prev)
  }

  function Submitted(db: Db, run: nat, steps: seq<Step>, k: nat, prev: string): (Db, Inserted)
    requires k < |steps|
  {
    InsertWorkflowStep(db, StepKey(run, k), steps[k].retries, StepPayload(steps, k, prev))
  }

  function PreviousOutput(db: Db, run: nat, steps: seq<Step>, k: nat): string
    requires k < |steps|
  {
    var deps := Deps(steps[k]);
    if |deps| != 1 then ""
    else
      match M.FirstWithId(steps, deps[0], 0)
      case None => ""
      case Some(j) =>
        var found := FindOutput(db, StepKey(run, j), db.nextJob);
        if found.Some? then found.value else ""
  }

  predicate Indices(steps: seq<Step>, todo: seq<nat>) {
    forall i :: 0 <= i < |todo| ==> todo[i] < |steps|
  }

  /** Insert the given steps in turn, stopping at the first rejected row; false reports the rejection. */
  function TriggerLoop(db: Db, run: nat, steps: seq<Step>, todo: seq<nat>): (Db, bool)
    requires Indices(steps, todo)
    decreases |todo|
  {
    if todo == [] then (db, true)
    else
      var (db', r) := Submitted(db, run, steps, todo[0], "");
      if r.Rejected? then (db', false) else TriggerLoop(db', run, steps, todo[1..])
  }

  function Roots(steps: seq<Step>): (todo: seq<nat>)
    ensures Indices(steps, todo)
  {
    Frontier(steps, {}, {})
  }

  function Frontier(steps: seq<Step>, done: set<nat>, submitted: set<nat>): (todo: seq<nat>)
    ensures Indices(steps, todo)
  {
    var todo := Unblocked(steps, IdsOf(steps, done), submitted, |steps|);
    assert forall i :: 0 <= i < |todo| ==> todo[i] in todo;
    todo
  }

  function Triggered(db: Db, name: string, steps: seq<Step>): (Db, bool) {
    TriggerLoop(CreateWorkflowRun(db, name, |steps|), db.nextRun, steps, Roots(steps))
  }

  /** Insert the given steps in turn, each with the output it asks for; a rejected row is skipped. */
  function SubmitLoop(db: Db, run: nat, steps: seq<Step>, todo: seq<nat>): Db
    requires Indices(steps, todo)
    decreases |todo|
  {
    if todo == [] then db
    else SubmitLoop(Submitted(db, run, steps, todo[0], PreviousOutput(db, run, steps, todo[0])).0, run, steps, todo[1..])
  }

  function Advanced(db: Db, workflows: map<string, seq<Step>>, run: nat): Db {
    if run !in db.runs || db.runs[run].status != RunRunning then db
    else
      var counted := AdvanceWorkflowRun(db, run);
      var row := counted.runs[run];
      if row.current >= row.total then SetRunStatus(counted, run, RunCompleted)
      else if row.name !in workflows then SetRunStatus(counted, run, RunFailed)
      else
        SubmitNext(counted, run, workflows[row.name])
  }

  /** The second half of Advance: everything the completed steps enable and nobody has submitted. */
  function SubmitNext(db: Db, run: nat, steps: seq<Step>): Db {
    SubmitLoop(db, run, steps, Frontier(steps, CompletedSteps(db, run), SubmittedSteps(db, run)))
  }

  // ----- what TriggerWorkflow answers, and what it leaves -----

  /** The steps without dependencies up to the first whose retry limit the table refuses. */
  ghost predicate RootBeforeBad(steps: seq<Step>, k: nat) {
    k < |steps| && Deps(steps[k]) == [] && forall h: nat :: h <= k && Deps(steps[h]) == [] ==> 0 <= steps[h].retries <= 2_147_483_647
  }

  lemma SubmittedGrows(db: Db, run: nat, steps: seq<Step>, k: nat)
    requires k < |steps| && run in db.runs && IdsBelowNext(db)
    ensures var (db', r) := Submitted(db, run, steps, k, "");
      && (r.Rejected? <==> !(0 <= steps[k].retries <= 2_147_483_647))
      && SubmittedSteps(db', run) == SubmittedSteps(db, run) + (if r.Rejected? then {} else {k})
      && db'.runs == db.runs && IdsBelowNext(db')
  {
    var (db', r) := Submitted(db, run, steps, k, "");
    if r.Conflict? {
      var j :| j in db.jobs && db.jobs[j].key == Some(StepKey(run, k));
      assert OfRun(db.jobs[j], run);
    } else if r.Created? {
      assert OfRun(db'.jobs[r.id], run);
      forall i | i in db.jobs && OfRun(db.jobs[i], run) ensures db.jobs[i].key.value.step in SubmittedSteps(db', run) {
        assert i in db'.jobs && OfRun(db'.jobs[i], run);
      }
    }
  }

  ghost predicate Taken(steps: seq<Step>, k: nat) {
    k < |steps| && 0 <= steps[k].retries <= 2_147_483_647
  }

  /** Step k stands in the list, and no step the table refuses stands before it. */
  ghost predicate BeforeBad(steps: seq<Step>, todo: seq<nat>, k: nat) {
    k in todo && forall h :: h in todo && h <= k ==> Taken(steps, h)
  }

  lemma BeforeBadStep(steps: seq<Step>, todo: seq<nat>, k: nat)
    requires todo != [] && Ascending(todo)
    ensures Ascending(todo[1..])
    ensures BeforeBad(steps, todo, k) <==> Taken(steps, todo[0]) && (k == todo[0] || BeforeBad(steps, todo[1..], k))
    ensures (forall h :: h in todo ==> Taken(steps, h)) <==> Taken(steps, todo[0]) && forall h :: h in todo[1..] ==> Taken(steps, h)
  {
    var rest := todo[1..];
    assert forall h :: h in todo <==> h == todo[0] || h in rest;
    assert forall h :: h in rest ==> todo[0] < h;
  }

  /** Of an ascending list, the steps before the first refused one get rows; the answer says whether that is all. */
  lemma {:induction false} LoopAnswer(db: Db, run: nat, steps: seq<Step>, todo: seq<nat>)
    requires Indices(steps, todo) && run in db.runs && IdsBelowNext(db) && Ascending(todo)
    ensures var (db', ok) := TriggerLoop(db, run, steps, todo);
      && (ok <==> forall h :: h in todo ==> Taken(steps, h))
      && (forall k :: k in SubmittedSteps(db', run) <==> k in SubmittedSteps(db, run) || BeforeBad(steps, todo, k))
      && db'.runs == db.runs
    decreases |todo|
  {
    if todo != [] {
      SubmittedGrows(db, run, steps, todo[0]);
      var (db1, r) := Submitted(db, run, steps, todo[0], "");
      hide Submitted;
      hide SubmittedSteps;
      forall k ensures BeforeBad(steps, todo, k) <==> Taken(steps, todo[0]) && (k == todo[0] || BeforeBad(steps, todo[1..], k)) {
        BeforeBadStep(steps, todo, k);
      }
      BeforeBadStep(steps, todo, 0);
      hide BeforeBad;
      if !r.Rejected? { LoopAnswer(db1, run, steps, todo[1..]); }
    }
  }

  /** TriggerWorkflow answers with the run's id exactly when the table takes every step without dependencies;
      the new run then has rows for exactly those steps, and otherwise for those before the first it refuses. */
  lemma TriggerAnswer(db: Db, name: string, steps: seq<Step>)
    requires IdsBelowNext(db) && KeysKnown(db)
    ensures var (db', ok) := Triggered(db, name, steps);
      && (ok <==> forall k: nat :: k < |steps| && Deps(steps[k]) == [] ==> 0 <= steps[k].retries <= 2_147_483_647)
      && (forall k: nat :: k in SubmittedSteps(db', db.nextRun) <==> RootBeforeBad(steps, k))
      && db'.runs == db.runs[db.nextRun := RunRow(name, RunRunning, 0, |steps|)]
  {
    var db1, roots := CreateWorkflowRun(db, name, |steps|), Roots(steps);
    assert SubmittedSteps(db1, db.nextRun) == {};
    UnblockedAscending(steps, IdsOf(steps, {}), {}, |steps|);
    RootsAre(steps);
    LoopAnswer(db1, db.nextRun, steps, roots);
    hide TriggerLoop;
    hide SubmittedSteps;
    hide Roots;
    forall k: nat ensures BeforeBad(steps, roots, k) <==> RootBeforeBad(steps, k) {}
  }

  lemma RootsAre(steps: seq<Step>)
    ensures forall k: nat :: k in Roots(steps) <==> k < |steps| && Deps(steps[k]) == []
  {
    assert IdsOf(steps, {}) == {} by { forall d ensures d !in IdsOf(steps, {}) { IdsMember(steps, {}, |steps|, d); } }
    forall k: nat | k < |steps| ensures Enabled(steps, {}, k) <==> Deps(steps[k]) == [] { EmptyOrMember(Deps(steps[k])); }
  }

  /** A running run whose workflow is not registered any more is failed by its next Advance call, and nothing
      is submitted. */
  lemma UnknownWorkflowFails(db: Db, workflows: map<string, seq<Step>>, run: nat)
    requires run in db.runs && db.runs[run].status == RunRunning
    requires db.runs[run].current + 1 < db.runs[run].total && db.runs[run].name !in workflows
    ensures var db' := Advanced(db, workflows, run);
      db'.runs[run].status == RunFailed && db'.runs[run].current == db.runs[run].current + 1 && db'.jobs == db.jobs && db'.outbox == db.outbox
  {
  }

  // ----- an Advance call is a series of delivery events -----

  function SubmitEvents(db: Db, run: nat, steps: seq<Step>, todo: seq<nat>): seq<Event>
    requires Indices(steps, todo)
    decreases |todo|
  {
    if todo == [] then []
    else
      var prev := PreviousOutput(db, run, steps, todo[0]);
      [SubmitStep(StepKey(run, todo[0]), steps[todo[0]].retries, StepPayload(steps, todo[0], prev))]
      + SubmitEvents(Submitted(db, run, steps, todo[0], prev).0, run, steps, todo[1..])
  }

  function AdvanceEvents(db: Db, workflows: map<string, seq<Step>>, run: nat): seq<Event> {
    if run !in db.runs || db.runs[run].status != RunRunning then []
    else
      var counted := AdvanceWorkflowRun(db, run);
      var row := counted.runs[run];
      [CountStep(run)] +
      if row.current >= row.total then [CloseRun(run, RunCompleted)]
      else if row.name !in workflows then [CloseRun(run, RunFailed)]
      else
        var steps := workflows[row.name];
        SubmitEvents(counted, run, steps, Frontier(steps, CompletedSteps(counted, run), SubmittedSteps(counted, run)))
  }

  function TriggerLoopEvents(db: Db, run: nat, steps: seq<Step>, todo: seq<nat>): seq<Event>
    requires Indices(steps, todo)
    decreases |todo|
  {
    if todo == [] then []
    else
      var (db', r) := Submitted(db, run, steps, todo[0], "");
      [SubmitStep(StepKey(run, todo[0]), steps[todo[0]].retries, StepPayload(steps, todo[0], ""))]
      + if r.Rejected? then [] else TriggerLoopEvents(db', run, steps, todo[1..])
  }

  function TriggerEvents(db: Db, name: string, steps: seq<Step>): seq<Event> {
    [StartRun(name, |steps|)] + TriggerLoopEvents(CreateWorkflowRun(db, name, |steps|), db.nextRun, steps, Roots(steps))
  }

  function WithDb(s: Sys, db: Db): Sys { s.(disk := s.disk.(db := db)) }

  lemma {:induction false} SubmitRun(s: Sys, run: nat, steps: seq<Step>, todo: seq<nat>)
    requires Indices(steps, todo)
    ensures Exec(s, SubmitEvents(s.disk.db, run, steps, todo)) == WithDb(s, SubmitLoop(s.disk.db, run, steps, todo))
    decreases |todo|
  {
    if todo != [] {
      var db := s.disk.db;
      var es := SubmitEvents(db, run, steps, todo);
      var s' := Next(s, es[0]);
      assert s' == WithDb(s, Submitted(db, run, steps, todo[0], PreviousOutput(db, run, steps, todo[0])).0);
      SubmitRun(s', run, steps, todo[1..]);
      assert es[1..] == SubmitEvents(s'.disk.db, run, steps, todo[1..]);
    }
  }

  /** What Advance does to the tables is what its statements, taken as single steps of the delivery
      protocol, do to the whole system; so everything proved of those runs covers workflow runs. */
  lemma AdvanceIsRun(s: Sys, workflows: map<string, seq<Step>>, run: nat)
    ensures Exec(s, AdvanceEvents(s.disk.db, workflows, run)) == WithDb(s, Advanced(s.disk.db, workflows, run))
  {
    hide SubmitLoop;
    hide SubmitEvents;
    hide Frontier;
    hide CompletedSteps;
    hide SubmittedSteps;
    var db := s.disk.db;
    if run in db.runs && db.runs[run].status == RunRunning {
      var es := AdvanceEvents(db, workflows, run);
      var s1 := WithDb(s, AdvanceWorkflowRun(db, run));
      assert Next(s, es[0]) == s1;
      var row := s1.disk.db.runs[run];
      if row.current >= row.total || row.name !in workflows {
        assert |es| == 2 && es[1..] == [es[1]];
        assert Exec(s1, [es[1]]) == Exec(Next(s1, es[1]), []);
      } else {
        var steps := workflows[row.name];
        var todo := Frontier(steps, CompletedSteps(s1.disk.db, run), SubmittedSteps(s1.disk.db, run));
        SubmitRun(s1, run, steps, todo);
        assert es[1..] == SubmitEvents(s1.disk.db, run, steps, todo);
      }
    }
  }

  lemma {:induction false} SubmitEventKinds(db: Db, run: nat, steps: seq<Step>, todo: seq<nat>)
    requires Indices(steps, todo)
    ensures forall e :: e in SubmitEvents(db, run, steps, todo) ==> e.SubmitStep?
    decreases |todo|
  {
    if todo != [] {
      SubmitEventKinds(Submitted(db, run, steps, todo[0], PreviousOutput(db, run, steps, todo[0])).0, run, steps, todo[1..]);
    }
  }

  lemma AdvanceEventKinds(db: Db, workflows: map<string, seq<Step>>, run: nat)
    ensures forall e :: e in AdvanceEvents(db, workflows, run) ==> e.CountStep? || e.CloseRun? || e.SubmitStep?
  {
    if run in db.runs && db.runs[run].status == RunRunning {
      var counted := AdvanceWorkflowRun(db, run);
      var row := counted.runs[run];
      if row.current < row.total && row.name in workflows {
        var steps := workflows[row.name];
        SubmitEventKinds(counted, run, steps, Frontier(steps, CompletedSteps(counted, run), SubmittedSteps(counted, run)));
      }
    }
  }

  lemma {:induction false} TriggerLoopRun(s: Sys, run: nat, steps: seq<Step>, todo: seq<nat>)
    requires Indices(steps, todo)
    ensures Exec(s, TriggerLoopEvents(s.disk.db, run, steps, todo)) == WithDb(s, TriggerLoop(s.disk.db, run, steps, todo).0)
    decreases |todo|
  {
    if todo != [] {
      var (db', r) := Submitted(s.disk.db, run, steps, todo[0], "");
      var es := TriggerLoopEvents(s.disk.db, run, steps, todo);
      assert Next(s, es[0]) == WithDb(s, db');
      if r.Rejected? {
        assert es[1..] == [];
      } else {
        TriggerLoopRun(WithDb(s, db'), run, steps, todo[1..]);
        assert es[1..] == TriggerLoopEvents(db', run, steps, todo[1..]);
      }
    }
  }

  lemma TriggerIsRun(s: Sys, name: string, steps: seq<Step>)
    ensures Exec(s, TriggerEvents(s.disk.db, name, steps)) == WithDb(s, Triggered(s.disk.db, name, steps).0)
  {
    var es := TriggerEvents(s.disk.db, name, steps);
    var s1 := WithDb(s, CreateWorkflowRun(s.disk.db, name, |steps|));
    assert Next(s, es[0]) == s1;
    TriggerLoopRun(s1, s.disk.db.nextRun, steps, Roots(steps));
    assert es[1..] == TriggerLoopEvents(s1.disk.db, s.disk.db.nextRun, steps, Roots(steps));
  }
}
