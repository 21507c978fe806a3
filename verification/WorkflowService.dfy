/** The WorkflowService object (internal/service/workflow_service.go), statement by statement. */
module WorkflowService {
  import opened Prelude
  import opened Types
  import opened Steps
  import opened WorkflowDefinition
  import opened Postgres
  import T = Tables
  import R = RunTables
  import M = RunMachine

  class Service {
    const db: Database
    const registry: map<string, Workflow>

    /** Workflows are registered under their own names. */
    ghost predicate Valid()
      reads this, db, registry.Values
    {
      db.Valid() && forall n :: n in registry ==> registry[n].name == n
    }

    /** The registered workflows as Normalize leaves them. */
    ghost function Workflows(): map<string, seq<Step>>
      reads this, registry.Values
    {
      map n | n in registry :: Normalized(registry[n].steps)
    }

    constructor (db: Database, registry: map<string, Workflow>)
      requires db.Valid() && forall n :: n in registry ==> registry[n].name == n
      ensures this.db == db && this.registry == registry && Valid()
    {
      this.db, this.registry := db, registry;
    }

    /** Every call normalizes the shared step slice again. */
    method Load(name: string) returns (wf: Workflow)
      requires Valid() && name in registry
      modifies registry.Values
      ensures Valid() && wf == registry[name] && wf.name == name
      ensures wf.steps == Normalized(old(wf.steps)) == Workflows()[name]
      ensures Workflows() == old(Workflows())
    {
      wf := registry[name];
      wf.Normalize();
      NormalizeIdempotent(old(wf.steps));
    }

    method SubmitStep(run: nat, k: nat, wf: Workflow, prev: string) returns (r: T.Inserted)
      requires db.Valid() && k < |wf.steps|
      modifies db
      ensures db.Valid() && (db.State(), r) == R.Submitted(old(db.State()), run, wf.steps, k, prev)
    {
      var step := wf.steps[k];
      r := db.InsertWorkflowStep(T.StepKey(run, k), step.retries, Shell(step.command, prev));
    }

    method PreviousOutputFor(run: nat, k: nat, wf: Workflow) returns (output: string)
      requires db.Valid() && k < |wf.steps|
      ensures output == R.PreviousOutput(db.State(), run, wf.steps, k)
    {
      var step := wf.steps[k];
      var deps := Deps(step);
      if |deps| != 1 {
        return "";
      }
      for i := 0 to |wf.steps|
        invariant M.FirstWithId(wf.steps, deps[0], 0) == M.FirstWithId(wf.steps, deps[0], i)
      {
        if wf.steps[i].id == deps[0] {
          var found := db.GetJobOutputByWorkflowStep(T.StepKey(run, i));
          return if found.Some? then found.value else "";
        }
      }
      output := "";
    }

    method SubmitRoots(run: nat, wf: Workflow, roots: seq<nat>) returns (ok: bool)
      requires db.Valid() && R.Indices(wf.steps, roots)
      modifies db
      ensures db.Valid() && (db.State(), ok) == R.TriggerLoop(old(db.State()), run, wf.steps, roots)
    {
      for i := 0 to |roots|
        invariant db.Valid()
        invariant R.TriggerLoop(db.State(), run, wf.steps, roots[i..]) == R.TriggerLoop(old(db.State()), run, wf.steps, roots)
      {
        assert roots[i..][0] == roots[i] && roots[i..][1..] == roots[i + 1..];
        var r := SubmitStep(run, roots[i], wf, "");
        if r.Rejected? {
          return false;
        }
      }
      ok := true;
    }

    method SubmitUnblocked(run: nat, wf: Workflow, todo: seq<nat>)
      requires db.Valid() && R.Indices(wf.steps, todo)
      modifies db
      ensures db.Valid() && db.State() == R.SubmitLoop(old(db.State()), run, wf.steps, todo)
    {
      for i := 0 to |todo|
        invariant db.Valid()
        invariant R.SubmitLoop(db.State(), run, wf.steps, todo[i..]) == R.SubmitLoop(old(db.State()), run, wf.steps, todo)
      {
        assert todo[i..][0] == todo[i] && todo[i..][1..] == todo[i + 1..];
        var prev := PreviousOutputFor(run, todo[i], wf);
        var _ := SubmitStep(run, todo[i], wf, prev);
      }
    }

    /** The run's id, or None when the workflow is unknown or a root step is rejected. */
    method TriggerWorkflow(name: string) returns (run: Option<nat>)
      requires Valid()
      modifies db, registry.Values
      ensures Valid() && Workflows() == old(Workflows())
      ensures name !in registry ==> run.None? && db.State() == old(db.State())
      ensures name in registry ==>
        var (db', ok) := R.Triggered(old(db.State()), name, Workflows()[name]);
        db.State() == db' && run == if ok then Some(old(db.nextRun)) else None
      ensures name in registry ==>
        var steps := Workflows()[name];
        && (run == Some(old(db.nextRun)) <==>
              forall k: nat :: k < |steps| && Deps(steps[k]) == [] ==> 0 <= steps[k].retries <= 2_147_483_647)
        && (run.None? || run == Some(old(db.nextRun)))
        && (forall k: nat :: k in T.SubmittedSteps(db.State(), old(db.nextRun)) <==> R.RootBeforeBad(steps, k))
    {
      hide R.TriggerLoop;
      hide Normalized;
      hide Unblocked;
      if name !in registry {
        return None;
      }
      var wf := Load(name);
      R.TriggerAnswer(old(db.State()), name, wf.steps);
      var id := db.CreateWorkflowRun(wf.name, |wf.steps|);
      ghost var created := db.State();
      var roots := wf.UnblockedSteps({}, {});
      NoIds(wf.steps, |wf.steps|);
      assert roots == R.Roots(wf.steps);
      var ok := SubmitRoots(id, wf, roots);
      run := if ok then Some(id) else None;
    }

    method CompletedIDs(indices: set<nat>, wf: Workflow) returns (ids: set<string>)
      ensures ids == IdsOf(wf.steps, indices)
    {
      ids := {};
      var rest := indices;
      while rest != {}
        invariant rest <= indices
        invariant forall d :: d in ids <==> exists k: nat :: k < |wf.steps| && k in indices - rest && wf.steps[k].id == d
        decreases |rest|
      {
        var idx :| idx in rest;
        rest := rest - {idx};
        if idx < |wf.steps| {
          ids := ids + {wf.steps[idx].id};
        }
      }
      forall d ensures d in ids <==> d in IdsOf(wf.steps, indices) {
        IdsMember(wf.steps, indices, |wf.steps|, d);
      }
    }

    method Advance(run: nat)
      requires Valid()
      modifies db, registry.Values
      ensures Valid() && Workflows() == old(Workflows())
      ensures db.State() == R.Advanced(old(db.State()), Workflows(), run)
    {
      var row := db.AdvanceWorkflowRun(run);
      if row.None? {
        return;
      }
      if row.value.current >= row.value.total {
        db.SetRunStatus(run, RunCompleted);
        return;
      }
      if row.value.name !in registry {
        db.SetRunStatus(run, RunFailed);
        return;
      }
      SubmitNext(run, row.value.name);
    }

    method SubmitNext(run: nat, name: string)
      requires Valid() && name in registry
      modifies db, registry.Values
      ensures Valid() && Workflows() == old(Workflows())
      ensures db.State() == R.SubmitNext(old(db.State()), run, Workflows()[name])
    {
      hide R.SubmitLoop;
      hide Normalized;
      hide T.CompletedSteps;
      hide T.SubmittedSteps;
      hide Unblocked;
      hide IdsOf;
      hide R.Indices;
      var wf := Load(name);
      var completed := db.GetCompletedStepIndices(run);
      var completedIDs := CompletedIDs(completed, wf);
      var submitted := db.GetSubmittedStepIndices(run);
      var todo := wf.UnblockedSteps(completedIDs, submitted);
      assert todo == R.Frontier(wf.steps, completed, submitted);
      SubmitUnblocked(run, wf, todo);
    }

    method CancelWorkflowRun(run: nat, at: int) returns (ok: bool)
      requires Valid()
      modifies db
      ensures Valid() && db.State() == T.CancelWorkflowRun(old(db.State()), run, at)
      ensures ok <==> run in old(db.runs) && old(db.runs)[run].status == RunRunning
    {
      ok := db.CancelWorkflowRunAtomic(run, at);
    }
  }
}
