/** The guarantees of a workflow run, for every interleaving. */
module RunTheorems {
  import opened Prelude
  import opened Types
  import opened Steps
  import opened RunMachine
  import opened RunProgress

  /** Where Validate and Normalize leave a workflow, with limits the jobs table accepts. */
  ghost predicate Runnable(steps: seq<Step>) {
    Valid(steps) && RetriesOk(steps)
  }

  /** No crash, and no action undoes a completion; drops of steps that are not completed are allowed. */
  ghost predicate Orderly(steps: seq<Step>, s: Run, acts: seq<Action>) {
    NoCrash(acts) && CompleteOnce(steps, s, acts)
  }

  lemma JoinOrderly(steps: seq<Step>, s: Run, a: seq<Action>, b: seq<Action>)
    requires Orderly(steps, s, a) && Orderly(steps, Exec(steps, s, a), b)
    ensures Orderly(steps, s, a + b) && Exec(steps, s, a + b) == Exec(steps, Exec(steps, s, a), b)
  {
    hide Exec;
    ExecJoin(steps, s, a, b);
  }

  /** TriggerWorkflow and every Advance call have returned. */
  ghost predicate Quiescent(s: Run) {
    s.trigger == [] && s.threads == map[]
  }

  /** None of these actions writes over a status, so none undoes a completion. */
  ghost predicate Plain(acts: seq<Action>) {
    forall a :: a in acts ==> !a.Dispatch? && !a.PutBack?
  }

  lemma {:induction false} PlainCompletesOnce(steps: seq<Step>, s: Run, acts: seq<Action>)
    requires Plain(acts)
    ensures CompleteOnce(steps, s, acts)
    decreases |acts|
  {
    hide Next;
    if acts != [] {
      assert acts[0] in acts && forall a :: a in acts[1..] ==> a in acts;
      PlainCompletesOnce(steps, Next(steps, s, acts[0]), acts[1..]);
    }
  }

  lemma ReachableLive(steps: seq<Step>, acts: seq<Action>)
    requires DistinctIds(steps) && KnownDeps(steps) && RetriesOk(steps) && Orderly(steps, Init(steps), acts)
    ensures Safe(steps, Exec(steps, Init(steps), acts)) && Live(steps, Exec(steps, Init(steps), acts))
  {
    InitSafe(steps);
    InitLive(steps);
    ExecLive(steps, Init(steps), acts);
  }

  lemma ReachableHonest(steps: seq<Step>, acts: seq<Action>)
    requires DistinctIds(steps) && KnownDeps(steps) && CompleteOnce(steps, Init(steps), acts)
    ensures Safe(steps, Exec(steps, Init(steps), acts)) && Honest(steps, Exec(steps, Init(steps), acts))
  {
    InitSafe(steps);
    InitLive(steps);
    hide Exec;
    ExecHonest(steps, Init(steps), acts);
  }

  /** No enabled step is ever forgotten; at rest, the submitted steps are exactly the enabled ones. */
  lemma NoStalledStep(steps: seq<Step>, acts: seq<Action>, k: nat)
    requires DistinctIds(steps) && KnownDeps(steps) && RetriesOk(steps) && Orderly(steps, Init(steps), acts) && k < |steps|
    ensures var s := Exec(steps, Init(steps), acts);
      && (k in s.jobs ==> DepsDone(steps, Done(s), k))
      && (s.status == RunRunning && DepsDone(steps, Done(s), k) ==> Covered(steps, s, k))
      && (s.status == RunRunning && Quiescent(s) ==> (k in s.jobs <==> DepsDone(steps, Done(s), k)))
  {
    ReachableLive(steps, acts);
    var s := Exec(steps, Init(steps), acts);
    if k in s.jobs { assert JobSafe(steps, s, k); }
  }

  /** Crashes included: a run is marked completed only when every step is completed, and no completion is
      counted twice. */
  lemma CompletedMeansDone(steps: seq<Step>, acts: seq<Action>)
    requires DistinctIds(steps) && KnownDeps(steps) && CompleteOnce(steps, Init(steps), acts)
    ensures var s := Exec(steps, Init(steps), acts);
      && (s.status == RunCompleted ==> Done(s) == Below(|steps|))
      && (s.status == RunRunning ==> s.current + |Waiting(s)| <= |Done(s)| <= |steps|)
  {
    ReachableHonest(steps, acts);
    DoneBound(steps, Exec(steps, Init(steps), acts));
  }

  /** Without a crash current_step plus the outstanding increments is the number of completed steps. */
  lemma ExactCounting(steps: seq<Step>, acts: seq<Action>)
    requires DistinctIds(steps) && KnownDeps(steps) && Orderly(steps, Init(steps), acts)
    ensures var s := Exec(steps, Init(steps), acts);
      && (s.status == RunRunning ==> s.current + |Waiting(s)| == |Done(s)| <= |steps|)
      && (s.status == RunCompleted ==> Done(s) == Below(|steps|))
  {
    CompletedMeansDone(steps, acts);
    InitLive(steps);
    hide Exec;
    ExecCounter(steps, Init(steps), acts);
  }

  /** How often, along a run, an Advance call sees the total and goes on to CompleteWorkflowRun. */
  function Finishes(steps: seq<Step>, s: Run, acts: seq<Action>): nat
    decreases |acts|
  {
    if acts == [] then 0
    else
      var a := acts[0];
      var now := if a.Proceed? && a.call in Waiting(s) && s.status == RunRunning && s.current + 1 >= |steps| then 1 else 0;
      now + Finishes(steps, Next(steps, s, a), acts[1..])
  }

  lemma {:induction false} FinishesOnce(steps: seq<Step>, s: Run, acts: seq<Action>)
    requires DistinctIds(steps) && KnownDeps(steps) && CompleteOnce(steps, s, acts) && |steps| > 0
    requires Safe(steps, s) && Honest(steps, s)
    ensures Finishes(steps, s, acts) + (if s.current >= |steps| then 1 else 0)
         == if Exec(steps, s, acts).current >= |steps| then 1 else 0
    decreases |acts|
  {
    hide Honest;
    hide Safe;
    hide Next;
    hide Waiting;
    hide Uncompletes;
    if acts != [] {
      var a := acts[0];
      NextSafe(steps, s, a);
      HonestKept(steps, s, a);
      CurrentChange(steps, s, a);
      if a.Proceed? && a.call in Waiting(s) && s.status == RunRunning { CallIsLast(steps, s, a.call); }
      FinishesOnce(steps, Next(steps, s, a), acts[1..]);
    }
  }

  lemma CallIsLast(steps: seq<Step>, s: Run, t: nat)
    requires Safe(steps, s) && Honest(steps, s) && t in Waiting(s) && s.status == RunRunning
    ensures s.current < |steps|
  {
    LastIncrement(steps, s, t);
  }

  /** At most one Advance call of a run ever completes it, crashes included. */
  lemma OneAdvanceFinishes(steps: seq<Step>, acts: seq<Action>)
    requires DistinctIds(steps) && KnownDeps(steps) && CompleteOnce(steps, Init(steps), acts) && |steps| > 0
    ensures Finishes(steps, Init(steps), acts) <= 1
    ensures Finishes(steps, Init(steps), acts) == 1 <==> Exec(steps, Init(steps), acts).current >= |steps|
  {
    InitSafe(steps);
    InitLive(steps);
    FinishesOnce(steps, Init(steps), acts);
  }

  /** A non-empty valid run at rest, not cancelled, whose jobs all completed, is itself completed
      and has run every step; or it failed, and the failed step has since been overwritten. */
  lemma DeadlockFreedom(steps: seq<Step>, acts: seq<Action>)
    requires Runnable(steps) && Orderly(steps, Init(steps), acts) && |steps| > 0
    requires var s := Exec(steps, Init(steps), acts);
      && Quiescent(s) && s.status != RunCancelled
      && forall k :: k in s.jobs ==> s.jobs[k].status == Completed
    ensures var s := Exec(steps, Init(steps), acts);
      && (s.status == RunFailed || (s.status == RunCompleted && Done(s) == Below(|steps|)))
      && (FailuresKept(steps, Init(steps), acts) ==> s.status != RunFailed)
  {
    var s := Exec(steps, Init(steps), acts);
    ReachableLive(steps, acts);
    RestIsOver(steps, s);
    if FailuresKept(steps, Init(steps), acts) { ExecBlamed(steps, Init(steps), acts); }
  }

  /** The same for a single state: at rest, with every job completed, a sound run is not running. */
  lemma RestIsOver(steps: seq<Step>, s: Run)
    requires Runnable(steps) && |steps| > 0 && Safe(steps, s) && Live(steps, s)
    requires Quiescent(s) && forall k :: k in s.jobs ==> s.jobs[k].status == Completed
    ensures s.status != RunRunning
  {
    if s.status == RunRunning {
      DoneBound(steps, s);
      QuietWaits(s);
      forall k: nat | k < |steps| && DepsDone(steps, Done(s), k) ensures k in Done(s) {
        assert Covered(steps, s, k);
      }
      ClosedIsAll(steps, Done(s));
    }
  }

  lemma QuietWaits(s: Run)
    requires Quiescent(s)
    ensures |Waiting(s)| == 0
  {
    assert Waiting(s) == {};
  }

  /** In a valid workflow, a set of steps that contains every step it enables contains them all. */
  lemma ClosedIsAll(steps: seq<Step>, done: set<nat>)
    requires Valid(steps) && done <= Below(|steps|)
    requires forall k: nat :: k < |steps| && DepsDone(steps, done, k) ==> k in done
    ensures done == Below(|steps|)
  {
    if done != Below(|steps|) { var k := Unfinished(steps, done); }
  }

  lemma Unfinished(steps: seq<Step>, done: set<nat>) returns (k: nat)
    requires Valid(steps) && done <= Below(|steps|) && done != Below(|steps|)
    ensures k < |steps| && k !in done && DepsDone(steps, done, k)
  {
    var missing: nat :| missing < |steps| && missing !in done;
    k := FrontierExists(steps, done);
    EnabledByIndex(steps, done, k);
  }

  /** Dependency safety, crashes included: as long as no action undoes a completion that a submitted or
      promised step depends on, submitted steps have their dependencies completed, and a step with exactly
      one dependency carries that dependency's final output. */
  lemma DependencySafety(steps: seq<Step>, acts: seq<Action>)
    requires DistinctIds(steps) && KnownDeps(steps) && NeverSpoils(steps, Init(steps), acts)
    ensures var s := Exec(steps, Init(steps), acts);
      && (forall k, j: nat :: k in s.jobs && Edge(steps, k, j) ==> j in Done(s))
      && (forall k :: k in s.jobs ==> k < |steps| && s.jobs[k].payload.Shell? && s.jobs[k].payload.command == steps[k].command)
      && (forall k :: k in s.jobs && |Deps(steps[k])| != 1 ==> s.jobs[k].payload.previousOutput == "")
      && (forall k, j: nat :: k in s.jobs && |Deps(steps[k])| == 1 && Edge(steps, k, j)
            ==> s.jobs[k].payload.previousOutput == s.jobs[j].output)
  {
    var s := Exec(steps, Init(steps), acts);
    InitSafe(steps);
    hide Exec;
    hide Init;
    ExecSound(steps, Init(steps), acts);
    hide Unblocked;
    forall k | k in s.jobs ensures JobSafe(steps, s, k) {}
    forall k, j: nat | k in s.jobs && |Deps(steps[k])| == 1 && Edge(steps, k, j)
      ensures s.jobs[k].payload.previousOutput == s.jobs[j].output
    {
      assert JobSafe(steps, s, k);
      FirstWithIdFound(steps, Deps(steps[k])[0], 0, j);
    }
  }

  /** The completion order of any run that undoes no completion is a linear extension of the graph. */
  lemma CompletionOrder(steps: seq<Step>, acts: seq<Action>)
    requires DistinctIds(steps) && KnownDeps(steps) && CompleteOnce(steps, Init(steps), acts)
    ensures var s := Exec(steps, Init(steps), acts);
      && Topological(steps, s.order)
      && (forall k :: k in s.order <==> k in Done(s))
      && (forall p, q :: 0 <= p < q < |s.order| ==> s.order[p] != s.order[q])
  {
    InitSafe(steps);
    hide Exec;
    ExecSafe(steps, Init(steps), acts);
    hide Init;
    hide Topological;
    hide Sound;
  }
}
