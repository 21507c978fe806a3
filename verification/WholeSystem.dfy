/**
  What a workflow run guarantees on the tables, for every schedule of the whole system from the
  first start: any history, then TriggerWorkflow, then its statements and those of its Advance
  calls interleaved with any events of the delivery protocol.
*/
module WholeSystem {
  import opened Prelude
  import opened Types
  import opened Steps
  import opened Tables
  import opened Delivery
  import opened DeliveryRuns
  import opened DeliverySafety
  import opened Accounting
  import opened Positions
  import opened RunRefinement
  import opened RunTheorems
  import opened Orchestration
  import M = RunMachine
  import P = RunProgress
  import R = RunTables
  import Q = QueueState

  /** TriggerWorkflow has created its run and is about to insert the roots. */
  function Begin(s: Sys, name: string, steps: seq<Step>): Orch {
    Orch(R.WithDb(s, CreateWorkflowRun(s.disk.db, name, |steps|)), R.Roots(steps), map[], 0)
  }

  // ----- a new run has no jobs -----

  lemma RunsGrow(s: Sys, e: Event, cut: nat)
    requires KeysKnown(s.disk.db)
    ensures var db, db' := s.disk.db, DiskAfter(s, e, cut).db;
      && db.runs.Keys <= db'.runs.Keys
      && forall run :: run in db'.runs ==> run < db'.nextRun
  {
    if IsHandler(e) { HandlerFrame(s, e, cut); }
    hide MarkJobs;
    hide MarkIds;
    hide EnqueueAll;
    hide Entries;
    hide Cleanup;
    hide HasKey;
    hide RemoveFirst;
    hide Q.Consume;
    hide Backoff.RetryDelay;
  }

  lemma NewKey(s: Sys, e: Event, cut: nat, j: nat)
    requires j !in s.disk.db.jobs && j in DiskAfter(s, e, cut).db.jobs
    ensures DiskAfter(s, e, cut).db.jobs[j].key.Some? ==> DiskAfter(s, e, cut).db.jobs[j].key.value.run in s.disk.db.runs
  {
    if IsHandler(e) { HandlerFrame(s, e, cut); }
    hide MarkJobs;
    hide MarkIds;
    hide EnqueueAll;
    hide Entries;
    hide Cleanup;
    hide HasKey;
    hide RemoveFirst;
    hide Q.Consume;
    hide Backoff.RetryDelay;
  }

  lemma KeysAfter(s: Sys, e: Event, cut: nat)
    requires RowsOk(s.disk.db) && KeysKnown(s.disk.db)
    ensures KeysKnown(DiskAfter(s, e, cut).db)
  {
    RunsGrow(s, e, cut);
    var db' := DiskAfter(s, e, cut).db;
    forall j | j in db'.jobs && db'.jobs[j].key.Some? ensures db'.jobs[j].key.value.run in db'.runs {
      if j in s.disk.db.jobs { DiskKeepsRow(s, e, cut, j); } else { NewKey(s, e, cut, j); }
    }
  }

  lemma KeysKept(s: Sys, e: Event)
    requires RowsOk(s.disk.db) && KeysKnown(s.disk.db)
    ensures KeysKnown(Next(s, e).disk.db)
  {
    KeysAfter(s, Handler(e), Writes(e));
    hide DiskAfter;
    hide MemoryAfter;
    hide WithOrphans;
  }

  lemma {:induction false} ExecKeys(s: Sys, es: seq<Event>, lost: set<nat>)
    requires Inv(s, lost) && KeysKnown(s.disk.db)
    ensures KeysKnown(Exec(s, es).disk.db) && RowsOk(Exec(s, es).disk.db)
    decreases |es|
  {
    hide Next;
    hide KeysKnown;
    hide RowsOk;
    if es != [] {
      NextInv(s, es[0], lost);
      KeysKept(s, es[0]);
      ExecKeys(Next(s, es[0]), es[1..], lost + LostBy(s, es[0]));
    }
  }

  lemma BeginMirrors(s: Sys, name: string, steps: seq<Step>)
    requires RowsOk(s.disk.db) && KeysKnown(s.disk.db)
    ensures Mirrors(Begin(s, name, steps), s.disk.db.nextRun, steps, M.Init(steps))
  {
    hide Unblocked;
    var db, run := Begin(s, name, steps).sys.disk.db, s.disk.db.nextRun;
    forall j, k ensures !AtStep(db, j, run, k) {}
    assert IdsOf(steps, {}) == {} by { NoIds(steps, |steps|); }
  }

  // ----- every schedule -----

  ghost function RunId(es: seq<Event>): nat { Exec(START, es).disk.db.nextRun }

  ghost function Started(es: seq<Event>, name: string, steps: seq<Step>): Orch {
    Begin(Exec(START, es), name, steps)
  }

  ghost function After(es: seq<Event>, name: string, steps: seq<Step>, moves: seq<Move>): Orch {
    Play(RunId(es), steps, Started(es, name, steps), moves)
  }

  /** No completed step of the run is dispatched again or put back. */
  ghost predicate CompletionsStand(es: seq<Event>, name: string, steps: seq<Step>, moves: seq<Move>) {
    NeverOver(RunId(es), steps, Started(es, name, steps), moves, Completed)
  }

  /** No completed step that a submitted or promised step depends on is dispatched again or put back. */
  ghost predicate DependenciesStand(es: seq<Event>, name: string, steps: seq<Step>, moves: seq<Move>) {
    NeverSpoiled(RunId(es), steps, Started(es, name, steps), moves)
  }

  ghost predicate FailuresStand(es: seq<Event>, name: string, steps: seq<Step>, moves: seq<Move>) {
    NeverOver(RunId(es), steps, Started(es, name, steps), moves, Failed)
  }

  /** What the tables show of the run is a run of its machine, as well-behaved as the schedule. */
  lemma TablesRun(es: seq<Event>, name: string, steps: seq<Step>, moves: seq<Move>) returns (acts: seq<M.Action>)
    requires AllForeign(RunId(es), moves)
    ensures Mirrors(After(es, name, steps, moves), RunId(es), steps, M.Exec(steps, M.Init(steps), acts))
    ensures DependenciesStand(es, name, steps, moves) ==> M.NeverSpoils(steps, M.Init(steps), acts)
    ensures CompletionsStand(es, name, steps, moves) ==> M.CompleteOnce(steps, M.Init(steps), acts)
    ensures CompletionsStand(es, name, steps, moves) && NoCrashes(moves) ==> Orderly(steps, M.Init(steps), acts)
    ensures FailuresStand(es, name, steps, moves) ==> P.FailuresKept(steps, M.Init(steps), acts)
  {
    StartInv();
    ExecKeys(START, es, {});
    hide KeysKnown;
    hide RowsOk;
    hide Mirrors;
    hide Exec;
    hide Play;
    hide NeverOver;
    hide NeverSpoiled;
    hide M.Exec;
    hide M.Init;
    var s := Exec(START, es);
    BeginMirrors(s, name, steps);
    acts := PlayShown(RunId(es), steps, Begin(s, name, steps), moves, M.Init(steps));
  }

  /** Dependency safety on the tables, crashes, rolled-back relay passes and stale drops included, as long
      as no completed step that a submitted or promised step depends on is dispatched again or put back:
      every submitted step has its dependencies completed. */
  lemma SubmittedAreEnabled(es: seq<Event>, name: string, steps: seq<Step>, moves: seq<Move>, k: nat)
    requires DistinctIds(steps) && KnownDeps(steps) && AllForeign(RunId(es), moves) && DependenciesStand(es, name, steps, moves)
    requires k in SubmittedSteps(After(es, name, steps, moves).sys.disk.db, RunId(es))
    ensures k < |steps| && M.DepsDone(steps, CompletedSteps(After(es, name, steps, moves).sys.disk.db, RunId(es)), k)
  {
    var o, run := After(es, name, steps, moves), RunId(es);
    var acts := TablesRun(es, name, steps, moves);
    var r := M.Exec(steps, M.Init(steps), acts);
    hide M.Exec;
    hide After;
    hide DependenciesStand;
    SubmittedShown(o.sys.disk.db, run, r.jobs);
    CompletedShown(o.sys.disk.db, run, r);
    DependencySafety(steps, acts);
  }

  /** What a step's job row carries, under the same conditions: its own command and, if it has exactly one
      dependency, that dependency's final output, whichever Advance call inserted it. One row per step,
      in every schedule. */
  lemma RowsCarryOutputs(es: seq<Event>, name: string, steps: seq<Step>, moves: seq<Move>, j: nat, k: nat)
    requires DistinctIds(steps) && KnownDeps(steps) && AllForeign(RunId(es), moves) && DependenciesStand(es, name, steps, moves)
    requires AtStep(After(es, name, steps, moves).sys.disk.db, j, RunId(es), k)
    ensures var db, run := After(es, name, steps, moves).sys.disk.db, RunId(es);
      && k < |steps| && db.jobs[j].maxRetries == steps[k].retries && db.jobs[j].kind == "shell"
      && db.jobs[j].payload.Shell? && db.jobs[j].payload.command == steps[k].command
      && (|Deps(steps[k])| != 1 ==> db.jobs[j].payload.previousOutput == "")
      && (forall d: nat :: |Deps(steps[k])| == 1 && Edge(steps, k, d) ==>
            exists i :: AtStep(db, i, run, d) && db.jobs[i].status == Completed && db.jobs[j].payload.previousOutput == OutputOf(db.jobs[i]))
      && (forall i :: AtStep(db, i, run, k) ==> i == j)
  {
    var db, run := After(es, name, steps, moves).sys.disk.db, RunId(es);
    var acts := TablesRun(es, name, steps, moves);
    var r := M.Exec(steps, M.Init(steps), acts);
    hide M.Exec;
    hide After;
    hide DependenciesStand;
    DependencySafety(steps, acts);
    forall d: nat | |Deps(steps[k])| == 1 && Edge(steps, k, d)
      ensures exists i :: AtStep(db, i, run, d) && db.jobs[i].status == Completed && db.jobs[j].payload.previousOutput == OutputOf(db.jobs[i])
    {
      assert d in M.Done(r);
      var i :| AtStep(db, i, run, d);
    }
  }

  /** In every schedule that rewrites no completed step, a job of the run belongs to one of its steps, alone,
      and the step is completed exactly when the job is. */
  lemma SubmittedAreSteps(es: seq<Event>, name: string, steps: seq<Step>, moves: seq<Move>, j: nat, k: nat)
    requires DistinctIds(steps) && KnownDeps(steps) && AllForeign(RunId(es), moves) && CompletionsStand(es, name, steps, moves)
    requires AtStep(After(es, name, steps, moves).sys.disk.db, j, RunId(es), k)
    ensures var db, run := After(es, name, steps, moves).sys.disk.db, RunId(es);
      k < |steps| && (k in CompletedSteps(db, run) <==> db.jobs[j].status == Completed)
  {
    var db, run := After(es, name, steps, moves).sys.disk.db, RunId(es);
    var acts := TablesRun(es, name, steps, moves);
    var r := M.Exec(steps, M.Init(steps), acts);
    hide M.Exec;
    hide After;
    hide CompletionsStand;
    M.OnceNeverSpoils(steps, M.Init(steps), acts);
    DependencySafety(steps, acts);
    CompletedShown(db, run, r);
    assert k in r.jobs && r.jobs[k] == JobOf(db.jobs[j]);
  }

  /** In every schedule whatsoever: each job of the run belongs to one of its steps, no two to the same one, and
      it has that step's retry limit. */
  lemma RowsCarryLimits(es: seq<Event>, name: string, steps: seq<Step>, moves: seq<Move>, j: nat, k: nat)
    requires AllForeign(RunId(es), moves)
    requires AtStep(After(es, name, steps, moves).sys.disk.db, j, RunId(es), k)
    ensures var db, run := After(es, name, steps, moves).sys.disk.db, RunId(es);
      && k < |steps| && db.jobs[j].maxRetries == steps[k].retries && db.jobs[j].kind == "shell"
      && (forall i :: AtStep(db, i, run, k) ==> i == j)
  {
    var acts := TablesRun(es, name, steps, moves);
  }

  ghost predicate AtRest(o: Orch) { o.trigger == [] && o.calls == map[] }

  /** Without a crash, a running run at rest has submitted exactly the steps whose dependencies are
      completed. */
  lemma FrontierIsSubmitted(es: seq<Event>, name: string, steps: seq<Step>, moves: seq<Move>, k: nat)
    requires DistinctIds(steps) && KnownDeps(steps) && P.RetriesOk(steps)
    requires AllForeign(RunId(es), moves) && CompletionsStand(es, name, steps, moves) && NoCrashes(moves)
    requires k < |steps| && AtRest(After(es, name, steps, moves))
    ensures var db, run := After(es, name, steps, moves).sys.disk.db, RunId(es);
      && run in db.runs
      && (db.runs[run].status == RunRunning ==>
            (k in SubmittedSteps(db, run) <==> M.DepsDone(steps, CompletedSteps(db, run), k)))
  {
    var o, run := After(es, name, steps, moves), RunId(es);
    var acts := TablesRun(es, name, steps, moves);
    var r := M.Exec(steps, M.Init(steps), acts);
    hide M.Exec;
    hide After;
    hide CompletionsStand;
    SubmittedShown(o.sys.disk.db, run, r.jobs);
    CompletedShown(o.sys.disk.db, run, r);
    NoStalledStep(steps, acts, k);
  }

  /** Crashes included, as long as no completed step is dispatched again or put back: the run is marked
      completed only when every step is, and no completion is counted twice. */
  lemma CompletedRunIsDone(es: seq<Event>, name: string, steps: seq<Step>, moves: seq<Move>)
    requires DistinctIds(steps) && KnownDeps(steps) && AllForeign(RunId(es), moves) && CompletionsStand(es, name, steps, moves)
    ensures var o, run := After(es, name, steps, moves), RunId(es);
      var db := o.sys.disk.db;
      && run in db.runs
      && (db.runs[run].status == RunCompleted ==> CompletedSteps(db, run) == Below(|steps|))
      && (db.runs[run].status == RunRunning ==>
            db.runs[run].current + |set t | t in o.calls && o.calls[t] == M.Entered| <= |CompletedSteps(db, run)| <= |steps|)
  {
    var o, run := After(es, name, steps, moves), RunId(es);
    var acts := TablesRun(es, name, steps, moves);
    var r := M.Exec(steps, M.Init(steps), acts);
    hide M.Exec;
    hide After;
    hide CompletionsStand;
    CompletedShown(o.sys.disk.db, run, r);
    CompletedMeansDone(steps, acts);
    assert P.Waiting(r) == set t | t in o.calls && o.calls[t] == M.Entered;
  }

  /** Without a crash, current_step plus the Advance calls that have not counted yet is the number of
      completed steps, and the run is marked completed only when every step is. */
  lemma CurrentStepIsExact(es: seq<Event>, name: string, steps: seq<Step>, moves: seq<Move>)
    requires DistinctIds(steps) && KnownDeps(steps) && AllForeign(RunId(es), moves) && CompletionsStand(es, name, steps, moves) && NoCrashes(moves)
    ensures var o, run := After(es, name, steps, moves), RunId(es);
      var db := o.sys.disk.db;
      && run in db.runs
      && (db.runs[run].status == RunRunning ==>
            db.runs[run].current + |set t | t in o.calls && o.calls[t] == M.Entered| == |CompletedSteps(db, run)| <= |steps|)
      && (db.runs[run].status == RunCompleted ==> CompletedSteps(db, run) == Below(|steps|))
  {
    var o, run := After(es, name, steps, moves), RunId(es);
    var acts := TablesRun(es, name, steps, moves);
    var r := M.Exec(steps, M.Init(steps), acts);
    hide M.Exec;
    hide After;
    hide CompletionsStand;
    CompletedShown(o.sys.disk.db, run, r);
    ExactCounting(steps, acts);
    assert P.Waiting(r) == set t | t in o.calls && o.calls[t] == M.Entered;
  }

  /** Without a crash, a run at rest that was not cancelled, all of whose jobs completed, is completed,
      with every step done; unless a failed step of it was dispatched again or put back. */
  lemma RunCompletes(es: seq<Event>, name: string, steps: seq<Step>, moves: seq<Move>)
    requires Runnable(steps) && |steps| > 0
    requires AllForeign(RunId(es), moves) && CompletionsStand(es, name, steps, moves) && NoCrashes(moves)
    requires var o, run := After(es, name, steps, moves), RunId(es);
      && AtRest(o)
      && (run in o.sys.disk.db.runs ==> o.sys.disk.db.runs[run].status != RunCancelled)
      && forall j :: AtRun(o.sys.disk.db, j, run) ==> o.sys.disk.db.jobs[j].status == Completed
    ensures var db, run := After(es, name, steps, moves).sys.disk.db, RunId(es);
      && run in db.runs
      && ((db.runs[run].status == RunCompleted && CompletedSteps(db, run) == Below(|steps|)) || db.runs[run].status == RunFailed)
      && (FailuresStand(es, name, steps, moves) ==> db.runs[run].status == RunCompleted)
  {
    var o, run := After(es, name, steps, moves), RunId(es);
    var acts := TablesRun(es, name, steps, moves);
    var r := M.Exec(steps, M.Init(steps), acts);
    hide M.Exec;
    hide After;
    hide CompletionsStand;
    hide FailuresStand;
    forall k | k in r.jobs ensures r.jobs[k].status == Completed {
      var j :| AtStep(o.sys.disk.db, j, run, k);
      assert AtRun(o.sys.disk.db, j, run);
    }
    DeadlockFreedom(steps, acts);
    CompletedShown(o.sys.disk.db, run, r);
  }

  // ----- steady schedules -----

  ghost predicate SteadyMoves(run: nat, steps: seq<Step>, o: Orch, moves: seq<Move>)
    decreases |moves|
  {
    moves == [] || ((moves[0].Deliver? ==> Steady(o.sys, moves[0].e)) && SteadyMoves(run, steps, Take(run, steps, o, moves[0]), moves[1..]))
  }

  lemma TakeQuiet(run: nat, steps: seq<Step>, o: Orch, m: Move, lost: set<nat>)
    requires Quiet(o.sys, lost) && (m.Deliver? ==> Steady(o.sys, m.e))
    ensures Quiet(Take(run, steps, o, m).sys, lost)
  {
    hide Quiet;
    if m.Deliver? {
      NextQuiet(o.sys, m.e, lost);
    } else {
      var es := OwnStatement(run, steps, o, m);
      hide Take;
      if es != [] {
        hide Next;
        NextQuiet(o.sys, es[0], lost);
      }
    }
  }

  /** While the books balance, no steady event writes over a completed or failed row. */
  lemma QuietStands(s: Sys, e: Event, j: nat, lost: set<nat>)
    requires Quiet(s, lost) && Steady(s, e) && j in s.disk.db.jobs && Final(s.disk.db.jobs[j].status)
    ensures !Rewrites(s, e, j)
  {
    assert Agree(s, j);
    Q.ConsumeGives(s.disk.q);
    hide RowCount;
    hide Q.Consume;
  }

  lemma {:induction false} SteadyStands(run: nat, steps: seq<Step>, o: Orch, moves: seq<Move>, lost: set<nat>)
    requires Quiet(o.sys, lost) && SteadyMoves(run, steps, o, moves)
    ensures NeverOver(run, steps, o, moves, Completed) && NeverOver(run, steps, o, moves, Failed) && NoCrashes(moves)
    decreases |moves|
  {
    hide Quiet;
    hide Take;
    hide Rewrites;
    if moves != [] {
      var m := moves[0];
      forall j | m.Deliver? && AtRun(o.sys.disk.db, j, run) && Final(o.sys.disk.db.jobs[j].status) ensures !Rewrites(o.sys, m.e, j) {
        QuietStands(o.sys, m.e, j, lost);
      }
      TakeQuiet(run, steps, o, m, lost);
      SteadyStands(run, steps, Take(run, steps, o, m), moves[1..], lost);
    }
  }

  /** In steady runs the delivery protocol itself sees to all of these conditions: each step completes
      at most once. */
  lemma SteadyIsEnough(es: seq<Event>, name: string, steps: seq<Step>, moves: seq<Move>)
    requires Always(START, es, Steady) && SteadyMoves(RunId(es), steps, Started(es, name, steps), moves)
    ensures CompletionsStand(es, name, steps, moves) && FailuresStand(es, name, steps, moves) && NoCrashes(moves)
  {
    StartQuiet();
    ExecQuiet(START, es, {});
    hide Quiet;
    hide Exec;
    var s := Exec(START, es);
    var e := StartRun(name, |steps|);
    assert Next(s, e) == Begin(s, name, steps).sys;
    NextQuiet(s, e, {});
    hide Next;
    SteadyStands(RunId(es), steps, Begin(s, name, steps), moves, {});
  }

  // ----- an Advance call nobody interrupts -----

  function Repeat(t: nat, n: nat): seq<Move> { if n == 0 then [] else [Proceed(t)] + Repeat(t, n - 1) }

  function Ended(o: Orch, t: nat, db: Db): Orch { o.(sys := R.WithDb(o.sys, db), calls := o.calls - {t}) }

  lemma PlayOne(run: nat, steps: seq<Step>, o: Orch, t: nat, n: nat)
    ensures Play(run, steps, o, Repeat(t, n + 1)) == Play(run, steps, Take(run, steps, o, Proceed(t)), Repeat(t, n))
  {
    assert Repeat(t, n + 1)[1..] == Repeat(t, n);
  }

  lemma {:induction false} SubmittingAlone(run: nat, steps: seq<Step>, o: Orch, t: nat, todo: seq<nat>)
    requires t in o.calls && o.calls[t] == M.Submitting(todo) && R.Indices(steps, todo)
    ensures Play(run, steps, o, Repeat(t, 2 * |todo| + 1)) == Ended(o, t, R.SubmitLoop(o.sys.disk.db, run, steps, todo))
    decreases |todo|
  {
    hide R.Submitted;
    hide R.PreviousOutput;
    var o1 := Take(run, steps, o, Proceed(t));
    PlayOne(run, steps, o, t, 2 * |todo|);
    if todo == [] {
      assert o1 == Ended(o, t, o.sys.disk.db);
    } else {
      var o2 := Take(run, steps, o1, Proceed(t));
      PlayOne(run, steps, o1, t, 2 * |todo| - 1);
      assert o1.calls[t] == M.Fetched(todo[0], todo[1..], R.PreviousOutput(o.sys.disk.db, run, steps, todo[0]));
      assert o2.calls[t] == M.Submitting(todo[1..]) && o2.calls - {t} == o.calls - {t};
      SubmittingAlone(run, steps, o2, t, todo[1..]);
    }
  }

  /** Run without interruption, the statements of one Advance call do what Advance does. */
  lemma CallIsAdvance(run: nat, steps: seq<Step>, o: Orch, t: nat, workflows: map<string, seq<Step>>) returns (n: nat)
    requires t in o.calls && o.calls[t] == M.Entered
    requires run in o.sys.disk.db.runs ==> o.sys.disk.db.runs[run].name in workflows && workflows[o.sys.disk.db.runs[run].name] == steps
    ensures Play(run, steps, o, Repeat(t, n)) == Ended(o, t, R.Advanced(o.sys.disk.db, workflows, run))
  {
    hide R.SubmitLoop;
    hide R.Submitted;
    hide R.PreviousOutput;
    hide R.Frontier;
    hide CompletedSteps;
    hide SubmittedSteps;
    hide Next;
    var db := o.sys.disk.db;
    var o1 := Take(run, steps, o, Proceed(t));
    if run !in db.runs || db.runs[run].status != RunRunning {
      n := 1;
      PlayOne(run, steps, o, t, 0);
    } else {
      var counted := AdvanceWorkflowRun(db, run);
      var o2 := Take(run, steps, o1, Proceed(t));
      assert o1.calls - {t} == o.calls - {t};
      if counted.runs[run].current >= counted.runs[run].total {
        n := 2;
        PlayOne(run, steps, o, t, 1);
        PlayOne(run, steps, o1, t, 0);
      } else {
        var o3 := Take(run, steps, o2, Proceed(t));
        var todo := R.Frontier(steps, CompletedSteps(counted, run), SubmittedSteps(counted, run));
        assert o3.calls[t] == M.Submitting(todo) && o3.calls - {t} == o.calls - {t};
        n := 2 * |todo| + 4;
        PlayOne(run, steps, o, t, n - 1);
        PlayOne(run, steps, o1, t, n - 2);
        PlayOne(run, steps, o2, t, n - 3);
        SubmittingAlone(run, steps, o3, t, todo);
      }
    }
  }
}
