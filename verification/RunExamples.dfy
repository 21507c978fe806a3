/** Concrete runs that show what breaks, and where. */
module RunExamples {
  import opened Prelude
  import opened Types
  import opened Steps
  import opened RunMachine
  import opened RunProgress
  import opened RunTheorems

  // ----- runs that show what breaks -----

  function OneStep(cmd: string, retries: int): seq<Step> { [Step("a", cmd, None, retries)] }

  lemma OneStepValid(cmd: string, retries: int)
    ensures Valid(OneStep(cmd, retries)) && Normalized(OneStep(cmd, retries)) == OneStep(cmd, retries)
    ensures Init(OneStep(cmd, retries)) == Run(RunRunning, 0, map[], [0], map[], [])
  {
    var steps := OneStep(cmd, retries);
    ChainIsValid(steps);
    assert Unblocked(steps, {}, {}, 0) == [];
    assert Enabled(steps, {}, 0);
    assert WithIds(steps) == steps && Chained(steps) == steps;
  }

  lemma {:induction false} Replay(steps: seq<Step>, states: seq<Run>, acts: seq<Action>)
    requires |states| == |acts| + 1
    requires forall i :: 0 <= i < |acts| ==> Next(steps, states[i], acts[i]) == states[i + 1]
    ensures Exec(steps, states[0], acts) == states[|acts|]
    decreases |acts|
  {
    hide Next;
    if acts != [] { Replay(steps, states[1..], acts[1..]); }
  }

  function FirstPending(cmd: string): map<nat, StepJob> { map[0 := StepJob(Pending, "", Shell(cmd, ""))] }

  function FirstDone(cmd: string, out: string): map<nat, StepJob> { map[0 := StepJob(Completed, out, Shell(cmd, ""))] }

  /** The only step is submitted and completed; its Advance call t has not counted yet. */
  lemma FirstCompletes(cmd: string, out: string, t: nat)
    ensures var steps := OneStep(cmd, 0);
      && Runnable(steps)
      && Exec(steps, Init(steps), [TriggerNext, CompleteStep(0, out, t)]) == Run(RunRunning, 0, FirstDone(cmd, out), [], map[t := Entered], [0])
  {
    var steps := OneStep(cmd, 0);
    OneStepValid(cmd, 0);
    var s1 := Run(RunRunning, 0, FirstPending(cmd), [], map[], []);
    var s2 := Run(RunRunning, 0, FirstDone(cmd, out), [], map[t := Entered], [0]);
    assert Next(steps, Init(steps), TriggerNext) == s1;
    assert Next(steps, s1, CompleteStep(0, out, t)) == s2;
    hide Next;
    hide Exec;
    hide Init;
    Replay(steps, [Init(steps), s1, s2], [TriggerNext, CompleteStep(0, out, t)]);
  }

  /** A crash between CompleteJob and the increment stalls the run: nothing is active, nothing is
      left to do, and the run stays 'running' for ever. */
  lemma CrashStallsRun(cmd: string, out: string) returns (steps: seq<Step>, acts: seq<Action>)
    ensures steps == OneStep(cmd, 0) && Runnable(steps) && CompleteOnce(steps, Init(steps), acts)
    ensures var s := Exec(steps, Init(steps), acts);
      && Quiescent(s) && s.status == RunRunning && Done(s) == Below(|steps|)
    ensures var s := Exec(steps, Init(steps), acts);
      forall a: Action :: !Uncompletes(s, a) && !a.CancelRun? ==> Next(steps, s, a) == s
  {
    steps := OneStep(cmd, 0);
    FirstCompletes(cmd, out, 0);
    var first := [TriggerNext, CompleteStep(0, out, 0)];
    acts := first + [Crash];
    hide Exec;
    hide Init;
    hide Runnable;
    PlainCompletesOnce(steps, Init(steps), acts);
    ExecJoin(steps, Init(steps), first, [Crash]);
    ExecOne(steps, Exec(steps, Init(steps), first), Crash);
    NothingLeft(cmd, out);
  }

  lemma NothingLeft(cmd: string, out: string)
    ensures var s := Run(RunRunning, 0, FirstDone(cmd, out), [], map[], [0]);
      && Done(s) == Below(1)
      && forall a: Action :: !Uncompletes(s, a) && !a.CancelRun? ==> Next(OneStep(cmd, 0), s, a) == s
  {
    var s := Run(RunRunning, 0, FirstDone(cmd, out), [], map[], [0]);
    assert Done(s) == {0} == Below(1);
  }

  /** A run of a workflow without steps is never completed. */
  lemma EmptyRunNeverCompletes(acts: seq<Action>)
    ensures Valid([]) && Exec([], Init([]), acts).status != RunCompleted
  {
    assert IsChain([]);
    ChainIsValid([]);
    EmptyRun(Init([]), acts);
  }

  lemma {:induction false} EmptyRun(s: Run, acts: seq<Action>)
    requires s.status != RunCompleted && s.threads == map[] && s.jobs == map[]
    ensures Exec([], s, acts).status != RunCompleted
    decreases |acts|
  {
    if acts != [] { EmptyRun(Next([], s, acts[0]), acts[1..]); }
  }

  /** Validate accepts a negative retries value; no action ever submits such a root step. */
  lemma BadRetriesNeverSubmitted(cmd: string, acts: seq<Action>)
    ensures Valid(OneStep(cmd, -1)) && Exec(OneStep(cmd, -1), Init(OneStep(cmd, -1)), acts).jobs == map[]
  {
    OneStepValid(cmd, -1);
    BadRetriesRun(cmd, Init(OneStep(cmd, -1)), acts);
  }

  lemma {:induction false} BadRetriesRun(cmd: string, s: Run, acts: seq<Action>)
    requires s.threads == map[] && s.jobs == map[]
    ensures Exec(OneStep(cmd, -1), s, acts).jobs == map[]
    decreases |acts|
  {
    if acts != [] { BadRetriesRun(cmd, Next(OneStep(cmd, -1), s, acts[0]), acts[1..]); }
  }

  /** CompleteWorkflowRun has no status guard: a cancelled run can end up completed. */
  lemma CancelledRunCompletes(cmd: string, out: string) returns (steps: seq<Step>, acts: seq<Action>, last: Action)
    ensures steps == OneStep(cmd, 0) && Runnable(steps) && Orderly(steps, Init(steps), acts + [last])
    ensures Exec(steps, Init(steps), acts).status == RunCancelled
    ensures Next(steps, Exec(steps, Init(steps), acts), last).status == RunCompleted
  {
    steps := OneStep(cmd, 0);
    FirstCompletes(cmd, out, 7);
    var first := [TriggerNext, CompleteStep(0, out, 7)];
    last := Proceed(7);
    acts := first + [Proceed(7), CancelRun];
    hide Exec;
    hide Init;
    hide Runnable;
    FinishedTooLate(cmd, out);
    ExecJoin(steps, Init(steps), first, [Proceed(7), CancelRun]);
    PlainCompletesOnce(steps, Init(steps), acts + [last]);
  }

  lemma FinishedTooLate(cmd: string, out: string)
    ensures var s := Exec(OneStep(cmd, 0), Run(RunRunning, 0, FirstDone(cmd, out), [], map[7 := Entered], [0]), [Proceed(7), CancelRun]);
      s.status == RunCancelled && Next(OneStep(cmd, 0), s, Proceed(7)).status == RunCompleted
  {
    var steps, done := OneStep(cmd, 0), FirstDone(cmd, out);
    var s2 := Run(RunRunning, 0, done, [], map[7 := Entered], [0]);
    var s3 := Run(RunRunning, 1, done, [], map[7 := Finishing], [0]);
    var s4 := Run(RunCancelled, 1, done, [], map[7 := Finishing], [0]);
    assert Next(steps, s2, Proceed(7)) == s3;
    assert CancelAll(done) == done;
    assert Next(steps, s3, CancelRun) == s4;
    assert Next(steps, s4, Proceed(7)).status == RunCompleted;
    hide Next;
    Replay(steps, [s2, s3, s4], [Proceed(7), CancelRun]);
  }

  lemma PairRoots(steps: seq<Step>, x: string, y: string)
    requires steps == [Step("a", x, None, 0), Step("b", y, Some(["a"]), 0)]
    ensures Runnable(steps) && Unblocked(steps, {}, {}, 2) == [0]
  {
    assert IsChain(steps);
    assert steps[0].id[0] != steps[1].id[0];
    ChainIsValid(steps);
    assert Enabled(steps, {}, 0);
    assert "a" in Deps(steps[1]) && !Enabled(steps, {}, 1);
    assert Unblocked(steps, {}, {}, 0) == [];
    assert Unblocked(steps, {}, {}, 1) == [0];
  }

  function DoneOnce(x: string, out: string): map<nat, StepJob> { map[0 := StepJob(Completed, out, Shell(x, ""))] }

  /** The first step completes, and its call counts it. */
  lemma PairBegins(steps: seq<Step>, x: string, y: string, out: string)
    requires steps == [Step("a", x, None, 0), Step("b", y, Some(["a"]), 0)]
    ensures Exec(steps, Init(steps), [TriggerNext, CompleteStep(0, out, 1), Proceed(1)])
         == Run(RunRunning, 1, DoneOnce(x, out), [], map[1 := Counted], [0])
  {
    PairRoots(steps, x, y);
    var s0, s1 := Init(steps), Run(RunRunning, 0, map[0 := StepJob(Pending, "", Shell(x, ""))], [], map[], []);
    var s2 := Run(RunRunning, 0, DoneOnce(x, out), [], map[1 := Entered], [0]);
    var s3 := Run(RunRunning, 1, DoneOnce(x, out), [], map[1 := Counted], [0]);
    hide Unblocked;
    assert Next(steps, s0, TriggerNext) == s1;
    assert Next(steps, s1, CompleteStep(0, out, 1)) == s2;
    assert Next(steps, s2, Proceed(1)) == s3;
    hide Next;
    hide Exec;
    hide Init;
    Replay(steps, [s0, s1, s2, s3], [TriggerNext, CompleteStep(0, out, 1), Proceed(1)]);
  }

  lemma PairUndone(steps: seq<Step>, x: string, out: string, undo: Action)
    requires undo == PutBack(0) || undo == Dispatch(0)
    ensures var s3 := Run(RunRunning, 1, DoneOnce(x, out), [], map[1 := Counted], [0]);
      var s4 := s3.(jobs := map[0 := StepJob(if undo.PutBack? then Pending else Running, out, Shell(x, ""))]);
      && Next(steps, s3, undo) == s4
      && Next(steps, s4, CompleteStep(0, out, 2)) == Run(RunRunning, 1, DoneOnce(x, out), [], map[1 := Counted, 2 := Entered], [0, 0])
  {
  }

  /** The first step is undone, completes again, and is counted again. */
  lemma PairEnds(steps: seq<Step>, x: string, out: string, undo: Action)
    requires |steps| == 2 && (undo == PutBack(0) || undo == Dispatch(0))
    ensures Exec(steps, Run(RunRunning, 1, DoneOnce(x, out), [], map[1 := Counted], [0]), [undo, CompleteStep(0, out, 2), Proceed(2), Proceed(2)])
         == Run(RunCompleted, 2, DoneOnce(x, out), [], map[1 := Counted], [0, 0])
  {
    var s3 := Run(RunRunning, 1, DoneOnce(x, out), [], map[1 := Counted], [0]);
    var s4 := s3.(jobs := map[0 := StepJob(if undo.PutBack? then Pending else Running, out, Shell(x, ""))]);
    var s5 := Run(RunRunning, 1, DoneOnce(x, out), [], map[1 := Counted, 2 := Entered], [0, 0]);
    var s6 := Run(RunRunning, 2, DoneOnce(x, out), [], map[1 := Counted, 2 := Finishing], [0, 0]);
    var s7 := Run(RunCompleted, 2, DoneOnce(x, out), [], map[1 := Counted], [0, 0]);
    PairUndone(steps, x, out, undo);
    assert Next(steps, s5, Proceed(2)) == s6;
    assert Next(steps, s6, Proceed(2)) == s7;
    hide Next;
    hide Exec;
    Replay(steps, [s3, s4, s5, s6, s7], [undo, CompleteStep(0, out, 2), Proceed(2), Proceed(2)]);
  }

  /** If a drop or a second dispatch lets one step complete twice, the run is completed with a step
      never submitted. */
  lemma SecondCompletionMiscounts(x: string, y: string, out: string, undo: Action) returns (steps: seq<Step>, acts: seq<Action>)
    requires undo == PutBack(0) || undo == Dispatch(0)
    ensures steps == [Step("a", x, None, 0), Step("b", y, Some(["a"]), 0)]
    ensures Runnable(steps) && NoCrash(acts)
    ensures var s := Exec(steps, Init(steps), acts);
      s.status == RunCompleted && 0 in s.jobs && 1 !in s.jobs && |steps| == 2
  {
    steps := [Step("a", x, None, 0), Step("b", y, Some(["a"]), 0)];
    hide Runnable;
    hide Exec;
    hide Init;
    hide Unblocked;
    PairRoots(steps, x, y);
    PairBegins(steps, x, y, out);
    PairEnds(steps, x, out, undo);
    var first, rest := [TriggerNext, CompleteStep(0, out, 1), Proceed(1)], [undo, CompleteStep(0, out, 2), Proceed(2), Proceed(2)];
    ExecJoin(steps, Init(steps), first, rest);
    acts := first + rest;
  }
}
