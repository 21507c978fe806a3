/**
  One workflow run under every interleaving: TriggerWorkflow's insert loop, any number of Advance
  calls cut at their database statements, and the job-status writes of the delivery side
  (internal/service/workflow_service.go over internal/db/workflows.go, jobs.go and outbox.go).
*/
module RunMachine {
  import opened Prelude
  import opened Types
  import opened Steps

  /** Where one Advance call stands between two of its statements. */
  datatype Phase =
    | Entered                                              // AdvanceWorkflowRun not yet executed
    | Finishing                                            // saw the total; CompleteWorkflowRun next
    | Counted                                              // completed indices not yet read
    | Read(done: set<nat>)                                 // submitted indices not yet read
    | Submitting(todo: seq<nat>)                           // the loop over unblocked steps
    | Fetched(step: nat, rest: seq<nat>, prev: string)     // previous output read, insert next

  datatype StepJob = StepJob(status: Status, output: string, payload: Payload)

  /** order is history: the steps in the order CompleteJob marked them. */
  datatype Run = Run(
    status: RunStatus, current: nat, jobs: map<nat, StepJob>,
    trigger: seq<nat>, threads: map<nat, Phase>, order: seq<nat>)

  datatype Action =
    | TriggerNext                                          // one round of TriggerWorkflow's loop
    | Dispatch(step: nat)                                  // Work writes 'running', whatever the status was
    | PutBack(step: nat)                                   // drop, failed send, reap, restart: 'pending', likewise
    | Delay(step: nat)                                     // handleResult writes 'retrying'
    | CompleteStep(step: nat, output: string, call: nat)   // CompleteJob, then Advance is called
    | FailStep(step: nat)
    | CancelStep(step: nat)                                // CancelJob
    | FailRun
    | CancelRun                                            // CancelWorkflowRunAtomic
    | Proceed(call: nat)                                   // next statement of an Advance call
    | Crash                                                // the server dies with its calls in flight

  function Init(steps: seq<Step>): Run {
    Run(RunRunning, 0, map[], Unblocked(steps, {}, {}, |steps|), map[], [])
  }

  function Done(s: Run): set<nat> {
    set k | k in s.jobs && s.jobs[k].status == Completed
  }

  function FirstWithId(steps: seq<Step>, id: string, from: nat): Option<nat>
    requires from <= |steps|
    decreases |steps| - from
  {
    if from == |steps| then None
    else if steps[from].id == id then Some(from)
    else FirstWithId(steps, id, from + 1)
  }

  /** previousOutputFor over GetJobOutputByWorkflowStep. */
  function PreviousOutput(steps: seq<Step>, jobs: map<nat, StepJob>, k: nat): string
    requires k < |steps|
  {
    var deps := Deps(steps[k]);
    if |deps| != 1 then ""
    else
      match FirstWithId(steps, deps[0], 0)
      case None => ""
      case Some(j) => if j in jobs && jobs[j].status == Completed then jobs[j].output else ""
  }

  /** InsertWorkflowStep: a rejected row or a taken key leaves the table alone. */
  function Insert(steps: seq<Step>, jobs: map<nat, StepJob>, k: nat, prev: string): map<nat, StepJob>
    requires k < |steps|
  {
    if RetriesFit(steps[k].retries) && k !in jobs
    then jobs[k := StepJob(Pending, "", Shell(steps[k].command, prev))]
    else jobs
  }

  function SetStatus(s: Run, k: nat, status: Status): Run
    requires k in s.jobs
  {
    s.(jobs := s.jobs[k := s.jobs[k].(status := status)])
  }

  function TriggerStep(steps: seq<Step>, s: Run): Run {
    if s.trigger == [] || s.trigger[0] >= |steps| then s
    else if !RetriesFit(steps[s.trigger[0]].retries) then s.(trigger := [])
    else s.(jobs := Insert(steps, s.jobs, s.trigger[0], ""), trigger := s.trigger[1..])
  }

  function Complete(s: Run, k: nat, output: string, call: nat): Run {
    if k in s.jobs && !Settled(s.jobs[k].status) && call !in s.threads
    then s.(jobs := s.jobs[k := s.jobs[k].(status := Completed, output := output)],
            threads := s.threads[call := Entered], order := s.order + [k])
    else s
  }

  function CancelAll(jobs: map<nat, StepJob>): map<nat, StepJob> {
    map k | k in jobs :: if jobs[k].status == Pending || jobs[k].status == Retrying
                         then jobs[k].(status := Cancelled) else jobs[k]
  }

  /** One statement of Advance. */
  function Advance(steps: seq<Step>, s: Run, t: nat): Run
    requires t in s.threads
  {
    match s.threads[t]
    case Entered =>
      if s.status != RunRunning then s.(threads := s.threads - {t})
      else s.(current := s.current + 1,
              threads := s.threads[t := if s.current + 1 >= |steps| then Finishing else Counted])
    case Finishing => s.(status := RunCompleted, threads := s.threads - {t})
    case Counted => s.(threads := s.threads[t := Read(Done(s))])
    case Read(done) =>
      s.(threads := s.threads[t := Submitting(Unblocked(steps, IdsOf(steps, done), s.jobs.Keys, |steps|))])
    case Submitting(todo) =>
      if todo == [] || todo[0] >= |steps| then s.(threads := s.threads - {t})
      else s.(threads := s.threads[t := Fetched(todo[0], todo[1..], PreviousOutput(steps, s.jobs, todo[0]))])
    case Fetched(k, rest, prev) =>
      if k >= |steps| then s
      else s.(jobs := Insert(steps, s.jobs, k, prev), threads := s.threads[t := Submitting(rest)])
  }

  /** An action whose guard fails leaves the run as it is. */
  function Next(steps: seq<Step>, s: Run, a: Action): Run {
    match a
    case TriggerNext => TriggerStep(steps, s)
    case Dispatch(k) => if k in s.jobs then SetStatus(s, k, Running) else s
    case PutBack(k) => if k in s.jobs then SetStatus(s, k, Pending) else s
    case Delay(k) => if k in s.jobs && !Settled(s.jobs[k].status) then SetStatus(s, k, Retrying) else s
    case CompleteStep(k, output, call) => Complete(s, k, output, call)
    case FailStep(k) => if k in s.jobs && !Settled(s.jobs[k].status) then SetStatus(s, k, Failed) else s
    case CancelStep(k) => if k in s.jobs && !Settled(s.jobs[k].status) then SetStatus(s, k, Cancelled) else s
    case FailRun => if exists k :: k in s.jobs && s.jobs[k].status == Failed then s.(status := RunFailed) else s
    case CancelRun => if s.status == RunRunning then s.(status := RunCancelled, jobs := CancelAll(s.jobs)) else s
    case Proceed(t) => if t in s.threads then Advance(steps, s, t) else s
    case Crash => s.(trigger := [], threads := map[])
  }

  function Exec(steps: seq<Step>, s: Run, acts: seq<Action>): Run
    decreases |acts|
  {
    if acts == [] then s else Exec(steps, Next(steps, s, acts[0]), acts[1..])
  }

  // ----- safety: holds with crashes -----

  /** The action undoes a completion: a stale drop puts a completed step back, or its job is dispatched
      again, as the relay may do after a restart or a rolled-back pass. */
  ghost predicate Uncompletes(s: Run, a: Action) {
    (a.Dispatch? || a.PutBack?) && a.step in Done(s)
  }

  /** No action undoes a completion, so each step completes at most once. Crashes are allowed. */
  ghost predicate CompleteOnce(steps: seq<Step>, s: Run, acts: seq<Action>)
    decreases |acts|
  {
    acts == [] || (!Uncompletes(s, acts[0]) && CompleteOnce(steps, Next(steps, s, acts[0]), acts[1..]))
  }

  ghost predicate DepsDone(steps: seq<Step>, done: set<nat>, k: nat) {
    forall j: nat {:trigger Edge(steps, k, j)} :: Edge(steps, k, j) ==> j in done
  }

  ghost predicate PhaseSafe(steps: seq<Step>, s: Run, ph: Phase) {
    match ph
    case Read(done) =>
      forall k: nat {:trigger DepsDone(steps, done, k)} ::
        k < |steps| && k !in s.jobs && DepsDone(steps, done, k) ==> DepsDone(steps, Done(s), k)
    case Submitting(todo) => forall k :: k in todo ==> k < |steps| && DepsDone(steps, Done(s), k)
    case Fetched(k, rest, prev) =>
      && k < |steps| && DepsDone(steps, Done(s), k) && prev == PreviousOutput(steps, s.jobs, k)
      && forall r :: r in rest ==> r < |steps| && DepsDone(steps, Done(s), r)
    case _ => true
  }

  ghost predicate JobSafe(steps: seq<Step>, s: Run, k: nat)
    requires k in s.jobs
  {
    && k < |steps|
    && DepsDone(steps, Done(s), k)
    && s.jobs[k].payload == Shell(steps[k].command, PreviousOutput(steps, s.jobs, k))
  }

  ghost predicate OrderSafe(steps: seq<Step>, s: Run) {
    && (forall k :: k in s.order <==> k in Done(s))
    && (forall p, q :: 0 <= p < q < |s.order| ==> s.order[p] != s.order[q])
    && Topological(steps, s.order)
  }

  /** Dependency safety: every step that is submitted, or that a call in flight is bound to submit, has
      its dependencies completed, and the outputs handed on are the ones they have. */
  ghost predicate Sound(steps: seq<Step>, s: Run) {
    && (forall k :: k in s.jobs ==> JobSafe(steps, s, k))
    && (forall k :: k in s.trigger ==> k < |steps| && Deps(steps[k]) == [])
    && (forall t :: t in s.threads ==> PhaseSafe(steps, s, s.threads[t]))
  }

  ghost predicate Safe(steps: seq<Step>, s: Run) { Sound(steps, s) && OrderSafe(steps, s) }

  /** A call in this phase is bound to submit step k. */
  ghost predicate Bound(steps: seq<Step>, submitted: set<nat>, ph: Phase, k: nat) {
    match ph
    case Read(done) => k < |steps| && k !in submitted && DepsDone(steps, done, k)
    case Submitting(todo) => k in todo
    case Fetched(step, rest, _) => k == step || k in rest
    case _ => false
  }

  ghost predicate Promised(steps: seq<Step>, s: Run, k: nat) {
    k in s.jobs || exists t :: t in s.threads && Bound(steps, s.jobs.Keys, s.threads[t], k)
  }

  /** The action undoes a completion that a submitted or promised step depends on. */
  ghost predicate Spoils(steps: seq<Step>, s: Run, a: Action) {
    Uncompletes(s, a) && exists k: nat :: Promised(steps, s, k) && Edge(steps, k, a.step)
  }

  ghost predicate NeverSpoils(steps: seq<Step>, s: Run, acts: seq<Action>)
    decreases |acts|
  {
    acts == [] || (!Spoils(steps, s, acts[0]) && NeverSpoils(steps, Next(steps, s, acts[0]), acts[1..]))
  }

  /** No completed job is lost or rewritten: what every action does to the job table. */
  ghost predicate Extends(a: map<nat, StepJob>, b: map<nat, StepJob>) {
    forall k :: k in a ==>
      && k in b && b[k].payload == a[k].payload
      && (a[k].status == Completed ==> b[k] == a[k])
  }

  lemma NextExtends(steps: seq<Step>, s: Run, a: Action)
    requires !Uncompletes(s, a)
    ensures Extends(s.jobs, Next(steps, s, a).jobs)
    ensures Done(s) <= Done(Next(steps, s, a))
  {
  }

  lemma FirstWithIdFound(steps: seq<Step>, id: string, from: nat, j: nat)
    requires from <= j < |steps| && steps[j].id == id && DistinctIds(steps)
    ensures FirstWithId(steps, id, from) == Some(j)
    decreases j - from
  {
  }

  /** The only dependency's output, read when it is completed, never changes again. */
  lemma PreviousOutputStable(steps: seq<Step>, a: map<nat, StepJob>, b: map<nat, StepJob>, done: set<nat>, k: nat)
    requires DistinctIds(steps) && KnownDeps(steps) && k < |steps|
    requires forall j :: j in done ==> j in a && a[j].status == Completed
    requires DepsDone(steps, done, k) && Extends(a, b)
    ensures PreviousOutput(steps, a, k) == PreviousOutput(steps, b, k)
  {
    var deps := Deps(steps[k]);
    if |deps| == 1 {
      assert HasStep(steps, deps[0]);
      var j: nat :| j < |steps| && steps[j].id == deps[0];
      FirstWithIdFound(steps, deps[0], 0, j);
      assert Edge(steps, k, j);
    }
  }

  lemma InitSafe(steps: seq<Step>)
    ensures Safe(steps, Init(steps))
  {
    var s := Init(steps);
    forall k | k in s.trigger ensures k < |steps| && Deps(steps[k]) == [] {
      assert Enabled(steps, {}, k);
      EmptyOrMember(Deps(steps[k]));
    }
  }

  /** What was safe for one job stays safe once the table has been extended. */
  lemma JobStaysSafe(steps: seq<Step>, s: Run, s': Run, k: nat)
    requires DistinctIds(steps) && KnownDeps(steps)
    requires k in s.jobs && JobSafe(steps, s, k) && Extends(s.jobs, s'.jobs) && Done(s) <= Done(s')
    ensures JobSafe(steps, s', k)
  {
    PreviousOutputStable(steps, s.jobs, s'.jobs, Done(s), k);
  }

  lemma PhaseStaysSafe(steps: seq<Step>, s: Run, s': Run, ph: Phase)
    requires DistinctIds(steps) && KnownDeps(steps)
    requires PhaseSafe(steps, s, ph) && Extends(s.jobs, s'.jobs) && Done(s) <= Done(s')
    ensures PhaseSafe(steps, s', ph)
  {
    if ph.Fetched? { PreviousOutputStable(steps, s.jobs, s'.jobs, Done(s), ph.step); }
  }

  /** Inserting a step whose dependencies are done, with its dependency's output, is safe. */
  lemma InsertSafe(steps: seq<Step>, s: Run, s': Run, k: nat, prev: string)
    requires DistinctIds(steps) && KnownDeps(steps)
    requires k < |steps| && DepsDone(steps, Done(s), k) && prev == PreviousOutput(steps, s.jobs, k)
    requires s'.jobs == Insert(steps, s.jobs, k, prev) && s.jobs != s'.jobs
    ensures k in s'.jobs && JobSafe(steps, s', k)
  {
    assert Extends(s.jobs, s'.jobs) && Done(s) <= Done(s');
    PreviousOutputStable(steps, s.jobs, s'.jobs, Done(s), k);
  }

  lemma NewJobSafe(steps: seq<Step>, s: Run, a: Action, k: nat)
    requires !Uncompletes(s, a)
    requires DistinctIds(steps) && KnownDeps(steps) && Sound(steps, s)
    requires k in Next(steps, s, a).jobs && k !in s.jobs
    ensures JobSafe(steps, Next(steps, s, a), k)
  {
    var s' := Next(steps, s, a);
    match a {
      case TriggerNext =>
        assert k == s.trigger[0] && k in s.trigger;
        InsertSafe(steps, s, s', k, "");
      case Proceed(t) =>
        var ph := s.threads[t];
        assert PhaseSafe(steps, s, ph);
        InsertSafe(steps, s, s', k, ph.prev);
      case _ =>
    }
  }

  lemma NewPhaseSafe(steps: seq<Step>, s: Run, t: nat)
    requires DistinctIds(steps) && KnownDeps(steps) && Sound(steps, s) && t in s.threads
    requires t in Next(steps, s, Proceed(t)).threads
    ensures PhaseSafe(steps, Next(steps, s, Proceed(t)), Next(steps, s, Proceed(t)).threads[t])
  {
    var s' := Next(steps, s, Proceed(t));
    NextExtends(steps, s, Proceed(t));
    assert PhaseSafe(steps, s, s.threads[t]);
    match s.threads[t] {
      case Read(done) =>
        forall k | k in s'.threads[t].todo ensures DepsDone(steps, Done(s), k) {
          EnabledByIndex(steps, done, k);
          assert DepsDone(steps, done, k);
        }
      case Submitting(todo) =>
        assert todo[0] in todo;
      case Fetched(k, rest, prev) =>
      case _ =>
    }
  }

  /** CompleteJob is the only statement that grows the completed set, by one step. */
  lemma OrderChange(steps: seq<Step>, s: Run, a: Action)
    requires !Uncompletes(s, a)
    ensures var s' := Next(steps, s, a);
      || (s'.order == s.order && Done(s') == Done(s))
      || (a.CompleteStep? && a.step in s.jobs && a.step !in Done(s)
          && s'.order == s.order + [a.step] && Done(s') == Done(s) + {a.step})
  {
    var s' := Next(steps, s, a);
    if s'.order != s.order {
      assert Done(s') == Done(s) + {a.step};
    } else {
      assert forall k :: k in Done(s') <==> k in Done(s);
    }
  }

  lemma OrderStaysSafe(steps: seq<Step>, s: Run, a: Action)
    requires !Uncompletes(s, a)
    requires Safe(steps, s)
    ensures OrderSafe(steps, Next(steps, s, a))
  {
    OrderChange(steps, s, a);
    var s' := Next(steps, s, a);
    hide Next;
    if s'.order != s.order {
      assert JobSafe(steps, s, a.step);
      hide Done;
      FinishOne(steps, s.order, a.step);
    }
  }

  lemma ThreadsChange(steps: seq<Step>, s: Run, a: Action, t: nat)
    requires !Uncompletes(s, a)
    requires t in Next(steps, s, a).threads
    ensures var ph := Next(steps, s, a).threads[t];
      (t in s.threads && s.threads[t] == ph) || (a == Proceed(t) && t in s.threads) || ph == Entered
  {
  }

  /** An action that undoes no completion keeps dependency safety. */
  lemma PlainSound(steps: seq<Step>, s: Run, a: Action)
    requires !Uncompletes(s, a)
    requires DistinctIds(steps) && KnownDeps(steps) && Sound(steps, s)
    ensures Sound(steps, Next(steps, s, a))
  {
    hide JobSafe;
    hide PhaseSafe;
    var s' := Next(steps, s, a);
    NextExtends(steps, s, a);
    TriggerChange(steps, s, a);
    hide Next;
    forall k | k in s'.jobs ensures JobSafe(steps, s', k) {
      if k in s.jobs { JobStaysSafe(steps, s, s', k); } else { NewJobSafe(steps, s, a, k); }
    }
    forall t | t in s'.threads ensures PhaseSafe(steps, s', s'.threads[t]) {
      ThreadsChange(steps, s, a, t);
      if t in s.threads && s.threads[t] == s'.threads[t] {
        PhaseStaysSafe(steps, s, s', s.threads[t]);
      } else if s'.threads[t] == Entered {
        EnteredSafe(steps, s');
      } else {
        NewPhaseSafe(steps, s, t);
      }
    }
  }

  /** What undoing a completion does: the rest of the run stays as it was. */
  lemma Undone(steps: seq<Step>, s: Run, a: Action)
    requires Uncompletes(s, a)
    ensures var s' := Next(steps, s, a);
      && Done(s') == Done(s) - {a.step} && s'.jobs.Keys == s.jobs.Keys && s'.threads == s.threads && s'.trigger == s.trigger
      && s'.order == s.order
      && (forall k :: k in s.jobs ==> s'.jobs[k].payload == s.jobs[k].payload && (k != a.step ==> s'.jobs[k] == s.jobs[k]))
  {
  }

  /** Steps that do not depend on the undone one do not notice. */
  lemma OutputUnmoved(steps: seq<Step>, s: Run, a: Action, k: nat)
    requires Uncompletes(s, a) && DistinctIds(steps) && KnownDeps(steps) && k < |steps| && !Edge(steps, k, a.step)
    ensures DepsDone(steps, Done(Next(steps, s, a)), k) <==> DepsDone(steps, Done(s), k)
    ensures PreviousOutput(steps, Next(steps, s, a).jobs, k) == PreviousOutput(steps, s.jobs, k)
  {
    Undone(steps, s, a);
    assert forall j: nat :: Edge(steps, k, j) ==> j != a.step;
    hide Next;
    var deps := Deps(steps[k]);
    if |deps| == 1 {
      assert HasStep(steps, deps[0]);
      var j: nat :| j < |steps| && steps[j].id == deps[0];
      FirstWithIdFound(steps, deps[0], 0, j);
      assert Edge(steps, k, j);
    }
  }

  lemma UndoneSound(steps: seq<Step>, s: Run, a: Action)
    requires DistinctIds(steps) && KnownDeps(steps) && Sound(steps, s)
    requires Uncompletes(s, a) && !Spoils(steps, s, a)
    ensures Sound(steps, Next(steps, s, a))
  {
    var s' := Next(steps, s, a);
    Undone(steps, s, a);
    hide Next;
    forall k | k in s'.jobs ensures JobSafe(steps, s', k) {
      assert JobSafe(steps, s, k) && Promised(steps, s, k);
      OutputUnmoved(steps, s, a, k);
    }
    forall t | t in s'.threads ensures PhaseSafe(steps, s', s'.threads[t]) { UndonePhase(steps, s, a, t); }
  }

  lemma UndonePhase(steps: seq<Step>, s: Run, a: Action, t: nat)
    requires DistinctIds(steps) && KnownDeps(steps) && t in s.threads && PhaseSafe(steps, s, s.threads[t])
    requires Uncompletes(s, a) && !Spoils(steps, s, a)
    ensures PhaseSafe(steps, Next(steps, s, a), s.threads[t])
  {
    Undone(steps, s, a);
    hide Next;
    forall k: nat | k < |steps| && Bound(steps, s.jobs.Keys, s.threads[t], k)
      ensures DepsDone(steps, Done(Next(steps, s, a)), k) <==> DepsDone(steps, Done(s), k)
      ensures PreviousOutput(steps, Next(steps, s, a).jobs, k) == PreviousOutput(steps, s.jobs, k)
    {
      assert Promised(steps, s, k);
      OutputUnmoved(steps, s, a, k);
    }
    hide DepsDone;
    hide PreviousOutput;
  }

  lemma NextSound(steps: seq<Step>, s: Run, a: Action)
    requires !Spoils(steps, s, a)
    requires DistinctIds(steps) && KnownDeps(steps) && Sound(steps, s)
    ensures Sound(steps, Next(steps, s, a))
  {
    if Uncompletes(s, a) { UndoneSound(steps, s, a); } else { PlainSound(steps, s, a); }
  }

  /** Dependency safety survives an action exactly when it undoes no completion that a submitted or
      promised step depends on. */
  lemma SoundKeptIff(steps: seq<Step>, s: Run, a: Action)
    requires DistinctIds(steps) && KnownDeps(steps) && Sound(steps, s)
    ensures Sound(steps, Next(steps, s, a)) <==> !Spoils(steps, s, a)
  {
    if Spoils(steps, s, a) {
      var k: nat :| Promised(steps, s, k) && Edge(steps, k, a.step);
      var s' := Next(steps, s, a);
      Undone(steps, s, a);
      hide Next;
      assert !DepsDone(steps, Done(s'), k);
      if k in s.jobs {
        assert !JobSafe(steps, s', k);
      } else {
        var t :| t in s.threads && Bound(steps, s.jobs.Keys, s.threads[t], k);
        assert !PhaseSafe(steps, s', s'.threads[t]);
      }
    } else {
      NextSound(steps, s, a);
    }
  }

  lemma NextSafe(steps: seq<Step>, s: Run, a: Action)
    requires !Uncompletes(s, a)
    requires DistinctIds(steps) && KnownDeps(steps) && Safe(steps, s)
    ensures Safe(steps, Next(steps, s, a))
  {
    PlainSound(steps, s, a);
    OrderStaysSafe(steps, s, a);
  }

  lemma EnteredSafe(steps: seq<Step>, s: Run)
    ensures PhaseSafe(steps, s, Entered)
  {
  }

  lemma TriggerChange(steps: seq<Step>, s: Run, a: Action)
    requires !Uncompletes(s, a)
    ensures forall k :: k in Next(steps, s, a).trigger ==> k in s.trigger
  {
  }

  lemma {:induction false} ExecSafe(steps: seq<Step>, s: Run, acts: seq<Action>)
    requires DistinctIds(steps) && KnownDeps(steps) && Safe(steps, s) && CompleteOnce(steps, s, acts)
    ensures Safe(steps, Exec(steps, s, acts))
    decreases |acts|
  {
    hide Safe;
    hide Next;
    hide Uncompletes;
    if acts != [] {
      NextSafe(steps, s, acts[0]);
      ExecSafe(steps, Next(steps, s, acts[0]), acts[1..]);
    }
  }

  lemma {:induction false} ExecSound(steps: seq<Step>, s: Run, acts: seq<Action>)
    requires DistinctIds(steps) && KnownDeps(steps) && Sound(steps, s) && NeverSpoils(steps, s, acts)
    ensures Sound(steps, Exec(steps, s, acts))
    decreases |acts|
  {
    hide Sound;
    hide Next;
    hide Spoils;
    if acts != [] {
      NextSound(steps, s, acts[0]);
      ExecSound(steps, Next(steps, s, acts[0]), acts[1..]);
    }
  }

  lemma {:induction false} OnceNeverSpoils(steps: seq<Step>, s: Run, acts: seq<Action>)
    requires CompleteOnce(steps, s, acts)
    ensures NeverSpoils(steps, s, acts)
    decreases |acts|
  {
    hide Next;
    if acts != [] { OnceNeverSpoils(steps, Next(steps, s, acts[0]), acts[1..]); }
  }

  // ----- runs joined -----

  lemma {:induction false} ExecJoin(steps: seq<Step>, s: Run, a: seq<Action>, b: seq<Action>)
    ensures Exec(steps, s, a + b) == Exec(steps, Exec(steps, s, a), b)
    ensures CompleteOnce(steps, s, a + b) <==> CompleteOnce(steps, s, a) && CompleteOnce(steps, Exec(steps, s, a), b)
    ensures NeverSpoils(steps, s, a + b) <==> NeverSpoils(steps, s, a) && NeverSpoils(steps, Exec(steps, s, a), b)
    decreases |a|
  {
    hide Next;
    hide Uncompletes;
    hide Spoils;
    if a == [] {
      assert a + b == b;
    } else {
      assert (a + b)[1..] == a[1..] + b && (a + b)[0] == a[0];
      ExecJoin(steps, Next(steps, s, a[0]), a[1..], b);
    }
  }

  lemma ExecOne(steps: seq<Step>, s: Run, a: Action)
    ensures Exec(steps, s, [a]) == Next(steps, s, a)
    ensures CompleteOnce(steps, s, [a]) <==> !Uncompletes(s, a)
    ensures NeverSpoils(steps, s, [a]) <==> !Spoils(steps, s, a)
  {
    hide Next;
    hide Spoils;
    var s' := Next(steps, s, a);
    assert [a][1..] == [] && Exec(steps, s', []) == s' && CompleteOnce(steps, s', []) && NeverSpoils(steps, s', []);
  }
}
