/** Which runs can still complete, crashed ones included, and what a cancelled run can become. */
module RunLimits {
  import opened Prelude
  import opened Types
  import opened Steps
  import opened RunMachine
  import opened RunProgress
  import opened RunTheorems
  import opened RunCalls

  // ----- from a run that is not over to its completion -----

  ghost predicate AllDone(s: Run) {
    forall k :: k in s.jobs ==> s.jobs[k].status == Completed
  }

  /** Nothing is left that could bring another Advance call, or complete the run. */
  ghost predicate Over(steps: seq<Step>, s: Run) { Idle(steps, s) && AllDone(s) }

  /** A running run, after any number of crashes, without failed or cancelled jobs, that has counted
      every completion and is not over. */
  ghost predicate Calm(steps: seq<Step>, s: Run) {
    && Safe(steps, s) && Honest(steps, s) && s.status == RunRunning && Counter(s)
    && Unfailed(s) && !Over(steps, s)
  }

  ghost predicate Unfailed(s: Run) {
    forall k :: k in s.jobs ==> s.jobs[k].status == Completed || !Settled(s.jobs[k].status)
  }

  /** An Advance call that has just counted a completion, not the last, finds an enabled step to insert,
      if there is no uncompleted job. */
  lemma CountedFinds(steps: seq<Step>, s: Run, t: nat)
    requires Runnable(steps) && Safe(steps, s) && AllDone(s)
    requires t in s.threads && s.threads[t] == Counted && |Done(s)| < |steps|
    ensures exists k: nat :: Coming(steps, s, k)
  {
    DoneBound(steps, s);
    assert |Below(|steps|)| == |steps|;
    var k := Unfinished(steps, Done(s));
    assert Inserts(steps, s, s.threads[t], k);
    assert Coming(steps, s, k);
  }

  /** An own statement of a run that is not over completes it, or leaves it not over. */
  lemma OwnAlive(steps: seq<Step>, s: Run, a: Action)
    requires Runnable(steps) && Calm(steps, s) && Own(s, a)
    requires Next(steps, s, a).status != RunCompleted
    ensures !Over(steps, Next(steps, s, a))
  {
    var s' := Next(steps, s, a);
    OwnInserts(steps, s, a);
    NextSafe(steps, s, a);
    CounterKept(steps, s, a);
    OwnCalls(steps, s, a);
    if Over(steps, s') {
      assert s'.jobs == s.jobs;
      if a.Proceed? && s.threads[a.call] == Entered {
        CountedFinds(steps, s', a.call);
      } else {
        forall k: nat ensures !Coming(steps, s, k) { ComingKept(steps, s, a, k); }
      }
    }
  }

  /** What an own statement makes of the counting and completing calls. */
  lemma OwnCalls(steps: seq<Step>, s: Run, a: Action)
    requires Own(s, a) && s.status == RunRunning && Next(steps, s, a).status != RunCompleted && Counter(s)
    ensures var s' := Next(steps, s, a);
      && s'.status == RunRunning
      && (NoFinisher(s') ==> NoFinisher(s))
      && (Waiting(s') == {} && !(a.Proceed? && s.threads[a.call] == Entered) ==> Waiting(s) == {})
      && (a.Proceed? && s.threads[a.call] == Entered && NoFinisher(s') && Waiting(s') == {} ==>
            a.call in s'.threads && s'.threads[a.call] == Counted && |Done(s')| < |steps|)
  {
    var s' := Next(steps, s, a);
    forall t | t in s.threads && a != Proceed(t) ensures t in s'.threads && s'.threads[t] == s.threads[t] { OwnOthers(steps, s, a, t); }
    assert Waiting(s') == {} ==> forall t :: t in s'.threads ==> t !in Waiting(s');
    CounterKept(steps, s, a);
  }

  lemma OwnCalm(steps: seq<Step>, s: Run, a: Action)
    requires Runnable(steps) && Calm(steps, s) && Own(s, a) && Next(steps, s, a).status != RunCompleted
    ensures Calm(steps, Next(steps, s, a)) && Done(Next(steps, s, a)) == Done(s)
  {
    OwnAlive(steps, s, a);
    OwnInserts(steps, s, a);
    NextSafe(steps, s, a);
    HonestKept(steps, s, a);
    CounterKept(steps, s, a);
    OwnCalls(steps, s, a);
    hide Next;
    hide Safe;
    hide Over;
    hide Honest;
    hide Counter;
    hide Done;
  }

  /** Whoever proceeds, the call is nearer its end; the others and the trigger are as they were. */
  lemma CallOnce(steps: seq<Step>, s: Run, t: nat)
    requires Runnable(steps) && Calm(steps, s) && t in s.threads
    ensures Orderly(steps, s, [Proceed(t)])
    ensures var s' := Exec(steps, s, [Proceed(t)]);
      || s'.status == RunCompleted
      || (Calm(steps, s') && Done(s') == Done(s) && s'.trigger == s.trigger && s'.threads - {t} == s.threads - {t}
          && (t in s'.threads ==> Left(steps, s'.threads[t]) < Left(steps, s.threads[t])))
  {
    ExecOne(steps, s, Proceed(t));
    hide Exec;
    assert PhaseSafe(steps, s, s.threads[t]);
    CallShrinks(steps, s, t);
    CallLocals(steps, s, t);
    if Next(steps, s, Proceed(t)).status != RunCompleted { OwnCalm(steps, s, Proceed(t)); }
    hide Next;
    hide Calm;
    hide Done;
    hide Runnable;
  }

  lemma {:induction false} CallToEnd(steps: seq<Step>, s: Run, t: nat) returns (acts: seq<Action>)
    requires Runnable(steps) && Calm(steps, s) && t in s.threads
    ensures Orderly(steps, s, acts)
    ensures var s' := Exec(steps, s, acts);
      s'.status == RunCompleted || (Calm(steps, s') && Done(s') == Done(s) && s'.trigger == s.trigger && s'.threads == s.threads - {t})
    decreases Left(steps, s.threads[t])
  {
    hide Exec;
    hide Orderly;
    hide Calm;
    hide Done;
    hide Runnable;
    acts := [Proceed(t)];
    CallOnce(steps, s, t);
    var s' := Exec(steps, s, acts);
    if s'.status != RunCompleted {
      if t in s'.threads {
        var rest := CallToEnd(steps, s', t);
        JoinOrderly(steps, s, acts, rest);
        acts := acts + rest;
      } else {
        assert s'.threads == s.threads - {t};
      }
    }
  }

  lemma CallLocals(steps: seq<Step>, s: Run, t: nat)
    requires t in s.threads
    ensures var s' := Next(steps, s, Proceed(t)); s'.threads - {t} == s.threads - {t} && s'.trigger == s.trigger
  {
  }

  lemma TriggerOnce(steps: seq<Step>, s: Run)
    requires Runnable(steps) && Calm(steps, s) && s.trigger != []
    ensures Orderly(steps, s, [TriggerNext])
    ensures var s' := Exec(steps, s, [TriggerNext]);
      Calm(steps, s') && Done(s') == Done(s) && |s'.trigger| < |s.trigger| && s'.threads == s.threads
  {
    ExecOne(steps, s, TriggerNext);
    hide Exec;
    var s' := Next(steps, s, TriggerNext);
    assert s.trigger[0] in s.trigger;
    assert |s'.trigger| < |s.trigger| && s'.threads == s.threads && s'.status == s.status;
    OwnCalm(steps, s, TriggerNext);
    hide Next;
    hide Calm;
    hide Done;
    hide Runnable;
  }

  lemma {:induction false} TriggerToEnd(steps: seq<Step>, s: Run) returns (acts: seq<Action>)
    requires Runnable(steps) && Calm(steps, s)
    ensures Orderly(steps, s, acts)
    ensures var s' := Exec(steps, s, acts); Calm(steps, s') && Done(s') == Done(s) && s'.trigger == [] && s'.threads == s.threads
    decreases |s.trigger|
  {
    hide Calm;
    hide Done;
    hide Runnable;
    if s.trigger == [] {
      acts := [];
    } else {
      hide Exec;
      hide Orderly;
      acts := [TriggerNext];
      TriggerOnce(steps, s);
      var rest := TriggerToEnd(steps, Exec(steps, s, acts));
      JoinOrderly(steps, s, acts, rest);
      acts := acts + rest;
    }
  }

  lemma {:induction false} CallsToEnd(steps: seq<Step>, s: Run) returns (acts: seq<Action>)
    requires Runnable(steps) && Calm(steps, s)
    ensures Orderly(steps, s, acts)
    ensures var s' := Exec(steps, s, acts);
      s'.status == RunCompleted || (Calm(steps, s') && Done(s') == Done(s) && s'.trigger == s.trigger && s'.threads == map[])
    decreases |s.threads|
  {
    hide Next;
    hide Calm;
    hide Done;
    if s.threads == map[] {
      acts := [];
    } else {
      var t :| t in s.threads;
      acts := CallToEnd(steps, s, t);
      var s' := Exec(steps, s, acts);
      if s'.status != RunCompleted {
        assert s.threads.Keys == (s.threads - {t}).Keys + {t};
        var rest := CallsToEnd(steps, s');
        ExecJoin(steps, s, acts, rest);
        acts := acts + rest;
      }
    }
  }

  lemma OneMore(s: Run, k: nat)
    requires k in s.jobs && !Settled(s.jobs[k].status) && 0 !in s.threads
    ensures Done(Complete(s, k, "", 0)) == Done(s) + {k} && |Done(s) + {k}| == |Done(s)| + 1
  {
    assert k !in Done(s);
  }

  /** At rest, the next completion starts a call, and that call looks at the whole frontier again. */
  lemma NextCompletion(steps: seq<Step>, s: Run, k: nat)
    requires Runnable(steps) && Calm(steps, s) && Quiescent(s) && k in s.jobs && s.jobs[k].status != Completed
    ensures var s' := Next(steps, s, CompleteStep(k, "", 0));
      Calm(steps, s') && |Done(s')| == |Done(s)| + 1 <= |steps|
  {
    hide Safe;
    hide Honest;
    hide Counter;
    hide Coming;
    hide Done;
    var a := CompleteStep(k, "", 0);
    var s' := Next(steps, s, a);
    OneMore(s, k);
    NextSafe(steps, s, a);
    HonestKept(steps, s, a);
    CounterKept(steps, s, a);
    DoneBound(steps, s');
    assert 0 in Waiting(s');
  }

  lemma ActiveJob(steps: seq<Step>, s: Run) returns (k: nat)
    requires Calm(steps, s) && Quiescent(s)
    ensures k in s.jobs && s.jobs[k].status != Completed
  {
    assert Waiting(s) == {};
    assert Idle(steps, s);
    k :| k in s.jobs && s.jobs[k].status != Completed;
  }

  /** Let every call end; then let a job complete. */
  lemma Round(steps: seq<Step>, s: Run) returns (acts: seq<Action>)
    requires Runnable(steps) && Calm(steps, s)
    ensures Orderly(steps, s, acts)
    ensures var s' := Exec(steps, s, acts);
      s'.status == RunCompleted || (Calm(steps, s') && |Done(s)| < |Done(s')| <= |steps|)
  {
    hide Next;
    hide Calm;
    hide Done;
    hide Exec;
    hide Orderly;
    hide Runnable;
    var first := TriggerToEnd(steps, s);
    var s1 := Exec(steps, s, first);
    var second := CallsToEnd(steps, s1);
    JoinOrderly(steps, s, first, second);
    acts := first + second;
    var s2 := Exec(steps, s1, second);
    if s2.status != RunCompleted {
      var k := ActiveJob(steps, s2);
      NextCompletion(steps, s2, k);
      CompletionOrderly(steps, s2, k);
      JoinOrderly(steps, s, acts, [CompleteStep(k, "", 0)]);
      acts := acts + [CompleteStep(k, "", 0)];
    }
  }

  lemma CompletionOrderly(steps: seq<Step>, s: Run, k: nat)
    ensures Orderly(steps, s, [CompleteStep(k, "", 0)])
    ensures Exec(steps, s, [CompleteStep(k, "", 0)]) == Next(steps, s, CompleteStep(k, "", 0))
  {
    ExecOne(steps, s, CompleteStep(k, "", 0));
    hide Next;
    hide Exec;
  }

  /** From any such state, whatever the number of calls in flight, the run can be brought to completion. */
  lemma {:induction false} RunToEnd(steps: seq<Step>, s: Run) returns (acts: seq<Action>)
    requires Runnable(steps) && Calm(steps, s)
    ensures Orderly(steps, s, acts) && Exec(steps, s, acts).status == RunCompleted
    decreases |steps| - |Done(s)|
  {
    CalmBound(steps, s);
    hide Calm;
    hide Done;
    hide Exec;
    hide Orderly;
    hide Runnable;
    acts := Round(steps, s);
    if Exec(steps, s, acts).status != RunCompleted {
      var rest := RunToEnd(steps, Exec(steps, s, acts));
      JoinOrderly(steps, s, acts, rest);
      acts := acts + rest;
    }
  }

  lemma CalmBound(steps: seq<Step>, s: Run)
    requires Calm(steps, s)
    ensures |Done(s)| <= |steps|
  {
    DoneBound(steps, s);
  }

  // ----- runs that cannot complete any more -----

  /** The counter has fallen behind: some completion will never be counted. */
  ghost predicate Short(s: Run) {
    && s.status != RunCompleted && NoFinisher(s)
    && (s.status == RunRunning ==> s.current + |Waiting(s)| < |Done(s)|)
  }

  lemma ShortCount(steps: seq<Step>, s: Run, a: Action)
    requires Short(s) && a != Crash && !Uncompletes(s, a)
    ensures var s' := Next(steps, s, a); s'.status == RunRunning ==> s'.current + |Waiting(s')| < |Done(s')|
  {
    OrderChange(steps, s, a);
    WaitingChange(steps, s, a);
    CurrentChange(steps, s, a);
    hide Next;
    hide Done;
    hide Waiting;
    if Next(steps, s, a).order != s.order { WaitingIsCalls(s); }
  }

  lemma ShortStep(steps: seq<Step>, s: Run, a: Action)
    requires DistinctIds(steps) && KnownDeps(steps) && Safe(steps, s) && Short(s) && a != Crash && !Uncompletes(s, a)
    ensures Short(Next(steps, s, a))
  {
    ShortCount(steps, s, a);
    StatusChange(steps, s, a);
    DoneBound(steps, s);
    NotLast(s);
    var s' := Next(steps, s, a);
    forall t | t in s'.threads ensures s'.threads[t] != Finishing {
      if s'.threads[t] == Finishing { FinisherChange(steps, s, a, t); }
    }
  }

  /** While the counter is short, no increment reaches the total. */
  lemma NotLast(s: Run)
    requires Short(s)
    ensures s.status == RunRunning ==> forall t :: t in s.threads && s.threads[t] == Entered ==> s.current + 1 < |Done(s)|
  {
    forall t | t in s.threads && s.threads[t] == Entered ensures |Waiting(s)| > 0 { assert t in Waiting(s); }
  }

  lemma {:induction false} ShortStays(steps: seq<Step>, s: Run, acts: seq<Action>)
    requires DistinctIds(steps) && KnownDeps(steps) && Safe(steps, s) && Short(s) && Orderly(steps, s, acts)
    ensures Exec(steps, s, acts).status != RunCompleted
    decreases |acts|
  {
    hide Next;
    hide Safe;
    hide Short;
    if acts == [] {
      ShortNotCompleted(s);
    } else {
      NextSafe(steps, s, acts[0]);
      ShortStep(steps, s, acts[0]);
      ShortStays(steps, Next(steps, s, acts[0]), acts[1..]);
    }
  }

  lemma ShortNotCompleted(s: Run)
    requires Short(s)
    ensures s.status != RunCompleted
  {
  }

  lemma OverStep(steps: seq<Step>, s: Run, a: Action)
    requires DistinctIds(steps) && KnownDeps(steps) && Over(steps, s) && s.status != RunCompleted && !Uncompletes(s, a)
    ensures Over(steps, Next(steps, s, a)) && Next(steps, s, a).status != RunCompleted
  {
    if Own(s, a) { IdleOwn(steps, s, a); } else { OverElse(steps, s, a); }
  }

  lemma NothingToUndo(s: Run, a: Action)
    requires AllDone(s) && !Uncompletes(s, a)
    ensures a.Dispatch? || a.PutBack? ==> a.step !in s.jobs
  {
  }

  /** Whatever else happens touches no job, and at most ends calls or the run. */
  lemma OverElse(steps: seq<Step>, s: Run, a: Action)
    requires Over(steps, s) && s.status != RunCompleted && !Uncompletes(s, a) && !Own(s, a)
    ensures Over(steps, Next(steps, s, a)) && Next(steps, s, a).status != RunCompleted
  {
    var s' := Next(steps, s, a);
    NothingToUndo(s, a);
    assert s'.jobs == s.jobs;
    assert Done(s') == Done(s);
    assert a == Crash || (s'.threads == s.threads && s'.trigger == s.trigger);
    forall k: nat ensures !Coming(steps, s', k) {
      assert !Coming(steps, s, k);
      if t :| t in s'.threads && Inserts(steps, s', s'.threads[t], k) { assert Inserts(steps, s, s.threads[t], k) || a == Crash; }
    }
  }

  lemma {:induction false} OverStays(steps: seq<Step>, s: Run, acts: seq<Action>)
    requires DistinctIds(steps) && KnownDeps(steps) && Over(steps, s) && s.status != RunCompleted && CompleteOnce(steps, s, acts)
    ensures Exec(steps, s, acts).status != RunCompleted
    decreases |acts|
  {
    hide Next;
    hide Over;
    hide Uncompletes;
    if acts != [] {
      OverStep(steps, s, acts[0]);
      OverStays(steps, Next(steps, s, acts[0]), acts[1..]);
    }
  }

  lemma CountsShort(steps: seq<Step>, s: Run)
    requires Safe(steps, s) && Honest(steps, s) && s.status == RunRunning && !Counter(s)
    ensures Short(s)
  {
    DoneBound(steps, s);
  }

  /** The run machine can still complete a running run, after any number of crashes and without failed or
      cancelled jobs, exactly when every completion has been or will be counted, and the run is not over:
      a call has yet to count or to complete it, a step is coming, or some job is not completed. */
  lemma CanCompleteIff(steps: seq<Step>, s: Run)
    requires Runnable(steps) && Safe(steps, s) && Honest(steps, s) && s.status == RunRunning && Unfailed(s)
    ensures (exists acts :: Orderly(steps, s, acts) && Exec(steps, s, acts).status == RunCompleted)
        <==> Counter(s) && !Over(steps, s)
  {
    if Counter(s) && !Over(steps, s) {
      var acts := RunToEnd(steps, s);
    } else {
      forall acts | Orderly(steps, s, acts) ensures Exec(steps, s, acts).status != RunCompleted {
        if !Counter(s) {
          CountsShort(steps, s);
          ShortStays(steps, s, acts);
        } else {
          OverStays(steps, s, acts);
        }
      }
    }
  }

  /** So a crash leaves such a run able to complete exactly when no Advance call had yet to count, and
      some job is not completed: its completion will bring the next call. It need not be the first crash. */
  lemma CrashHarmlessIff(steps: seq<Step>, s: Run)
    requires Runnable(steps) && Safe(steps, s) && Honest(steps, s) && Counter(s) && s.status == RunRunning && Unfailed(s)
    ensures (exists acts :: Orderly(steps, Next(steps, s, Crash), acts) && Exec(steps, Next(steps, s, Crash), acts).status == RunCompleted)
        <==> Waiting(s) == {} && exists k :: k in s.jobs && s.jobs[k].status != Completed
  {
    var s' := Next(steps, s, Crash);
    NextSafe(steps, s, Crash);
    HonestKept(steps, s, Crash);
    assert Waiting(s') == {} && Done(s') == Done(s);
    assert Waiting(s) != {} ==> |Waiting(s)| > 0;
    assert Idle(steps, s');
    hide Safe;
    hide Honest;
    CanCompleteIff(steps, s');
  }

  // ----- which validated workflows can complete at all -----

  lemma InitCalm(steps: seq<Step>)
    requires Runnable(steps) && |steps| > 0
    ensures Calm(steps, Init(steps))
  {
    var s := Init(steps);
    InitSafe(steps);
    InitLive(steps);
    var k := FrontierExists(steps, {});
    assert IdsOf(steps, {}) == {} by { forall d ensures d !in IdsOf(steps, {}) { IdsMember(steps, {}, |steps|, d); } }
    assert k in s.trigger;
    TriggerReaches(steps, s.trigger, k);
    assert Coming(steps, s, k);
  }

  lemma {:induction false} TriggerReaches(steps: seq<Step>, trigger: seq<nat>, k: nat)
    requires RetriesOk(steps) && k in trigger && forall i :: i in trigger ==> i < |steps|
    ensures Reaches(steps, trigger, k)
    decreases |trigger|
  {
    assert trigger[0] in trigger && forall i :: i in trigger[1..] ==> i in trigger;
    if trigger[0] != k { TriggerReaches(steps, trigger[1..], k); }
  }

  lemma NeverInserted(steps: seq<Step>, s: Run, a: Action, k: nat)
    requires k < |steps| && !RetriesFit(steps[k].retries) && k !in s.jobs
    ensures k !in Next(steps, s, a).jobs
  {
  }

  /** A step that can never be submitted keeps the run from completing, whatever crashes. */
  lemma {:induction false} NeverSubmitted(steps: seq<Step>, s: Run, acts: seq<Action>, k: nat)
    requires k < |steps| && !RetriesFit(steps[k].retries) && k !in s.jobs
    ensures k !in Exec(steps, s, acts).jobs
    decreases |acts|
  {
    hide Next;
    if acts != [] {
      NeverInserted(steps, s, acts[0], k);
      NeverSubmitted(steps, Next(steps, s, acts[0]), acts[1..], k);
    }
  }

  /** Validate does not look at retries, but jobs.max_retries does: a validated, non-empty workflow has
      a run that completes exactly when the table accepts every step's limit. */
  lemma CompletableIff(steps: seq<Step>)
    requires Valid(steps) && |steps| > 0
    ensures RetriesOk(steps) <==> exists acts :: Orderly(steps, Init(steps), acts) && Exec(steps, Init(steps), acts).status == RunCompleted
  {
    if RetriesOk(steps) {
      InitCalm(steps);
      var acts := RunToEnd(steps, Init(steps));
      assert Orderly(steps, Init(steps), acts) && Exec(steps, Init(steps), acts).status == RunCompleted;
    } else {
      var k: nat :| k < |steps| && !RetriesFit(steps[k].retries);
      forall acts | Orderly(steps, Init(steps), acts) ensures Exec(steps, Init(steps), acts).status != RunCompleted {
        NeverSubmitted(steps, Init(steps), acts, k);
        CompletedMeansDone(steps, acts);
        assert k in Below(|steps|);
      }
    }
  }

  // ----- a cancelled run -----

  lemma ClosedStep(steps: seq<Step>, s: Run, a: Action)
    requires s.status != RunRunning && s.status != RunCompleted && NoFinisher(s)
    ensures var s' := Next(steps, s, a); s'.status != RunRunning && s'.status != RunCompleted && NoFinisher(s')
  {
  }

  lemma {:induction false} ClosedStays(steps: seq<Step>, s: Run, acts: seq<Action>)
    requires s.status != RunRunning && s.status != RunCompleted && NoFinisher(s)
    ensures Exec(steps, s, acts).status != RunCompleted
    decreases |acts|
  {
    hide Next;
    hide NoFinisher;
    if acts != [] {
      ClosedStep(steps, s, acts[0]);
      ClosedStays(steps, Next(steps, s, acts[0]), acts[1..]);
    }
  }

  /** CompleteWorkflowRun has no status guard: a cancelled run can still be marked completed, exactly
      when some Advance call had already seen the total. */
  lemma CancelHoldsIff(steps: seq<Step>, s: Run)
    requires s.status == RunCancelled
    ensures NoFinisher(s) <==> forall acts :: Exec(steps, s, acts).status != RunCompleted
  {
    if NoFinisher(s) {
      forall acts ensures Exec(steps, s, acts).status != RunCompleted { ClosedStays(steps, s, acts); }
    } else {
      var t :| t in s.threads && s.threads[t] == Finishing;
      ExecOne(steps, s, Proceed(t));
      assert Exec(steps, s, [Proceed(t)]).status == RunCompleted;
    }
  }
}
