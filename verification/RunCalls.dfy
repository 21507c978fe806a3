/**
  What the calls of a run will still do by themselves: which steps are coming, whatever the order of
  the remaining statements, and when nothing is left to come.
*/
module RunCalls {
  import opened Prelude
  import opened Types
  import opened Steps
  import opened RunMachine
  import opened RunProgress

  /** TriggerWorkflow gets as far as step k: it stops at the first row the table rejects. */
  predicate Reaches(steps: seq<Step>, trigger: seq<nat>, k: nat) {
    && trigger != [] && trigger[0] < |steps| && RetriesFit(steps[trigger[0]].retries)
    && (trigger[0] == k || Reaches(steps, trigger[1..], k))
  }

  /** Advance gets as far as step k. */
  predicate InReach(steps: seq<Step>, todo: seq<nat>, k: nat) {
    todo != [] && todo[0] < |steps| && (todo[0] == k || InReach(steps, todo[1..], k))
  }

  /** A call in this phase goes on to insert step k. */
  ghost predicate Inserts(steps: seq<Step>, s: Run, ph: Phase, k: nat) {
    match ph
    case Entered => false
    case Finishing => false
    case Counted => DepsDone(steps, Done(s), k)
    case Read(done) => DepsDone(steps, done, k)
    case Submitting(todo) => InReach(steps, todo, k)
    case Fetched(step, rest, _) => step < |steps| && (k == step || InReach(steps, rest, k))
  }

  /** Step k has no row, the table would take one, and a call in flight or TriggerWorkflow inserts it. */
  ghost predicate Coming(steps: seq<Step>, s: Run, k: nat) {
    && k < |steps| && k !in s.jobs && RetriesFit(steps[k].retries)
    && (Reaches(steps, s.trigger, k) || exists t :: t in s.threads && Inserts(steps, s, s.threads[t], k))
  }

  /** The calls have nothing left to do: none counts, none completes the run, no step is coming. */
  ghost predicate Idle(steps: seq<Step>, s: Run) {
    && NoFinisher(s)
    && (s.status == RunRunning ==> Waiting(s) == {})
    && forall k: nat :: !Coming(steps, s, k)
  }

  /** A statement of the run itself. */
  predicate Own(s: Run, a: Action) {
    a == TriggerNext || (a.Proceed? && a.call in s.threads)
  }

  lemma {:induction false} ReachMember(steps: seq<Step>, todo: seq<nat>, k: nat)
    requires forall i :: i in todo ==> i < |steps|
    ensures InReach(steps, todo, k) <==> k in todo
  {
    if todo != [] {
      assert todo[0] in todo && forall i :: i in todo[1..] ==> i in todo;
      assert todo == [todo[0]] + todo[1..];
      ReachMember(steps, todo[1..], k);
    }
  }

  /** The frontier an Advance call computes holds exactly the steps its snapshot enables. */
  lemma FrontierReach(steps: seq<Step>, done: set<nat>, submitted: set<nat>, k: nat)
    requires DistinctIds(steps) && KnownDeps(steps) && k < |steps| && k !in submitted
    ensures InReach(steps, Unblocked(steps, IdsOf(steps, done), submitted, |steps|), k) <==> DepsDone(steps, done, k)
  {
    ReachMember(steps, Unblocked(steps, IdsOf(steps, done), submitted, |steps|), k);
    EnabledByIndex(steps, done, k);
  }

  /** An own statement rewrites no row, and what it inserts was coming. */
  lemma OwnInserts(steps: seq<Step>, s: Run, a: Action)
    requires Own(s, a)
    ensures var s' := Next(steps, s, a);
      && Done(s') == Done(s) && s'.order == s.order
      && (forall k :: k in s.jobs ==> k in s'.jobs && s'.jobs[k] == s.jobs[k])
      && (forall k :: k in s'.jobs && k !in s.jobs ==> Coming(steps, s, k) && s'.jobs[k].status == Pending)
  {
    var s' := Next(steps, s, a);
    forall k | k in s'.jobs && k !in s.jobs ensures Coming(steps, s, k) && s'.jobs[k].status == Pending {
      if a.Proceed? { assert Inserts(steps, s, s.threads[a.call], k); }
    }
    assert forall k :: k in Done(s') <==> k in Done(s);
  }

  lemma OwnOthers(steps: seq<Step>, s: Run, a: Action, t: nat)
    requires Own(s, a) && a != Proceed(t)
    ensures t in Next(steps, s, a).threads <==> t in s.threads
    ensures t in s.threads ==> Next(steps, s, a).threads[t] == s.threads[t]
  {
  }

  /** Computing the frontier keeps exactly the steps the snapshot enables. */
  lemma ReadKeeps(steps: seq<Step>, s: Run, t: nat, k: nat)
    requires DistinctIds(steps) && KnownDeps(steps) && t in s.threads && s.threads[t].Read? && k < |steps| && k !in s.jobs
    ensures var s' := Next(steps, s, Proceed(t));
      && s'.jobs == s.jobs && t in s'.threads
      && (Inserts(steps, s, s.threads[t], k) <==> Inserts(steps, s', s'.threads[t], k))
  {
    FrontierReach(steps, s.threads[t].done, s.jobs.Keys, k);
    hide Unblocked;
    hide InReach;
    hide DepsDone;
    hide IdsOf;
  }

  /** The call's own statement: it goes on to insert the same steps, or has just inserted one. */
  lemma CallKeeps(steps: seq<Step>, s: Run, t: nat, k: nat)
    requires DistinctIds(steps) && KnownDeps(steps) && t in s.threads && s.threads[t] != Entered
    requires k < |steps| && RetriesFit(steps[k].retries) && k !in s.jobs
    ensures var s' := Next(steps, s, Proceed(t));
      Inserts(steps, s, s.threads[t], k) <==> k in s'.jobs || (t in s'.threads && Inserts(steps, s', s'.threads[t], k))
    ensures Next(steps, s, Proceed(t)).trigger == s.trigger
  {
    hide Unblocked;
    hide DepsDone;
    hide PreviousOutput;
    if s.threads[t].Read? { ReadKeeps(steps, s, t, k); }
    if s.threads[t].Counted? { assert Next(steps, s, Proceed(t)).threads[t] == Read(Done(s)); }
  }

  lemma TriggerKeeps(steps: seq<Step>, s: Run, k: nat)
    requires k < |steps| && RetriesFit(steps[k].retries) && k !in s.jobs
    ensures var s' := Next(steps, s, TriggerNext);
      && (Reaches(steps, s.trigger, k) <==> k in s'.jobs || Reaches(steps, s'.trigger, k))
      && s'.threads == s.threads
  {
  }

  /** An own statement other than the counting of a completion neither adds to what is coming nor drops
      anything from it but what it inserts. */
  lemma ComingKept(steps: seq<Step>, s: Run, a: Action, k: nat)
    requires DistinctIds(steps) && KnownDeps(steps) && Own(s, a)
    requires a.Proceed? && s.status == RunRunning ==> s.threads[a.call] != Entered
    ensures var s' := Next(steps, s, a);
      Coming(steps, s, k) <==> Coming(steps, s', k) || (k in s'.jobs && k !in s.jobs)
  {
    var s' := Next(steps, s, a);
    OwnInserts(steps, s, a);
    if k < |steps| && k !in s.jobs && RetriesFit(steps[k].retries) {
      if a == TriggerNext { TriggerKeeps(steps, s, k); } else if s.threads[a.call] != Entered { CallKeeps(steps, s, a.call, k); }
      OwnPhases(steps, s, a, k);
      hide Next;
      hide Inserts;
    }
  }

  /** The phases of all calls but the moving one mean the same after an own statement. */
  lemma OwnPhases(steps: seq<Step>, s: Run, a: Action, k: nat)
    requires Own(s, a)
    requires a.Proceed? && s.status == RunRunning ==> s.threads[a.call] != Entered
    ensures var s' := Next(steps, s, a);
      && (forall t :: t in s.threads && a != Proceed(t) ==>
            t in s'.threads && (Inserts(steps, s', s'.threads[t], k) <==> Inserts(steps, s, s.threads[t], k)))
      && (forall t :: t in s'.threads ==> t in s.threads)
      && (a.Proceed? && s.threads[a.call] == Entered ==> a.call !in s'.threads && s'.trigger == s.trigger && s'.jobs == s.jobs)
  {
    OwnInserts(steps, s, a);
    var s' := Next(steps, s, a);
    forall t | t in s.threads && a != Proceed(t)
      ensures t in s'.threads && (Inserts(steps, s', s'.threads[t], k) <==> Inserts(steps, s, s.threads[t], k))
    {
      OwnOthers(steps, s, a, t);
    }
  }

  lemma NoneWaits(s: Run)
    requires Waiting(s) == {}
    ensures forall t :: t in s.threads ==> s.threads[t] != Entered
  {
    forall t | t in s.threads ensures s.threads[t] != Entered { assert t !in Waiting(s); }
  }

  /** Idle calls change nothing any more, and stay idle. */
  lemma IdleOwn(steps: seq<Step>, s: Run, a: Action)
    requires DistinctIds(steps) && KnownDeps(steps) && Idle(steps, s) && Own(s, a)
    ensures var s' := Next(steps, s, a);
      Idle(steps, s') && s'.jobs == s.jobs && s'.status == s.status && s'.current == s.current
  {
    var s' := Next(steps, s, a);
    if s.status == RunRunning { NoneWaits(s); }
    OwnInserts(steps, s, a);
    IdlePhases(steps, s, a);
    assert s'.jobs == s.jobs;
    forall k: nat ensures !Coming(steps, s', k) { ComingKept(steps, s, a, k); }
  }

  lemma IdlePhases(steps: seq<Step>, s: Run, a: Action)
    requires Own(s, a) && NoFinisher(s)
    requires a.Proceed? && s.status == RunRunning ==> s.threads[a.call] != Entered
    ensures var s' := Next(steps, s, a);
      s'.status == s.status && s'.current == s.current && NoFinisher(s') && (Waiting(s) == {} ==> Waiting(s') == {})
  {
  }

  // ----- what is coming does come -----

  function Left(steps: seq<Step>, ph: Phase): nat {
    match ph
    case Entered => 2 * |steps| + 4
    case Finishing => 1
    case Counted => 2 * |steps| + 3
    case Read(_) => 2 * |steps| + 2
    case Submitting(todo) => 2 * |todo| + 1
    case Fetched(_, rest, _) => 2 * |rest| + 2
  }

  lemma CallShrinks(steps: seq<Step>, s: Run, t: nat)
    requires t in s.threads && (s.threads[t].Fetched? ==> s.threads[t].step < |steps|)
    ensures var s' := Next(steps, s, Proceed(t)); t in s'.threads ==> Left(steps, s'.threads[t]) < Left(steps, s.threads[t])
    ensures var s' := Next(steps, s, Proceed(t)); t in s'.threads && s'.threads[t].Fetched? ==> s'.threads[t].step < |steps|
  {
    if s.threads[t].Read? { FrontierLength(steps, IdsOf(steps, s.threads[t].done), s.jobs.Keys, |steps|); }
  }

  /** Only statements of the run itself, made by whoever is in flight. */
  ghost predicate OwnRun(steps: seq<Step>, s: Run, acts: seq<Action>)
    decreases |acts|
  {
    acts == [] || (Own(s, acts[0]) && OwnRun(steps, Next(steps, s, acts[0]), acts[1..]))
  }

  lemma OwnFirst(steps: seq<Step>, s: Run, a: Action, rest: seq<Action>)
    requires Own(s, a) && OwnRun(steps, Next(steps, s, a), rest)
    ensures OwnRun(steps, s, [a] + rest) && Exec(steps, s, [a] + rest) == Exec(steps, Next(steps, s, a), rest)
  {
    assert ([a] + rest)[1..] == rest;
  }

  lemma {:induction false} CallInserts(steps: seq<Step>, s: Run, t: nat, k: nat) returns (acts: seq<Action>)
    requires DistinctIds(steps) && KnownDeps(steps)
    requires k < |steps| && RetriesFit(steps[k].retries) && k !in s.jobs
    requires t in s.threads && Inserts(steps, s, s.threads[t], k)
    ensures OwnRun(steps, s, acts) && Exec(steps, s, acts).status == s.status
    ensures k in Exec(steps, s, acts).jobs && Exec(steps, s, acts).jobs[k].status == Pending
    decreases Left(steps, s.threads[t])
  {
    var a := Proceed(t);
    var s' := Next(steps, s, a);
    CallKeeps(steps, s, t, k);
    CallShrinks(steps, s, t);
    OwnInserts(steps, s, a);
    assert s'.status == s.status;
    hide Next;
    hide Inserts;
    var rest := [];
    if k !in s'.jobs { rest := CallInserts(steps, s', t, k); }
    OwnFirst(steps, s, a, rest);
    acts := [a] + rest;
  }

  lemma {:induction false} TriggerInserts(steps: seq<Step>, s: Run, k: nat) returns (acts: seq<Action>)
    requires k < |steps| && RetriesFit(steps[k].retries) && k !in s.jobs && Reaches(steps, s.trigger, k)
    ensures OwnRun(steps, s, acts) && Exec(steps, s, acts).status == s.status
    ensures k in Exec(steps, s, acts).jobs && Exec(steps, s, acts).jobs[k].status == Pending
    decreases |s.trigger|
  {
    var s' := Next(steps, s, TriggerNext);
    TriggerKeeps(steps, s, k);
    OwnInserts(steps, s, TriggerNext);
    assert |s'.trigger| < |s.trigger| && s'.status == s.status;
    hide Next;
    var rest := [];
    if k !in s'.jobs { rest := TriggerInserts(steps, s', k); }
    OwnFirst(steps, s, TriggerNext, rest);
    acts := [TriggerNext] + rest;
  }

  lemma ComingComes(steps: seq<Step>, s: Run, k: nat) returns (acts: seq<Action>)
    requires DistinctIds(steps) && KnownDeps(steps) && Coming(steps, s, k)
    ensures OwnRun(steps, s, acts) && Exec(steps, s, acts).status == s.status
    ensures k in Exec(steps, s, acts).jobs && Exec(steps, s, acts).jobs[k].status == Pending
  {
    if Reaches(steps, s.trigger, k) {
      acts := TriggerInserts(steps, s, k);
    } else {
      var t :| t in s.threads && Inserts(steps, s, s.threads[t], k);
      acts := CallInserts(steps, s, t, k);
    }
  }
}
