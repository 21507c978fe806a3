/**
  What a run guarantees as long as the server does not crash: the completion counter is exact,
  one Advance call finishes the run, and no enabled step is ever forgotten.
*/
module RunProgress {
  import opened Prelude
  import opened Types
  import opened Steps
  import opened RunMachine

  ghost predicate NoCrash(acts: seq<Action>) {
    forall i :: 0 <= i < |acts| ==> acts[i] != Crash
  }

  /** Every step's retry limit is one the jobs table accepts; Validate does not check this. */
  ghost predicate RetriesOk(steps: seq<Step>) {
    forall i :: 0 <= i < |steps| ==> RetriesFit(steps[i].retries)
  }

  /** Calls of Advance whose increment is still outstanding. */
  function Waiting(s: Run): set<nat> {
    set t | t in s.threads && s.threads[t] == Entered
  }

  /** No call has seen the total and is about to complete the run. */
  ghost predicate NoFinisher(s: Run) {
    forall t :: t in s.threads ==> s.threads[t] != Finishing
  }

  ghost predicate Counter(s: Run) {
    s.status == RunRunning ==> s.current + |Waiting(s)| == |Done(s)|
  }

  /** What is left of it when calls have died in a crash: no completion is counted twice. */
  ghost predicate AtMost(s: Run) {
    s.status == RunRunning ==> s.current + |Waiting(s)| <= |Done(s)|
  }

  /** The run is marked completed only when every step is, with or without crashes. */
  ghost predicate Honest(steps: seq<Step>, s: Run) {
    AtMost(s) && OneFinisher(steps, s) && (s.status == RunCompleted ==> Done(s) == Below(|steps|))
  }

  /** This Advance call will still submit step k, whatever else happens. */
  ghost predicate Covers(steps: seq<Step>, ph: Phase, k: nat) {
    match ph
    case Entered => true
    case Finishing => false
    case Counted => true
    case Read(done) => DepsDone(steps, done, k)
    case Submitting(todo) => k in todo
    case Fetched(step, rest, prev) => k == step || k in rest
  }

  ghost predicate Covered(steps: seq<Step>, s: Run, k: nat) {
    || k in s.jobs
    || k in s.trigger
    || exists t :: t in s.threads && Covers(steps, s.threads[t], k)
  }

  ghost predicate NoStall(steps: seq<Step>, s: Run) {
    s.status == RunRunning ==>
      forall k: nat :: k < |steps| && DepsDone(steps, Done(s), k) ==> Covered(steps, s, k)
  }

  ghost predicate Live(steps: seq<Step>, s: Run) {
    Counter(s) && Honest(steps, s) && Outcome(steps, s) && NoStall(steps, s)
  }

  lemma InitLive(steps: seq<Step>)
    requires DistinctIds(steps) && KnownDeps(steps)
    ensures Live(steps, Init(steps))
  {
    var s := Init(steps);
    assert Waiting(s) == {} && Done(s) == {};
    forall k: nat | k < |steps| && DepsDone(steps, Done(s), k) ensures k in s.trigger {
      EnabledByIndex(steps, {}, k);
      assert IdsOf(steps, {}) == {} by {
        forall d ensures d !in IdsOf(steps, {}) { IdsMember(steps, {}, |steps|, d); }
      }
    }
  }

  lemma DoneBound(steps: seq<Step>, s: Run)
    requires Safe(steps, s)
    ensures Done(s) <= Below(|steps|) && |Done(s)| <= |steps|
    ensures |Done(s)| == |steps| ==> Done(s) == Below(|steps|)
  {
    forall k | k in Done(s) ensures k < |steps| { assert JobSafe(steps, s, k); }
    SubsetSize(Done(s), Below(|steps|));
  }

  // ----- the counter -----

  lemma WaitingChange(steps: seq<Step>, s: Run, a: Action)
    requires !Uncompletes(s, a)
    requires a != Crash
    ensures var s' := Next(steps, s, a);
      if s'.order != s.order then a.CompleteStep? && a.call !in s.threads && Waiting(s') == Waiting(s) + {a.call}
      else if a.Proceed? && a.call in Waiting(s) then Waiting(s') == Waiting(s) - {a.call}
      else Waiting(s') == Waiting(s)
  {
    var s' := Next(steps, s, a);
    match a {
      case CompleteStep(k, output, t) =>
        if s'.order != s.order {
          forall u ensures u in Waiting(s') <==> u in Waiting(s) + {t} {}
        }
      case Proceed(t) =>
        if t in s.threads {
          assert t !in Waiting(s');
          forall u | u != t ensures u in Waiting(s') <==> u in Waiting(s) {}
        }
      case _ =>
    }
  }

  lemma CurrentChange(steps: seq<Step>, s: Run, a: Action)
    requires !Uncompletes(s, a)
    ensures var s' := Next(steps, s, a);
      s'.current == s.current + if a.Proceed? && a.call in Waiting(s) && s.status == RunRunning then 1 else 0
    ensures Next(steps, s, a).status == RunRunning ==> s.status == RunRunning
  {
  }

  lemma CounterKept(steps: seq<Step>, s: Run, a: Action)
    requires !Uncompletes(s, a)
    requires Counter(s) && a != Crash
    ensures Counter(Next(steps, s, a))
  {
    OrderChange(steps, s, a);
    WaitingChange(steps, s, a);
    CurrentChange(steps, s, a);
    hide Next;
    hide Done;
    hide Waiting;
    if Next(steps, s, a).order != s.order { WaitingIsCalls(s); }
  }

  lemma AtMostKept(steps: seq<Step>, s: Run, a: Action)
    requires !Uncompletes(s, a)
    requires AtMost(s)
    ensures AtMost(Next(steps, s, a))
  {
    OrderChange(steps, s, a);
    CurrentChange(steps, s, a);
    if a == Crash {
      assert Waiting(Next(steps, s, a)) == {};
    } else {
      WaitingChange(steps, s, a);
      hide Next;
      hide Done;
      hide Waiting;
      if Next(steps, s, a).order != s.order { WaitingIsCalls(s); }
    }
  }

  lemma {:induction false} ExecCounter(steps: seq<Step>, s: Run, acts: seq<Action>)
    requires Counter(s) && NoCrash(acts) && CompleteOnce(steps, s, acts)
    ensures Counter(Exec(steps, s, acts))
    decreases |acts|
  {
    hide Next;
    hide Counter;
    hide Uncompletes;
    if acts != [] {
      CounterKept(steps, s, acts[0]);
      ExecCounter(steps, Next(steps, s, acts[0]), acts[1..]);
    }
  }

  lemma WaitingIsCalls(s: Run)
    ensures forall t :: t in Waiting(s) ==> t in s.threads
  {
  }

  /** The increment that reaches the total comes last: every step is completed by then. */
  lemma LastIncrement(steps: seq<Step>, s: Run, t: nat)
    requires Safe(steps, s) && AtMost(s) && s.status == RunRunning
    requires t in s.threads && s.threads[t] == Entered
    ensures s.current < |steps|
    ensures s.current + 1 == |steps| ==> Done(s) == Below(|steps|)
  {
    DoneBound(steps, s);
    assert t in Waiting(s);
    SubsetSize({t}, Waiting(s));
  }

  ghost predicate OneFinisher(steps: seq<Step>, s: Run) {
    && (forall t :: t in s.threads && s.threads[t] == Finishing ==> s.current >= |steps| && Done(s) == Below(|steps|))
    && (forall t, u :: t in s.threads && u in s.threads && s.threads[t] == Finishing == s.threads[u] ==> t == u)
  }

  /** A call becomes Finishing only by the increment that reaches the total. */
  lemma FinisherChange(steps: seq<Step>, s: Run, a: Action, t: nat)
    requires !Uncompletes(s, a)
    requires t in Next(steps, s, a).threads && Next(steps, s, a).threads[t] == Finishing
    ensures t in s.threads
    ensures s.threads[t] == Finishing
      || (a == Proceed(t) && s.threads[t] == Entered && s.status == RunRunning && s.current + 1 >= |steps|)
  {
  }

  lemma OneFinisherKept(steps: seq<Step>, s: Run, a: Action)
    requires !Uncompletes(s, a)
    requires DistinctIds(steps) && KnownDeps(steps)
    requires Safe(steps, s) && AtMost(s) && OneFinisher(steps, s)
    ensures OneFinisher(steps, Next(steps, s, a))
  {
    var s' := Next(steps, s, a);
    OrderChange(steps, s, a);
    CurrentChange(steps, s, a);
    forall t | t in s'.threads && s'.threads[t] == Finishing
      ensures s'.current >= |steps| && Done(s') == Below(|steps|)
    {
      FinisherChange(steps, s, a, t);
      FinisherSeesAll(steps, s, a, t);
    }
    forall t, u | t in s'.threads && u in s'.threads && s'.threads[t] == Finishing == s'.threads[u] ensures t == u {
      FinisherChange(steps, s, a, t);
      FinisherChange(steps, s, a, u);
      if s.threads[t] == Entered { LastIncrement(steps, s, t); }
      if s.threads[u] == Entered { LastIncrement(steps, s, u); }
    }
  }

  lemma FinisherSeesAll(steps: seq<Step>, s: Run, a: Action, t: nat)
    requires !Uncompletes(s, a)
    requires DistinctIds(steps) && KnownDeps(steps)
    requires Safe(steps, s) && AtMost(s) && OneFinisher(steps, s)
    requires t in s.threads
    requires s.threads[t] == Finishing
      || (a == Proceed(t) && s.threads[t] == Entered && s.status == RunRunning && s.current + 1 >= |steps|)
    ensures Next(steps, s, a).current >= |steps| && Done(Next(steps, s, a)) == Below(|steps|)
  {
    OrderChange(steps, s, a);
    CurrentChange(steps, s, a);
    DoneBound(steps, s);
    if s.threads[t] == Entered {
      assert t in Waiting(s);
      LastIncrement(steps, s, t);
      assert Next(steps, s, a).order == s.order;
    } else {
      AllDoneStays(steps, s, a);
    }
  }

  ghost predicate Outcome(steps: seq<Step>, s: Run) {
    s.status == RunRunning && 0 < |steps| <= s.current ==> exists t :: t in s.threads && s.threads[t] == Finishing
  }

  lemma StatusChange(steps: seq<Step>, s: Run, a: Action)
    ensures var s' := Next(steps, s, a);
      || s'.status == s.status
      || (s'.status == RunCompleted && a.Proceed? && a.call in s.threads && s.threads[a.call] == Finishing)
      || (s'.status == RunFailed && a == FailRun && s'.jobs == s.jobs && exists k :: k in s.jobs && s.jobs[k].status == Failed)
      || (s'.status == RunCancelled && a == CancelRun)
  {
  }

  lemma FinisherStays(steps: seq<Step>, s: Run, a: Action, t: nat)
    requires !Uncompletes(s, a)
    requires t in s.threads && s.threads[t] == Finishing && a != Crash
    requires Next(steps, s, a).status == RunRunning
    ensures t in Next(steps, s, a).threads && Next(steps, s, a).threads[t] == Finishing
  {
  }

  lemma OutcomeKept(steps: seq<Step>, s: Run, a: Action)
    requires !Uncompletes(s, a)
    requires Outcome(steps, s) && a != Crash
    ensures Outcome(steps, Next(steps, s, a))
  {
    var s' := Next(steps, s, a);
    StatusChange(steps, s, a);
    CurrentChange(steps, s, a);
    if s'.status == RunRunning && 0 < |steps| <= s'.current {
      if s.current == s'.current {
        var t :| t in s.threads && s.threads[t] == Finishing;
        FinisherStays(steps, s, a, t);
      } else {
        assert s'.threads[a.call] == Finishing;
      }
    }
  }

  /** Every action that undoes no completion, a crash included, keeps the run honest. */
  lemma HonestKept(steps: seq<Step>, s: Run, a: Action)
    requires !Uncompletes(s, a)
    requires DistinctIds(steps) && KnownDeps(steps)
    requires Safe(steps, s) && Honest(steps, s)
    ensures Honest(steps, Next(steps, s, a))
  {
    AtMostKept(steps, s, a);
    OneFinisherKept(steps, s, a);
    StatusChange(steps, s, a);
    if Next(steps, s, a).status == RunCompleted { AllDoneStays(steps, s, a); }
  }

  lemma {:induction false} ExecHonest(steps: seq<Step>, s: Run, acts: seq<Action>)
    requires DistinctIds(steps) && KnownDeps(steps)
    requires Safe(steps, s) && Honest(steps, s) && CompleteOnce(steps, s, acts)
    ensures Safe(steps, Exec(steps, s, acts)) && Honest(steps, Exec(steps, s, acts))
    decreases |acts|
  {
    hide Safe;
    hide Honest;
    hide Next;
    hide Uncompletes;
    if acts != [] {
      NextSafe(steps, s, acts[0]);
      HonestKept(steps, s, acts[0]);
      ExecHonest(steps, Next(steps, s, acts[0]), acts[1..]);
    }
  }

  lemma AllDoneStays(steps: seq<Step>, s: Run, a: Action)
    requires !Uncompletes(s, a)
    requires DistinctIds(steps) && KnownDeps(steps) && Safe(steps, s) && Done(s) == Below(|steps|)
    ensures Done(Next(steps, s, a)) == Below(|steps|)
  {
    NextExtends(steps, s, a);
    NextSafe(steps, s, a);
    DoneBound(steps, Next(steps, s, a));
  }

  // ----- a failed run has a failed step -----

  /** The run's failure has a failed step behind it. */
  ghost predicate Blamed(s: Run) {
    s.status == RunFailed ==> exists k :: k in s.jobs && s.jobs[k].status == Failed
  }

  /** The action overwrites the only failed step of a failed run. */
  ghost predicate Unfails(s: Run, a: Action) {
    && s.status == RunFailed && (a.Dispatch? || a.PutBack?)
    && a.step in s.jobs && s.jobs[a.step].status == Failed
    && forall k :: k in s.jobs && s.jobs[k].status == Failed ==> k == a.step
  }

  ghost predicate FailuresKept(steps: seq<Step>, s: Run, acts: seq<Action>)
    decreases |acts|
  {
    acts == [] || (!Unfails(s, acts[0]) && FailuresKept(steps, Next(steps, s, acts[0]), acts[1..]))
  }

  lemma BlamedKept(steps: seq<Step>, s: Run, a: Action)
    requires Blamed(s)
    ensures Blamed(Next(steps, s, a)) <==> !Unfails(s, a)
  {
    var s' := Next(steps, s, a);
    StatusChange(steps, s, a);
    if s.status == RunFailed && !Unfails(s, a) {
      var k :| k in s.jobs && s.jobs[k].status == Failed && ((a.Dispatch? || a.PutBack?) ==> k != a.step);
      assert s'.status == RunFailed ==> k in s'.jobs && s'.jobs[k].status == Failed;
    }
  }

  lemma {:induction false} ExecBlamed(steps: seq<Step>, s: Run, acts: seq<Action>)
    requires Blamed(s) && FailuresKept(steps, s, acts)
    ensures Blamed(Exec(steps, s, acts))
    decreases |acts|
  {
    hide Next;
    hide Blamed;
    hide Unfails;
    if acts != [] {
      BlamedKept(steps, s, acts[0]);
      ExecBlamed(steps, Next(steps, s, acts[0]), acts[1..]);
    }
  }

  // ----- no stalled step -----

  /** A call that covers a step still covers it after any action, unless the step got its row. */
  lemma CoverKept(steps: seq<Step>, s: Run, a: Action, k: nat)
    requires !Uncompletes(s, a)
    requires DistinctIds(steps) && KnownDeps(steps) && RetriesOk(steps)
    requires Safe(steps, s) && AtMost(s) && a != Crash
    requires s.status == RunRunning && k < |steps| && DepsDone(steps, Done(s), k) && Covered(steps, s, k)
    ensures Covered(steps, Next(steps, s, a), k)
  {
    var s' := Next(steps, s, a);
    NextExtends(steps, s, a);
    if k in s.jobs {
      assert k in s'.jobs;
    } else if k in s.trigger {
      TriggerCovers(steps, s, a, k);
    } else {
      var t :| t in s.threads && Covers(steps, s.threads[t], k);
      if a == Proceed(t) {
        CallCovers(steps, s, t, k);
      } else {
        OtherCall(steps, s, a, t);
      }
    }
  }

  lemma TriggerCovers(steps: seq<Step>, s: Run, a: Action, k: nat)
    requires !Uncompletes(s, a)
    requires RetriesOk(steps) && Safe(steps, s) && a != Crash && k in s.trigger
    ensures k in Next(steps, s, a).trigger || k in Next(steps, s, a).jobs
  {
    if a == TriggerNext {
      assert s.trigger[0] in s.trigger;
      assert s.trigger == [s.trigger[0]] + s.trigger[1..];
    }
  }

  lemma OtherCall(steps: seq<Step>, s: Run, a: Action, t: nat)
    requires !Uncompletes(s, a)
    requires t in s.threads && a != Proceed(t) && a != Crash
    ensures t in Next(steps, s, a).threads && Next(steps, s, a).threads[t] == s.threads[t]
  {
  }

  lemma CallCovers(steps: seq<Step>, s: Run, t: nat, k: nat)
    requires DistinctIds(steps) && KnownDeps(steps) && RetriesOk(steps)
    requires Safe(steps, s) && AtMost(s)
    requires s.status == RunRunning && k < |steps| && DepsDone(steps, Done(s), k) && k !in s.jobs
    requires t in s.threads && Covers(steps, s.threads[t], k)
    ensures Covered(steps, Next(steps, s, Proceed(t)), k)
  {
    var s' := Next(steps, s, Proceed(t));
    assert PhaseSafe(steps, s, s.threads[t]);
    match s.threads[t] {
      case Entered =>
        LastIncrement(steps, s, t);
        assert k !in Done(s);
        assert s'.threads[t] == Counted;
      case Counted =>
        assert s'.threads[t] == Read(Done(s));
      case Read(done) =>
        ReadCovers(steps, done, s.jobs.Keys, k);
        assert Covers(steps, s'.threads[t], k);
      case Submitting(todo) =>
        assert todo[0] in todo;
        assert todo == [todo[0]] + todo[1..];
        assert Covers(steps, s'.threads[t], k);
      case Fetched(step, rest, prev) =>
        if k != step { assert Covers(steps, s'.threads[t], k); }
    }
  }

  lemma ReadCovers(steps: seq<Step>, done: set<nat>, submitted: set<nat>, k: nat)
    requires DistinctIds(steps) && KnownDeps(steps)
    requires k < |steps| && DepsDone(steps, done, k) && k !in submitted
    ensures k in Unblocked(steps, IdsOf(steps, done), submitted, |steps|)
  {
    EnabledByIndex(steps, done, k);
  }

  lemma NoStallKept(steps: seq<Step>, s: Run, a: Action)
    requires !Uncompletes(s, a)
    requires DistinctIds(steps) && KnownDeps(steps) && RetriesOk(steps)
    requires Safe(steps, s) && AtMost(s) && NoStall(steps, s) && a != Crash
    ensures NoStall(steps, Next(steps, s, a))
  {
    var s' := Next(steps, s, a);
    OrderChange(steps, s, a);
    StatusKept(steps, s, a);
    if s'.status == RunRunning {
      forall k: nat | k < |steps| && DepsDone(steps, Done(s'), k) ensures Covered(steps, s', k) {
        if s'.order != s.order {
          assert Covers(steps, s'.threads[a.call], k);
        } else {
          CoverKept(steps, s, a, k);
        }
      }
    }
  }

  lemma StatusKept(steps: seq<Step>, s: Run, a: Action)
    requires !Uncompletes(s, a)
    ensures Next(steps, s, a).status == RunRunning ==> s.status == RunRunning
  {
  }

  lemma NextLive(steps: seq<Step>, s: Run, a: Action)
    requires !Uncompletes(s, a)
    requires DistinctIds(steps) && KnownDeps(steps) && RetriesOk(steps)
    requires Safe(steps, s) && Live(steps, s) && a != Crash
    ensures Live(steps, Next(steps, s, a))
  {
    CounterKept(steps, s, a);
    HonestKept(steps, s, a);
    OutcomeKept(steps, s, a);
    NoStallKept(steps, s, a);
  }

  lemma {:induction false} ExecLive(steps: seq<Step>, s: Run, acts: seq<Action>)
    requires DistinctIds(steps) && KnownDeps(steps) && RetriesOk(steps)
    requires Safe(steps, s) && Live(steps, s) && NoCrash(acts) && CompleteOnce(steps, s, acts)
    ensures Safe(steps, Exec(steps, s, acts)) && Live(steps, Exec(steps, s, acts))
    decreases |acts|
  {
    hide Safe;
    hide Live;
    hide Next;
    if acts != [] {
      NextSafe(steps, s, acts[0]);
      NextLive(steps, s, acts[0]);
      ExecLive(steps, Next(steps, s, acts[0]), acts[1..]);
    }
  }
}
