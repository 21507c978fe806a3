/**
  The two layers together: one workflow run whose Trigger and Advance statements are interleaved
  with every event of the delivery protocol, crashes included, over the same tables.
*/
module Orchestration {
  import opened Prelude
  import opened Types
  import opened Steps
  import opened Tables
  import opened Delivery
  import opened DeliveryRuns
  import opened RunRefinement
  import opened RunProgress
  import M = RunMachine
  import R = RunTables
  import Q = QueueState

  /** trigger and calls are the local state of TriggerWorkflow and of the Advance calls of the run. */
  datatype Orch = Orch(sys: Sys, trigger: seq<nat>, calls: map<nat, M.Phase>, next: nat)

  datatype Move = Deliver(e: Event) | TriggerNext | Proceed(call: nat)

  /** The delivery event brings an accepted success of one of the run's jobs, so Advance is called. */
  ghost predicate CallsAdvance(s: Sys, e: Event, run: nat) {
    e.Result? && e.success && Accepts(s, e.w) && AtRun(s.disk.db, s.inFlight[e.w].id, run)
  }

  ghost function Take(run: nat, steps: seq<Step>, o: Orch, m: Move): Orch {
    match m
    case Deliver(e) =>
      var sys' := Next(o.sys, e);
      if e.Crash? then Orch(sys', [], map[], o.next)
      else if CallsAdvance(o.sys, e, run) then Orch(sys', o.trigger, o.calls[o.next := M.Entered], o.next + 1)
      else o.(sys := sys')
    case TriggerNext =>
      if o.trigger == [] || o.trigger[0] >= |steps| then o
      else
        var (db', r) := R.Submitted(o.sys.disk.db, run, steps, o.trigger[0], "");
        o.(sys := R.WithDb(o.sys, db'), trigger := if r.Rejected? then [] else o.trigger[1..])
    case Proceed(t) =>
      if t !in o.calls then o
      else
        var (db', ph) := Statement(o.sys.disk.db, run, steps, o.calls[t]);
        o.(sys := R.WithDb(o.sys, db'), calls := Moved(o.calls, t, ph))
  }

  ghost function Play(run: nat, steps: seq<Step>, o: Orch, moves: seq<Move>): Orch
    decreases |moves|
  {
    if moves == [] then o else Play(run, steps, Take(run, steps, o, moves[0]), moves[1..])
  }

  /** The event is not a statement on this run: those come from its own Trigger and Advance calls. */
  predicate Foreign(e: Event, run: nat) {
    var h := Handler(e);
    && (h.SubmitStep? ==> h.key.run != run)
    && (h.CountStep? ==> h.run != run)
    && (h.CloseRun? ==> h.run != run)
  }

  ghost predicate AllForeign(run: nat, moves: seq<Move>) {
    forall i :: 0 <= i < |moves| && moves[i].Deliver? ==> Foreign(moves[i].e, run)
  }

  predicate NoCrashes(moves: seq<Move>) {
    forall i :: 0 <= i < |moves| && moves[i].Deliver? ==> !moves[i].e.Crash?
  }

  /** The move writes over a step of the run that has this status: the step's job is dispatched again,
      or a stream that still holds it breaks. */
  ghost predicate WritesOver(run: nat, o: Orch, m: Move, status: Status) {
    m.Deliver? && exists j :: AtRun(o.sys.disk.db, j, run) && o.sys.disk.db.jobs[j].status == status && Rewrites(o.sys, m.e, j)
  }

  /** The run has submitted step d, or a call in flight is bound to. */
  ghost predicate PromisedIn(run: nat, steps: seq<Step>, o: Orch, d: nat) {
    var submitted := SubmittedSteps(o.sys.disk.db, run);
    d in submitted || exists t :: t in o.calls && M.Bound(steps, submitted, o.calls[t], d)
  }

  /** The move writes over a completed step that a submitted or promised step depends on. */
  ghost predicate SpoilsAt(run: nat, steps: seq<Step>, o: Orch, e: Event, j: nat, k: nat) {
    && AtStep(o.sys.disk.db, j, run, k) && o.sys.disk.db.jobs[j].status == Completed && Rewrites(o.sys, e, j)
    && exists d: nat :: PromisedIn(run, steps, o, d) && Edge(steps, d, k)
  }

  ghost predicate SpoilsRun(run: nat, steps: seq<Step>, o: Orch, m: Move) {
    m.Deliver? && exists j, k :: SpoilsAt(run, steps, o, m.e, j, k)
  }

  ghost predicate NeverSpoiled(run: nat, steps: seq<Step>, o: Orch, moves: seq<Move>)
    decreases |moves|
  {
    moves == [] || (!SpoilsRun(run, steps, o, moves[0]) && NeverSpoiled(run, steps, Take(run, steps, o, moves[0]), moves[1..]))
  }

  /** No move of the schedule writes over a step that has this status. */
  ghost predicate NeverOver(run: nat, steps: seq<Step>, o: Orch, moves: seq<Move>, status: Status)
    decreases |moves|
  {
    moves == [] || (!WritesOver(run, o, moves[0], status) && NeverOver(run, steps, Take(run, steps, o, moves[0]), moves[1..], status))
  }

  ghost predicate Mirrors(o: Orch, run: nat, steps: seq<Step>, r: M.Run) {
    && Shows(o.sys.disk.db, run, steps, r)
    && r.trigger == o.trigger && r.threads == o.calls && forall t :: t in o.calls ==> t < o.next
  }

  // ----- the writes of a delivery event, as actions of the run -----

  /** What the first `cut` writes of a handler about step k of the run are to that run. */
  ghost function HandlerActs(s: Sys, e: Event, cut: nat, j: nat, k: nat, call: nat): seq<M.Action>
    requires IsHandler(e) && j in s.disk.db.jobs
  {
    match e
    case Ready(_, sent) => if cut < 2 then [] else if sent || cut == 2 then [M.Dispatch(k)] else [M.Dispatch(k), M.PutBack(k)]
    case Result(w, success, output) =>
      if !Accepts(s, w) || cut == 0 then []
      else if success then if cut > 1 then [M.CompleteStep(k, output, call)] else []
      else if s.disk.db.jobs[j].retryCount < s.disk.db.jobs[j].maxRetries then [M.Delay(k)]
      else if cut > 2 then [M.FailStep(k), M.FailRun] else [M.FailStep(k)]
    case CancelJob(_) => if cut > 0 then [M.CancelStep(k)] else []
    case _ => if cut > 0 then [M.PutBack(k)] else []
  }

  lemma TwoActs(steps: seq<Step>, r: M.Run, a: M.Action, b: M.Action)
    ensures M.Exec(steps, r, [a, b]) == M.Next(steps, M.Next(steps, r, a), b)
    ensures M.CompleteOnce(steps, r, [a, b]) <==> !M.Uncompletes(r, a) && !M.Uncompletes(M.Next(steps, r, a), b)
    ensures M.NeverSpoils(steps, r, [a, b]) <==> !M.Spoils(steps, r, a) && !M.Spoils(steps, M.Next(steps, r, a), b)
    ensures FailuresKept(steps, r, [a, b]) <==> !Unfails(r, a) && !Unfails(M.Next(steps, r, a), b)
  {
    hide M.Next;
    hide M.Spoils;
    assert [a, b] == [a] + [b];
    M.ExecOne(steps, r, a);
    M.ExecOne(steps, M.Next(steps, r, a), b);
    M.ExecJoin(steps, r, [a], [b]);
    JoinFailures(steps, r, [a], [b]);
    OneFailure(steps, r, a);
    OneFailure(steps, M.Next(steps, r, a), b);
  }

  lemma OneFailure(steps: seq<Step>, r: M.Run, a: M.Action)
    ensures FailuresKept(steps, r, [a]) <==> !Unfails(r, a)
  {
    hide M.Next;
    assert [a][1..] == [] && FailuresKept(steps, M.Next(steps, r, a), []);
  }

  lemma {:induction false} JoinFailures(steps: seq<Step>, r: M.Run, a: seq<M.Action>, b: seq<M.Action>)
    ensures FailuresKept(steps, r, a + b) <==> FailuresKept(steps, r, a) && FailuresKept(steps, M.Exec(steps, r, a), b)
    decreases |a|
  {
    hide M.Next;
    hide Unfails;
    if a == [] {
      assert a + b == b;
    } else {
      assert (a + b)[1..] == a[1..] + b && (a + b)[0] == a[0];
      JoinFailures(steps, M.Next(steps, r, a[0]), a[1..], b);
    }
  }

  /** The state writes of these acts are those the tables make. */
  lemma StatusAct(db: Db, run: nat, steps: seq<Step>, r: M.Run, j: nat, status: Status, retryCount: nat, a: M.Action)
    requires Shows(db, run, steps, r) && AtRun(db, j, run)
    requires var k := db.jobs[j].key.value.step;
      || (a == M.Dispatch(k) && status == Running) || (a == M.PutBack(k) && status == Pending)
      || (!Settled(db.jobs[j].status)
          && ((a == M.Delay(k) && status == Retrying) || (a == M.FailStep(k) && status == Failed) || (a == M.CancelStep(k) && status == Cancelled)))
    ensures Shows(UpdateJobState(db, j, status, retryCount), run, steps, M.Next(steps, r, a))
    ensures M.Next(steps, r, a) == Restated(db, run, r, j, status)
  {
    StateShown(db, run, steps, r, j, status, retryCount);
    hide Shows;
  }

  lemma ReadyShown(s: Sys, e: Event, cut: nat, run: nat, steps: seq<Step>, r: M.Run, j: nat, k: nat, call: nat)
    requires e.Ready? && Shows(s.disk.db, run, steps, r) && Subject(s, e) == Some(j) && AtStep(s.disk.db, j, run, k)
    ensures Shows(DiskAfter(s, e, cut).db, run, steps, M.Exec(steps, r, HandlerActs(s, e, cut, j, k, call)))
  {
    hide Shows;
    hide Q.Consume;
    hide Q.Retry;
    var db, rc := s.disk.db, Q.Consume(s.disk.q).1.value.retryCount;
    var db1 := UpdateJobState(db, j, Running, rc);
    var db2 := UpdateJobState(db1, j, Pending, rc);
    assert DiskAfter(s, e, cut).db == if cut < 2 then db else if e.sent || cut == 2 then db1 else db2;
    var r1 := M.Next(steps, r, M.Dispatch(k));
    StatusAct(db, run, steps, r, j, Running, rc, M.Dispatch(k));
    StatusAct(db1, run, steps, r1, j, Pending, rc, M.PutBack(k));
    hide DiskAfter;
    hide M.Next;
    M.ExecOne(steps, r, M.Dispatch(k));
    TwoActs(steps, r, M.Dispatch(k), M.PutBack(k));
    assert M.Exec(steps, r, []) == r;
  }

  /** Disconnect and reap: one write of 'pending'. */
  lemma PutBackShown(s: Sys, e: Event, cut: nat, run: nat, steps: seq<Step>, r: M.Run, j: nat, k: nat, call: nat)
    requires e.Disconnect? || e.Reap?
    requires Shows(s.disk.db, run, steps, r) && Subject(s, e) == Some(j) && AtStep(s.disk.db, j, run, k)
    ensures Shows(DiskAfter(s, e, cut).db, run, steps, M.Exec(steps, r, HandlerActs(s, e, cut, j, k, call)))
  {
    hide Shows;
    hide Q.Retry;
    var db, rc := s.disk.db, if e.Reap? then s.disk.db.jobs[j].retryCount else s.inFlight[e.w].retryCount;
    assert DiskAfter(s, e, cut).db == if cut == 0 then db else UpdateJobState(db, j, Pending, rc);
    StatusAct(db, run, steps, r, j, Pending, rc, M.PutBack(k));
    hide DiskAfter;
    hide M.Next;
    M.ExecOne(steps, r, M.PutBack(k));
    assert M.Exec(steps, r, []) == r;
  }

  lemma CancelJobShown(s: Sys, e: Event, cut: nat, run: nat, steps: seq<Step>, r: M.Run, j: nat, k: nat, call: nat)
    requires e.CancelJob? && Shows(s.disk.db, run, steps, r) && Subject(s, e) == Some(j) && AtStep(s.disk.db, j, run, k)
    ensures Shows(DiskAfter(s, e, cut).db, run, steps, M.Exec(steps, r, HandlerActs(s, e, cut, j, k, call)))
  {
    hide Shows;
    hide Q.Cancel;
    hide MarkJobs;
    var db := s.disk.db;
    var db1 := UpdateJobState(db, j, Cancelled, db.jobs[j].retryCount);
    var db' := DiskAfter(s, e, cut).db;
    assert db' == if cut == 0 then db else db1.(outbox := db'.outbox);
    StatusAct(db, run, steps, r, j, Cancelled, db.jobs[j].retryCount, M.CancelStep(k));
    hide DiskAfter;
    hide M.Next;
    M.ExecOne(steps, r, M.CancelStep(k));
    OutboxIsElsewhere(db1, db', run, steps, M.Next(steps, r, M.CancelStep(k)));
    assert M.Exec(steps, r, []) == r;
  }

  lemma OutboxIsElsewhere(db: Db, db': Db, run: nat, steps: seq<Step>, r: M.Run)
    requires Shows(db, run, steps, r)
    ensures db' == db.(outbox := db'.outbox) ==> Shows(db', run, steps, r)
  {
    if db' == db.(outbox := db'.outbox) { ElsewhereShown(db, db', run, steps, r); }
  }

  lemma SuccessShown(s: Sys, e: Event, cut: nat, run: nat, steps: seq<Step>, r: M.Run, j: nat, k: nat, call: nat)
    requires e.Result? && e.success && Accepts(s, e.w) && call !in r.threads
    requires Shows(s.disk.db, run, steps, r) && Subject(s, e) == Some(j) && AtStep(s.disk.db, j, run, k)
    ensures Shows(DiskAfter(s, e, cut).db, run, steps, M.Exec(steps, r, HandlerActs(s, e, cut, j, k, call)))
  {
    hide Shows;
    hide Q.Settle;
    var db := s.disk.db;
    assert DiskAfter(s, e, cut).db == if cut < 2 then db else CompleteJob(db, j, e.output);
    CompleteShown(db, run, steps, r, j, e.output, call);
    hide DiskAfter;
    M.ExecOne(steps, r, M.CompleteStep(k, e.output, call));
    assert M.Exec(steps, r, []) == r;
  }

  lemma RetryShown(s: Sys, e: Event, cut: nat, run: nat, steps: seq<Step>, r: M.Run, j: nat, k: nat, call: nat)
    requires e.Result? && !e.success && Accepts(s, e.w) && s.disk.db.jobs[s.inFlight[e.w].id].retryCount < s.disk.db.jobs[s.inFlight[e.w].id].maxRetries
    requires Shows(s.disk.db, run, steps, r) && Subject(s, e) == Some(j) && AtStep(s.disk.db, j, run, k)
    ensures Shows(DiskAfter(s, e, cut).db, run, steps, M.Exec(steps, r, HandlerActs(s, e, cut, j, k, call)))
  {
    hide Shows;
    hide Q.Retry;
    hide Backoff.RetryDelay;
    var db, rc := s.disk.db, s.disk.db.jobs[j].retryCount + 1;
    assert DiskAfter(s, e, cut).db == if cut == 0 then db else UpdateJobState(db, j, Retrying, rc);
    StatusAct(db, run, steps, r, j, Retrying, rc, M.Delay(k));
    hide DiskAfter;
    hide M.Next;
    M.ExecOne(steps, r, M.Delay(k));
    assert M.Exec(steps, r, []) == r;
  }

  lemma FailShown(db: Db, run: nat, steps: seq<Step>, r: M.Run)
    requires Shows(db, run, steps, r) && exists k :: k in r.jobs && r.jobs[k].status == Failed
    ensures Shows(SetRunStatus(db, run, RunFailed), run, steps, M.Next(steps, r, M.FailRun))
  {
    RunsOnly(db, SetRunStatus(db, run, RunFailed), run, r.jobs);
    RowsFitKept(db, SetRunStatus(db, run, RunFailed), run, steps);
  }

  lemma FailureShown(s: Sys, e: Event, cut: nat, run: nat, steps: seq<Step>, r: M.Run, j: nat, k: nat, call: nat)
    requires e.Result? && !e.success && Accepts(s, e.w) && s.disk.db.jobs[s.inFlight[e.w].id].retryCount >= s.disk.db.jobs[s.inFlight[e.w].id].maxRetries
    requires Shows(s.disk.db, run, steps, r) && Subject(s, e) == Some(j) && AtStep(s.disk.db, j, run, k)
    ensures Shows(DiskAfter(s, e, cut).db, run, steps, M.Exec(steps, r, HandlerActs(s, e, cut, j, k, call)))
  {
    hide Shows;
    hide Q.Settle;
    var db, rc := s.disk.db, s.disk.db.jobs[j].retryCount;
    var db1 := UpdateJobState(db, j, Failed, rc);
    assert DiskAfter(s, e, cut).db == if cut == 0 then db else if cut < 3 then db1 else SetRunStatus(db1, run, RunFailed);
    StatusAct(db, run, steps, r, j, Failed, rc, M.FailStep(k));
    StateShown(db, run, steps, r, j, Failed, rc);
    var r1 := M.Next(steps, r, M.FailStep(k));
    assert k in r1.jobs && r1.jobs[k].status == Failed;
    FailShown(db1, run, steps, r1);
    hide DiskAfter;
    hide M.Next;
    M.ExecOne(steps, r, M.FailStep(k));
    TwoActs(steps, r, M.FailStep(k), M.FailRun);
    assert M.Exec(steps, r, []) == r;
  }

  /** Each handler's writes about a step of the run, cut anywhere, are these actions of the run. */
  lemma HandlerShown(s: Sys, e: Event, cut: nat, run: nat, steps: seq<Step>, r: M.Run, j: nat, k: nat, call: nat)
    requires IsHandler(e) && Shows(s.disk.db, run, steps, r) && call !in r.threads
    requires Subject(s, e) == Some(j) && AtStep(s.disk.db, j, run, k)
    ensures Shows(DiskAfter(s, e, cut).db, run, steps, M.Exec(steps, r, HandlerActs(s, e, cut, j, k, call)))
  {
    match e {
      case Ready(_, _) => ReadyShown(s, e, cut, run, steps, r, j, k, call);
      case Result(w, success, output) =>
        if !Accepts(s, w) {
          assert M.Exec(steps, r, []) == r;
        } else if success {
          SuccessShown(s, e, cut, run, steps, r, j, k, call);
        } else if s.disk.db.jobs[j].retryCount < s.disk.db.jobs[j].maxRetries {
          RetryShown(s, e, cut, run, steps, r, j, k, call);
        } else {
          FailureShown(s, e, cut, run, steps, r, j, k, call);
        }
      case CancelJob(_) => CancelJobShown(s, e, cut, run, steps, r, j, k, call);
      case _ => PutBackShown(s, e, cut, run, steps, r, j, k, call);
    }
    hide Shows;
    hide DiskAfter;
    hide M.Exec;
  }

  // ----- events that are not about a job of the run -----

  /** No statement of a handler creates a job or a run. */
  lemma HandlerFrame(s: Sys, e: Event, cut: nat)
    requires IsHandler(e)
    ensures var db, db' := s.disk.db, DiskAfter(s, e, cut).db;
      db'.jobs.Keys == db.jobs.Keys && db'.nextJob == db.nextJob && db'.nextRun == db.nextRun && db'.runs.Keys == db.runs.Keys
  {
    hide Q.Retry;
    hide Q.Settle;
    hide Q.Cancel;
    hide MarkJobs;
    hide RemoveFirst;
    hide Q.Consume;
    hide Backoff.RetryDelay;
  }

  /** Only a job's own result changes a run's row. */
  lemma HandlerRuns(s: Sys, e: Event, cut: nat, run: nat)
    requires IsHandler(e) && run in s.disk.db.runs
    requires forall j :: Subject(s, e) == Some(j) ==> !AtRun(s.disk.db, j, run)
    ensures run in DiskAfter(s, e, cut).db.runs && DiskAfter(s, e, cut).db.runs[run] == s.disk.db.runs[run]
  {
    hide MarkJobs;
    hide RemoveFirst;
    hide Q.Consume;
    hide Backoff.RetryDelay;
    if e.Result? && Accepts(s, e.w) { assert Subject(s, e) == Some(s.inFlight[e.w].id); }
  }

  lemma OtherHandler(s: Sys, e: Event, cut: nat, run: nat, steps: seq<Step>, r: M.Run)
    requires IsHandler(e) && Shows(s.disk.db, run, steps, r)
    requires forall j :: Subject(s, e) == Some(j) ==> !AtRun(s.disk.db, j, run)
    ensures Shows(DiskAfter(s, e, cut).db, run, steps, r)
  {
    var db, db' := s.disk.db, DiskAfter(s, e, cut).db;
    HandlerFrame(s, e, cut);
    HandlerRuns(s, e, cut, run);
    forall j | j in db.jobs ensures db'.jobs[j].key == db.jobs[j].key && (AtRun(db, j, run) ==> db'.jobs[j] == db.jobs[j]) {
      HandlerKeepsRow(s, e, cut, j);
      if AtRun(db, j, run) { HandlerTouches(s, e, cut, j); }
    }
    hide DiskAfter;
    hide Subject;
    ElsewhereShown(db, db', run, steps, r);
  }

  lemma BackgroundRows(s: Sys, e: Event, cut: nat, run: nat)
    requires !IsHandler(e) && !e.Crash? && Foreign(e, run) && run in s.disk.db.runs && run < s.disk.db.nextRun && e != CancelRun(run)
    requires forall j :: j in s.disk.db.jobs ==> j < s.disk.db.nextJob
    ensures var db, db' := s.disk.db, DiskAfter(s, e, cut).db;
      && run in db'.runs && db'.runs[run] == db.runs[run] && db'.nextRun >= db.nextRun
      && (forall j :: j in db'.jobs ==> j < db'.nextJob)
      && (forall j :: AtRun(db, j, run) ==> AtRun(db', j, run) && db'.jobs[j] == db.jobs[j])
      && (forall j :: AtRun(db', j, run) ==> AtRun(db, j, run))
  {
    hide MarkJobs;
    hide MarkIds;
    hide EnqueueAll;
    hide Entries;
    hide Cleanup;
    hide HasKey;
  }

  lemma BackgroundShown(s: Sys, e: Event, cut: nat, run: nat, steps: seq<Step>, r: M.Run) returns (acts: seq<M.Action>)
    requires !IsHandler(e) && (e.Crash? || Foreign(e, run)) && Shows(s.disk.db, run, steps, r)
    ensures Shows(DiskAfter(s, e, cut).db, run, steps, M.Exec(steps, r, acts))
    ensures acts == [] || acts == [M.CancelRun]
  {
    var db, db' := s.disk.db, DiskAfter(s, e, cut).db;
    assert M.Exec(steps, r, []) == r;
    if e == CancelRun(run) && cut > 0 {
      acts := [M.CancelRun];
      M.ExecOne(steps, r, M.CancelRun);
      CancelShown(db, run, steps, r, s.now);
    } else if e == CancelRun(run) || e.Crash? {
      acts := [];
    } else {
      acts := [];
      BackgroundRows(s, e, cut, run);
      hide DiskAfter;
      ElsewhereShown(db, db', run, steps, r);
    }
  }

  // ----- a whole event -----

  /** What the acts are good for: which of them undo a completion or the failure of a failed run. */
  ghost predicate SpoilsIn(s: Sys, e: Event, run: nat, steps: seq<Step>, r: M.Run) {
    exists j, k :: AtStep(s.disk.db, j, run, k) && s.disk.db.jobs[j].status == Completed && Rewrites(s, e, j) && Wanted(steps, r, k)
  }

  /** A submitted or promised step depends on step k. */
  ghost predicate Wanted(steps: seq<Step>, r: M.Run, k: nat) {
    exists d: nat :: M.Promised(steps, r, d) && Edge(steps, d, k)
  }

  ghost predicate ActsFit(s: Sys, e: Event, run: nat, steps: seq<Step>, r: M.Run, acts: seq<M.Action>) {
    && (!SpoilsIn(s, e, run, steps, r) ==> M.NeverSpoils(steps, r, acts))
    && (!(exists j :: AtRun(s.disk.db, j, run) && s.disk.db.jobs[j].status == Completed && Rewrites(s, e, j)) ==> M.CompleteOnce(steps, r, acts))
    && (!(exists j :: AtRun(s.disk.db, j, run) && s.disk.db.jobs[j].status == Failed && Rewrites(s, e, j)) ==> FailuresKept(steps, r, acts))
  }

  lemma ResultSubject(s: Sys, e: Event, j: nat)
    requires Subject(s, e) == Some(j)
    ensures e.Result? ==> e.w in s.inFlight && s.inFlight[e.w].id == j
    ensures e.Reap? ==> Reaps(s, j)
    ensures e.CancelJob? ==> Cancels(s, j)
  {
    hide Q.Consume;
  }

  /** Dispatching or putting back step k spoils the run only if k is completed and wanted. */
  lemma ActSpoils(steps: seq<Step>, r: M.Run, a: M.Action)
    ensures M.Spoils(steps, r, a) ==> (a.Dispatch? || a.PutBack?) && a.step in r.jobs && r.jobs[a.step].status == Completed && Wanted(steps, r, a.step)
  {
  }

  /** The acts of a handler, by their shape. */
  lemma ActsShape(s: Sys, e: Event, cut: nat, run: nat, j: nat, k: nat, call: nat)
    requires IsHandler(e) && Subject(s, e) == Some(j) && AtStep(s.disk.db, j, run, k)
    ensures var acts := HandlerActs(s, e, cut, j, k, call);
      || acts == []
      || (acts == [M.Dispatch(k)] && e.Ready? && cut > 1)
      || (acts == [M.Dispatch(k), M.PutBack(k)] && e.Ready? && cut > 1)
      || (acts == [M.PutBack(k)] && cut > 0 && (e.Disconnect? || (e.Reap? && s.disk.db.jobs[j].status == Running)))
      || acts == [M.Delay(k)] || acts == [M.CancelStep(k)] || acts == [M.FailStep(k)] || acts == [M.FailStep(k), M.FailRun]
      || (e.Result? && acts == [M.CompleteStep(k, e.output, call)] && !Settled(s.disk.db.jobs[j].status))
    ensures cut > 1 ==>
      (CallsAdvance(s, e, run) <==> e.Result? && HandlerActs(s, e, cut, j, k, call) == [M.CompleteStep(k, e.output, call)])
  {
    ResultSubject(s, e, j);
    hide Q.Consume;
    hide Subject;
  }

  lemma HandlerActsFit(s: Sys, e: Event, run: nat, steps: seq<Step>, r: M.Run, j: nat, k: nat, call: nat)
    requires IsHandler(Handler(e)) && Shows(s.disk.db, run, steps, r)
    requires Subject(s, Handler(e)) == Some(j) && AtStep(s.disk.db, j, run, k)
    ensures ActsFit(s, e, run, steps, r, HandlerActs(s, Handler(e), Writes(e), j, k, call))
  {
    var h, cut := Handler(e), Writes(e);
    var acts := HandlerActs(s, h, cut, j, k, call);
    ActsShape(s, h, cut, run, j, k, call);
    hide HandlerActs;
    hide Shows;
    hide M.Advance;
    hide M.Exec;
    hide M.CompleteOnce;
    hide M.NeverSpoils;
    hide M.Spoils;
    hide Wanted;
    hide FailuresKept;
    hide Subject;
    StateShown(s.disk.db, run, steps, r, j, Running, 0);
    assert (h.Ready? && cut > 1) || (h.Disconnect? && cut > 0) ==> Rewrites(s, e, j);
    hide Rewrites;
    if |acts| == 1 {
      M.ExecOne(steps, r, acts[0]);
      OneFailure(steps, r, acts[0]);
      ActSpoils(steps, r, acts[0]);
    } else if |acts| == 2 {
      TwoActs(steps, r, acts[0], acts[1]);
      ActSpoils(steps, r, acts[0]);
      ActSpoils(steps, M.Next(steps, r, acts[0]), acts[1]);
    } else {
      assert acts == [];
      NoActsFit(s, e, run, steps, r);
    }
  }

  lemma LocalAct(steps: seq<Step>, r: M.Run, a: M.Action)
    requires !a.TriggerNext? && !a.Proceed? && !a.Crash?
    ensures M.Next(steps, r, a).trigger == r.trigger
    ensures !a.CompleteStep? ==> M.Next(steps, r, a).threads == r.threads
    ensures a.CompleteStep? && a.step in r.jobs && !Settled(r.jobs[a.step].status) && a.call !in r.threads ==>
      M.Next(steps, r, a).threads == r.threads[a.call := M.Entered]
  {
  }

  /** Only a counted completion starts a call; no delivery event touches the local state otherwise. */
  /** Only status writes: no call starts or moves. */
  ghost predicate NoCall(acts: seq<M.Action>) {
    forall a :: a in acts ==> !a.TriggerNext? && !a.Proceed? && !a.Crash? && !a.CompleteStep?
  }

  lemma {:induction false} NoCallLocals(steps: seq<Step>, r: M.Run, acts: seq<M.Action>)
    requires NoCall(acts)
    ensures M.Exec(steps, r, acts).trigger == r.trigger && M.Exec(steps, r, acts).threads == r.threads
    decreases |acts|
  {
    hide M.Next;
    if acts != [] {
      assert acts[0] in acts && forall a :: a in acts[1..] ==> a in acts;
      LocalAct(steps, r, acts[0]);
      NoCallLocals(steps, M.Next(steps, r, acts[0]), acts[1..]);
    }
  }

  /** An accepted success is the only handler whose acts start a call. */
  lemma ActsCalls(s: Sys, e: Event, cut: nat, run: nat, j: nat, k: nat, call: nat)
    requires IsHandler(e) && Subject(s, e) == Some(j) && AtStep(s.disk.db, j, run, k)
    ensures var acts := HandlerActs(s, e, cut, j, k, call);
      || (NoCall(acts) && (cut > 1 ==> !CallsAdvance(s, e, run)))
      || (e.Result? && acts == [M.CompleteStep(k, e.output, call)] && !Settled(s.disk.db.jobs[j].status)
          && (cut > 1 ==> CallsAdvance(s, e, run)))
  {
    ActsShape(s, e, cut, run, j, k, call);
    hide HandlerActs;
    hide CallsAdvance;
    hide Subject;
  }

  lemma HandlerLocals(s: Sys, e: Event, cut: nat, run: nat, steps: seq<Step>, r: M.Run, j: nat, k: nat, call: nat)
    requires IsHandler(e) && Shows(s.disk.db, run, steps, r) && call !in r.threads
    requires Subject(s, e) == Some(j) && AtStep(s.disk.db, j, run, k)
    ensures var r' := M.Exec(steps, r, HandlerActs(s, e, cut, j, k, call));
      && r'.trigger == r.trigger
      && (cut > 1 ==> r'.threads == if CallsAdvance(s, e, run) then r.threads[call := M.Entered] else r.threads)
    ensures M.Crash !in HandlerActs(s, e, cut, j, k, call)
  {
    var acts := HandlerActs(s, e, cut, j, k, call);
    ActsCalls(s, e, cut, run, j, k, call);
    hide HandlerActs;
    hide Shows;
    hide M.Exec;
    hide Subject;
    hide CallsAdvance;
    hide M.Next;
    if NoCall(acts) {
      NoCallLocals(steps, r, acts);
    } else {
      StateShown(s.disk.db, run, steps, r, j, Running, 0);
      M.ExecOne(steps, r, acts[0]);
      LocalAct(steps, r, acts[0]);
    }
  }

  lemma NoHandlerNoCall(s: Sys, e: Event, run: nat)
    ensures CallsAdvance(s, e, run) ==> IsHandler(e) && exists j :: Subject(s, e) == Some(j) && AtRun(s.disk.db, j, run)
  {
    assert CallsAdvance(s, e, run) ==> Subject(s, e) == Some(s.inFlight[e.w].id);
  }

  lemma NoActsFit(s: Sys, e: Event, run: nat, steps: seq<Step>, r: M.Run)
    ensures ActsFit(s, e, run, steps, r, []) && ActsFit(s, e, run, steps, r, [M.CancelRun])
    ensures M.Exec(steps, r, []) == r
  {
    M.ExecOne(steps, r, M.CancelRun);
    OneFailure(steps, r, M.CancelRun);
  }

  /** What the writes of an event, cut anywhere, are to the run. */
  lemma WritesShown(s: Sys, e: Event, run: nat, steps: seq<Step>, r: M.Run, call: nat) returns (acts: seq<M.Action>)
    requires Foreign(e, run) && Shows(s.disk.db, run, steps, r) && call !in r.threads
    ensures Shows(DiskAfter(s, Handler(e), Writes(e)).db, run, steps, M.Exec(steps, r, acts))
    ensures ActsFit(s, e, run, steps, r, acts) && M.Crash !in acts
    ensures var r' := M.Exec(steps, r, acts);
      && r'.trigger == r.trigger
      && (!e.Crash? ==> r'.threads == if CallsAdvance(s, e, run) then r.threads[call := M.Entered] else r.threads)
  {
    hide Shows;
    hide DiskAfter;
    hide M.Next;
    hide ActsFit;
    var h, cut := Handler(e), Writes(e);
    NoActsFit(s, e, run, steps, r);
    NoHandlerNoCall(s, h, run);
    if !IsHandler(h) {
      acts := BackgroundShown(s, h, cut, run, steps, r);
      if acts != [] { CancelLocals(steps, r); }
    } else if j: nat :| Subject(s, h) == Some(j) && AtRun(s.disk.db, j, run) {
      var k := s.disk.db.jobs[j].key.value.step;
      acts := HandlerActs(s, h, cut, j, k, call);
      HandlerShown(s, h, cut, run, steps, r, j, k, call);
      HandlerActsFit(s, e, run, steps, r, j, k, call);
      HandlerLocals(s, h, cut, run, steps, r, j, k, call);
    } else {
      OtherHandler(s, h, cut, run, steps, r);
      acts := [];
    }
  }

  lemma CancelLocals(steps: seq<Step>, r: M.Run)
    ensures M.Exec(steps, r, [M.CancelRun]).trigger == r.trigger && M.Exec(steps, r, [M.CancelRun]).threads == r.threads
  {
    M.ExecOne(steps, r, M.CancelRun);
  }

  // ----- a restart -----

  /** Each of these puts back a step that is running in r. */
  ghost predicate PutsBack(r: M.Run, acts: seq<M.Action>) {
    forall a :: a in acts ==> a.PutBack? && a.step in r.jobs && r.jobs[a.step].status == Running
  }

  /** ResetRunningJobs, step by step. */
  lemma {:induction false} ResetActs(steps: seq<Step>, r: M.Run, ks: set<nat>) returns (acts: seq<M.Action>)
    requires forall k :: k in r.jobs && r.jobs[k].status == Running ==> k in ks
    ensures M.Exec(steps, r, acts) == r.(jobs := ResetAll(r.jobs))
    ensures PutsBack(r, acts) && M.CompleteOnce(steps, r, acts) && FailuresKept(steps, r, acts)
    decreases |ks|
  {
    if ks == {} {
      acts := [];
      assert ResetAll(r.jobs) == r.jobs;
      assert M.Exec(steps, r, []) == r;
    } else {
      var k :| k in ks;
      if k in r.jobs && r.jobs[k].status == Running {
        var r1 := M.Next(steps, r, M.PutBack(k));
        assert ResetAll(r1.jobs) == ResetAll(r.jobs);
        M.ExecOne(steps, r, M.PutBack(k));
        OneFailure(steps, r, M.PutBack(k));
        var rest := ResetActs(steps, r1, ks - {k});
        assert PutsBack(r, rest);
        hide M.Next;
        M.ExecJoin(steps, r, [M.PutBack(k)], rest);
        JoinFailures(steps, r, [M.PutBack(k)], rest);
        acts := [M.PutBack(k)] + rest;
      } else {
        acts := ResetActs(steps, r, ks - {k});
      }
    }
  }

  /** A restart is, for the run, a crash of its calls and a put-back of each step that was running. */
  lemma BootShown(d: Disk, now: int, run: nat, steps: seq<Step>, r: M.Run) returns (acts: seq<M.Action>)
    requires Shows(d.db, run, steps, r)
    ensures acts != [] && acts[0] == M.Crash && PutsBack(r, acts[1..])
    ensures M.Exec(steps, r, acts) == r.(jobs := ResetAll(r.jobs), trigger := [], threads := map[])
    ensures Shows(Boot(d, now).disk.db, run, steps, M.Exec(steps, r, acts))
    ensures M.CompleteOnce(steps, r, acts) && FailuresKept(steps, r, acts)
  {
    var r1 := M.Next(steps, r, M.Crash);
    M.ExecOne(steps, r, M.Crash);
    OneFailure(steps, r, M.Crash);
    var rest := ResetActs(steps, r1, r1.jobs.Keys);
    ResetShown(d.db, run, steps, r);
    LocalsAreFree(Boot(d, now).disk.db, run, steps, r.(jobs := ResetAll(r.jobs)), r1.(jobs := ResetAll(r1.jobs)));
    hide M.Next;
    M.ExecJoin(steps, r, [M.Crash], rest);
    JoinFailures(steps, r, [M.Crash], rest);
    acts := [M.Crash] + rest;
    assert acts[1..] == rest;
  }

  // ----- one move -----

  ghost predicate MoveFits(run: nat, steps: seq<Step>, o: Orch, m: Move, r: M.Run, acts: seq<M.Action>) {
    && (!(m.Deliver? && m.e.Crash?) ==> M.Crash !in acts)
    && (!SpoilsRun(run, steps, o, m) ==> M.NeverSpoils(steps, r, acts))
    && (!WritesOver(run, o, m, Completed) ==> M.CompleteOnce(steps, r, acts))
    && (!WritesOver(run, o, m, Failed) ==> FailuresKept(steps, r, acts))
  }

  /** What is promised can be read off the tables and the calls. */
  lemma SpoilsShown(run: nat, steps: seq<Step>, o: Orch, e: Event, r: M.Run)
    requires Mirrors(o, run, steps, r)
    ensures SpoilsIn(o.sys, e, run, steps, r) <==> SpoilsRun(run, steps, o, Deliver(e))
  {
    SubmittedShown(o.sys.disk.db, run, r.jobs);
    hide Shows;
    hide Rewrites;
    forall d ensures PromisedIn(run, steps, o, d) <==> M.Promised(steps, r, d) {}
    forall j, k ensures SpoilsAt(run, steps, o, e, j, k) <==>
      AtStep(o.sys.disk.db, j, run, k) && o.sys.disk.db.jobs[j].status == Completed && Rewrites(o.sys, e, j) && Wanted(steps, r, k)
    {
    }
  }

  lemma DeliverShown(run: nat, steps: seq<Step>, o: Orch, e: Event, r: M.Run) returns (acts: seq<M.Action>)
    requires Foreign(e, run) && Mirrors(o, run, steps, r)
    ensures Mirrors(Take(run, steps, o, Deliver(e)), run, steps, M.Exec(steps, r, acts))
    ensures MoveFits(run, steps, o, Deliver(e), r, acts)
  {
    hide Shows;
    hide DiskAfter;
    hide MemoryAfter;
    hide CallsAdvance;
    hide Rewrites;
    hide M.Next;
    acts := WritesShown(o.sys, e, run, steps, r, o.next);
    SpoilsShown(run, steps, o, e, r);
    hide SpoilsIn;
    hide SpoilsRun;
    if e.Crash? {
      var d, r1 := DiskAfter(o.sys, e.during, e.cut), M.Exec(steps, r, acts);
      var more := BootShown(d, o.sys.now, run, steps, r1);
      hide Boot;
      M.OnceNeverSpoils(steps, r1, more);
      M.ExecJoin(steps, r, acts, more);
      JoinFailures(steps, r, acts, more);
      acts := acts + more;
    }
  }

  lemma TriggerShown(run: nat, steps: seq<Step>, o: Orch, r: M.Run)
    requires Mirrors(o, run, steps, r)
    ensures Mirrors(Take(run, steps, o, TriggerNext), run, steps, M.Next(steps, r, M.TriggerNext))
  {
    hide Shows;
    hide HasKey;
    var db, db', r' := o.sys.disk.db, Take(run, steps, o, TriggerNext).sys.disk.db, M.Next(steps, r, M.TriggerNext);
    if o.trigger != [] && o.trigger[0] < |steps| {
      InsertShown(db, run, steps, r, o.trigger[0], "");
      LocalsAreFree(db', run, steps, r.(jobs := r'.jobs), r');
    }
  }

  lemma CallShown(run: nat, steps: seq<Step>, o: Orch, t: nat, r: M.Run)
    requires Mirrors(o, run, steps, r) && t in o.calls
    ensures Mirrors(Take(run, steps, o, Proceed(t)), run, steps, M.Next(steps, r, M.Proceed(t)))
  {
    StatementShown(o.sys.disk.db, run, steps, r, t);
    TriggerAlone(steps, r, t);
    hide Shows;
    hide Statement;
    hide M.Advance;
  }

  lemma TriggerAlone(steps: seq<Step>, r: M.Run, t: nat)
    requires t in r.threads
    ensures M.Advance(steps, r, t).trigger == r.trigger
  {
  }

  lemma OwnFits(run: nat, steps: seq<Step>, o: Orch, m: Move, r: M.Run, a: M.Action)
    requires a.TriggerNext? || a.Proceed?
    ensures MoveFits(run, steps, o, m, r, [a]) && MoveFits(run, steps, o, m, r, [])
  {
    hide M.Next;
    M.ExecOne(steps, r, a);
    OneFailure(steps, r, a);
  }

  lemma TakeShown(run: nat, steps: seq<Step>, o: Orch, m: Move, r: M.Run) returns (acts: seq<M.Action>)
    requires m.Deliver? ==> Foreign(m.e, run)
    requires Mirrors(o, run, steps, r)
    ensures Mirrors(Take(run, steps, o, m), run, steps, M.Exec(steps, r, acts))
    ensures MoveFits(run, steps, o, m, r, acts)
  {
    hide Mirrors;
    hide MoveFits;
    match m {
      case Deliver(e) => acts := DeliverShown(run, steps, o, e, r);
      case TriggerNext =>
        acts := [M.TriggerNext];
        M.ExecOne(steps, r, M.TriggerNext);
        TriggerShown(run, steps, o, r);
        OwnFits(run, steps, o, m, r, M.TriggerNext);
      case Proceed(t) =>
        acts := if t in o.calls then [M.Proceed(t)] else [];
        OwnFits(run, steps, o, m, r, M.Proceed(t));
        if t in o.calls {
          M.ExecOne(steps, r, M.Proceed(t));
          CallShown(run, steps, o, t, r);
        }
    }
  }

  // ----- a whole schedule -----

  /** Every schedule of the whole system, whatever crashes, breaks or is rolled back, is a run of the
      run machine on the tables of one workflow run; and it is as well-behaved as the schedule. */
  lemma {:induction false} PlayShown(run: nat, steps: seq<Step>, o: Orch, moves: seq<Move>, r: M.Run) returns (acts: seq<M.Action>)
    requires AllForeign(run, moves) && Mirrors(o, run, steps, r)
    ensures Mirrors(Play(run, steps, o, moves), run, steps, M.Exec(steps, r, acts))
    ensures NoCrashes(moves) ==> M.Crash !in acts
    ensures NeverSpoiled(run, steps, o, moves) ==> M.NeverSpoils(steps, r, acts)
    ensures NeverOver(run, steps, o, moves, Completed) ==> M.CompleteOnce(steps, r, acts)
    ensures NeverOver(run, steps, o, moves, Failed) ==> FailuresKept(steps, r, acts)
    decreases |moves|
  {
    hide Take;
    hide Mirrors;
    hide WritesOver;
    hide SpoilsRun;
    hide M.Next;
    if moves == [] {
      acts := [];
    } else {
      var first := TakeShown(run, steps, o, moves[0], r);
      assert AllForeign(run, moves[1..]) && (NoCrashes(moves) ==> NoCrashes(moves[1..]));
      var rest := PlayShown(run, steps, Take(run, steps, o, moves[0]), moves[1..], M.Exec(steps, r, first));
      M.ExecJoin(steps, r, first, rest);
      JoinFailures(steps, r, first, rest);
      acts := first + rest;
    }
  }

  lemma SpoilingWritesOver(run: nat, steps: seq<Step>, o: Orch, m: Move)
    ensures SpoilsRun(run, steps, o, m) ==> WritesOver(run, o, m, Completed)
  {
    hide Rewrites;
    if SpoilsRun(run, steps, o, m) {
      var j, k :| SpoilsAt(run, steps, o, m.e, j, k);
      assert AtRun(o.sys.disk.db, j, run);
    }
  }

  /** A schedule that rewrites no completed step spoils nothing. */
  lemma {:induction false} StandingNeverSpoils(run: nat, steps: seq<Step>, o: Orch, moves: seq<Move>)
    requires NeverOver(run, steps, o, moves, Completed)
    ensures NeverSpoiled(run, steps, o, moves)
    decreases |moves|
  {
    hide Take;
    hide WritesOver;
    hide SpoilsRun;
    if moves != [] {
      SpoilingWritesOver(run, steps, o, moves[0]);
      StandingNeverSpoils(run, steps, Take(run, steps, o, moves[0]), moves[1..]);
    }
  }

  // ----- the run's own statements -----

  /** Each statement of Trigger and Advance is also an event of the delivery protocol, or a read. */
  lemma OwnStatement(run: nat, steps: seq<Step>, o: Orch, m: Move) returns (es: seq<Event>)
    requires !m.Deliver?
    ensures |es| <= 1 && Take(run, steps, o, m).sys == if es == [] then o.sys else Next(o.sys, es[0])
    ensures forall e :: e in es ==> e.SubmitStep? || e.CountStep? || e.CloseRun?
  {
    es := [];
    if m.TriggerNext? {
      if o.trigger != [] && o.trigger[0] < |steps| {
        es := [SubmitStep(StepKey(run, o.trigger[0]), steps[o.trigger[0]].retries, R.StepPayload(steps, o.trigger[0], ""))];
      }
    } else if m.call in o.calls {
      match o.calls[m.call] {
        case Entered => es := [CountStep(run)];
        case Finishing => es := [CloseRun(run, RunCompleted)];
        case Fetched(k, rest, prev) => if k < |steps| { es := [SubmitStep(StepKey(run, k), steps[k].retries, R.StepPayload(steps, k, prev))]; }
        case _ =>
      }
    }
  }
}
