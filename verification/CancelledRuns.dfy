/**
  What a cancelled run can still become, in the whole system: when it stays cancelled whatever is
  delivered, crashed or rolled back, and which jobs decide that.
*/
module CancelledRuns {
  import opened Prelude
  import opened Types
  import opened Steps
  import opened Tables
  import opened Delivery
  import opened DeliverySafety
  import opened DeliveryRuns
  import opened RunRefinement
  import opened Orchestration
  import opened Revival
  import M = RunMachine
  import C = RunCalls
  import W = WholeSystem
  import Q = QueueState

  function StatusOf(db: Db, run: nat): Option<RunStatus> {
    if run in db.runs then Some(db.runs[run].status) else None
  }

  /** No job of the run returns. */
  ghost predicate NoneReturns(s: Sys, run: nat) {
    forall j :: AtRun(s.disk.db, j, run) ==> !Returns(s, j)
  }

  ghost predicate AllDead(s: Sys, run: nat) {
    forall j :: AtRun(s.disk.db, j, run) ==> Dead(s, j)
  }

  // ----- the delivery invariant along schedules -----

  /** A statement of the run itself is an event that loses nothing, or none at all. */
  lemma OwnInv(run: nat, steps: seq<Step>, o: Orch, m: Move, lost: set<nat>)
    requires Inv(o.sys, lost) && !m.Deliver?
    ensures Inv(Take(run, steps, o, m).sys, lost)
  {
    var es := OwnStatement(run, steps, o, m);
    hide Take;
    hide Inv;
    if es != [] {
      hide Next;
      NextInvKept(o.sys, es[0], lost);
    }
  }

  lemma {:induction false} PlayInv(run: nat, steps: seq<Step>, o: Orch, moves: seq<Move>, lost: set<nat>) returns (lost': set<nat>)
    requires Inv(o.sys, lost)
    ensures Inv(Play(run, steps, o, moves).sys, lost')
    decreases |moves|
  {
    hide Inv;
    if moves == [] {
      lost' := lost;
    } else {
      var o', more := Take(run, steps, o, moves[0]), lost;
      if moves[0].Deliver? {
        NextInv(o.sys, moves[0].e, lost);
        more := lost + LostBy(o.sys, moves[0].e);
      } else {
        OwnInv(run, steps, o, moves[0], lost);
      }
      hide Take;
      lost' := PlayInv(run, steps, o', moves[1..], more);
    }
  }

  /** Only jobs can be lost. */
  lemma LostAreJobs(s: Sys, lost: set<nat>)
    requires Inv(s, lost)
    ensures Inv(s, lost * s.disk.db.jobs.Keys)
  {
    hide CopiesOk;
    hide RowsOk;
    hide MemoryOk;
    hide Found;
  }

  // ----- while all jobs of the run are dead -----

  /** A delivery event then leaves the run's rows alone, but for a job it cancels. */
  lemma DeadRows(s: Sys, e: Event, cut: nat, run: nat, lost: set<nat>)
    requires Inv(s, lost) && AllDead(s, run) && (e.Crash? || Foreign(e, run))
    requires run in s.disk.db.runs && run < s.disk.db.nextRun && s.disk.db.runs[run].status != RunRunning
    ensures var db, db' := s.disk.db, DiskAfter(s, e, cut).db;
      && run in db'.runs && db'.runs[run] == db.runs[run]
      && (forall j :: AtRun(db', j, run) <==> AtRun(db, j, run))
  {
    if IsHandler(e) {
      DeadHandler(s, e, cut, run, lost);
    } else if e == CancelRun(run) || e.Crash? {
      hide Inv;
    } else {
      BackgroundRows(s, e, cut, run);
      hide DiskAfter;
    }
  }

  lemma DeadHandler(s: Sys, e: Event, cut: nat, run: nat, lost: set<nat>)
    requires Inv(s, lost) && AllDead(s, run) && IsHandler(e) && run in s.disk.db.runs
    ensures var db, db' := s.disk.db, DiskAfter(s, e, cut).db;
      && run in db'.runs && db'.runs[run] == db.runs[run]
      && (forall j :: AtRun(db', j, run) <==> AtRun(db, j, run))
  {
    HandlerFrame(s, e, cut);
    forall j | j in s.disk.db.jobs ensures DiskAfter(s, e, cut).db.jobs[j].key == s.disk.db.jobs[j].key { HandlerKeepsRow(s, e, cut, j); }
    if j: nat :| Subject(s, e) == Some(j) && AtRun(s.disk.db, j, run) {
      DeadStays(s, e, j, lost);
      CancelKeepsRuns(s, e.job, cut);
    } else {
      HandlerRuns(s, e, cut, run);
    }
    hide DiskAfter;
  }

  lemma CancelKeepsRuns(s: Sys, j: nat, cut: nat)
    ensures DiskAfter(s, CancelJob(j), cut).db.runs == s.disk.db.runs
  {
    hide MarkJobs;
    hide Q.Cancel;
  }

  lemma DeadNext(s: Sys, e: Event, run: nat, lost: set<nat>)
    requires Inv(s, lost) && AllDead(s, run) && Foreign(e, run)
    requires run in s.disk.db.runs && run < s.disk.db.nextRun && s.disk.db.runs[run].status != RunRunning
    ensures var db, db' := s.disk.db, Next(s, e).disk.db;
      && run in db'.runs && db'.runs[run] == db.runs[run]
      && (forall j :: AtRun(db', j, run) <==> AtRun(db, j, run))
      && (forall j :: AtRun(db, j, run) ==> db'.jobs[j].key == db.jobs[j].key && AtMostCancelled(db.jobs[j], db'.jobs[j]))
    ensures AllDead(Next(s, e), run)
  {
    var h, cut := Handler(e), Writes(e);
    DeadRows(s, h, cut, run, lost);
    BootRows(s, e, run);
    forall j | AtRun(s.disk.db, j, run)
      ensures Dead(Next(s, e), j) && AtMostCancelled(s.disk.db.jobs[j], Next(s, e).disk.db.jobs[j])
    {
      DeadStays(s, e, j, lost);
    }
    hide Next;
    hide Dead;
    hide Inv;
    hide DiskAfter;
  }

  /** A restart keeps runs, and which jobs belong to them. */
  lemma BootRows(s: Sys, e: Event, run: nat)
    ensures var db, db' := DiskAfter(s, Handler(e), Writes(e)).db, Next(s, e).disk.db;
      db'.runs == db.runs && forall j :: AtRun(db', j, run) <==> AtRun(db, j, run)
  {
    hide DiskAfter;
    hide MemoryAfter;
    hide WithOrphans;
  }

  /** Calls that are idle stay idle while the submitted and completed steps stay the same. */
  lemma IdleSame(steps: seq<Step>, r: M.Run, r': M.Run)
    requires C.Idle(steps, r) && r.status == RunCancelled == r'.status
    requires r'.jobs.Keys == r.jobs.Keys && M.Done(r') == M.Done(r)
    requires (r'.threads == r.threads && r'.trigger == r.trigger) || (r'.threads == map[] && r'.trigger == [])
    ensures C.Idle(steps, r')
  {
    forall k: nat ensures !C.Coming(steps, r', k) {
      assert !C.Coming(steps, r, k);
      if t :| t in r'.threads && C.Inserts(steps, r', r'.threads[t], k) { assert C.Inserts(steps, r, r.threads[t], k); }
    }
  }

  lemma CallerIsHeld(s: Sys, e: Event, run: nat)
    ensures CallsAdvance(s, e, run) ==> exists j :: AtRun(s.disk.db, j, run) && InFlight(s, j)
  {
    if CallsAdvance(s, e, run) { assert InFlight(s, s.inFlight[e.w].id); }
  }

  /** What the tables show of submitted and completed steps only depends on the run's rows. */
  lemma StepsSame(db: Db, db': Db, run: nat)
    requires forall j :: AtRun(db', j, run) <==> AtRun(db, j, run)
    requires forall j :: AtRun(db, j, run) ==> AtRun(db', j, run) && db'.jobs[j].key == db.jobs[j].key && AtMostCancelled(db.jobs[j], db'.jobs[j])
    ensures SubmittedSteps(db', run) == SubmittedSteps(db, run) && CompletedSteps(db', run) == CompletedSteps(db, run)
  {
    forall k ensures k in SubmittedSteps(db', run) <==> k in SubmittedSteps(db, run) {
      if k in SubmittedSteps(db, run) {
        var j :| j in db.jobs && OfRun(db.jobs[j], run) && db.jobs[j].key.value.step == k;
        assert AtRun(db, j, run) && AtRun(db', j, run);
      }
      if k in SubmittedSteps(db', run) {
        var j :| j in db'.jobs && OfRun(db'.jobs[j], run) && db'.jobs[j].key.value.step == k;
        assert AtRun(db', j, run) && AtRun(db, j, run);
      }
    }
    forall k ensures k in CompletedSteps(db', run) <==> k in CompletedSteps(db, run) {
      if k in CompletedSteps(db, run) {
        var j :| j in db.jobs && OfRun(db.jobs[j], run) && db.jobs[j].status == Completed && db.jobs[j].key.value.step == k;
        assert AtRun(db, j, run) && AtRun(db', j, run);
      }
      if k in CompletedSteps(db', run) {
        var j :| j in db'.jobs && OfRun(db'.jobs[j], run) && db'.jobs[j].status == Completed && db'.jobs[j].key.value.step == k;
        assert AtRun(db', j, run) && AtRun(db, j, run);
      }
    }
  }

  lemma DeliverStill(run: nat, steps: seq<Step>, o: Orch, e: Event, r: M.Run, lost: set<nat>) returns (r': M.Run)
    requires Inv(o.sys, lost) && AllDead(o.sys, run) && Foreign(e, run)
    requires Mirrors(o, run, steps, r) && C.Idle(steps, r) && r.status == RunCancelled
    ensures var o' := Take(run, steps, o, Deliver(e));
      Mirrors(o', run, steps, r') && C.Idle(steps, r') && r'.status == RunCancelled && AllDead(o'.sys, run)
  {
    var o' := Take(run, steps, o, Deliver(e));
    var acts := DeliverShown(run, steps, o, e, r);
    r' := M.Exec(steps, r, acts);
    DeadNext(o.sys, e, run, lost);
    CallerIsHeld(o.sys, e, run);
    assert !CallsAdvance(o.sys, e, run);
    StepsSame(o.sys.disk.db, o'.sys.disk.db, run);
    hide M.Exec;
    hide AllDead;
    hide Inv;
    hide Next;
    CompletedShown(o.sys.disk.db, run, r);
    CompletedShown(o'.sys.disk.db, run, r');
    SubmittedShown(o.sys.disk.db, run, r.jobs);
    SubmittedShown(o'.sys.disk.db, run, r'.jobs);
    IdleSame(steps, r, r');
  }

  /** The run's own statements, when its calls are idle, touch no row of it. */
  lemma OwnStill(run: nat, steps: seq<Step>, o: Orch, m: Move, r: M.Run, lost: set<nat>) returns (r': M.Run)
    requires Inv(o.sys, lost) && AllDead(o.sys, run) && !m.Deliver? && DistinctIds(steps) && KnownDeps(steps)
    requires Mirrors(o, run, steps, r) && C.Idle(steps, r) && r.status == RunCancelled
    ensures var o' := Take(run, steps, o, m);
      Mirrors(o', run, steps, r') && C.Idle(steps, r') && r'.status == RunCancelled && AllDead(o'.sys, run)
  {
    var o' := Take(run, steps, o, m);
    if m.Proceed? && m.call !in o.calls {
      r' := r;
    } else {
      var a := if m.TriggerNext? then M.TriggerNext else M.Proceed(m.call);
      r' := M.Next(steps, r, a);
      if m.TriggerNext? { TriggerShown(run, steps, o, r); } else { CallShown(run, steps, o, m.call, r); }
      C.IdleOwn(steps, r, a);
      OwnDead(run, steps, o, m, r, r', lost);
    }
  }

  lemma OwnDead(run: nat, steps: seq<Step>, o: Orch, m: Move, r: M.Run, r': M.Run, lost: set<nat>)
    requires Inv(o.sys, lost) && AllDead(o.sys, run) && !m.Deliver?
    requires Mirrors(o, run, steps, r) && Mirrors(Take(run, steps, o, m), run, steps, r') && r'.jobs == r.jobs
    ensures AllDead(Take(run, steps, o, m).sys, run)
  {
    var o' := Take(run, steps, o, m);
    var es := OwnStatement(run, steps, o, m);
    hide Take;
    forall j | AtRun(o'.sys.disk.db, j, run) ensures Dead(o'.sys, j) {
      var k := o'.sys.disk.db.jobs[j].key.value.step;
      assert AtStep(o'.sys.disk.db, j, run, k);
      var i :| AtStep(o.sys.disk.db, i, run, k);
      assert AtRun(o.sys.disk.db, i, run);
      if es != [] {
        DeadStays(o.sys, es[0], i, lost);
        RowKeptOnce(o.sys, es[0], i, lost);
      }
      assert AtStep(o'.sys.disk.db, i, run, k);
    }
  }

  lemma {:induction false} PlayStill(run: nat, steps: seq<Step>, o: Orch, moves: seq<Move>, r: M.Run, lost: set<nat>)
    requires Inv(o.sys, lost) && AllDead(o.sys, run) && AllForeign(run, moves) && DistinctIds(steps) && KnownDeps(steps)
    requires Mirrors(o, run, steps, r) && C.Idle(steps, r) && r.status == RunCancelled
    ensures StatusOf(Play(run, steps, o, moves).sys.disk.db, run) == Some(RunCancelled)
    decreases |moves|
  {
    hide Inv;
    hide AllDead;
    hide C.Idle;
    if moves != [] {
      var m, r', more := moves[0], r, lost;
      if m.Deliver? {
        r' := DeliverStill(run, steps, o, m.e, r, lost);
        NextInv(o.sys, m.e, lost);
        more := lost + LostBy(o.sys, m.e);
      } else {
        r' := OwnStill(run, steps, o, m, r, lost);
        OwnInv(run, steps, o, m, lost);
      }
      assert AllForeign(run, moves[1..]);
      hide Mirrors;
      assert Take(run, steps, o, m).sys == if m.Deliver? then Next(o.sys, m.e) else Take(run, steps, o, m).sys;
      hide Take;
      PlayStill(run, steps, Take(run, steps, o, m), moves[1..], r', more);
    }
  }

  // ----- how a cancelled run comes to another end -----

  function Delivers(es: seq<Event>): seq<Move> {
    seq(|es|, i requires 0 <= i < |es| => Deliver(es[i]))
  }

  lemma {:induction false} PlayDelivers(run: nat, steps: seq<Step>, o: Orch, es: seq<Event>)
    ensures Play(run, steps, o, Delivers(es)).sys == Exec(o.sys, es)
    decreases |es|
  {
    if es != [] {
      var o' := Take(run, steps, o, Deliver(es[0]));
      assert o'.sys == Next(o.sys, es[0]);
      assert Delivers(es)[1..] == Delivers(es[1..]) && Delivers(es)[0] == Deliver(es[0]);
      hide Take;
      hide Next;
      PlayDelivers(run, steps, o', es[1..]);
    }
  }

  lemma OutsideIsForeign(run: nat, es: seq<Event>)
    requires Outside(es)
    ensures AllForeign(run, Delivers(es))
  {
    forall i | 0 <= i < |es| ensures Foreign(es[i], run) { assert es[i] in es; }
  }

  /** The last failure of a job fails its run, whatever the run's status was. */
  lemma LastFailure(s: Sys, w: string, j: nat, run: nat)
    requires Held(s, w, j) && s.disk.db.jobs[j].retryCount >= s.disk.db.jobs[j].maxRetries
    requires AtRun(s.disk.db, j, run) && run in s.disk.db.runs
    ensures StatusOf(Next(s, Result(w, false, "")).disk.db, run) == Some(RunFailed)
  {
    assert Accepts(s, w) && s.inFlight[w].id == j;
    hide RowCount;
    hide RemoveFirst;
  }

  /** A job of the run that returns can fail it. */
  lemma ReturningFails(run: nat, steps: seq<Step>, o: Orch, r: M.Run, j: nat, lost: set<nat>) returns (moves: seq<Move>)
    requires Inv(o.sys, lost) && Mirrors(o, run, steps, r) && AtRun(o.sys.disk.db, j, run) && Returns(o.sys, j)
    ensures AllForeign(run, moves) && StatusOf(Play(run, steps, o, moves).sys.disk.db, run) == Some(RunFailed)
  {
    hide Next;
    hide Returns;
    hide Held;
    var first := ReturnsHeld(o.sys, "w", j, lost);
    var s1 := Exec(o.sys, first);
    var second := HeldExhausts(s1, "w", j, lost);
    var s2 := Exec(s1, second);
    LimitKept(o.sys, first, j, lost);
    LimitKept(s1, second, j, lost);
    hide Inv;
    hide Exec;
    var es := first + second;
    ExecConcat(o.sys, first, second);
    OutsideConcat(first, second);
    RunStays(run, steps, o, r, es);
    LastFailure(s2, "w", j, run);
    var last := Result("w", false, "");
    ExecOne(s2, last);
    ExecConcat(o.sys, es, [last]);
    OutsideConcat(es, [last]);
    OutsideIsForeign(run, es + [last]);
    PlayDelivers(run, steps, o, es + [last]);
    moves := Delivers(es + [last]);
  }

  lemma RunStays(run: nat, steps: seq<Step>, o: Orch, r: M.Run, es: seq<Event>)
    requires Mirrors(o, run, steps, r) && Outside(es)
    ensures run in Exec(o.sys, es).disk.db.runs
  {
    hide Exec;
    hide Play;
    hide M.Exec;
    OutsideIsForeign(run, es);
    PlayDelivers(run, steps, o, es);
    var acts := PlayShown(run, steps, o, Delivers(es), r);
  }

  function OwnMove(a: M.Action): Move {
    if a.Proceed? then Proceed(a.call) else TriggerNext
  }

  /** Statements of the run are moves of the whole system. */
  lemma {:induction false} OwnMoves(run: nat, steps: seq<Step>, o: Orch, r: M.Run, acts: seq<M.Action>, lost: set<nat>) returns (moves: seq<Move>)
    requires Inv(o.sys, lost) && Mirrors(o, run, steps, r) && C.OwnRun(steps, r, acts)
    ensures AllForeign(run, moves) && Mirrors(Play(run, steps, o, moves), run, steps, M.Exec(steps, r, acts))
    ensures Inv(Play(run, steps, o, moves).sys, lost)
    decreases |acts|
  {
    hide Inv;
    if acts == [] {
      moves := [];
    } else {
      var m := OwnMove(acts[0]);
      var o', r' := Take(run, steps, o, m), M.Next(steps, r, acts[0]);
      if m.TriggerNext? { TriggerShown(run, steps, o, r); } else { CallShown(run, steps, o, m.call, r); }
      OwnInv(run, steps, o, m, lost);
      hide Take;
      hide M.Next;
      hide Mirrors;
      var rest := OwnMoves(run, steps, o', r', acts[1..], lost);
      moves := [m] + rest;
      assert moves[1..] == rest;
    }
  }

  lemma {:induction false} PlayJoin(run: nat, steps: seq<Step>, o: Orch, a: seq<Move>, b: seq<Move>)
    ensures Play(run, steps, o, a + b) == Play(run, steps, Play(run, steps, o, a), b)
    ensures AllForeign(run, a) && AllForeign(run, b) ==> AllForeign(run, a + b)
    decreases |a|
  {
    hide Take;
    if a == [] {
      assert a + b == b;
    } else {
      assert (a + b)[1..] == a[1..] + b && (a + b)[0] == a[0];
      PlayJoin(run, steps, Take(run, steps, o, a[0]), a[1..], b);
    }
  }

  /** A step that is coming brings a job that returns. */
  lemma ComingReturns(run: nat, steps: seq<Step>, o: Orch, r: M.Run, k: nat, lost: set<nat>) returns (moves: seq<Move>, r': M.Run, j: nat, lost': set<nat>)
    requires Inv(o.sys, lost) && Mirrors(o, run, steps, r) && DistinctIds(steps) && KnownDeps(steps) && C.Coming(steps, r, k)
    ensures AllForeign(run, moves)
    ensures var o' := Play(run, steps, o, moves);
      Mirrors(o', run, steps, r') && Inv(o'.sys, lost') && AtRun(o'.sys.disk.db, j, run) && Returns(o'.sys, j)
  {
    LostAreJobs(o.sys, lost);
    lost' := lost * o.sys.disk.db.jobs.Keys;
    var acts := C.ComingComes(steps, r, k);
    hide Inv;
    hide M.Exec;
    moves := OwnMoves(run, steps, o, r, acts, lost');
    r' := M.Exec(steps, r, acts);
    var o' := Play(run, steps, o, moves);
    j :| AtStep(o'.sys.disk.db, j, run, k);
    NewIsNotLost(run, steps, o, r, moves, r', j, k, lost');
    hide Returns;
    CanCompleteIff(o'.sys, j, lost');
  }

  /** The row of a step that had none is a new row. */
  lemma NewIsNotLost(run: nat, steps: seq<Step>, o: Orch, r: M.Run, moves: seq<Move>, r': M.Run, j: nat, k: nat, lost: set<nat>)
    requires Mirrors(o, run, steps, r) && k !in r.jobs && Inv(o.sys, lost)
    requires Mirrors(Play(run, steps, o, moves), run, steps, r') && AtStep(Play(run, steps, o, moves).sys.disk.db, j, run, k)
    requires lost <= o.sys.disk.db.jobs.Keys
    ensures j !in lost
  {
    if j in lost {
      PlayKeepsKey(run, steps, o, moves, j, lost);
      assert AtStep(o.sys.disk.db, j, run, k);
    }
  }

  lemma {:induction false} PlayKeepsKey(run: nat, steps: seq<Step>, o: Orch, moves: seq<Move>, j: nat, lost: set<nat>)
    requires Inv(o.sys, lost) && j in o.sys.disk.db.jobs
    ensures var db' := Play(run, steps, o, moves).sys.disk.db;
      j in db'.jobs && db'.jobs[j].key == o.sys.disk.db.jobs[j].key
    decreases |moves|
  {
    if moves != [] {
      var m, more := moves[0], lost;
      var o' := Take(run, steps, o, m);
      if m.Deliver? {
        RowKeptOnce(o.sys, m.e, j, lost);
        NextInv(o.sys, m.e, lost);
        more := lost + LostBy(o.sys, m.e);
      } else {
        var es := OwnStatement(run, steps, o, m);
        if es != [] { RowKeptOnce(o.sys, es[0], j, lost); }
        OwnInv(run, steps, o, m, lost);
      }
      hide Inv;
      assert o'.sys == if m.Deliver? then Next(o.sys, m.e) else o'.sys;
      hide Take;
      hide Next;
      PlayKeepsKey(run, steps, o', moves[1..], j, more);
    }
  }

  lemma FinishingCompletes(run: nat, steps: seq<Step>, o: Orch, r: M.Run, t: nat)
    requires Mirrors(o, run, steps, r) && t in r.threads && r.threads[t] == M.Finishing
    ensures StatusOf(Play(run, steps, o, [Proceed(t)]).sys.disk.db, run) == Some(RunCompleted)
  {
    CallShown(run, steps, o, t, r);
    var o' := Take(run, steps, o, Proceed(t));
    assert Play(run, steps, o, [Proceed(t)]) == Play(run, steps, o', []);
    assert M.Next(steps, r, M.Proceed(t)).status == RunCompleted;
    hide Take;
    hide M.Next;
  }

  lemma Stirs(run: nat, steps: seq<Step>, o: Orch, r: M.Run, lost: set<nat>) returns (moves: seq<Move>)
    requires Inv(o.sys, lost) && Mirrors(o, run, steps, r) && DistinctIds(steps) && KnownDeps(steps) && r.status == RunCancelled
    requires !(C.Idle(steps, r) && NoneReturns(o.sys, run))
    ensures AllForeign(run, moves) && StatusOf(Play(run, steps, o, moves).sys.disk.db, run) != Some(RunCancelled)
  {
    hide Inv;
    hide Mirrors;
    hide Returns;
    hide C.Coming;
    if t :| t in r.threads && r.threads[t] == M.Finishing {
      FinishingCompletes(run, steps, o, r, t);
      moves := [Proceed(t)];
    } else if j: nat :| AtRun(o.sys.disk.db, j, run) && Returns(o.sys, j) {
      moves := ReturningFails(run, steps, o, r, j, lost);
    } else {
      var k: nat :| C.Coming(steps, r, k);
      var first, r', i, lost' := ComingReturns(run, steps, o, r, k, lost);
      var rest := ReturningFails(run, steps, Play(run, steps, o, first), r', i, lost');
      PlayJoin(run, steps, o, first, rest);
      moves := first + rest;
    }
  }

  ghost predicate StaysCancelled(run: nat, steps: seq<Step>, o: Orch) {
    forall moves :: AllForeign(run, moves) ==> StatusOf(Play(run, steps, o, moves).sys.disk.db, run) == Some(RunCancelled)
  }

  /** Neither CompleteWorkflowRun nor FailWorkflowRun has a status guard. A cancelled run stays cancelled,
      whatever is delivered, crashed, dropped or rolled back, exactly when no call has seen the total, no
      step is coming, and no job of the run returns. r is the run the tables and the calls show. */
  lemma CancelledStaysIff(run: nat, steps: seq<Step>, o: Orch, r: M.Run, lost: set<nat>)
    requires Inv(o.sys, lost) && Mirrors(o, run, steps, r) && DistinctIds(steps) && KnownDeps(steps) && r.status == RunCancelled
    ensures StaysCancelled(run, steps, o) <==> C.Idle(steps, r) && NoneReturns(o.sys, run)
  {
    if C.Idle(steps, r) && NoneReturns(o.sys, run) {
      forall j | AtRun(o.sys.disk.db, j, run) ensures Dead(o.sys, j) { UnknownIsDead(o.sys, j, lost); }
      hide Inv;
      hide Mirrors;
      forall moves | AllForeign(run, moves) ensures StatusOf(Play(run, steps, o, moves).sys.disk.db, run) == Some(RunCancelled) {
        PlayStill(run, steps, o, moves, r, lost);
      }
    } else {
      var moves := Stirs(run, steps, o, r, lost);
    }
  }

  // ----- from the first start -----

  lemma AfterInv(es: seq<Event>, name: string, steps: seq<Step>, moves: seq<Move>) returns (lost: set<nat>)
    ensures Inv(W.After(es, name, steps, moves).sys, lost)
  {
    StartInv();
    ExecInv(START, es, {});
    var s, e := Exec(START, es), StartRun(name, |steps|);
    assert Next(s, e) == W.Begin(s, name, steps).sys;
    NextInv(s, e, {} + LostIn(START, es));
    hide Inv;
    hide Exec;
    hide Next;
    lost := PlayInv(W.RunId(es), steps, W.Started(es, name, steps), moves, {} + LostIn(START, es) + LostBy(s, e));
  }

  /** After any history and any schedule, for any run found cancelled. */
  lemma CancelledFromStart(es: seq<Event>, name: string, steps: seq<Step>, moves: seq<Move>) returns (r: M.Run)
    requires DistinctIds(steps) && KnownDeps(steps) && AllForeign(W.RunId(es), moves)
    requires StatusOf(W.After(es, name, steps, moves).sys.disk.db, W.RunId(es)) == Some(RunCancelled)
    ensures Mirrors(W.After(es, name, steps, moves), W.RunId(es), steps, r)
    ensures StaysCancelled(W.RunId(es), steps, W.After(es, name, steps, moves))
      <==> C.Idle(steps, r) && NoneReturns(W.After(es, name, steps, moves).sys, W.RunId(es))
  {
    var acts := W.TablesRun(es, name, steps, moves);
    r := M.Exec(steps, M.Init(steps), acts);
    var lost := AfterInv(es, name, steps, moves);
    hide Inv;
    hide W.After;
    hide M.Exec;
    CancelledStaysIff(W.RunId(es), steps, W.After(es, name, steps, moves), r, lost);
  }

  lemma {:induction false} PlayDead(run: nat, steps: seq<Step>, o: Orch, moves: seq<Move>, j: nat, lost: set<nat>)
    requires Inv(o.sys, lost) && Dead(o.sys, j)
    ensures var s := Play(run, steps, o, moves).sys;
      Dead(s, j) && AtMostCancelled(o.sys.disk.db.jobs[j], s.disk.db.jobs[j])
    decreases |moves|
  {
    hide Gone;
    hide InFlight;
    if moves != [] {
      var m, more := moves[0], lost;
      var o' := Take(run, steps, o, m);
      if m.Deliver? {
        DeadStays(o.sys, m.e, j, lost);
        NextInv(o.sys, m.e, lost);
        more := lost + LostBy(o.sys, m.e);
      } else {
        var es := OwnStatement(run, steps, o, m);
        if es != [] { DeadStays(o.sys, es[0], j, lost); }
        OwnInv(run, steps, o, m, lost);
      }
      hide Inv;
      assert o'.sys == if m.Deliver? then Next(o.sys, m.e) else o'.sys;
      hide Take;
      hide Next;
      PlayDead(run, steps, o', moves[1..], j, more);
    }
  }

  /** A job of the run that is not completed and does not return strands it: as long as no completed step is
      dispatched again or put back, the run never becomes completed. */
  lemma StrandedRun(es: seq<Event>, name: string, steps: seq<Step>, moves: seq<Move>, more: seq<Move>, j: nat, k: nat)
    requires DistinctIds(steps) && KnownDeps(steps) && AllForeign(W.RunId(es), moves + more)
    requires W.CompletionsStand(es, name, steps, moves + more)
    requires var s := W.After(es, name, steps, moves).sys;
      AtStep(s.disk.db, j, W.RunId(es), k) && s.disk.db.jobs[j].status != Completed && !Returns(s, j)
    ensures StatusOf(W.After(es, name, steps, moves + more).sys.disk.db, W.RunId(es)) != Some(RunCompleted)
  {
    var run, o, o' := W.RunId(es), W.After(es, name, steps, moves), W.After(es, name, steps, moves + more);
    var lost := AfterInv(es, name, steps, moves);
    PlayJoin(run, steps, W.Started(es, name, steps), moves, more);
    UnknownIsDead(o.sys, j, lost);
    PlayDead(run, steps, o, more, j, lost);
    PlayKeepsKey(run, steps, o, more, j, lost);
    assert AtStep(o'.sys.disk.db, j, run, k) && o'.sys.disk.db.jobs[j].status != Completed;
    W.CompletedRunIsDone(es, name, steps, moves + more);
    hide W.After;
    hide W.CompletionsStand;
    hide Inv;
    hide Dead;
    W.SubmittedAreSteps(es, name, steps, moves + more, j, k);
  }
}
