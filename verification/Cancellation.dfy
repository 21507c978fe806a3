/** When a settled job is settled for good; in particular, when CancelJob is final. */
module Cancellation {
  import opened Prelude
  import opened Types
  import opened Tables
  import opened Delivery
  import opened DeliveryRuns
  import opened Revival

  /** The whole truth about settled jobs: in any reachable state, no later run, crashes, restarts and
      rolled-back relay passes included, changes the status of a settled job exactly when no stream
      holds it, no outbox row waits for it and the queue does not know it. */
  lemma SettledForGoodIff(s: Sys, j: nat, lost: set<nat>)
    requires Inv(s, lost) && j in s.disk.db.jobs && Settled(s.disk.db.jobs[j].status)
    ensures !Known(s, j) <==> forall es :: Is(Exec(s, es), j, s.disk.db.jobs[j].status)
  {
    if !Known(s, j) {
      UnknownIsDead(s, j, lost);
      forall es ensures Is(Exec(s, es), j, s.disk.db.jobs[j].status) { DeadForGood(s, es, j, lost); }
    } else {
      var es := ReturnsHeld(s, "w", j, lost);
      assert Is(Exec(s, es), j, Running);
    }
  }

  /** Nor is such a job ever handed to a worker again. */
  lemma NeverDispatched(s: Sys, j: nat, es: seq<Event>, e: Event, lost: set<nat>)
    requires Inv(s, lost) && j in s.disk.db.jobs && Settled(s.disk.db.jobs[j].status) && !Known(s, j)
    ensures j in Exec(s, es).disk.db.jobs && Exec(s, es).disk.db.jobs[j] == s.disk.db.jobs[j]
    ensures Subject(Exec(s, es), e) != Some(j) && j !in Exec(s, es).owner && !InFlight(Exec(s, es), j)
  {
    UnknownIsDead(s, j, lost);
    DeadForGood(s, es, j, lost);
    hide Inv;
    DeadStays(Exec(s, es), e, j, lost + LostIn(s, es));
  }

  // ----- after CancelJob, after CancelWorkflowRunAtomic, after a completion -----

  lemma CancelWithdraws(s: Sys, j: nat, lost: set<nat>)
    requires Inv(s, lost) && Cancels(s, j)
    ensures var s' := Next(s, CancelJob(j));
      && Is(s', j, Cancelled) && (Known(s', j) <==> InFlight(s, j))
  {
    MarkJobsCount(s.disk.db.outbox, {j}, s.now, j);
    hide RowCount;
  }

  /** After CancelJob succeeds on a job no stream holds, no later run changes its status or
      dispatches it, even if its id still stands in ready. */
  lemma CancelIsFinal(s: Sys, j: nat, es: seq<Event>, e: Event, lost: set<nat>)
    requires Inv(s, lost) && Cancels(s, j) && !InFlight(s, j)
    ensures var s' := Exec(Next(s, CancelJob(j)), es);
      && j in s'.disk.db.jobs && s'.disk.db.jobs[j].status == Cancelled
      && j !in s'.owner && !InFlight(s', j) && Subject(s', e) != Some(j)
  {
    CancelWithdraws(s, j, lost);
    NextInv(s, CancelJob(j), lost);
    hide Next;
    hide Inv;
    NeverDispatched(Next(s, CancelJob(j)), j, es, e, lost + LostBy(s, CancelJob(j)));
  }

  /** And only then: a stream that holds the job revives it by breaking. */
  lemma CancelFinalIff(s: Sys, j: nat, lost: set<nat>)
    requires Inv(s, lost) && Cancels(s, j)
    ensures !InFlight(s, j) <==> forall es :: Is(Exec(Next(s, CancelJob(j)), es), j, Cancelled)
  {
    CancelWithdraws(s, j, lost);
    NextInv(s, CancelJob(j), lost);
    hide Next;
    hide Inv;
    SettledForGoodIff(Next(s, CancelJob(j)), j, lost + LostBy(s, CancelJob(j)));
  }

  lemma CancelRunWithdraws(s: Sys, run: nat, j: nat)
    requires run in s.disk.db.runs && s.disk.db.runs[run].status == RunRunning && j in Cancellable(s.disk.db, run)
    ensures var s' := Next(s, CancelRun(run));
      && Is(s', j, Cancelled) && (Known(s', j) <==> InFlight(s, j) || j in s.disk.q.queued)
  {
    MarkJobsCount(s.disk.db.outbox, Cancellable(s.disk.db, run), s.now, j);
    hide RowCount;
  }

  /** CancelWorkflowRunAtomic withdraws the outbox row but leaves Redis alone: a job it cancels stays
      cancelled exactly when the job had not reached the queue and no stream holds it. */
  lemma CancelRunFinalIff(s: Sys, run: nat, j: nat, lost: set<nat>)
    requires Inv(s, lost)
    requires run in s.disk.db.runs && s.disk.db.runs[run].status == RunRunning && j in Cancellable(s.disk.db, run)
    ensures !InFlight(s, j) && j !in s.disk.q.queued <==> forall es :: Is(Exec(Next(s, CancelRun(run)), es), j, Cancelled)
  {
    CancelRunWithdraws(s, run, j);
    NextInv(s, CancelRun(run), lost);
    hide Next;
    hide Inv;
    SettledForGoodIff(Next(s, CancelRun(run)), j, lost + LostBy(s, CancelRun(run)));
  }

  lemma SuccessWithdraws(s: Sys, w: string, output: string)
    requires Accepts(s, w)
    ensures var s', j := Next(s, Result(w, true, output)), s.inFlight[w].id;
      && Is(s', j, Completed)
      && (Known(s', j) <==> RowCount(s.disk.db.outbox, j) > 0 || exists v :: v in s.inFlight && v != w && s.inFlight[v].id == j)
  {
    var s', j := Next(s, Result(w, true, output)), s.inFlight[w].id;
    assert s'.inFlight == s.inFlight - {w};
    hide RowCount;
    hide RemoveFirst;
    if InFlight(s', j) {
      var v :| v in s'.inFlight && s'.inFlight[v].id == j;
      assert v in s.inFlight && v != w;
    }
    if v :| v in s.inFlight && v != w && s.inFlight[v].id == j { assert v in s'.inFlight; }
  }

  /** An accepted success is final exactly when no outbox row of the job waits, as one may after a
      restart, and no other stream still holds the job. */
  lemma CompletionFinalIff(s: Sys, w: string, output: string, lost: set<nat>)
    requires Inv(s, lost) && Accepts(s, w)
    ensures var j := s.inFlight[w].id;
      (RowCount(s.disk.db.outbox, j) == 0 && forall v :: v in s.inFlight && v != w ==> s.inFlight[v].id != j)
      <==> forall es :: Is(Exec(Next(s, Result(w, true, output)), es), j, Completed)
  {
    SuccessWithdraws(s, w, output);
    NextInv(s, Result(w, true, output), lost);
    hide Next;
    hide Inv;
    hide RowCount;
    SettledForGoodIff(Next(s, Result(w, true, output)), s.inFlight[w].id, lost + LostBy(s, Result(w, true, output)));
  }
}
