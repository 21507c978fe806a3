/**
  Which jobs can still come back. A job returns when a stream holds it, an outbox row waits for it, the
  queue has it, or its row says running; then some run hands it to a worker. No other job ever returns.
*/
module Revival {
  import opened Prelude
  import opened Types
  import opened Tables
  import opened Delivery
  import opened DeliverySafety
  import opened DeliveryRuns
  import opened Positions
  import Q = QueueState

  // ----- gone for good -----

  /** Not running, and neither the outbox, the queue nor an owner knows the job. */
  ghost predicate Gone(s: Sys, j: nat) {
    && j in s.disk.db.jobs && s.disk.db.jobs[j].status != Running
    && RowCount(s.disk.db.outbox, j) == 0
    && j !in s.disk.q.queued && j !in s.disk.q.payloads
    && j !in s.owner
  }

  ghost predicate InFlight(s: Sys, j: nat) {
    exists w :: w in s.inFlight && s.inFlight[w].id == j
  }

  /** A handler is about a job that is gone only if it cancels the job, or if a stream still holds it. */
  lemma GoneIsNoSubject(s: Sys, e: Event, j: nat, lost: set<nat>)
    requires Inv(s, lost) && Gone(s, j)
    ensures Subject(s, e) == Some(j) ==> e.CancelJob? || e.Disconnect? || (e.Result? && !Accepts(s, e.w))
    ensures Subject(s, e) == Some(j) && !e.CancelJob? ==> InFlight(s, j)
  {
    Q.ConsumeGives(s.disk.q);
  }

  /** What becomes of the row: nothing, or the job is cancelled. */
  ghost predicate AtMostCancelled(row: JobRow, row': JobRow) {
    row' == row || (!Settled(row.status) && row' == row.(status := Cancelled))
  }

  lemma GoneSubject(s: Sys, e: Event, cut: nat, j: nat, lost: set<nat>)
    requires Inv(s, lost) && Gone(s, j) && IsHandler(e) && Subject(s, e) == Some(j) && !e.Disconnect?
    ensures var d := DiskAfter(s, e, cut);
      Gone(s.(disk := d), j) && AtMostCancelled(s.disk.db.jobs[j], d.db.jobs[j])
  {
    GoneIsNoSubject(s, e, j, lost);
    hide Inv;
    if e.CancelJob? { CancelledGone(s, j, cut); }
  }

  lemma CancelledGone(s: Sys, j: nat, cut: nat)
    requires Gone(s, j) && Cancels(s, j)
    ensures var d := CancelDisk(s.disk, j, s.now, cut);
      Gone(s.(disk := d), j) && AtMostCancelled(s.disk.db.jobs[j], d.db.jobs[j])
  {
    MarkJobsCount(s.disk.db.outbox, {j}, s.now, j);
    hide RowCount;
    hide RemoveFirst;
  }

  lemma GoneHandler(s: Sys, e: Event, cut: nat, j: nat, lost: set<nat>)
    requires Inv(s, lost) && Gone(s, j) && IsHandler(e)
    requires e.Disconnect? ==> Subject(s, e) != Some(j)
    ensures Gone(s.(disk := DiskAfter(s, e, cut)), j)
    ensures AtMostCancelled(s.disk.db.jobs[j], DiskAfter(s, e, cut).db.jobs[j])
  {
    if Subject(s, e) != Some(j) {
      HandlerTouches(s, e, cut, j);
    } else {
      GoneSubject(s, e, cut, j, lost);
    }
    hide DiskAfter;
    hide RowCount;
    hide Inv;
  }

  lemma CancelRunGone(s: Sys, run: nat, j: nat)
    requires Gone(s, j)
    ensures var d := s.disk.(db := CancelWorkflowRun(s.disk.db, run, s.now));
      Gone(s.(disk := d), j) && AtMostCancelled(s.disk.db.jobs[j], d.db.jobs[j])
  {
    MarkJobsCount(s.disk.db.outbox, Cancellable(s.disk.db, run), s.now, j);
    hide RowCount;
  }

  lemma GoneElsewhere(s: Sys, e: Event, cut: nat, j: nat, lost: set<nat>)
    requires Inv(s, lost) && Gone(s, j) && !IsHandler(e)
    ensures Gone(s.(disk := DiskAfter(s, e, cut)), j)
    ensures AtMostCancelled(s.disk.db.jobs[j], DiskAfter(s, e, cut).db.jobs[j])
  {
    assert j < s.disk.db.nextJob;
    if IsQuiet(e) {
      QuietTouches(s, e, cut, j);
    } else if e.CancelRun? {
      CancelRunGone(s, e.run, j);
    } else if !e.PromoteDue? {
      var entries := RelayEntries(s.disk);
      NotRelayed(s.disk, j);
      EnqueueAllOther(s.disk.q, entries, j);
      if e.RelayFail? && e.k <= |entries| { EnqueueAllOther(s.disk.q, entries[..e.k], j); }
      MarkIdsCount(s.disk.db.outbox, Rows(entries), s.now, j);
    }
    hide RowCount;
    hide Inv;
    hide MarkIds;
    hide EnqueueAll;
    hide Entries;
  }

  lemma BootKeepsGone(d: Disk, now: int, s: Sys, j: nat)
    requires Gone(s.(disk := d), j)
    ensures Gone(Boot(d, now), j) && Boot(d, now).disk.db.jobs[j] == d.db.jobs[j]
  {
    WithOrphansCount(d.db, d.db.nextJob, j);
    hide RowCount;
    hide WithOrphans;
  }

  lemma OwnerGained(s: Sys, e: Event, j: nat)
    requires j in MemoryAfter(s, e).owner && j !in s.owner
    ensures e.Ready? && Subject(s, e) == Some(j)
  {
    hide Q.Consume;
  }

  /** A job that is gone stays gone unless a stream that still holds it breaks. */
  lemma GoneStays(s: Sys, e: Event, j: nat, lost: set<nat>)
    requires Inv(s, lost) && Gone(s, j)
    requires Handler(e).Disconnect? ==> Subject(s, Handler(e)) != Some(j)
    ensures Gone(Next(s, e), j) && AtMostCancelled(s.disk.db.jobs[j], Next(s, e).disk.db.jobs[j])
  {
    hide DiskAfter;
    hide RowCount;
    hide Subject;
    var h, cut := Handler(e), if e.Crash? then e.cut else ALL;
    if IsHandler(h) { GoneHandler(s, h, cut, j, lost); } else { GoneElsewhere(s, h, cut, j, lost); }
    if e.Crash? {
      BootKeepsGone(DiskAfter(s, h, cut), s.now, s, j);
    } else {
      GoneIsNoSubject(s, e, j, lost);
      if j in MemoryAfter(s, e).owner { OwnerGained(s, e, j); }
    }
    hide DiskAfter;
    hide MemoryAfter;
    hide Inv;
    hide RowCount;
  }

  ghost predicate Dead(s: Sys, j: nat) { Gone(s, j) && !InFlight(s, j) }

  lemma FlightGained(s: Sys, e: Event, j: nat)
    requires InFlight(MemoryAfter(s, e), j) && !InFlight(s, j)
    ensures e.Ready? && Subject(s, e) == Some(j)
  {
    hide Q.Consume;
  }

  lemma DeadStays(s: Sys, e: Event, j: nat, lost: set<nat>)
    requires Inv(s, lost) && Dead(s, j)
    ensures Dead(Next(s, e), j) && AtMostCancelled(s.disk.db.jobs[j], Next(s, e).disk.db.jobs[j])
    ensures Subject(s, e) == Some(j) ==> e.CancelJob?
  {
    GoneIsNoSubject(s, e, j, lost);
    GoneIsNoSubject(s, Handler(e), j, lost);
    GoneStays(s, e, j, lost);
    if !e.Crash? && InFlight(MemoryAfter(s, e), j) { FlightGained(s, e, j); }
    hide Inv;
    hide Gone;
    hide DiskAfter;
  }

  lemma {:induction false} DeadForGood(s: Sys, es: seq<Event>, j: nat, lost: set<nat>)
    requires Inv(s, lost) && Dead(s, j)
    ensures Dead(Exec(s, es), j) && Inv(Exec(s, es), lost + LostIn(s, es))
    ensures AtMostCancelled(s.disk.db.jobs[j], Exec(s, es).disk.db.jobs[j])
    decreases |es|
  {
    ExecInv(s, es, lost);
    hide Inv;
    hide Next;
    hide Gone;
    hide InFlight;
    if es != [] {
      DeadStays(s, es[0], j, lost);
      NextInv(s, es[0], lost);
      DeadForGood(Next(s, es[0]), es[1..], j, lost + LostBy(s, es[0]));
    }
  }

  // ----- a job that returns -----

  /** Known: a stream holds the job, an outbox row waits for it, or the queue has it. */
  ghost predicate Known(s: Sys, j: nat) {
    InFlight(s, j) || RowCount(s.disk.db.outbox, j) > 0 || j in s.disk.q.queued
  }

  ghost predicate Returns(s: Sys, j: nat) { Known(s, j) || Is(s, j, Running) }

  lemma UnknownIsDead(s: Sys, j: nat, lost: set<nat>)
    requires Inv(s, lost) && j in s.disk.db.jobs && !Returns(s, j)
    ensures Dead(s, j)
  {
    OwnedIsHeld(s, j);
  }

  lemma OwnedIsHeld(s: Sys, j: nat)
    requires OwnersOk(s)
    ensures j in s.owner ==> InFlight(s, j)
  {
    assert j in s.owner ==> s.owner[j] in s.inFlight && s.inFlight[s.owner[j]].id == j;
  }

  /** Handing out another job leaves j waiting in ready, and ready shorter. */
  lemma {:induction false} ConsumeLeaves(q: Q.Queue, j: nat)
    requires j in q.ready && j in q.payloads && forall i :: i in q.payloads ==> q.payloads[i].id == i
    ensures Q.Consume(q).1.Some?
    ensures Q.Consume(q).1.value.id != j ==> j in Q.Consume(q).0.ready && |Q.Consume(q).0.ready| < |q.ready|
    decreases |q.ready|
  {
    var rest, id := q.ready[..|q.ready| - 1], q.ready[|q.ready| - 1];
    assert q.ready == rest + [id];
    if id !in q.payloads {
      assert RemoveFirst([id] + q.processing, id) == q.processing;
      ConsumeLeaves(q.(ready := rest), j);
    }
  }

  /** Worker w, and no other, holds job j and owns it. */
  ghost predicate Held(s: Sys, w: string, j: nat) {
    && s.inFlight.Keys == {w} && s.inFlight[w].id == j
    && j in s.owner && s.owner[j] == w && Is(s, j, Running)
  }

  /** Nothing in flight, job j queued with a payload that carries this retry count. */
  ghost predicate Waiting(s: Sys, j: nat, retryCount: nat) {
    && s.inFlight == map[] && j in s.disk.q.queued && j in s.disk.q.payloads && s.disk.q.payloads[j].retryCount == retryCount
  }

  /** No event of the series is a statement of TriggerWorkflow or Advance. */
  predicate Outside(es: seq<Event>) {
    forall e :: e in es ==> !Handler(e).SubmitStep? && !Handler(e).CountStep? && !Handler(e).CloseRun?
  }

  lemma OutsideTick()
    ensures Outside([Crash(Tick(0), 0)])
  {
  }

  lemma OutsideConcat(a: seq<Event>, b: seq<Event>)
    requires Outside(a) && Outside(b)
    ensures Outside(a + b)
  {
  }

  lemma NextInvKept(s: Sys, e: Event, lost: set<nat>)
    requires Inv(s, lost) && !LosesJob(s, e)
    ensures Inv(Next(s, e), lost)
  {
    NextInv(s, e, lost);
    assert lost + LostBy(s, e) == lost;
  }

  /** A failed send of another job: ready gets shorter, everything about j stays. */
  lemma PassOver(s: Sys, w: string, j: nat, retryCount: nat, lost: set<nat>)
    requires Inv(s, lost) && Waiting(s, j, retryCount) && j in s.disk.q.ready
    requires Subject(s, Ready(w, false)) != Some(j)
    ensures var s' := Next(s, Ready(w, false));
      Waiting(s', j, retryCount) && j in s'.disk.q.ready && |s'.disk.q.ready| < |s.disk.q.ready|
  {
    ConsumeLeaves(s.disk.q, j);
    HandlerTouches(s, Ready(w, false), ALL, j);
    hide RowCount;
    hide Q.Consume;
  }

  /** What Ready leaves when it hands out a job whose row exists. */
  lemma TakenNow(s: Sys, w: string, job: Job)
    requires w !in s.inFlight && Q.Consume(s.disk.q).1 == Some(job) && job.id in s.disk.db.jobs
    ensures var s' := Next(s, Ready(w, true));
      && s'.inFlight == s.inFlight[w := job] && s'.owner == s.owner[job.id := w]
      && Is(s', job.id, Running) && s'.disk.db.jobs[job.id].retryCount == job.retryCount
  {
    hide Q.Consume;
  }

  lemma HandOver(s: Sys, w: string, j: nat, retryCount: nat, lost: set<nat>)
    requires Inv(s, lost) && Waiting(s, j, retryCount) && Subject(s, Ready(w, true)) == Some(j)
    ensures var s' := Next(s, Ready(w, true)); Held(s', w, j) && s'.disk.db.jobs[j].retryCount == retryCount
  {
    hide Q.Consume;
    hide RowCount;
    hide Next;
    Q.ConsumeGives(s.disk.q);
    assert CopyOk(s.disk.db, s.disk.q.payloads[j]);
    hide Inv;
    TakenNow(s, w, s.disk.q.payloads[j]);
  }

  lemma HandNow(s: Sys, w: string, j: nat, retryCount: nat, lost: set<nat>)
    requires Inv(s, lost) && Waiting(s, j, retryCount) && Subject(s, Ready(w, true)) == Some(j)
    ensures var s' := Exec(s, [Ready(w, true)]);
      Inv(s', lost) && Held(s', w, j) && s'.disk.db.jobs[j].retryCount == retryCount
  {
    HandOver(s, w, j, retryCount, lost);
    NextInvKept(s, Ready(w, true), lost);
    ExecOne(s, Ready(w, true));
    hide Next;
    hide Inv;
    hide Held;
  }

  lemma PassNow(s: Sys, w: string, j: nat, retryCount: nat, lost: set<nat>)
    requires Inv(s, lost) && Waiting(s, j, retryCount) && j in s.disk.q.ready && Subject(s, Ready(w, false)) != Some(j)
    ensures var s' := Exec(s, [Ready(w, false)]);
      Inv(s', lost) && Waiting(s', j, retryCount) && j in s'.disk.q.ready && |s'.disk.q.ready| < |s.disk.q.ready|
  {
    PassOver(s, w, j, retryCount, lost);
    NextInvKept(s, Ready(w, false), lost);
    ExecOne(s, Ready(w, false));
    hide Next;
    hide Inv;
    hide Waiting;
  }

  lemma SameSubject(s: Sys, w: string)
    ensures Subject(s, Ready(w, true)) == Subject(s, Ready(w, false))
    ensures Outside([Ready(w, true)]) && Outside([Ready(w, false)])
  {
  }

  /** With every stream idle, a job in ready is reached by failed sends of the jobs before it. */
  lemma {:induction false} ReadyHands(s: Sys, w: string, j: nat, retryCount: nat, lost: set<nat>) returns (es: seq<Event>)
    requires Inv(s, lost) && Waiting(s, j, retryCount) && j in s.disk.q.ready
    ensures Outside(es) && Inv(Exec(s, es), lost)
    ensures Held(Exec(s, es), w, j) && Exec(s, es).disk.db.jobs[j].retryCount == retryCount
    decreases |s.disk.q.ready|
  {
    hide Inv;
    hide Held;
    hide Waiting;
    hide Subject;
    hide Exec;
    hide Outside;
    SameSubject(s, w);
    if Subject(s, Ready(w, true)) == Some(j) {
      es := [Ready(w, true)];
      HandNow(s, w, j, retryCount, lost);
    } else {
      es := [Ready(w, false)];
      PassNow(s, w, j, retryCount, lost);
      var rest := ReadyHands(Exec(s, es), w, j, retryCount, lost);
      ExecConcat(s, es, rest);
      OutsideConcat(es, rest);
      es := es + rest;
    }
  }

  lemma {:induction false} PushAllHas(ready: seq<nat>, batch: seq<nat>, j: nat)
    ensures j in batch || j in ready ==> j in Q.PushAll(ready, batch)
    decreases |batch|
  {
    if batch != [] { PushAllHas([batch[0]] + ready, batch[1..], j); }
  }

  /** A delayed job becomes due and is promoted. */
  lemma DelayedComes(s: Sys, j: nat, retryCount: nat, lost: set<nat>) returns (es: seq<Event>)
    requires Inv(s, lost) && Waiting(s, j, retryCount) && j in s.disk.q.delayed
    ensures Outside(es) && Inv(Exec(s, es), lost)
    ensures Waiting(Exec(s, es), j, retryCount) && j in Exec(s, es).disk.q.ready
  {
    var due := (s.disk.q.delayed[j] + 1) * 1_000_000;
    var d: nat := if due > s.now then due - s.now else 0;
    var s1 := Next(s, Tick(d));
    var batch := Q.DueBatchExists(s.disk.q.delayed, Q.Millis(s1.now));
    PushAllHas(s.disk.q.ready, batch, j);
    NextInvKept(s, Tick(d), lost);
    NextInvKept(s1, PromoteDue(batch), lost);
    ExecOne(s, Tick(d));
    ExecOne(s1, PromoteDue(batch));
    hide Inv;
    ExecConcat(s, [Tick(d)], [PromoteDue(batch)]);
    es := [Tick(d)] + [PromoteDue(batch)];
  }

  lemma WaitingHands(s: Sys, w: string, j: nat, retryCount: nat, lost: set<nat>) returns (es: seq<Event>)
    requires Inv(s, lost) && Waiting(s, j, retryCount) && (j in s.disk.q.ready || j in s.disk.q.delayed)
    ensures Outside(es) && Inv(Exec(s, es), lost)
    ensures Held(Exec(s, es), w, j) && Exec(s, es).disk.db.jobs[j].retryCount == retryCount
  {
    hide Inv;
    hide Next;
    hide Held;
    if j in s.disk.q.ready {
      es := ReadyHands(s, w, j, retryCount, lost);
    } else {
      var first := DelayedComes(s, j, retryCount, lost);
      hide Waiting;
      var rest := ReadyHands(Exec(s, first), w, j, retryCount, lost);
      ExecConcat(s, first, rest);
      es := first + rest;
    }
  }

  lemma AfterBoot(s: Sys, j: nat, lost: set<nat>)
    requires Inv(s, lost) && j in s.disk.q.queued
    ensures var s' := Next(s, Crash(Tick(0), 0));
      Waiting(s', j, s.disk.q.payloads[j].retryCount) && (j in s'.disk.q.ready || j in s'.disk.q.delayed)
  {
    Q.Count(s.disk.q.ready, j);
    Q.Count(s.disk.q.processing, j);
    assert Q.Places(s.disk.q, j) >= 1;
    hide WithOrphans;
  }

  /** A queued job is handed out after a restart at the latest. */
  lemma QueuedHands(s: Sys, w: string, j: nat, lost: set<nat>) returns (es: seq<Event>)
    requires Inv(s, lost) && j in s.disk.q.queued
    ensures Outside(es) && Inv(Exec(s, es), lost) && Held(Exec(s, es), w, j)
  {
    var e := Crash(Tick(0), 0);
    QueuedPayload(s, j, lost);
    AfterBoot(s, j, lost);
    hide Inv;
    hide LosesJob;
    assert !LosesJob(s, e) by { CrashOfTick(s); }
    NextInvKept(s, e, lost);
    hide Next;
    hide Held;
    hide Waiting;
    hide Exec;
    hide Outside;
    OutsideTick();
    var rest := WaitingHands(Next(s, e), w, j, s.disk.q.payloads[j].retryCount, lost);
    ExecOne(s, e);
    ExecConcat(s, [e], rest);
    OutsideConcat([e], rest);
    es := [e] + rest;
  }

  lemma CrashOfTick(s: Sys)
    ensures !LosesJob(s, Crash(Tick(0), 0))
  {
  }

  lemma QueuedPayload(s: Sys, j: nat, lost: set<nat>)
    requires Inv(s, lost) && j in s.disk.q.queued
    ensures j in s.disk.q.payloads
  {
  }

  lemma DropQueues(s: Sys, v: string, j: nat, lost: set<nat>)
    requires Inv(s, lost) && v in s.inFlight && s.inFlight[v].id == j
    ensures Inv(Next(s, Disconnect(v)), lost) && j in Next(s, Disconnect(v)).disk.q.queued
  {
    NextInvKept(s, Disconnect(v), lost);
  }

  lemma RelayQueues(s: Sys, j: nat, lost: set<nat>)
    requires Inv(s, lost) && RowCount(s.disk.db.outbox, j) > 0
    ensures Inv(Next(s, RelayPass), lost) && j in Next(s, RelayPass).disk.q.queued
  {
    NextInvKept(s, RelayPass, lost);
    RelayWrite(s.disk, s.now, lost);
  }

  lemma ResetEnrols(s: Sys, j: nat, lost: set<nat>)
    requires Inv(s, lost) && Is(s, j, Running)
    ensures var s' := Next(s, Crash(Tick(0), 0)); Inv(s', lost) && RowCount(s'.disk.db.outbox, j) > 0
  {
    NextInvKept(s, Crash(Tick(0), 0), lost);
    WithOrphansCount(s.disk.db, s.disk.db.nextJob, j);
  }

  /** Any job that returns gets into the queue. */
  lemma ReturnsQueued(s: Sys, j: nat, lost: set<nat>) returns (es: seq<Event>)
    requires Inv(s, lost) && Returns(s, j)
    ensures Outside(es) && Inv(Exec(s, es), lost) && j in Exec(s, es).disk.q.queued
  {
    hide Inv;
    hide RowCount;
    if j in s.disk.q.queued {
      es := [];
    } else if InFlight(s, j) {
      var v :| v in s.inFlight && s.inFlight[v].id == j;
      es := [Disconnect(v)];
      DropQueues(s, v, j, lost);
      ExecOne(s, Disconnect(v));
    } else if RowCount(s.disk.db.outbox, j) > 0 {
      es := [RelayPass];
      RelayQueues(s, j, lost);
      ExecOne(s, RelayPass);
    } else {
      var e := Crash(Tick(0), 0);
      ResetEnrols(s, j, lost);
      RelayQueues(Next(s, e), j, lost);
      ExecOne(s, e);
      ExecOne(Next(s, e), RelayPass);
      ExecConcat(s, [e], [RelayPass]);
      es := [e] + [RelayPass];
    }
  }

  /** And from there to a worker. */
  lemma ReturnsHeld(s: Sys, w: string, j: nat, lost: set<nat>) returns (es: seq<Event>)
    requires Inv(s, lost) && Returns(s, j)
    ensures Outside(es) && Inv(Exec(s, es), lost) && Held(Exec(s, es), w, j)
  {
    hide Inv;
    hide Held;
    hide Next;
    var first := ReturnsQueued(s, j, lost);
    var rest := QueuedHands(Exec(s, first), w, j, lost);
    ExecConcat(s, first, rest);
    es := first + rest;
  }

  // ----- what the worker can make of it -----

  lemma HeldCompletes(s: Sys, w: string, j: nat)
    requires Held(s, w, j)
    ensures Is(Next(s, Result(w, true, "")), j, Completed)
  {
    assert Accepts(s, w) && s.inFlight[w].id == j;
    hide RowCount;
    hide RemoveFirst;
  }

  /** Some run from here completes the job. */
  ghost predicate Completable(s: Sys, j: nat) {
    exists es :: Is(Exec(s, es), j, Completed)
  }

  lemma Witness(s: Sys, es: seq<Event>, j: nat)
    requires Is(Exec(s, es), j, Completed)
    ensures Completable(s, j)
  {
    hide Exec;
  }

  /** From any reachable state, a job has a run that completes it exactly when it returns, or is completed
      already; so an unsettled job that no crash lost always has one. */
  lemma CanCompleteIff(s: Sys, j: nat, lost: set<nat>)
    requires Inv(s, lost) && j in s.disk.db.jobs
    ensures Completable(s, j) <==> Is(s, j, Completed) || Returns(s, j)
    ensures !Settled(s.disk.db.jobs[j].status) && j !in lost ==> Returns(s, j)
  {
    if Is(s, j, Completed) {
      var none: seq<Event> := [];
      Witness(s, none, j);
    } else if Returns(s, j) {
      var first := ReturnsHeld(s, "w", j, lost);
      var s1 := Exec(s, first);
      HeldCompletes(s1, "w", j);
      ExecOne(s1, Result("w", true, ""));
      ExecConcat(s, first, [Result("w", true, "")]);
      Witness(s, first + [Result("w", true, "")], j);
    } else {
      UnknownIsDead(s, j, lost);
      forall es ensures !Is(Exec(s, es), j, Completed) { DeadForGood(s, es, j, lost); }
    }
  }

  /** The same from the first start: after any history, an unsettled job can still be completed exactly when
      it returns, and it does unless a crash lost it. */
  lemma UnsettledCanComplete(es: seq<Event>, j: nat)
    requires j in Exec(START, es).disk.db.jobs && !Settled(Exec(START, es).disk.db.jobs[j].status)
    ensures Completable(Exec(START, es), j) <==> Returns(Exec(START, es), j)
    ensures j !in LostIn(START, es) ==> Completable(Exec(START, es), j)
  {
    StartInv();
    ExecInv(START, es, {});
    hide Exec;
    hide Inv;
    CanCompleteIff(Exec(START, es), j, {} + LostIn(START, es));
  }

  /** The job of the losing crash is lost for good. */
  lemma LostForGood(s: Sys, e: Event, lost: set<nat>)
    requires Inv(s, lost) && LosesJob(s, e)
    ensures !Completable(Next(s, e), s.inFlight[e.during.w].id)
  {
    var j := s.inFlight[e.during.w].id;
    assert CopyOk(s.disk.db, s.inFlight[e.during.w]);
    NextInv(s, e, lost);
    WithOrphansCount(DiskAfter(s, e.during, e.cut).db, s.disk.db.nextJob, j);
    assert !Returns(Next(s, e), j) && j in Next(s, e).disk.db.jobs && !Is(Next(s, e), j, Completed);
    hide Next;
    hide Inv;
    CanCompleteIff(Next(s, e), j, lost + LostBy(s, e));
  }

  /** The worker fails once, the job waits out its delay, and the worker gets it again. */
  lemma FailsOnce(s: Sys, w: string, j: nat, lost: set<nat>) returns (es: seq<Event>)
    requires Inv(s, lost) && Held(s, w, j) && s.disk.db.jobs[j].retryCount < s.disk.db.jobs[j].maxRetries
    ensures Outside(es) && Inv(Exec(s, es), lost) && Held(Exec(s, es), w, j)
    ensures Exec(s, es).disk.db.jobs[j].retryCount == s.disk.db.jobs[j].retryCount + 1
    ensures Exec(s, es).disk.db.jobs[j].maxRetries == s.disk.db.jobs[j].maxRetries
  {
    var e := Result(w, false, "");
    HeldRetries(s, w, j);
    NextInvKept(s, e, lost);
    hide Next;
    hide Inv;
    hide Waiting;
    hide LosesJob;
    var rest := WaitingHands(Next(s, e), w, j, s.disk.db.jobs[j].retryCount + 1, lost);
    SameLimit(s, e, rest, j, lost);
    hide Held;
    ExecOne(s, e);
    ExecConcat(s, [e], rest);
    es := [e] + rest;
  }

  /** A worker that only fails uses up the retries of the job it holds: at last it holds the job with none left. */
  lemma {:induction false} HeldExhausts(s: Sys, w: string, j: nat, lost: set<nat>) returns (es: seq<Event>)
    requires Inv(s, lost) && Held(s, w, j)
    ensures Outside(es) && Inv(Exec(s, es), lost) && Held(Exec(s, es), w, j)
    ensures Exec(s, es).disk.db.jobs[j].retryCount >= Exec(s, es).disk.db.jobs[j].maxRetries
    decreases s.disk.db.jobs[j].maxRetries - s.disk.db.jobs[j].retryCount
  {
    hide Next;
    hide Inv;
    if s.disk.db.jobs[j].retryCount >= s.disk.db.jobs[j].maxRetries {
      es := [];
    } else {
      es := FailsOnce(s, w, j, lost);
      hide Exec;
      var rest := HeldExhausts(Exec(s, es), w, j, lost);
      ExecConcat(s, es, rest);
      es := es + rest;
    }
  }

  lemma HeldRetries(s: Sys, w: string, j: nat)
    requires Held(s, w, j) && s.disk.db.jobs[j].retryCount < s.disk.db.jobs[j].maxRetries
    ensures var s' := Next(s, Result(w, false, ""));
      Waiting(s', j, s.disk.db.jobs[j].retryCount + 1) && j in s'.disk.q.delayed
  {
    assert Accepts(s, w);
    assert s.inFlight - {w} == map[];
    hide RowCount;
    hide RemoveFirst;
    hide Backoff.RetryDelay;
  }

  lemma {:induction false} LimitKept(s: Sys, es: seq<Event>, j: nat, lost: set<nat>)
    requires Inv(s, lost) && j in s.disk.db.jobs
    ensures RowKept(s.disk.db, Exec(s, es).disk.db, j)
    decreases |es|
  {
    if es != [] {
      NextInv(s, es[0], lost);
      RowKeptOnce(s, es[0], j, lost);
      hide Next;
      hide Inv;
      LimitKept(Next(s, es[0]), es[1..], j, lost + LostBy(s, es[0]));
    }
  }

  lemma RowKeptOnce(s: Sys, e: Event, j: nat, lost: set<nat>)
    requires Inv(s, lost) && j in s.disk.db.jobs
    ensures RowKept(s.disk.db, Next(s, e).disk.db, j)
  {
    DiskKeepsRow(s, Handler(e), Writes(e), j);
    hide DiskAfter;
    hide MemoryAfter;
    if e.Crash? { RebootKeepsRow(DiskAfter(s, e.during, e.cut), s.now, j); }
    hide Boot;
    hide Inv;
  }

  lemma SameLimit(s: Sys, e: Event, es: seq<Event>, j: nat, lost: set<nat>)
    requires Inv(s, lost) && Inv(Next(s, e), lost) && j in s.disk.db.jobs
    ensures j in Exec(Next(s, e), es).disk.db.jobs
    ensures Exec(Next(s, e), es).disk.db.jobs[j].maxRetries == s.disk.db.jobs[j].maxRetries
  {
    RowKeptOnce(s, e, j, lost);
    hide Next;
    hide Inv;
    LimitKept(Next(s, e), es, j, lost);
  }
}
