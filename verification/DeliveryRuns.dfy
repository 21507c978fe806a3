/** The invariant of every reachable state, and the theorem that no job is ever lost. */
module DeliveryRuns {
  import opened Prelude
  import opened Types
  import opened Tables
  import opened Delivery
  import opened DeliverySafety
  import Q = QueueState

  ghost predicate Owned(d: Disk, j: nat) {
    j in d.db.jobs && ((d.db.jobs[j].status == Running && j in d.q.queued) || d.db.jobs[j].status == Cancelled)
  }

  /** Ownership and heartbeats cover the same jobs; an owner holds its job in flight, and it is the only
      job that worker owns. */
  ghost predicate OwnersOk(s: Sys) {
    && s.owner.Keys == s.lastSeen.Keys
    && forall j :: j in s.owner ==> s.owner[j] in s.inFlight && s.inFlight[s.owner[j]].id == j
  }

  ghost predicate MemoryOk(s: Sys) {
    && OwnersOk(s)
    && (forall j :: j in s.owner ==> Owned(s.disk, j))
    && (forall w :: w in s.inFlight ==> CopyOk(s.disk.db, s.inFlight[w]))
  }

  ghost predicate Inv(s: Sys, lost: set<nat>) { Durable(s.disk, lost) && MemoryOk(s) }

  /** The one crash that loses a job: between the two writes of the disconnect path, when the job has
      meanwhile been settled and so is neither queued nor in the outbox. */
  ghost predicate LosesJob(s: Sys, e: Event) {
    && e.Crash? && e.during.Disconnect? && e.cut == 1
    && e.during.w in s.inFlight
    && s.inFlight[e.during.w].id !in s.disk.q.queued
    && RowCount(s.disk.db.outbox, s.inFlight[e.during.w].id) == 0
  }

  ghost function LostBy(s: Sys, e: Event): set<nat> {
    if LosesJob(s, e) then {s.inFlight[e.during.w].id} else {}
  }

  lemma DiskDurable(s: Sys, e: Event, cut: nat, lost: set<nat>)
    requires Inv(s, lost)
    ensures Durable(DiskAfter(s, e, cut), lost + LostBy(s, Crash(e, cut)))
  {
    var d := s.disk;
    hide Durable;
    if !LosesJob(s, Crash(e, cut)) { assert lost + LostBy(s, Crash(e, cut)) == lost; }
    match e {
      case Submit(maxRetries, kind, payload) =>
        if RetriesFit(maxRetries) { AddJobWrite(d, JobRow(Pending, 0, maxRetries, kind, payload, None, None), lost); }
      case StartRun(name, total) => RunsWrite(d, CreateWorkflowRun(d.db, name, total), lost);
      case CountStep(run) => RunsWrite(d, AdvanceWorkflowRun(d.db, run), lost);
      case CloseRun(run, status) => RunsWrite(d, SetRunStatus(d.db, run, status), lost);
      case SubmitStep(key, maxRetries, payload) =>
        if RetriesFit(maxRetries) { AddJobWrite(d, JobRow(Pending, 0, maxRetries, "shell", payload, None, Some(key)), lost); }
      case Ready(w, sent) => ReadyWrites(d, sent, s.now, cut, lost);
      case Result(w, success, output) =>
        if Accepts(s, w) { ResultWrites(d, s.inFlight[w].id, success, output, s.now, cut, lost); }
      case Disconnect(w) => if w in s.inFlight { DisconnectWrites(s, w, cut, lost); }
      case Reap(j) => if Reaps(s, j) { ReapWrites(s, j, cut, lost); }
      case CancelJob(j) => if Cancels(s, j) { CancelWrites(d, j, s.now, cut, lost); }
      case CancelRun(run) => CancelRunWrite(d, run, s.now, lost);
      case RelayPass => RelayWrite(d, s.now, lost);
      case RelayFail(k) => RelayFailWrite(d, k, lost);
      case PromoteDue(batch) =>
        if Q.IsDueBatch(d.q.delayed, Q.Millis(s.now), batch) { PromoteWrite(d, Q.Millis(s.now), batch, lost); }
      case CleanUp(age) => CleanUpWrite(d, s.now - age, lost);
      case _ =>
    }
  }

  /** A statement on workflow_runs leaves the jobs and the outbox alone. */
  lemma RunsWrite(d: Disk, db': Db, lost: set<nat>)
    requires Durable(d, lost) && db' == d.db.(runs := db'.runs, nextRun := db'.nextRun)
    ensures Durable(d.(db := db'), lost)
  {
  }

  lemma DisconnectWrites(s: Sys, w: string, cut: nat, lost: set<nat>)
    requires Inv(s, lost) && w in s.inFlight
    ensures Durable(ReturnJob(s.disk, s.inFlight[w], s.now, cut), lost + LostBy(s, Crash(Disconnect(w), cut)))
  {
    var job := s.inFlight[w];
    if LosesJob(s, Crash(Disconnect(w), cut)) {
      StateWrite(s.disk, job.id, Pending, job.retryCount, lost);
    } else {
      ReturnWrites(s.disk, job, s.now, cut, lost);
    }
  }

  lemma ReapWrites(s: Sys, j: nat, cut: nat, lost: set<nat>)
    requires Inv(s, lost) && Reaps(s, j)
    ensures Durable(ReturnJob(s.disk, RowCopy(j, s.disk.db.jobs[j]), s.now, cut), lost)
  {
    assert Owned(s.disk, j);
    ReturnWrites(s.disk, RowCopy(j, s.disk.db.jobs[j]), s.now, cut, lost);
  }

  // ----- what a step leaves alone -----

  /** The job a handler is about. */
  ghost function Subject(s: Sys, e: Event): Option<nat> {
    match e
    case Ready(w, _) =>
      var got := Q.Consume(s.disk.q).1;
      if w !in s.inFlight && got.Some? then Some(got.value.id) else None
    case Result(w, _, _) => if w in s.inFlight then Some(s.inFlight[w].id) else None
    case Disconnect(w) => if w in s.inFlight then Some(s.inFlight[w].id) else None
    case Reap(j) => if Reaps(s, j) then Some(j) else None
    case CancelJob(j) => if Cancels(s, j) then Some(j) else None
    case _ => None
  }

  predicate IsHandler(e: Event) {
    e.Ready? || e.Result? || e.Disconnect? || e.Reap? || e.CancelJob?
  }

  /** Job k looks the same to the tables and to the queue. */
  ghost predicate Untouched(d: Disk, d': Disk, k: nat) {
    && (k in d.db.jobs <==> k in d'.db.jobs) && (k in d.db.jobs ==> d'.db.jobs[k] == d.db.jobs[k])
    && RowCount(d'.db.outbox, k) == RowCount(d.db.outbox, k)
    && (k in d'.q.queued <==> k in d.q.queued)
    && (k in d'.q.payloads <==> k in d.q.payloads) && (k in d.q.payloads ==> d'.q.payloads[k] == d.q.payloads[k])
    && (k in d.q.processing ==> k in d'.q.processing)
    && (k in d'.q.delayed <==> k in d.q.delayed) && (k in d.q.delayed ==> d'.q.delayed[k] == d.q.delayed[k])
  }

  lemma RemoveOther(s: seq<nat>, x: nat, k: nat)
    requires k != x
    ensures k in RemoveFirst(s, x) <==> k in s
  {
    RemoveCount(s, x);
    Q.Count(s, k);
    Q.Count(RemoveFirst(s, x), k);
  }

  lemma ReturnTouches(d: Disk, job: Job, now: int, cut: nat, k: nat)
    requires k != job.id
    ensures Untouched(d, ReturnJob(d, job, now, cut), k)
  {
    RemoveOther(d.q.processing, job.id, k);
  }

  lemma ReadyTouches(d: Disk, sent: bool, now: int, cut: nat, k: nat)
    requires Q.Consume(d.q).1.Some? ==> k != Q.Consume(d.q).1.value.id
    ensures Untouched(d, ReadyDisk(d, sent, now, cut), k)
  {
    Q.ConsumePlaces(d.q, k);
    var (q, got) := Q.Consume(d.q);
    hide RowCount;
    hide Q.Consume;
    if cut > 1 && got.Some? && !sent {
      ReturnTouches(SetState(d.(q := q), got.value.id, Running, got.value.retryCount), got.value, now, cut - 2, k);
    }
  }

  lemma ResultTouches(d: Disk, j: nat, success: bool, output: string, now: int, cut: nat, k: nat)
    requires j in d.db.jobs && k != j
    ensures Untouched(d, ResultDisk(d, j, success, output, now, cut), k)
  {
    hide RowCount;
    RemoveOther(d.q.processing, j, k);
  }

  lemma CancelTouches(d: Disk, j: nat, now: int, cut: nat, k: nat)
    requires j in d.db.jobs && k != j
    ensures Untouched(d, CancelDisk(d, j, now, cut), k)
  {
    MarkJobsCount(d.db.outbox, {j}, now, k);
    hide RowCount;
    RemoveOther(d.q.processing, j, k);
  }

  lemma HandlerTouches(s: Sys, e: Event, cut: nat, k: nat)
    requires IsHandler(e) && Subject(s, e) != Some(k)
    ensures Untouched(s.disk, DiskAfter(s, e, cut), k)
  {
    var d := s.disk;
    match e {
      case Ready(w, sent) => if w !in s.inFlight { ReadyTouches(d, sent, s.now, cut, k); }
      case Result(w, success, output) =>
        if Accepts(s, w) { ResultTouches(d, s.inFlight[w].id, success, output, s.now, cut, k); }
      case Disconnect(w) => if w in s.inFlight { ReturnTouches(d, s.inFlight[w], s.now, cut, k); }
      case Reap(j) => if Reaps(s, j) { ReturnTouches(d, RowCopy(j, d.db.jobs[j]), s.now, cut, k); }
      case CancelJob(j) => if Cancels(s, j) { CancelTouches(d, j, s.now, cut, k); }
    }
  }

  /** Events that only add rows, forget old ones, or touch memory. */
  predicate IsQuiet(e: Event) {
    e.Tick? || e.Heartbeat? || e.Submit? || e.StartRun? || e.SubmitStep? || e.CountStep? || e.CloseRun?
    || e.CleanUp? || e.Crash?
  }

  lemma AddTouches(d: Disk, row: JobRow, k: nat)
    requires k < d.db.nextJob
    ensures Untouched(d, d.(db := AddJob(d.db, row)), k)
  {
    AppendCount(d.db.outbox, OutboxRow(d.db.nextRow, d.db.nextJob, false, 0), k);
    hide RowCount;
  }

  lemma QuietTouches(s: Sys, e: Event, cut: nat, k: nat)
    requires IsQuiet(e) && k < s.disk.db.nextJob
    ensures Untouched(s.disk, DiskAfter(s, e, cut), k)
  {
    hide RowCount;
    var d := s.disk;
    match e {
      case Submit(maxRetries, kind, payload) => AddTouches(d, JobRow(Pending, 0, maxRetries, kind, payload, None, None), k);
      case SubmitStep(key, maxRetries, payload) => AddTouches(d, JobRow(Pending, 0, maxRetries, "shell", payload, None, Some(key)), k);
      case CleanUp(age) => CleanupCount(d.db.outbox, s.now - age, k);
      case _ =>
    }
  }

  /** CancelWorkflowRunAtomic leaves every job alone that is not pending or retrying in that run. */
  lemma CancelRunTouches(d: Disk, run: nat, now: int, k: nat)
    requires k !in Cancellable(d.db, run)
    ensures Untouched(d, d.(db := CancelWorkflowRun(d.db, run, now)), k)
  {
    MarkJobsCount(d.db.outbox, Cancellable(d.db, run), now, k);
    hide RowCount;
  }

  // ----- settled rows -----

  /** The event writes over job j's status without looking at it: Work hands j to a worker, or the
      stream that holds j breaks; a crash counts if that write had been made. */
  ghost predicate Rewrites(s: Sys, e: Event, j: nat) {
    var h, cut := Handler(e), Writes(e);
    Subject(s, h) == Some(j) && ((h.Ready? && cut > 1) || (h.Disconnect? && cut > 0))
  }

  lemma SettledSubject(s: Sys, e: Event, cut: nat, j: nat)
    requires j in s.disk.db.jobs && Settled(s.disk.db.jobs[j].status) && Subject(s, e) == Some(j)
    ensures var d := DiskAfter(s, e, cut);
      j in d.db.jobs && d.db.jobs[j].status ==
        if e.Ready? && cut > 1 then (if e.sent || cut == 2 then Running else Pending)
        else if e.Disconnect? && cut > 0 then Pending
        else s.disk.db.jobs[j].status
    ensures !(e.Ready? && cut > 1) && !(e.Disconnect? && cut > 0) ==> DiskAfter(s, e, cut).db.jobs[j] == s.disk.db.jobs[j]
  {
    hide RowCount;
    hide Q.Consume;
    hide Q.Retry;
  }

  lemma SettledElsewhere(s: Sys, e: Event, cut: nat, j: nat)
    requires RowsOk(s.disk.db) && j in s.disk.db.jobs && Settled(s.disk.db.jobs[j].status) && Subject(s, e) != Some(j)
    ensures j in DiskAfter(s, e, cut).db.jobs && DiskAfter(s, e, cut).db.jobs[j] == s.disk.db.jobs[j]
  {
    if IsHandler(e) {
      HandlerTouches(s, e, cut, j);
    } else if IsQuiet(e) {
      QuietTouches(s, e, cut, j);
    } else if e.CancelRun? {
      CancelRunTouches(s.disk, e.run, s.now, j);
    }
    hide RowCount;
  }

  /** What a crash leaves of a row that is not running: nothing else is reset. */
  lemma RebootKeepsRow(d: Disk, now: int, j: nat)
    requires j in d.db.jobs
    ensures j in Boot(d, now).disk.db.jobs
    ensures Boot(d, now).disk.db.jobs[j] == if d.db.jobs[j].status == Running then d.db.jobs[j].(status := Pending) else d.db.jobs[j]
  {
    hide WithOrphans;
  }

  /** In any state, an event changes a settled row exactly when it writes over it unlooked at; the job
      is then no longer settled. */
  lemma SettledChangesIff(s: Sys, e: Event, j: nat)
    requires RowsOk(s.disk.db) && j in s.disk.db.jobs && Settled(s.disk.db.jobs[j].status)
    ensures j in Next(s, e).disk.db.jobs
    ensures Next(s, e).disk.db.jobs[j] != s.disk.db.jobs[j] <==> Rewrites(s, e, j)
    ensures Rewrites(s, e, j) <==> !Settled(Next(s, e).disk.db.jobs[j].status)
  {
    var h, cut := Handler(e), Writes(e);
    if Subject(s, h) == Some(j) { SettledSubject(s, h, cut, j); } else { SettledElsewhere(s, h, cut, j); }
    hide DiskAfter;
    hide MemoryAfter;
    hide Subject;
    if e.Crash? { RebootKeepsRow(DiskAfter(s, h, cut), s.now, j); }
  }

  // ----- rows keep their identity -----

  ghost predicate RowKept(db: Db, db': Db, j: nat)
    requires j in db.jobs
  {
    && j in db'.jobs && db'.jobs[j].maxRetries == db.jobs[j].maxRetries
    && db'.jobs[j].kind == db.jobs[j].kind && db'.jobs[j].payload == db.jobs[j].payload
    && db'.jobs[j].key == db.jobs[j].key
  }

  lemma HandlerKeepsRow(s: Sys, e: Event, cut: nat, j: nat)
    requires IsHandler(e) && j in s.disk.db.jobs
    ensures RowKept(s.disk.db, DiskAfter(s, e, cut).db, j)
  {
    if Subject(s, e) != Some(j) {
      HandlerTouches(s, e, cut, j);
    } else {
      SubjectKeepsRow(s, e, cut, j);
    }
  }

  lemma SubjectKeepsRow(s: Sys, e: Event, cut: nat, j: nat)
    requires IsHandler(e) && Subject(s, e) == Some(j) && j in s.disk.db.jobs
    ensures RowKept(s.disk.db, DiskAfter(s, e, cut).db, j)
  {
    hide RowCount;
    hide Q.Consume;
    hide MarkJobs;
    hide Q.Retry;
    hide Q.Settle;
    hide Q.Cancel;
  }

  lemma OthersKeepRow(s: Sys, e: Event, cut: nat, j: nat)
    requires RowsOk(s.disk.db) && !IsHandler(e) && j in s.disk.db.jobs
    ensures RowKept(s.disk.db, DiskAfter(s, e, cut).db, j)
  {
    hide RowCount;
    hide EnqueueAll;
    hide MarkIds;
    hide MarkJobs;
    hide Entries;
  }

  /** A job's limit, type, payload and workflow step never change. */
  lemma DiskKeepsRow(s: Sys, e: Event, cut: nat, j: nat)
    requires RowsOk(s.disk.db) && j in s.disk.db.jobs
    ensures RowKept(s.disk.db, DiskAfter(s, e, cut).db, j)
  {
    if IsHandler(e) { HandlerKeepsRow(s, e, cut, j); } else { OthersKeepRow(s, e, cut, j); }
  }

  // ----- memory -----

  lemma OwnersKept(s: Sys, e: Event)
    requires OwnersOk(s)
    ensures OwnersOk(MemoryAfter(s, e))
  {
  }

  lemma OwnedKept(s: Sys, e: Event, j: nat, lost: set<nat>)
    requires Inv(s, lost) && !e.Crash? && j in MemoryAfter(s, e).owner
    ensures Owned(DiskAfter(s, e, ALL), j)
  {
    hide DiskAfter;
    hide Durable;
    hide RowCount;
    if IsHandler(e) {
      if Subject(s, e) == Some(j) { SubjectOwned(s, e, j, lost); } else { HandlerTouches(s, e, ALL, j); assert Owned(s.disk, j); }
    } else {
      assert Owned(s.disk, j);
      OthersOwned(s, e, j, lost);
    }
  }

  lemma SubjectOwned(s: Sys, e: Event, j: nat, lost: set<nat>)
    requires Inv(s, lost) && IsHandler(e) && Subject(s, e) == Some(j) && j in MemoryAfter(s, e).owner
    ensures Owned(DiskAfter(s, e, ALL), j)
  {
    match e {
      case Ready(w, sent) =>
        TakeWrite(s.disk, lost);
        Q.ConsumePlaces(s.disk.q, j);
      case Result(w, success, output) =>
        assert s.owner[j] in s.inFlight && j in s.owner;
        assert Owned(s.disk, j);
      case CancelJob(_) => assert Owned(s.disk, j);
      case _ =>
    }
  }

  lemma {:induction false} EnqueueAllGrows(q: Q.Queue, entries: seq<Entry>)
    ensures q.queued <= EnqueueAll(q, entries).queued
    decreases |entries|
  {
    if entries != [] { EnqueueAllGrows(Q.Enqueue(q, entries[0].job), entries[1..]); }
  }

  lemma OthersOwned(s: Sys, e: Event, j: nat, lost: set<nat>)
    requires Inv(s, lost) && !IsHandler(e) && Owned(s.disk, j)
    ensures Owned(DiskAfter(s, e, ALL), j)
  {
    hide RowCount;
    var d := s.disk;
    match e {
      case RelayPass => EnqueueAllGrows(d.q, RelayEntries(d));
      case RelayFail(k) => if k <= |RelayEntries(d)| { EnqueueAllGrows(d.q, RelayEntries(d)[..k]); }
      case _ =>
    }
  }

  lemma InFlightSource(s: Sys, e: Event, w: string)
    requires w in MemoryAfter(s, e).inFlight
    ensures var job := MemoryAfter(s, e).inFlight[w];
      (w in s.inFlight && job == s.inFlight[w]) || Q.Consume(s.disk.q).1 == Some(job)
  {
    hide Q.Consume;
  }

  lemma CopyStaysOk(db: Db, db': Db, job: Job)
    requires CopyOk(db, job) && RowKept(db, db', job.id)
    ensures CopyOk(db', job)
  {
  }

  lemma InFlightKept(s: Sys, e: Event, w: string, lost: set<nat>)
    requires Inv(s, lost) && !e.Crash? && w in MemoryAfter(s, e).inFlight
    ensures CopyOk(DiskAfter(s, e, ALL).db, MemoryAfter(s, e).inFlight[w])
  {
    InFlightSource(s, e, w);
    TakeWrite(s.disk, lost);
    hide MemoryAfter;
    hide DiskAfter;
    hide Q.Consume;
    var job := MemoryAfter(s, e).inFlight[w];
    assert CopyOk(s.disk.db, job);
    DiskKeepsRow(s, e, ALL, job.id);
    hide Inv;
    CopyStaysOk(s.disk.db, DiskAfter(s, e, ALL).db, job);
  }

  lemma WholeDurable(s: Sys, e: Event, lost: set<nat>)
    requires Inv(s, lost)
    ensures Durable(DiskAfter(s, e, ALL), lost)
  {
    DiskDurable(s, e, ALL, lost);
    hide DiskAfter;
    hide Durable;
    assert lost + LostBy(s, Crash(e, ALL)) == lost;
  }

  lemma MemoryKept(s: Sys, e: Event, lost: set<nat>)
    requires Inv(s, lost) && !e.Crash?
    ensures MemoryOk(MemoryAfter(s, e).(disk := DiskAfter(s, e, ALL)))
  {
    hide DiskAfter;
    hide Durable;
    OwnersKept(s, e);
    forall j | j in MemoryAfter(s, e).owner ensures Owned(DiskAfter(s, e, ALL), j) { OwnedKept(s, e, j, lost); }
    forall w | w in MemoryAfter(s, e).inFlight ensures CopyOk(DiskAfter(s, e, ALL).db, MemoryAfter(s, e).inFlight[w]) {
      InFlightKept(s, e, w, lost);
    }
    hide DiskAfter;
    hide MemoryAfter;
    hide Durable;
  }

  lemma NextInv(s: Sys, e: Event, lost: set<nat>)
    requires Inv(s, lost)
    ensures Inv(Next(s, e), lost + LostBy(s, e))
  {
    hide DiskAfter;
    hide MemoryAfter;
    if e.Crash? {
      DiskDurable(s, e.during, e.cut, lost);
      BootWrite(DiskAfter(s, e.during, e.cut), s.now, lost + LostBy(s, e));
      hide Durable;
    } else {
      WholeDurable(s, e, lost);
      MemoryKept(s, e, lost);
      hide Durable;
      hide MemoryOk;
      assert lost + LostBy(s, e) == lost;
    }
  }

  lemma StartInv()
    ensures Inv(START, {})
  {
  }

  /** The jobs lost along a run. */
  ghost function LostIn(s: Sys, es: seq<Event>): set<nat>
    decreases |es|
  {
    if es == [] then {} else LostBy(s, es[0]) + LostIn(Next(s, es[0]), es[1..])
  }

  lemma {:induction false} ExecInv(s: Sys, es: seq<Event>, lost: set<nat>)
    requires Inv(s, lost)
    ensures Inv(Exec(s, es), lost + LostIn(s, es))
    decreases |es|
  {
    hide Inv;
    hide Next;
    hide LostBy;
    if es != [] {
      NextInv(s, es[0], lost);
      ExecInv(Next(s, es[0]), es[1..], lost + LostBy(s, es[0]));
      assert lost + LostBy(s, es[0]) + LostIn(Next(s, es[0]), es[1..]) == lost + LostIn(s, es);
    } else {
      assert lost + LostIn(s, es) == lost;
    }
  }

  lemma {:induction false} ExecConcat(s: Sys, a: seq<Event>, b: seq<Event>)
    ensures Exec(s, a + b) == Exec(Exec(s, a), b)
    decreases |a|
  {
    hide Next;
    if a == [] {
      assert a + b == b;
    } else {
      assert (a + b)[1..] == a[1..] + b;
      ExecConcat(Next(s, a[0]), a[1..], b);
    }
  }

  lemma ExecOne(s: Sys, e: Event)
    ensures Exec(s, [e]) == Next(s, e)
  {
    hide Next;
    assert [e][1..] == [] && Exec(Next(s, e), []) == Next(s, e);
  }
}
