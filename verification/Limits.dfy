/** Runs of the delivery protocol that show why its guarantees carry the conditions they carry. */
module Limits {
  import opened Prelude
  import opened Types
  import opened Tables
  import opened Delivery
  import opened DeliveryRuns
  import opened Positions
  import Q = QueueState

  /** Job 1 as submitted, with a limit of one retry. */
  function One(p: Payload): Job { Job(1, 0, 1, "shell", p) }

  function Row(p: Payload, status: Status): JobRow { JobRow(status, 0, 1, "shell", p, None, None) }

  function DbOf(row: JobRow, processed: bool): Db {
    Db(map[1 := row], 2, [OutboxRow(1, 1, processed, 0)], 2, map[], 1)
  }

  function Queued(p: Payload, ready: seq<nat>, processing: seq<nat>, delayed: map<nat, int>): Q.Queue {
    Q.Queue(ready, processing, delayed, map[1 := One(p)], {1})
  }

  function Sub(p: Payload): Event { Submit(1, "shell", p) }

  lemma {:induction false} Replay(states: seq<Sys>, es: seq<Event>)
    requires |states| == |es| + 1
    requires forall i :: 0 <= i < |es| ==> Next(states[i], es[i]) == states[i + 1]
    ensures Exec(states[0], es) == states[|es|]
    decreases |es|
  {
    hide Next;
    if es != [] { Replay(states[1..], es[1..]); }
  }

  // ----- shared openings -----

  /** Submitted, not yet relayed. */
  function Waiting(p: Payload): Sys {
    Sys(Disk(DbOf(Row(p, Pending), false), Q.EMPTY), map[], map[], map[], 0)
  }

  lemma Submitted(p: Payload)
    ensures Next(START, Sub(p)) == Waiting(p)
  {
    assert Next(START, Sub(p)).disk.db.outbox == [OutboxRow(1, 1, false, 0)];
  }

  function InReady(p: Payload): Sys {
    Sys(Disk(DbOf(Row(p, Pending), true), Queued(p, [1], [], map[])), map[], map[], map[], 0)
  }

  lemma OneEntry(p: Payload, row: JobRow)
    requires FirstCopy(1, row) == One(p)
    ensures Entries([OutboxRow(1, 1, false, 0)], map[1 := row]) == [Entry(1, One(p))]
  {
    var o := [OutboxRow(1, 1, false, 0)];
    assert o[..0] == [];
    assert Entries([], map[1 := row]) == [];
  }

  lemma OneMarked(p: Payload)
    ensures MarkIds([OutboxRow(1, 1, false, 0)], Rows([Entry(1, One(p))]), 0) == [OutboxRow(1, 1, true, 0)]
  {
    var o, es := [OutboxRow(1, 1, false, 0)], [Entry(1, One(p))];
    assert es[0] in es && 1 in Rows(es);
    assert o[..0] == [] && MarkIds([], Rows(es), 0) == [];
  }

  lemma Relayed(p: Payload)
    ensures Next(Waiting(p), RelayPass) == InReady(p)
  {
    hide Entries;
    hide MarkIds;
    hide Rows;
    hide EnqueueAll;
    OneEntry(p, Row(p, Pending));
    OneMarked(p);
    EnqueueOne(p, 1);
  }

  function RunningAt(p: Payload, a: string, now: int): Sys {
    Sys(Disk(DbOf(Row(p, Running), true), Queued(p, [], [1], map[])), map[1 := a], map[1 := 0], map[a := One(p)], now)
  }

  lemma TakeOne(p: Payload)
    ensures Q.Consume(Queued(p, [1], [], map[])) == (Queued(p, [], [1], map[]), Some(One(p)))
  {
    var q := Queued(p, [1], [], map[]);
    assert q.ready[..0] == [] && q.ready[0] == 1;
    assert [1] + q.processing == [1];
  }

  lemma Taken(p: Payload, a: string)
    ensures Next(InReady(p), Ready(a, true)) == RunningAt(p, a, 0)
  {
    TakeOne(p);
    hide Q.Consume;
  }

  /** Submitted, relayed and handed to worker a. */
  lemma Opening(p: Payload, a: string)
    ensures Exec(START, [Sub(p), RelayPass, Ready(a, true)]) == RunningAt(p, a, 0)
  {
    Submitted(p);
    Relayed(p);
    Taken(p, a);
    hide Next;
    Replay([START, Waiting(p), InReady(p), RunningAt(p, a, 0)], [Sub(p), RelayPass, Ready(a, true)]);
  }

  // ----- a job reaped from a worker that still holds it -----

  function Reclaimed(p: Payload, a: string): Sys {
    Sys(Disk(DbOf(Row(p, Pending), true), Queued(p, [1], [], map[])), map[], map[], map[a := One(p)], HEARTBEAT_TIMEOUT)
  }

  lemma ReapedFirst(p: Payload, a: string)
    ensures Next(RunningAt(p, a, HEARTBEAT_TIMEOUT), Reap(1))
         == Reclaimed(p, a).(disk := Disk(DbOf(Row(p, Pending), true), Queued(p, [], [], map[1 := 30_000])))
  {
    assert RemoveFirst([1], 1) == [];
  }

  lemma PromotedThen(p: Payload, a: string)
    ensures Next(Reclaimed(p, a).(disk := Disk(DbOf(Row(p, Pending), true), Queued(p, [], [], map[1 := 30_000]))), PromoteDue([1]))
         == Reclaimed(p, a)
  {
    assert Q.IsDueBatch(map[1 := 30_000], 30_000, [1]);
    assert [1][1..] == [];
    assert Q.PushAll([1], []) == [1];
    assert Q.PushAll([], [1]) == [1] by { assert [1] + [] == [1]; }
    var q := Queued(p, [], [], map[1 := 30_000]);
    assert Q.Promote(q, [1]) == Queued(p, [1], [], map[]);
    hide Q.PushAll;
    hide Q.IsDueBatch;
    hide Q.Promote;
  }

  lemma Reaped(p: Payload, a: string)
    ensures Exec(RunningAt(p, a, 0), [Tick(HEARTBEAT_TIMEOUT), Reap(1), PromoteDue([1])]) == Reclaimed(p, a)
  {
    var s0, s1 := RunningAt(p, a, 0), RunningAt(p, a, HEARTBEAT_TIMEOUT);
    var s2 := Reclaimed(p, a).(disk := Disk(DbOf(Row(p, Pending), true), Queued(p, [], [], map[1 := 30_000])));
    assert Next(s0, Tick(HEARTBEAT_TIMEOUT)) == s1;
    ReapedFirst(p, a);
    PromotedThen(p, a);
    hide Next;
    Replay([s0, s1, s2, Reclaimed(p, a)], [Tick(HEARTBEAT_TIMEOUT), Reap(1), PromoteDue([1])]);
  }

  lemma ReclaimedReachable(p: Payload, a: string, z: seq<Event>) returns (x: seq<Event>)
    ensures Exec(START, x) == Reclaimed(p, a) && Exec(START, x + z) == Exec(Reclaimed(p, a), z)
  {
    Opening(p, a);
    Reaped(p, a);
    var u, v := [Sub(p), RelayPass, Ready(a, true)], [Tick(HEARTBEAT_TIMEOUT), Reap(1), PromoteDue([1])];
    x := u + v;
    hide Next;
    hide Exec;
    ExecConcat(START, u, v);
    ExecConcat(START, x, z);
  }

  lemma DoublePlace(p: Payload, a: string)
    ensures Q.Places(Next(Reclaimed(p, a), Disconnect(a)).disk.q, 1) == 2
  {
    var s := Next(Reclaimed(p, a), Disconnect(a));
    assert s.disk.q == Queued(p, [1], [], map[1 := 30_000]);
    assert multiset(s.disk.q.ready)[1] == 1;
  }

  /** A stale drop gives a job two queue positions. */
  lemma StaleDropDuplicates(p: Payload, a: string) returns (es: seq<Event>)
    ensures !Q.OnePlace(Exec(START, es).disk.q)
  {
    var x := ReclaimedReachable(p, a, [Disconnect(a)]);
    es := x + [Disconnect(a)];
    ExecOne(Reclaimed(p, a), Disconnect(a));
    DoublePlace(p, a);
    hide Next;
    hide Exec;
    hide Q.Places;
  }

  /** A stale drop writes 'pending' over a job another worker completed. */
  lemma StaleDropReopens(p: Payload, a: string, b: string, out: string) returns (es: seq<Event>, last: Event)
    requires a != b
    ensures Is(Exec(START, es), 1, Completed)
    ensures Is(Next(Exec(START, es), last), 1, Pending)
  {
    var z := [Ready(b, true), Result(b, true, out)];
    last := Disconnect(a);
    var x := ReclaimedReachable(p, a, z);
    es := x + z;
    var s1 := TakenBy(p, a, b);
    var s2 := FinishedBy(p, a, b, s1, out);
    hide Next;
    hide Exec;
    Exec2(Reclaimed(p, a), s1, s2, z[0], z[1]);
  }

  lemma FinishedBy(p: Payload, a: string, b: string, s1: Sys, out: string) returns (s2: Sys)
    requires a != b
    requires s1.disk == Disk(DbOf(Row(p, Running), true), Queued(p, [], [1], map[]))
    requires s1.owner == map[1 := b] && s1.inFlight == map[a := One(p), b := One(p)]
    ensures s2 == Next(s1, Result(b, true, out))
    ensures Is(s2, 1, Completed) && Is(Next(s2, Disconnect(a)), 1, Pending)
  {
    s2 := Next(s1, Result(b, true, out));
    assert a in s2.inFlight && s2.inFlight[a] == One(p);
  }

  lemma TakenBy(p: Payload, a: string, b: string) returns (s: Sys)
    requires a != b
    ensures s == Next(Reclaimed(p, a), Ready(b, true))
    ensures s.disk == Disk(DbOf(Row(p, Running), true), Queued(p, [], [1], map[]))
    ensures s.owner == map[1 := b] && s.inFlight == map[a := One(p), b := One(p)]
  {
    s := Next(Reclaimed(p, a), Ready(b, true));
    TakeOne(p);
    hide Q.Consume;
  }

  lemma Exec2(s0: Sys, s1: Sys, s2: Sys, a: Event, b: Event)
    requires Next(s0, a) == s1 && Next(s1, b) == s2
    ensures Exec(s0, [a, b]) == s2
  {
    hide Next;
    Replay([s0, s1, s2], [a, b]);
  }

  // ----- restart, cancelled runs, lost jobs -----

  /** The tables after a restart gave job 1 a second outbox row. */
  function Rebooted(row: JobRow, processed: bool): Db {
    Db(map[1 := row], 2, [OutboxRow(1, 1, true, 0), OutboxRow(3, 1, processed, 0)], 4, map[], 1)
  }

  function Idle(db: Db, q: Q.Queue): Sys { Sys(Disk(db, q), map[], map[], map[], 0) }

  function Busy(db: Db, q: Q.Queue, p: Payload, a: string): Sys {
    Sys(Disk(db, q), map[1 := a], map[1 := 0], map[a := One(p)], 0)
  }

  lemma Restarted(p: Payload, a: string)
    ensures Next(RunningAt(p, a, 0), Crash(Tick(0), 0)) == Idle(Rebooted(Row(p, Pending), false), Queued(p, [1], [], map[]))
  {
    var db := DbOf(Row(p, Running), true);
    assert db.outbox[..0] == [];
    assert RowCount([], 1) == 0;
    assert RowCount(db.outbox, 1) == 0;
    assert WithOrphans(db, 0) == db.outbox;
    assert WithOrphans(db, 1) == db.outbox;
    assert WithOrphans(db, 2) == db.outbox + [OutboxRow(3, 1, false, 0)];
    assert [] + [1] == [1];
  }

  lemma TakenAgain(p: Payload, a: string, row: JobRow, processed: bool)
    requires row.retryCount == 0
    ensures Next(Idle(Rebooted(row, processed), Queued(p, [1], [], map[])), Ready(a, true))
         == Busy(Rebooted(row.(status := Running), processed), Queued(p, [], [1], map[]), p, a)
  {
    TakeOne(p);
    hide Q.Consume;
  }

  lemma DoneNow(p: Payload, a: string, out: string)
    ensures Next(Busy(Rebooted(Row(p, Running), false), Queued(p, [], [1], map[]), p, a), Result(a, true, out))
         == Idle(Rebooted(Row(p, Completed).(output := Some(out)), false), Q.EMPTY)
  {
    assert RemoveFirst([1], 1) == [];
  }

  lemma SecondEntry(p: Payload, row: JobRow)
    requires FirstCopy(1, row) == One(p)
    ensures Entries([OutboxRow(1, 1, true, 0), OutboxRow(3, 1, false, 0)], map[1 := row]) == [Entry(3, One(p))]
  {
    var o := [OutboxRow(1, 1, true, 0), OutboxRow(3, 1, false, 0)];
    var jobs := map[1 := row];
    assert o[..1] == [OutboxRow(1, 1, true, 0)] && o[..1][..0] == [];
    assert Entries([], jobs) == [];
    assert Entries(o[..1], jobs) == [];
  }

  lemma SecondMarked(p: Payload)
    ensures MarkIds([OutboxRow(1, 1, true, 0), OutboxRow(3, 1, false, 0)], Rows([Entry(3, One(p))]), 0)
         == [OutboxRow(1, 1, true, 0), OutboxRow(3, 1, true, 0)]
  {
    var o := [OutboxRow(1, 1, true, 0), OutboxRow(3, 1, false, 0)];
    var es := [Entry(3, One(p))];
    assert es[0] in es && Rows(es) == {3};
    assert o[..1] == [OutboxRow(1, 1, true, 0)] && o[..1][..0] == [];
    assert MarkIds([], {3}, 0) == [];
    assert MarkIds(o[..1], {3}, 0) == [OutboxRow(1, 1, true, 0)];
  }

  lemma EnqueueOne(p: Payload, row: nat)
    ensures EnqueueAll(Q.EMPTY, [Entry(row, One(p))]) == Queued(p, [1], [], map[])
  {
    var es := [Entry(row, One(p))];
    assert es[1..] == [];
    assert EnqueueAll(Q.Enqueue(Q.EMPTY, One(p)), []) == Q.Enqueue(Q.EMPTY, One(p));
    assert [1] + [] == [1];
  }

  lemma RelayedAgain(p: Payload, out: string)
    ensures Next(Idle(Rebooted(Row(p, Completed).(output := Some(out)), false), Q.EMPTY), RelayPass)
         == Idle(Rebooted(Row(p, Completed).(output := Some(out)), true), Queued(p, [1], [], map[]))
  {
    hide Entries;
    hide MarkIds;
    hide Rows;
    hide EnqueueAll;
    SecondEntry(p, Row(p, Completed).(output := Some(out)));
    SecondMarked(p);
    EnqueueOne(p, 3);
  }

  lemma RestartedAndDone(p: Payload, a: string, out: string)
    ensures Exec(RunningAt(p, a, 0), [Crash(Tick(0), 0), Ready(a, true), Result(a, true, out)])
         == Idle(Rebooted(Row(p, Completed).(output := Some(out)), false), Q.EMPTY)
    ensures Is(Idle(Rebooted(Row(p, Completed).(output := Some(out)), false), Q.EMPTY), 1, Completed)
  {
    var s1 := Idle(Rebooted(Row(p, Pending), false), Queued(p, [1], [], map[]));
    var s2 := Busy(Rebooted(Row(p, Running), false), Queued(p, [], [1], map[]), p, a);
    Restarted(p, a);
    TakenAgain(p, a, Row(p, Pending), false);
    DoneNow(p, a, out);
    hide Next;
    Replay([RunningAt(p, a, 0), s1, s2, Idle(Rebooted(Row(p, Completed).(output := Some(out)), false), Q.EMPTY)],
           [Crash(Tick(0), 0), Ready(a, true), Result(a, true, out)]);
  }

  lemma RelayedAndTaken(p: Payload, a: string, out: string)
    ensures Is(Exec(Idle(Rebooted(Row(p, Completed).(output := Some(out)), false), Q.EMPTY), [RelayPass, Ready(a, true)]), 1, Running)
  {
    var done := Row(p, Completed).(output := Some(out));
    RelayedAgain(p, out);
    TakenAgain(p, a, done, true);
    hide Next;
    Exec2(Idle(Rebooted(done, false), Q.EMPTY), Idle(Rebooted(done, true), Queued(p, [1], [], map[])),
          Busy(Rebooted(done.(status := Running), true), Queued(p, [], [1], map[]), p, a), RelayPass, Ready(a, true));
  }

  predicate NoBrokenStream(es: seq<Event>) {
    forall i :: 0 <= i < |es| ==> !es[i].Disconnect?
  }

  /** After a restart a job can be settled while its new outbox row still waits: the relay then hands a
      completed job to the next worker, without any stream ever breaking. */
  lemma RestartReruns(p: Payload, a: string, out: string) returns (es: seq<Event>, more: seq<Event>)
    ensures NoBrokenStream(es)
    ensures more == [RelayPass, Ready(a, true)]
    ensures Is(Exec(START, es), 1, Completed) && Is(Exec(START, es + more), 1, Running)
  {
    hide Next;
    hide Exec;
    hide Idle;
    hide Rebooted;
    hide RunningAt;
    hide Row;
    hide Is;
    Opening(p, a);
    RestartedAndDone(p, a, out);
    RelayedAndTaken(p, a, out);
    var x, y := [Sub(p), RelayPass, Ready(a, true)], [Crash(Tick(0), 0), Ready(a, true), Result(a, true, out)];
    more := [RelayPass, Ready(a, true)];
    es := x + y;
    ExecConcat(START, x, y);
    ExecConcat(START, es, more);
  }

  // ----- a lost job, and a cancelled run -----

  /** The losing crash is reachable: cancel a running job, then crash inside its stream's disconnect. */
  lemma LosingCrashReachable(p: Payload, a: string) returns (es: seq<Event>, e: Event)
    ensures LosesJob(Exec(START, es), e)
  {
    var x, y := [Sub(p), RelayPass, Ready(a, true)], [CancelJob(1)];
    es, e := x + y, Crash(Disconnect(a), 1);
    Opening(p, a);
    ExecConcat(START, x, y);
    ExecOne(RunningAt(p, a, 0), CancelJob(1));
    var d := RunningAt(p, a, 0).disk;
    MarkJobsCount(d.db.outbox, {1}, 0, 1);
    hide Exec;
    hide RowCount;
    hide MarkJobs;
  }

  // ----- a cancelled run's job -----

  function StepRow(p: Payload, status: Status): JobRow { JobRow(status, 0, 0, "shell", p, None, Some(StepKey(1, 0))) }

  function StepDb(p: Payload, status: Status, run: RunStatus, processed: bool): Db {
    Db(map[1 := StepRow(p, status)], 2, [OutboxRow(1, 1, processed, 0)], 2, map[1 := RunRow("wf", run, 0, 1)], 2)
  }

  function StepQueue(p: Payload): Q.Queue {
    Q.Queue([1], [], map[], map[1 := Job(1, 0, 0, "shell", p)], {1})
  }

  function StepIdle(db: Db, q: Q.Queue): Sys { Sys(Disk(db, q), map[], map[], map[], 0) }

  lemma StepSubmitted(p: Payload)
    ensures Exec(START, [StartRun("wf", 1), SubmitStep(StepKey(1, 0), 0, p)]) == StepIdle(StepDb(p, Pending, RunRunning, false), Q.EMPTY)
  {
    var s1 := StepIdle(Db(map[], 1, [], 1, map[1 := RunRow("wf", RunRunning, 0, 1)], 2), Q.EMPTY);
    assert Next(START, StartRun("wf", 1)) == s1;
    var s2 := Next(s1, SubmitStep(StepKey(1, 0), 0, p));
    assert s2.disk.db.outbox == [OutboxRow(1, 1, false, 0)];
    hide Next;
    Replay([START, s1, s2], [StartRun("wf", 1), SubmitStep(StepKey(1, 0), 0, p)]);
  }

  lemma StepRelayed(p: Payload)
    ensures Next(StepIdle(StepDb(p, Pending, RunRunning, false), Q.EMPTY), RelayPass) == StepIdle(StepDb(p, Pending, RunRunning, true), StepQueue(p))
  {
    var o, jobs, e := [OutboxRow(1, 1, false, 0)], map[1 := StepRow(p, Pending)], Entry(1, Job(1, 0, 0, "shell", p));
    assert o[..0] == [] && Entries([], jobs) == [] && Entries(o, jobs) == [e];
    assert [e][0] in [e] && Rows([e]) == {1};
    assert MarkIds([], {1}, 0) == [] && MarkIds(o, {1}, 0) == [OutboxRow(1, 1, true, 0)];
    assert [e][1..] == [] && EnqueueAll(Q.Enqueue(Q.EMPTY, e.job), []) == Q.Enqueue(Q.EMPTY, e.job);
    assert EnqueueAll(Q.EMPTY, [e]) == StepQueue(p) by { assert [1] + [] == [1]; }
    hide Entries;
    hide MarkIds;
    hide Rows;
    hide EnqueueAll;
  }

  lemma StepCancelled(p: Payload)
    ensures Next(StepIdle(StepDb(p, Pending, RunRunning, true), StepQueue(p)), CancelRun(1)) == StepIdle(StepDb(p, Cancelled, RunCancelled, true), StepQueue(p))
  {
    var o := [OutboxRow(1, 1, true, 0)];
    MarkJobsAt(o, {1}, 0);
    assert MarkJobs(o, {1}, 0) == o;
    assert Cancellable(StepDb(p, Pending, RunRunning, true), 1) == {1};
    hide MarkJobs;
  }

  lemma StepTaken(p: Payload, a: string)
    ensures Is(Next(StepIdle(StepDb(p, Cancelled, RunCancelled, true), StepQueue(p)), Ready(a, true)), 1, Running)
  {
    var q := StepQueue(p);
    assert q.ready[0] == 1;
    Q.ConsumeGives(q);
    assert Q.Consume(q).1 == Some(q.payloads[1]);
    hide Q.Consume;
  }

  /** CancelWorkflowRunAtomic leaves Redis alone: from the first start, a job of the run is cancelled with it
      and then dispatched all the same. */
  lemma CancelledRunDispatched(p: Payload, a: string) returns (es: seq<Event>)
    ensures es == [StartRun("wf", 1), SubmitStep(StepKey(1, 0), 0, p)] + [RelayPass, CancelRun(1)]
    ensures Is(Exec(START, es), 1, Cancelled) && Is(Exec(START, es + [Ready(a, true)]), 1, Running)
  {
    var x, y := [StartRun("wf", 1), SubmitStep(StepKey(1, 0), 0, p)], [RelayPass, CancelRun(1)];
    es := x + y;
    StepSubmitted(p);
    StepRelayed(p);
    StepCancelled(p);
    StepTaken(p, a);
    hide Next;
    hide Exec;
    var s2 := StepIdle(StepDb(p, Pending, RunRunning, false), Q.EMPTY);
    var s3 := StepIdle(StepDb(p, Pending, RunRunning, true), StepQueue(p));
    var s4 := StepIdle(StepDb(p, Cancelled, RunCancelled, true), StepQueue(p));
    Exec2(s2, s3, s4, RelayPass, CancelRun(1));
    ExecConcat(START, x, y);
    ExecOne(s4, Ready(a, true));
    ExecConcat(START, es, [Ready(a, true)]);
  }
}
