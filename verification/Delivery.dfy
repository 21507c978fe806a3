/**
  The job delivery protocol as one transition system: the tables, the Redis queue, the owner and
  lastSeen maps, and the job each worker stream holds in flight (internal/server/server.go,
  internal/outbox/relay.go, internal/service/job_service.go, cmd/server/main.go).

  A handler is one step. Its durable writes happen in the source's order, and `cut` counts how many
  of them were made: Crash(e, cut) stops handler e there and restarts the server.
*/
module Delivery {
  import opened Types
  import opened Tables
  import opened Backoff
  import Q = QueueState

  /** Everything that survives a server crash. */
  datatype Disk = Disk(db: Db, q: Q.Queue)

  /** inFlight holds, per worker, the inFlight variable of its Work stream. Times are nanoseconds. */
  datatype Sys = Sys(disk: Disk, owner: map<nat, string>, lastSeen: map<nat, int>, inFlight: map<string, Job>, now: int)

  datatype Event =
    | Tick(d: nat)
    | Submit(maxRetries: int, kind: string, payload: Payload)
    | StartRun(name: string, total: nat)
    | SubmitStep(key: StepKey, maxRetries: int, payload: Payload)
    | CountStep(run: nat)
    | CloseRun(run: nat, status: RunStatus)
    | Ready(w: string, sent: bool)
    | Heartbeat(w: string, job: nat)
    | Result(w: string, success: bool, output: string)
    | Disconnect(w: string)
    | Reap(job: nat)
    | CancelJob(job: nat)
    | CancelRun(run: nat)
    | RelayPass
    | RelayFail(k: nat)
    | PromoteDue(batch: seq<nat>)
    | CleanUp(age: nat)
    | Crash(during: Event, cut: nat)

  /** More writes than any handler makes. */
  const ALL: nat := 9

  /** The handler an event runs, wholly or up to a crash, and how many of its writes are made. */
  function Handler(e: Event): Event { if e.Crash? then e.during else e }

  function Writes(e: Event): nat { if e.Crash? then e.cut else ALL }

  const HEARTBEAT_TIMEOUT: int := 30 * SECOND

  const START := Sys(Disk(EMPTY_DB, Q.EMPTY), map[], map[], map[], 0)

  // ----- the durable writes of each handler, up to the cut -----

  function SetState(d: Disk, j: nat, status: Status, retryCount: nat): Disk {
    d.(db := UpdateJobState(d.db, j, status, retryCount))
  }

  function PutBack(d: Disk, job: Job, delay: int, now: int): Disk {
    d.(q := Q.Retry(d.q, job, Q.Millis(now + delay)))
  }

  function RowCopy(j: nat, row: JobRow): Job { Job(j, row.retryCount, row.maxRetries, row.kind, row.payload) }

  /** Write the job back as pending and hand it to the queue again, due at once. */
  function ReturnJob(d: Disk, job: Job, now: int, cut: nat): Disk {
    var d1 := if cut > 0 then SetState(d, job.id, Pending, job.retryCount) else d;
    if cut > 1 then PutBack(d1, job, 0, now) else d1
  }

  function ReadyDisk(d: Disk, sent: bool, now: int, cut: nat): Disk {
    var (q, got) := Q.Consume(d.q);
    if cut == 0 then d
    else if got.None? || cut == 1 then d.(q := q)
    else
      var taken := SetState(d.(q := q), got.value.id, Running, got.value.retryCount);
      if sent then taken else ReturnJob(taken, got.value, now, cut - 2)
  }

  function ResultDisk(d: Disk, j: nat, success: bool, output: string, now: int, cut: nat): Disk
    requires j in d.db.jobs
  {
    var row := d.db.jobs[j];
    if success then
      var d1 := if cut > 0 then d.(q := Q.Settle(d.q, j)) else d;
      if cut > 1 then d1.(db := CompleteJob(d1.db, j, output)) else d1
    else if row.retryCount < row.maxRetries then
      var job := RowCopy(j, row).(retryCount := row.retryCount + 1);
      var d1 := if cut > 0 then SetState(d, j, Retrying, job.retryCount) else d;
      if cut > 1 then PutBack(d1, job, RetryDelay(job.retryCount), now) else d1
    else
      var d1 := if cut > 0 then SetState(d, j, Failed, row.retryCount) else d;
      var d2 := if cut > 1 then d1.(q := Q.Settle(d1.q, j)) else d1;
      if cut > 2 && row.key.Some? then d2.(db := SetRunStatus(d2.db, row.key.value.run, RunFailed)) else d2
  }

  function CancelDisk(d: Disk, j: nat, now: int, cut: nat): Disk
    requires j in d.db.jobs
  {
    var d1 := if cut > 0 then SetState(d, j, Cancelled, d.db.jobs[j].retryCount) else d;
    var d2 := if cut > 1 then d1.(db := CancelOutboxEntry(d1.db, j, now)) else d1;
    if cut > 2 then d2.(q := Q.Cancel(d2.q, j)) else d2
  }

  function EnqueueAll(q: Q.Queue, entries: seq<Entry>): Q.Queue
    decreases |entries|
  {
    if entries == [] then q else EnqueueAll(Q.Enqueue(q, entries[0].job), entries[1..])
  }

  function RelayEntries(d: Disk): seq<Entry> { Entries(d.db.outbox, d.db.jobs) }

  function RelayDisk(d: Disk, now: int): Disk {
    var entries := RelayEntries(d);
    Disk(d.db.(outbox := MarkIds(d.db.outbox, Rows(entries), now)), EnqueueAll(d.q, entries))
  }

  /** The pass stops after k Enqueue calls, by an error or, with all of them made, at a mark or at Commit:
      the first k entries are in Redis, the transaction is rolled back. */
  function RelayFailDisk(d: Disk, k: nat): Disk {
    var entries := RelayEntries(d);
    if k <= |entries| then d.(q := EnqueueAll(d.q, entries[..k])) else d
  }

  // ----- guards -----

  /** handleResult goes past its ownership and status checks. */
  predicate Accepts(s: Sys, w: string) {
    && w in s.inFlight
    && var j := s.inFlight[w].id;
    && j in s.owner && s.owner[j] == w
    && j in s.disk.db.jobs && !Settled(s.disk.db.jobs[j].status)
  }

  predicate Reaps(s: Sys, j: nat) {
    && j in s.disk.db.jobs && s.disk.db.jobs[j].status == Running
    && j in s.lastSeen && s.now - s.lastSeen[j] >= HEARTBEAT_TIMEOUT
    && j in s.owner
  }

  predicate Cancels(s: Sys, j: nat) {
    j in s.disk.db.jobs && !Settled(s.disk.db.jobs[j].status)
  }

  // ----- steps -----

  /** The durable effect of an event's first `cut` writes. */
  ghost function DiskAfter(s: Sys, e: Event, cut: nat): Disk {
    var d := s.disk;
    match e
    case Submit(maxRetries, kind, payload) => if cut > 0 then d.(db := InsertJob(d.db, maxRetries, kind, payload).0) else d
    case StartRun(name, total) => if cut > 0 then d.(db := CreateWorkflowRun(d.db, name, total)) else d
    case SubmitStep(key, maxRetries, payload) =>
      if cut > 0 then d.(db := InsertWorkflowStep(d.db, key, maxRetries, payload).0) else d
    case CountStep(run) => if cut > 0 then d.(db := AdvanceWorkflowRun(d.db, run)) else d
    case CloseRun(run, status) => if cut > 0 then d.(db := SetRunStatus(d.db, run, status)) else d
    case Ready(w, sent) => if w in s.inFlight then d else ReadyDisk(d, sent, s.now, cut)
    case Result(w, success, output) =>
      if Accepts(s, w) then ResultDisk(d, s.inFlight[w].id, success, output, s.now, cut) else d
    case Disconnect(w) => if w in s.inFlight then ReturnJob(d, s.inFlight[w], s.now, cut) else d
    case Reap(j) => if Reaps(s, j) then ReturnJob(d, RowCopy(j, d.db.jobs[j]), s.now, cut) else d
    case CancelJob(j) => if Cancels(s, j) then CancelDisk(d, j, s.now, cut) else d
    case CancelRun(run) => if cut > 0 then d.(db := CancelWorkflowRun(d.db, run, s.now)) else d
    case RelayPass => if cut > 0 then RelayDisk(d, s.now) else d
    case RelayFail(k) => if cut > 0 then RelayFailDisk(d, k) else d
    case PromoteDue(batch) =>
      if cut > 0 && Q.IsDueBatch(d.q.delayed, Q.Millis(s.now), batch) then d.(q := Q.Promote(d.q, batch)) else d
    case CleanUp(age) => if cut > 0 then d.(db := d.db.(outbox := Cleanup(d.db.outbox, s.now - age))) else d
    case Tick(_) => d
    case Heartbeat(_, _) => d
    case Crash(_, _) => d
  }

  function Disown(s: Sys, j: nat): Sys { s.(owner := s.owner - {j}, lastSeen := s.lastSeen - {j}) }

  /** The in-memory effect of a whole event. */
  ghost function MemoryAfter(s: Sys, e: Event): Sys {
    match e
    case Tick(d) => s.(now := s.now + d)
    case Ready(w, sent) =>
      var got := Q.Consume(s.disk.q).1;
      if w in s.inFlight || got.None? then s
      else if sent then
        s.(owner := s.owner[got.value.id := w], lastSeen := s.lastSeen[got.value.id := s.now], inFlight := s.inFlight[w := got.value])
      else Disown(s, got.value.id)
    case Heartbeat(w, j) => if j in s.owner && s.owner[j] == w then s.(lastSeen := s.lastSeen[j := s.now]) else s
    case Result(w, _, _) =>
      if w !in s.inFlight then s
      else
        var j := s.inFlight[w].id;
        var s1 := s.(inFlight := s.inFlight - {w});
        if j in s.owner && s.owner[j] == w then Disown(s1, j) else s1
    case Disconnect(w) => if w in s.inFlight then Disown(s.(inFlight := s.inFlight - {w}), s.inFlight[w].id) else s
    case Reap(j) => if Reaps(s, j) then Disown(s, j) else s
    case _ => s
  }

  /** main: ResetRunningJobs, then Recover; nothing in memory is left. */
  function Boot(d: Disk, now: int): Sys {
    Sys(Disk(ResetRunningJobs(d.db), Q.Recover(d.q)), map[], map[], map[], now)
  }

  ghost function Next(s: Sys, e: Event): Sys {
    match e
    case Crash(during, cut) => Boot(DiskAfter(s, during, cut), s.now)
    case _ => MemoryAfter(s, e).(disk := DiskAfter(s, e, ALL))
  }

  predicate Is(s: Sys, j: nat, status: Status) { j in s.disk.db.jobs && s.disk.db.jobs[j].status == status }

  ghost function Exec(s: Sys, es: seq<Event>): Sys
    decreases |es|
  {
    if es == [] then s else Exec(Next(s, es[0]), es[1..])
  }
}
