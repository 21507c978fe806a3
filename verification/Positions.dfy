/** One queue position per job: what every run without a stale drop keeps. */
module Positions {
  import opened Prelude
  import opened Types
  import opened Tables
  import opened Delivery
  import opened DeliverySafety
  import opened DeliveryRuns
  import Q = QueueState

  /** A stream breaks while it holds a job that has been reaped or reassigned. */
  ghost predicate StaleDrop(s: Sys, e: Event) {
    var h := Handler(e);
    h.Disconnect? && h.w in s.inFlight
    && !(s.inFlight[h.w].id in s.owner && s.owner[s.inFlight[h.w].id] == h.w)
  }

  ghost predicate Always(s: Sys, es: seq<Event>, ok: (Sys, Event) -> bool)
    decreases |es|
  {
    es == [] || (ok(s, es[0]) && Always(Next(s, es[0]), es[1..], ok))
  }

  ghost predicate NoStaleDrop(s: Sys, e: Event) { !StaleDrop(s, e) }

  /** A stream breaks while its job waits in ready, and puts it back a second time. */
  ghost predicate DoubleDrop(s: Sys, e: Event) {
    var h := Handler(e);
    h.Disconnect? && h.w in s.inFlight && s.inFlight[h.w].id in s.disk.q.ready && Writes(e) > 1
  }

  ghost predicate NoDoubleDrop(s: Sys, e: Event) { !DoubleDrop(s, e) }

  /** The server keeps the queue's usage rule: what it owns and runs stands in processing. */
  ghost predicate OwnerPlace(d: Disk, j: nat)
    requires j in d.db.jobs
  {
    && (d.db.jobs[j].status == Running ==> j in d.q.processing)
    && (d.db.jobs[j].status == Cancelled ==> j !in d.q.queued && RowCount(d.db.outbox, j) == 0)
  }

  ghost predicate Single(s: Sys, lost: set<nat>) {
    && Inv(s, lost)
    && Q.OnePlace(s.disk.q)
    && forall j :: j in s.owner ==> OwnerPlace(s.disk, j)
  }

  lemma NotReady(q: Q.Queue, j: nat)
    requires Q.OnePlace(q) && (j in q.processing || j !in q.queued)
    ensures j !in q.ready
  {
    Q.Count(q.ready, j);
    Q.Count(q.processing, j);
    assert Q.Places(q, j) <= 1;
  }

  lemma OwnedNotReady(s: Sys, j: nat, lost: set<nat>)
    requires Single(s, lost) && j in s.owner
    ensures j !in s.disk.q.ready
  {
    assert Owned(s.disk, j) && OwnerPlace(s.disk, j);
    NotReady(s.disk.q, j);
  }

  lemma ReturnOnePlace(d: Disk, job: Job, now: int, cut: nat)
    requires Q.Kept(d.q) && Q.OnePlace(d.q) && (cut > 1 ==> job.id !in d.q.ready)
    ensures Q.OnePlace(ReturnJob(d, job, now, cut).q)
  {
    if cut > 1 { Q.RetryKept(d.q, job, Q.Millis(now)); }
  }

  lemma ReadyOnePlace(d: Disk, sent: bool, now: int, cut: nat)
    requires CopiesOk(d) && Q.OnePlace(d.q)
    ensures Q.OnePlace(ReadyDisk(d, sent, now, cut).q)
  {
    Q.ConsumeKept(d.q);
    Q.ConsumeGives(d.q);
    var (q, got) := Q.Consume(d.q);
    hide Q.Consume;
    if got.Some? {
      NotReady(q, got.value.id);
      ReturnOnePlace(SetState(d.(q := q), got.value.id, Running, got.value.retryCount), got.value, now, if cut > 2 then cut - 2 else 0);
    }
  }

  lemma ResultOnePlace(d: Disk, j: nat, success: bool, output: string, now: int, cut: nat)
    requires Q.Kept(d.q) && Q.OnePlace(d.q) && j in d.db.jobs && j !in d.q.ready
    ensures Q.OnePlace(ResultDisk(d, j, success, output, now, cut).q)
  {
    Q.SettleKept(d.q, j);
    var row := d.db.jobs[j];
    var job := RowCopy(j, row).(retryCount := row.retryCount + 1);
    Q.RetryKept(d.q, job, Q.Millis(now + Backoff.RetryDelay(job.retryCount)));
    hide Q.OnePlace;
    hide Q.Kept;
    hide Q.Settle;
    hide Q.Retry;
  }

  lemma {:induction false} EnqueueAllOnePlace(q: Q.Queue, entries: seq<Entry>)
    requires Q.Kept(q) && Q.OnePlace(q)
    ensures Q.Kept(EnqueueAll(q, entries)) && Q.OnePlace(EnqueueAll(q, entries))
    decreases |entries|
  {
    if entries != [] {
      Q.EnqueueKept(q, entries[0].job);
      hide Q.Kept;
      hide Q.OnePlace;
      EnqueueAllOnePlace(Q.Enqueue(q, entries[0].job), entries[1..]);
    }
  }

  lemma HandlerOnePlace(s: Sys, e: Event, cut: nat, lost: set<nat>)
    requires Single(s, lost) && !DoubleDrop(s, Crash(e, cut)) && IsHandler(e)
    ensures Q.OnePlace(DiskAfter(s, e, cut).q)
  {
    hide Q.OnePlace;
    hide ReadyDisk;
    hide ResultDisk;
    hide ReturnJob;
    hide Q.Cancel;
    hide RowsOk;
    var d := s.disk;
    match e {
      case Ready(w, sent) => ReadyOnePlace(d, sent, s.now, cut);
      case Result(w, success, output) =>
        if Accepts(s, w) {
          OwnedNotReady(s, s.inFlight[w].id, lost);
          ResultOnePlace(d, s.inFlight[w].id, success, output, s.now, cut);
        }
      case Disconnect(w) =>
        if w in s.inFlight { ReturnOnePlace(d, s.inFlight[w], s.now, cut); }
      case Reap(j) =>
        if Reaps(s, j) {
          OwnedNotReady(s, j, lost);
          ReturnOnePlace(d, RowCopy(j, d.db.jobs[j]), s.now, cut);
        }
      case CancelJob(j) => if Cancels(s, j) { Q.CancelKept(d.q, j); }
    }
  }

  lemma DiskOnePlace(s: Sys, e: Event, cut: nat, lost: set<nat>)
    requires Single(s, lost) && !DoubleDrop(s, Crash(e, cut))
    ensures Q.OnePlace(DiskAfter(s, e, cut).q)
  {
    if IsHandler(e) {
      HandlerOnePlace(s, e, cut, lost);
      hide DiskAfter;
    } else {
      OtherOnePlace(s, e, cut, lost);
      hide DiskAfter;
    }
  }

  lemma OtherOnePlace(s: Sys, e: Event, cut: nat, lost: set<nat>)
    requires Single(s, lost) && !IsHandler(e)
    ensures Q.OnePlace(DiskAfter(s, e, cut).q)
  {
    hide Q.OnePlace;
    hide EnqueueAll;
    hide MarkIds;
    hide MarkJobs;
    hide RowsOk;
    var d := s.disk;
    match e {
      case RelayPass => EnqueueAllOnePlace(d.q, RelayEntries(d));
      case RelayFail(k) => if k <= |RelayEntries(d)| { EnqueueAllOnePlace(d.q, RelayEntries(d)[..k]); }
      case PromoteDue(batch) =>
        if Q.IsDueBatch(d.q.delayed, Q.Millis(s.now), batch) { Q.PromoteKept(d.q, Q.Millis(s.now), batch); }
      case _ =>
    }
  }

  // ----- owned jobs keep their place -----

  lemma OwnerPlaceKept(s: Sys, e: Event, j: nat, lost: set<nat>)
    requires Single(s, lost) && !e.Crash? && j in MemoryAfter(s, e).owner && j in DiskAfter(s, e, ALL).db.jobs
    ensures OwnerPlace(DiskAfter(s, e, ALL), j)
  {
    hide DiskAfter;
    hide RowCount;
    if Subject(s, e) != Some(j) { NewOwner(s, e, j); }
    if IsHandler(e) {
      if Subject(s, e) == Some(j) {
        SubjectPlace(s, e, j, lost);
      } else {
        hide MemoryAfter;
        HandlerTouches(s, e, ALL, j);
        assert OwnerPlace(s.disk, j);
      }
    } else {
      assert Owned(s.disk, j) && OwnerPlace(s.disk, j);
      OthersPlace(s, e, j, lost);
    }
  }

  lemma NewOwner(s: Sys, e: Event, j: nat)
    requires j in MemoryAfter(s, e).owner && Subject(s, e) != Some(j)
    ensures j in s.owner
  {
    hide Q.Consume;
  }

  lemma SubjectPlace(s: Sys, e: Event, j: nat, lost: set<nat>)
    requires Single(s, lost) && IsHandler(e) && Subject(s, e) == Some(j)
    requires j in MemoryAfter(s, e).owner && j in DiskAfter(s, e, ALL).db.jobs
    ensures OwnerPlace(DiskAfter(s, e, ALL), j)
  {
    match e {
      case Ready(w, sent) => Q.ConsumeGives(s.disk.q);
      case Result(w, success, output) => assert s.owner[j] in s.inFlight;
      case CancelJob(_) => MarkJobsCount(s.disk.db.outbox, {j}, s.now, j);
      case _ =>
    }
  }

  lemma {:induction false} EnqueueAllOther(q: Q.Queue, entries: seq<Entry>, j: nat)
    requires forall e :: e in entries ==> e.job.id != j
    ensures j in EnqueueAll(q, entries).queued <==> j in q.queued
    ensures j in EnqueueAll(q, entries).payloads <==> j in q.payloads
    ensures EnqueueAll(q, entries).processing == q.processing && EnqueueAll(q, entries).delayed == q.delayed
    decreases |entries|
  {
    if entries != [] {
      assert entries[0] in entries;
      EnqueueAllOther(Q.Enqueue(q, entries[0].job), entries[1..], j);
    }
  }

  lemma {:induction false} EnqueueAllFrame(q: Q.Queue, entries: seq<Entry>)
    ensures EnqueueAll(q, entries).processing == q.processing && EnqueueAll(q, entries).delayed == q.delayed
    decreases |entries|
  {
    if entries != [] { EnqueueAllFrame(Q.Enqueue(q, entries[0].job), entries[1..]); }
  }

  /** Without an unprocessed row a job is in no relay pass. */
  lemma NotRelayed(d: Disk, j: nat)
    requires RowCount(d.db.outbox, j) == 0
    ensures forall e :: e in RelayEntries(d) ==> e.job.id != j
  {
    forall e | e in RelayEntries(d) ensures e.job.id != j { EntriesSound(d.db.outbox, d.db.jobs, e); }
  }

  lemma RelayPlace(d: Disk, now: int, j: nat)
    requires j in d.db.jobs && OwnerPlace(d, j)
    ensures OwnerPlace(RelayDisk(d, now), j)
    ensures forall k :: OwnerPlace(RelayFailDisk(d, k), j)
  {
    var entries := RelayEntries(d);
    EnqueueAllFrame(d.q, entries);
    MarkIdsCount(d.db.outbox, Rows(entries), now, j);
    if d.db.jobs[j].status == Cancelled {
      NotRelayed(d, j);
      EnqueueAllOther(d.q, entries, j);
    }
    forall k: nat ensures OwnerPlace(RelayFailDisk(d, k), j) {
      if k <= |entries| {
        EnqueueAllFrame(d.q, entries[..k]);
        if d.db.jobs[j].status == Cancelled { EnqueueAllOther(d.q, entries[..k], j); }
      }
    }
  }

  lemma OthersPlace(s: Sys, e: Event, j: nat, lost: set<nat>)
    requires Single(s, lost) && !IsHandler(e) && j in s.owner && Owned(s.disk, j) && OwnerPlace(s.disk, j)
    requires j in DiskAfter(s, e, ALL).db.jobs
    ensures OwnerPlace(DiskAfter(s, e, ALL), j)
  {
    var d := s.disk;
    if IsQuiet(e) {
      QuietTouches(s, e, ALL, j);
    } else if e.CancelRun? {
      CancelRunTouches(d, e.run, s.now, j);
    } else if !e.PromoteDue? {
      RelayPlace(d, s.now, j);
    }
    hide RowCount;
    hide Inv;
    hide RelayDisk;
    hide RelayFailDisk;
  }

  lemma NextSingle(s: Sys, e: Event, lost: set<nat>)
    requires Single(s, lost) && !DoubleDrop(s, e)
    ensures Single(Next(s, e), lost + LostBy(s, e))
  {
    NextInv(s, e, lost);
    hide Q.OnePlace;
    if e.Crash? {
      DiskOnePlace(s, e.during, e.cut, lost);
      DiskDurable(s, e.during, e.cut, lost);
      Q.RecoverKept(DiskAfter(s, e.during, e.cut).q);
      hide Inv;
      hide DiskAfter;
    } else {
      DiskOnePlace(s, e, ALL, lost);
      MemoryKept(s, e, lost);
      hide DiskAfter;
      hide MemoryAfter;
      forall j | j in Next(s, e).owner ensures OwnerPlace(Next(s, e).disk, j) {
        assert Owned(DiskAfter(s, e, ALL), j);
        OwnerPlaceKept(s, e, j, lost);
      }
      hide Inv;
    }
  }

  lemma DoubledPlace(q: Q.Queue, job: Job, score: int)
    requires job.id in q.ready
    ensures Q.Places(Q.Retry(q, job, score), job.id) >= 2
  {
    assert multiset(Q.Retry(q, job, score).ready)[job.id] >= 1;
  }

  /** One position per id survives an event exactly when no stream breaks whose job waits in ready. */
  lemma SingleKeptIff(s: Sys, e: Event, lost: set<nat>)
    requires Single(s, lost)
    ensures Single(Next(s, e), lost + LostBy(s, e)) <==> !DoubleDrop(s, e)
  {
    if DoubleDrop(s, e) {
      var job := s.inFlight[Handler(e).w];
      DoubledPlace(s.disk.q, job, Q.Millis(s.now));
      DoubledDrop(s, e);
      hide Next;
      hide Inv;
      assert Q.Places(Next(s, e).disk.q, job.id) >= 2;
    } else {
      NextSingle(s, e, lost);
    }
  }

  /** A restart does not change how often an id stands in the queue. */
  lemma DoubledDrop(s: Sys, e: Event)
    requires DoubleDrop(s, e)
    ensures var job := s.inFlight[Handler(e).w];
      Q.Places(Next(s, e).disk.q, job.id) == Q.Places(Q.Retry(s.disk.q, job, Q.Millis(s.now)), job.id)
  {
    var job := s.inFlight[Handler(e).w];
    hide WithOrphans;
    hide RemoveFirst;
  }

  /** A stream that still owns its job holds it in processing, or it has been cancelled: it is no double drop. */
  lemma OwnDropIsSingle(s: Sys, e: Event, lost: set<nat>)
    requires Single(s, lost) && !StaleDrop(s, e)
    ensures !DoubleDrop(s, e)
  {
    var h := Handler(e);
    if h.Disconnect? && h.w in s.inFlight { OwnedNotReady(s, s.inFlight[h.w].id, lost); }
  }

  lemma {:induction false} StaleFreeSingle(s: Sys, es: seq<Event>, lost: set<nat>)
    requires Single(s, lost) && Always(s, es, NoStaleDrop)
    ensures Always(s, es, NoDoubleDrop)
    decreases |es|
  {
    hide Single;
    hide Next;
    hide LostBy;
    hide StaleDrop;
    hide DoubleDrop;
    if es != [] {
      OwnDropIsSingle(s, es[0], lost);
      NextSingle(s, es[0], lost);
      StaleFreeSingle(Next(s, es[0]), es[1..], lost + LostBy(s, es[0]));
    }
  }

  lemma {:induction false} ExecSingle(s: Sys, es: seq<Event>, lost: set<nat>)
    requires Single(s, lost) && Always(s, es, NoDoubleDrop)
    ensures Single(Exec(s, es), lost + LostIn(s, es))
    decreases |es|
  {
    hide Single;
    hide Next;
    hide LostBy;
    if es != [] {
      NextSingle(s, es[0], lost);
      ExecSingle(Next(s, es[0]), es[1..], lost + LostBy(s, es[0]));
      assert lost + LostBy(s, es[0]) + LostIn(Next(s, es[0]), es[1..]) == lost + LostIn(s, es);
    } else {
      assert lost + LostIn(s, es) == lost;
    }
  }

  lemma StartSingle()
    ensures Single(START, {})
  {
    StartInv();
  }
}
