/** A job put aside for a retry is not handed out before its time. */
module Delays {
  import opened Prelude
  import opened Types
  import opened Tables
  import opened Delivery
  import opened DeliveryRuns
  import opened Positions
  import opened Revival
  import opened Backoff
  import Accounting
  import Q = QueueState

  /** Either the due time t (in milliseconds) has come, or the job still waits in delayed, or it has
      been cancelled for good. */
  ghost predicate Waits(s: Sys, j: nat, t: int) {
    || Q.Millis(s.now) >= t
    || (j in s.disk.q.delayed && s.disk.q.delayed[j] >= t)
    || Gone(s, j)
  }

  lemma DelayedIsUnowned(s: Sys, j: nat, lost: set<nat>)
    requires Single(s, lost) && j in s.disk.q.delayed
    ensures j in s.disk.q.queued && j !in s.disk.q.ready && j !in s.disk.q.processing && j !in s.owner
  {
    Q.Count(s.disk.q.ready, j);
    Q.Count(s.disk.q.processing, j);
    assert Q.Places(s.disk.q, j) >= 1;
    assert j in s.owner ==> Owned(s.disk, j);
  }

  /** What a handler can do to a waiting job: cancel it, or nothing. */
  lemma DelayedHandler(s: Sys, e: Event, cut: nat, j: nat, t: int, lost: set<nat>)
    requires Single(s, lost) && !StaleDrop(s, Crash(e, cut)) && IsHandler(e)
    requires j in s.disk.q.delayed && s.disk.q.delayed[j] >= t
    ensures Waits(s.(disk := DiskAfter(s, e, cut)), j, t)
    ensures Subject(s, e) == Some(j) ==> e.CancelJob? || e.Result?
  {
    hide RowCount;
    hide Q.Consume;
    DelayedIsUnowned(s, j, lost);
    Q.ConsumeGives(s.disk.q);
    if Subject(s, e) != Some(j) {
      HandlerTouches(s, e, cut, j);
      hide DiskAfter;
    } else if e.CancelJob? {
      MarkJobsCount(s.disk.db.outbox, {j}, s.now, j);
    }
    hide Single;
  }

  lemma DelayedElsewhere(s: Sys, e: Event, cut: nat, j: nat, t: int, lost: set<nat>)
    requires Single(s, lost) && !IsHandler(e)
    requires j in s.disk.q.delayed && s.disk.q.delayed[j] >= t
    ensures Waits(s.(disk := DiskAfter(s, e, cut)), j, t)
  {
    hide EnqueueAll;
    hide RowCount;
    hide Single;
    hide MarkIds;
    hide MarkJobs;
    hide Entries;
    var entries := RelayEntries(s.disk);
    EnqueueAllFrame(s.disk.q, entries);
    if e.RelayFail? && e.k <= |entries| { EnqueueAllFrame(s.disk.q, entries[..e.k]); }
  }

  lemma WaitsKept(s: Sys, e: Event, j: nat, t: int, lost: set<nat>)
    requires Single(s, lost) && !StaleDrop(s, e) && Waits(s, j, t)
    ensures Waits(Next(s, e), j, t)
  {
    var h, cut := Handler(e), Writes(e);
    if Q.Millis(s.now) >= t {
      ClockRuns(s, e);
    } else if Gone(s, j) {
      StaleSubject(s, e, j, lost);
      GoneStays(s, e, j, lost);
    } else {
      if IsHandler(h) { DelayedHandler(s, h, cut, j, t, lost); } else { DelayedElsewhere(s, h, cut, j, t, lost); }
      DelayedIsUnowned(s, j, lost);
      AfterMemory(s, e, j, t, lost);
    }
  }

  lemma ClockRuns(s: Sys, e: Event)
    ensures Next(s, e).now >= s.now && Q.Millis(Next(s, e).now) >= Q.Millis(s.now)
  {
    hide DiskAfter;
    hide Q.Consume;
  }

  /** Without stale drops a gone job, which nobody owns, is not the one a breaking stream puts back. */
  lemma StaleSubject(s: Sys, e: Event, j: nat, lost: set<nat>)
    requires Single(s, lost) && !StaleDrop(s, e) && Gone(s, j)
    ensures Handler(e).Disconnect? ==> Subject(s, Handler(e)) != Some(j)
  {
  }

  lemma AfterMemory(s: Sys, e: Event, j: nat, t: int, lost: set<nat>)
    requires Single(s, lost) && j in s.disk.q.delayed && j !in s.owner
    requires Waits(s.(disk := DiskAfter(s, Handler(e), Writes(e))), j, t)
    requires Q.Millis(s.now) < t && j !in s.disk.q.ready
    ensures Waits(Next(s, e), j, t)
  {
    hide DiskAfter;
    hide RowCount;
    ClockRuns(s, e);
    Q.ConsumeGives(s.disk.q);
    hide Single;
    var d := DiskAfter(s, Handler(e), Writes(e));
    if e.Crash? {
      if Gone(s.(disk := d), j) { BootKeepsGone(d, s.now, s, j); }
      BootKeepsDelayed(d, s.now);
      hide Boot;
    } else if j in MemoryAfter(s, e).owner {
      OwnerGained(s, e, j);
    }
    hide MemoryAfter;
  }

  lemma BootKeepsDelayed(d: Disk, now: int)
    ensures Boot(d, now).disk.q.delayed == d.q.delayed && Boot(d, now).now == now
  {
  }

  lemma {:induction false} WaitsAlong(s: Sys, es: seq<Event>, j: nat, t: int, lost: set<nat>)
    requires Single(s, lost) && Always(s, es, NoStaleDrop) && Waits(s, j, t)
    ensures Waits(Exec(s, es), j, t) && Single(Exec(s, es), lost + LostIn(s, es))
    decreases |es|
  {
    StaleFreeSingle(s, es, lost);
    ExecSingle(s, es, lost);
    hide Single;
    hide Waits;
    hide Next;
    if es != [] {
      WaitsKept(s, es[0], j, t, lost);
      OwnDropIsSingle(s, es[0], lost);
      NextSingle(s, es[0], lost);
      WaitsAlong(Next(s, es[0]), es[1..], j, t, lost + LostBy(s, es[0]));
    }
  }

  /** The event grants job j a retry: an accepted failure whose handler got past queue.Retry, the
      second of its writes, even if the server crashed right after. */
  ghost predicate Retries(s: Sys, e: Event, j: nat) {
    && Accounting.Accepted(s, Handler(e), j) && !Handler(e).success && Writes(e) > 1
    && s.disk.db.jobs[j].retryCount < s.disk.db.jobs[j].maxRetries
  }

  /** What a granted retry is: the row says retrying with one more retry used, and the job waits in delayed, due
      in exactly 2^retry seconds as the 64-bit delay has it, with a payload that says the same. */
  lemma RetryIsDue(s: Sys, e: Event, j: nat)
    requires Retries(s, e, j) && !e.Crash?
    ensures var s', row := Next(s, e), s.disk.db.jobs[j];
      && j in s'.disk.db.jobs && s'.disk.db.jobs[j] == row.(status := Retrying, retryCount := row.retryCount + 1)
      && j in s'.disk.q.queued && j in s'.disk.q.delayed
      && s'.disk.q.delayed[j] == (s.now + RetryDelay(row.retryCount + 1)) / 1_000_000
      && j in s'.disk.q.payloads
      && s'.disk.q.payloads[j] == Job(j, row.retryCount + 1, row.maxRetries, row.kind, row.payload)
      && j !in s'.owner && j !in s'.lastSeen && e.w !in s'.inFlight
  {
    hide RetryDelay;
    hide RowCount;
    hide RemoveFirst;
  }

  /** Promotion takes every job whose due time has come, to the millisecond, and no other. */
  lemma PromotionTakesDue(s: Sys, batch: seq<nat>, j: nat)
    requires Q.IsDueBatch(s.disk.q.delayed, Q.Millis(s.now), batch)
    ensures var q, q' := s.disk.q, Next(s, PromoteDue(batch)).disk.q;
      && (j in q'.delayed <==> j in q.delayed && q.delayed[j] > s.now / 1_000_000)
      && (j in q'.delayed ==> q'.delayed[j] == q.delayed[j])
      && (j in q.delayed && q.delayed[j] <= s.now / 1_000_000 ==> j in q'.ready)
      && q'.processing == q.processing && q'.payloads == q.payloads && q'.queued == q.queued
  {
    Q.PushAllCount(s.disk.q.ready, batch);
    Q.Count(batch, j);
    Q.Count(Q.PushAll(s.disk.q.ready, batch), j);
  }

  lemma RetriedWaits(s: Sys, e: Event, j: nat)
    requires Retries(s, e, j)
    ensures Waits(Next(s, e), j, Q.Millis(s.now + RetryDelay(s.disk.db.jobs[j].retryCount + 1)))
  {
    hide RetryDelay;
    hide RowCount;
    hide WithOrphans;
    hide RemoveFirst;
  }

  /** In every run without a stale drop, crashes and rolled-back relay passes included, a job retried at
      time t with delay d is not handed to a worker before t + d, to the millisecond. */
  lemma NeverEarly(s: Sys, e: Event, es: seq<Event>, r: Event, j: nat, lost: set<nat>)
    requires Single(s, lost) && Always(s, [e] + es, NoStaleDrop)
    requires Retries(s, e, j)
    requires r.Ready? && Subject(Exec(Next(s, e), es), r) == Some(j)
    ensures Q.Millis(Exec(Next(s, e), es).now) >= Q.Millis(s.now + RetryDelay(s.disk.db.jobs[j].retryCount + 1))
  {
    hide RetryDelay;
    hide Waits;
    hide Single;
    var t := Q.Millis(s.now + RetryDelay(s.disk.db.jobs[j].retryCount + 1));
    RetriedWaits(s, e, j);
    assert ([e] + es)[1..] == es;
    OwnDropIsSingle(s, e, lost);
    NextSingle(s, e, lost);
    WaitsAlong(Next(s, e), es, j, t, lost + LostBy(s, e));
    HandedOutInTime(Exec(Next(s, e), es), r, j, t, lost + LostBy(s, e) + LostIn(Next(s, e), es));
  }

  lemma HandedOutInTime(s: Sys, r: Event, j: nat, t: int, lost: set<nat>)
    requires Single(s, lost) && Waits(s, j, t) && r.Ready? && Subject(s, r) == Some(j)
    ensures Q.Millis(s.now) >= t
  {
    Q.ConsumeGives(s.disk.q);
    if j in s.disk.q.delayed { DelayedIsUnowned(s, j, lost); }
    if Gone(s, j) { GoneIsNoSubject(s, r, j, lost); }
    hide Single;
    hide Q.Consume;
    hide RowCount;
  }
}
