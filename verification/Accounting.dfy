/**
  Settled stays settled, and the books balance: in runs without restart, without a rolled-back relay
  pass and without a stale drop, every accepted result is counted exactly once.
*/
module Accounting {
  import opened Prelude
  import opened Types
  import opened Tables
  import opened Delivery
  import opened DeliverySafety
  import opened DeliveryRuns
  import opened Positions
  import opened Backoff
  import Q = QueueState

  ghost predicate Steady(s: Sys, e: Event) {
    !e.Crash? && !e.RelayFail? && !StaleDrop(s, e)
  }

  /** Done for good. */
  predicate Final(status: Status) { status == Completed || status == Failed }

  /** All copies of job j agree, a waiting outbox row means a job nobody has seen yet, and a finished
      job is nowhere else. */
  ghost predicate Agree(s: Sys, j: nat)
    requires j in s.disk.db.jobs
  {
    var row, q := s.disk.db.jobs[j], s.disk.q;
    && (RowCount(s.disk.db.outbox, j) > 0 ==> row.status == Pending && row.retryCount == 0 && j !in q.queued && j !in s.owner)
    && (Final(row.status) ==> j !in q.queued && RowCount(s.disk.db.outbox, j) == 0 && j !in s.owner)
    && (j in q.payloads ==> q.payloads[j].retryCount == row.retryCount)
    && (j in s.owner && s.owner[j] in s.inFlight ==> s.inFlight[s.owner[j]].retryCount == row.retryCount)
  }

  ghost predicate Quiet(s: Sys, lost: set<nat>) {
    Single(s, lost) && forall j :: j in s.disk.db.jobs ==> Agree(s, j)
  }

  /** The accepted result an event brings for job j, if any. */
  ghost predicate Accepted(s: Sys, e: Event, j: nat) {
    e.Result? && Accepts(s, e.w) && s.inFlight[e.w].id == j
  }

  /** What a step makes of one row: an accepted result moves it on, nothing moves it once it is final. */
  ghost predicate Moves(s: Sys, e: Event, j: nat, row: JobRow, row': JobRow) {
    if Accepted(s, e, j) then
      && !Final(row.status)
      && row' == if e.success then row.(status := Completed, output := Some(e.output))
                 else if row.retryCount < row.maxRetries then row.(status := Retrying, retryCount := row.retryCount + 1)
                 else row.(status := Failed)
    else
      && (Final(row.status) ==> row' == row)
      && (!Final(row.status) ==> !Final(row'.status) && row' == row.(status := row'.status))
  }

  // ----- one step, one job -----

  lemma UntouchedAgrees(s: Sys, s': Sys, j: nat)
    requires j in s.disk.db.jobs && Agree(s, j) && Untouched(s.disk, s'.disk, j)
    requires j in s'.owner <==> j in s.owner
    requires j in s.owner ==> s'.owner[j] == s.owner[j]
    requires j in s.owner && s.owner[j] in s'.inFlight ==> s.owner[j] in s.inFlight && s'.inFlight[s.owner[j]] == s.inFlight[s.owner[j]]
    ensures Agree(s', j)
  {
    hide RowCount;
  }

  /** A handler about another job does not change who owns j, nor what that owner holds. */
  lemma OwnerUntouched(s: Sys, e: Event, j: nat)
    requires OwnersOk(s) && Subject(s, e) != Some(j) && !e.Crash?
    ensures var s' := MemoryAfter(s, e);
      && (j in s'.owner <==> j in s.owner)
      && (j in s.owner ==> s'.owner[j] == s.owner[j] && s.owner[j] in s.inFlight)
      && (j in s.owner ==> s.owner[j] in s'.inFlight && s'.inFlight[s.owner[j]] == s.inFlight[s.owner[j]])
  {
  }

  lemma OtherJob(s: Sys, e: Event, j: nat, lost: set<nat>)
    requires Quiet(s, lost) && Steady(s, e) && j in s.disk.db.jobs
    requires IsHandler(e) && Subject(s, e) != Some(j)
    ensures j in Next(s, e).disk.db.jobs && Agree(Next(s, e), j) && Moves(s, e, j, s.disk.db.jobs[j], Next(s, e).disk.db.jobs[j])
  {
    hide DiskAfter;
    hide MemoryAfter;
    hide RowCount;
    HandlerTouches(s, e, ALL, j);
    OwnerUntouched(s, e, j);
    assert Agree(s, j);
    hide Quiet;
    hide Agree;
    UntouchedAgrees(s, Next(s, e), j);
  }

  lemma TakenJob(s: Sys, w: string, sent: bool, j: nat, lost: set<nat>)
    requires Quiet(s, lost) && Subject(s, Ready(w, sent)) == Some(j)
    ensures j in s.disk.db.jobs
    ensures var s' := Next(s, Ready(w, sent));
      j in s'.disk.db.jobs && Agree(s', j) && Moves(s, Ready(w, sent), j, s.disk.db.jobs[j], s'.disk.db.jobs[j])
  {
    hide RowCount;
    hide Q.Consume;
    hide Q.Places;
    hide OwnerPlace;
    Q.ConsumeGives(s.disk.q);
    Q.ConsumePlaces(s.disk.q, j);
    assert CopyOk(s.disk.db, s.disk.q.payloads[j]);
    assert Agree(s, j);
    hide Single;
  }

  lemma ReturnedJob(s: Sys, e: Event, j: nat, lost: set<nat>)
    requires Quiet(s, lost) && Steady(s, e) && (e.Disconnect? || e.Reap?) && Subject(s, e) == Some(j)
    ensures j in s.disk.db.jobs
    ensures j in Next(s, e).disk.db.jobs && Agree(Next(s, e), j) && Moves(s, e, j, s.disk.db.jobs[j], Next(s, e).disk.db.jobs[j])
  {
    assert j in s.owner && Owned(s.disk, j);
    assert Agree(s, j);
    hide RowCount;
    hide Single;
  }

  lemma CancelledJob(s: Sys, j: nat, lost: set<nat>)
    requires Quiet(s, lost) && Cancels(s, j)
    ensures var s' := Next(s, CancelJob(j));
      j in s'.disk.db.jobs && Agree(s', j) && Moves(s, CancelJob(j), j, s.disk.db.jobs[j], s'.disk.db.jobs[j])
  {
    MarkJobsCount(s.disk.db.outbox, {j}, s.now, j);
    assert Agree(s, j);
    hide RowCount;
    hide Single;
  }

  lemma ResultEffect(d: Disk, j: nat, success: bool, output: string, now: int)
    requires j in d.db.jobs && d.db.jobs[j].retryCount <= d.db.jobs[j].maxRetries
    ensures var d' := ResultDisk(d, j, success, output, now, ALL);
      && j in d'.db.jobs && d'.db.outbox == d.db.outbox
      && (if Final(d'.db.jobs[j].status) then j !in d'.q.queued && j !in d'.q.payloads
          else d'.db.jobs[j].status == Retrying && j in d'.q.payloads && d'.q.payloads[j].retryCount == d'.db.jobs[j].retryCount)
  {
    hide RowCount;
    hide RetryDelay;
    hide RemoveFirst;
  }

  /** The job is off the queue and final, or back in it with the retry count its row has. */
  lemma ResultAgrees(s: Sys, e: Event, j: nat, lost: set<nat>)
    requires Quiet(s, lost) && Accepted(s, e, j)
    ensures j in Next(s, e).disk.db.jobs && Agree(Next(s, e), j)
  {
    assert Agree(s, j) && Owned(s.disk, j);
    ResultEffect(s.disk, j, e.success, e.output, s.now);
    hide RowCount;
    hide Single;
    hide ResultDisk;
  }

  lemma ResultMoves(s: Sys, e: Event, j: nat)
    requires Accepted(s, e, j)
    ensures j in Next(s, e).disk.db.jobs && Moves(s, e, j, s.disk.db.jobs[j], Next(s, e).disk.db.jobs[j])
  {
    hide RowCount;
    hide RetryDelay;
    hide Q.Settle;
    hide Q.Retry;
  }

  lemma RejectedResult(s: Sys, e: Event, j: nat, lost: set<nat>)
    requires Quiet(s, lost) && e.Result? && Subject(s, e) == Some(j) && !Accepted(s, e, j) && j in s.disk.db.jobs
    ensures j in Next(s, e).disk.db.jobs && Agree(Next(s, e), j) && Moves(s, e, j, s.disk.db.jobs[j], Next(s, e).disk.db.jobs[j])
  {
    assert Agree(s, j);
    hide RowCount;
    hide Single;
  }

  lemma ResultJob(s: Sys, e: Event, j: nat, lost: set<nat>)
    requires Quiet(s, lost) && e.Result? && Subject(s, e) == Some(j)
    ensures j in s.disk.db.jobs
    ensures j in Next(s, e).disk.db.jobs && Agree(Next(s, e), j) && Moves(s, e, j, s.disk.db.jobs[j], Next(s, e).disk.db.jobs[j])
  {
    assert CopyOk(s.disk.db, s.inFlight[e.w]);
    if Accepted(s, e, j) {
      ResultAgrees(s, e, j, lost);
      ResultMoves(s, e, j);
    } else {
      RejectedResult(s, e, j, lost);
    }
    hide Next;
    hide Quiet;
    hide Agree;
  }

  // ----- events that are not about one job -----

  lemma QuietJob(s: Sys, e: Event, j: nat, lost: set<nat>)
    requires Quiet(s, lost) && Steady(s, e) && IsQuiet(e) && j in s.disk.db.jobs
    ensures j in Next(s, e).disk.db.jobs && Agree(Next(s, e), j) && Moves(s, e, j, s.disk.db.jobs[j], Next(s, e).disk.db.jobs[j])
  {
    assert j < s.disk.db.nextJob;
    QuietTouches(s, e, ALL, j);
    OwnerUntouched(s, e, j);
    assert Agree(s, j);
    hide DiskAfter;
    hide MemoryAfter;
    hide Quiet;
    UntouchedAgrees(s, Next(s, e), j);
  }

  lemma CancelRunJob(s: Sys, run: nat, j: nat, lost: set<nat>)
    requires Quiet(s, lost) && j in s.disk.db.jobs
    ensures var s' := Next(s, CancelRun(run));
      j in s'.disk.db.jobs && Agree(s', j) && Moves(s, CancelRun(run), j, s.disk.db.jobs[j], s'.disk.db.jobs[j])
  {
    assert Agree(s, j);
    hide Quiet;
    var db, s' := s.disk.db, Next(s, CancelRun(run));
    assert s' == s.(disk := s.disk.(db := CancelWorkflowRun(db, run, s.now)));
    hide Next;
    CancelRunRows(db, run, s.now, j);
    MarkJobsCount(db.outbox, Cancellable(db, run), s.now, j);
    hide RowCount;
    assert RowCount(s'.disk.db.outbox, j) <= RowCount(db.outbox, j);
    hide CancelWorkflowRun;
  }

  /** A relayed job enters the queue with the payload relay builds; any other job is left alone. */
  lemma {:induction false} RelayedCopy(q: Q.Queue, entries: seq<Entry>, j: nat)
    ensures var q' := EnqueueAll(q, entries);
      && (j in q'.queued <==> j in q.queued || exists e :: e in entries && e.job.id == j)
      && (j in q'.payloads ==> (j in q.payloads && q'.payloads[j] == q.payloads[j]) || exists e :: e in entries && e.job.id == j && q'.payloads[j] == e.job)
    decreases |entries|
  {
    if entries != [] {
      RelayedCopy(Q.Enqueue(q, entries[0].job), entries[1..], j);
      assert forall e :: e in entries <==> e == entries[0] || e in entries[1..];
    }
  }

  lemma RelayedJob(s: Sys, j: nat, lost: set<nat>)
    requires Quiet(s, lost) && j in s.disk.db.jobs
    ensures var s' := Next(s, RelayPass);
      j in s'.disk.db.jobs && Agree(s', j) && Moves(s, RelayPass, j, s.disk.db.jobs[j], s'.disk.db.jobs[j])
  {
    var d := s.disk;
    hide RowCount;
    hide EnqueueAll;
    hide Entries;
    hide MarkIds;
    assert Agree(s, j);
    RelayWrite(d, s.now, lost);
    RelayedCopy(d.q, RelayEntries(d), j);
    hide Single;
    forall e | e in RelayEntries(d) && e.job.id == j ensures RowCount(d.db.outbox, j) > 0 && e.job.retryCount == 0 {
      EntriesSound(d.db.outbox, d.db.jobs, e);
    }
  }

  lemma PromotedJob(s: Sys, batch: seq<nat>, j: nat, lost: set<nat>)
    requires Quiet(s, lost) && j in s.disk.db.jobs
    ensures var s' := Next(s, PromoteDue(batch));
      j in s'.disk.db.jobs && Agree(s', j) && Moves(s, PromoteDue(batch), j, s.disk.db.jobs[j], s'.disk.db.jobs[j])
  {
    assert Agree(s, j);
    hide RowCount;
    hide Single;
  }

  lemma OldJob(s: Sys, e: Event, j: nat, lost: set<nat>)
    requires Quiet(s, lost) && Steady(s, e) && j in s.disk.db.jobs
    ensures j in Next(s, e).disk.db.jobs && Agree(Next(s, e), j) && Moves(s, e, j, s.disk.db.jobs[j], Next(s, e).disk.db.jobs[j])
  {
    if IsHandler(e) {
      if Subject(s, e) != Some(j) {
        OtherJob(s, e, j, lost);
      } else {
        match e {
          case Ready(w, sent) => TakenJob(s, w, sent, j, lost);
          case Result(_, _, _) => ResultJob(s, e, j, lost);
          case CancelJob(_) => CancelledJob(s, j, lost);
          case _ => ReturnedJob(s, e, j, lost);
        }
      }
    } else {
      match e {
        case CancelRun(run) => CancelRunJob(s, run, j, lost);
        case RelayPass => RelayedJob(s, j, lost);
        case PromoteDue(batch) => PromotedJob(s, batch, j, lost);
        case _ => QuietJob(s, e, j, lost);
      }
    }
    hide Next;
    hide Agree;
    hide Quiet;
  }

  /** A job a step creates is pending, unknown to the queue and owned by nobody. */
  lemma NewJob(s: Sys, e: Event, j: nat, lost: set<nat>)
    requires Quiet(s, lost) && Steady(s, e) && j !in s.disk.db.jobs && j in Next(s, e).disk.db.jobs
    ensures Agree(Next(s, e), j) && Next(s, e).disk.db.jobs[j].status == Pending && Next(s, e).disk.db.jobs[j].retryCount == 0
    ensures e.Submit? || e.SubmitStep?
  {
    assert RowCount(s.disk.db.outbox, j) == 0;
    NewJobEvent(s, e, j);
    hide Next;
    assert j in s.disk.q.payloads ==> CopyOk(s.disk.db, s.disk.q.payloads[j]);
    assert j in s.owner ==> Owned(s.disk, j);
    hide RowCount;
    hide Single;
  }

  lemma NewJobEvent(s: Sys, e: Event, j: nat)
    requires j !in s.disk.db.jobs && j in Next(s, e).disk.db.jobs && Steady(s, e)
    ensures j == s.disk.db.nextJob && (e.Submit? || e.SubmitStep?)
    ensures Next(s, e).disk.q == s.disk.q && Next(s, e).owner == s.owner
    ensures Next(s, e).disk.db.jobs[j].status == Pending && Next(s, e).disk.db.jobs[j].retryCount == 0
  {
    hide RowCount;
    hide EnqueueAll;
    hide Q.Consume;
  }

  lemma NextQuiet(s: Sys, e: Event, lost: set<nat>)
    requires Quiet(s, lost) && Steady(s, e)
    ensures Quiet(Next(s, e), lost)
  {
    OwnDropIsSingle(s, e, lost);
    NextSingle(s, e, lost);
    assert lost + LostBy(s, e) == lost;
    forall j | j in Next(s, e).disk.db.jobs ensures Agree(Next(s, e), j) {
      if j in s.disk.db.jobs { OldJob(s, e, j, lost); } else { NewJob(s, e, j, lost); }
    }
    hide Next;
    hide Single;
    hide Agree;
  }

  lemma StartQuiet()
    ensures Quiet(START, {})
  {
    StartSingle();
  }

  lemma {:induction false} ExecQuiet(s: Sys, es: seq<Event>, lost: set<nat>)
    requires Quiet(s, lost) && Always(s, es, Steady)
    ensures Quiet(Exec(s, es), lost)
    decreases |es|
  {
    hide Quiet;
    hide Next;
    if es != [] {
      NextQuiet(s, es[0], lost);
      ExecQuiet(Next(s, es[0]), es[1..], lost);
    }
  }

  // ----- the books -----

  /** Retries a job has used up; the last failure, which ends it, counts one more. */
  function Spent(s: Sys, j: nat): nat {
    if j !in s.disk.db.jobs then 0
    else s.disk.db.jobs[j].retryCount + if s.disk.db.jobs[j].status == Failed then 1 else 0
  }

  /** Accepted successes along a run: each is one CompleteJob, followed by Advance for a workflow job. */
  ghost function Successes(s: Sys, es: seq<Event>, j: nat): nat
    decreases |es|
  {
    if es == [] then 0
    else (if Accepted(s, es[0], j) && es[0].success then 1 else 0) + Successes(Next(s, es[0]), es[1..], j)
  }

  ghost function Failures(s: Sys, es: seq<Event>, j: nat): nat
    decreases |es|
  {
    if es == [] then 0
    else (if Accepted(s, es[0], j) && !es[0].success then 1 else 0) + Failures(Next(s, es[0]), es[1..], j)
  }

  /** The delays of the retries granted along a run. */
  ghost function DelaySum(s: Sys, es: seq<Event>, j: nat): int
    decreases |es|
  {
    if es == [] then 0
    else
      var here := if Accepted(s, es[0], j) && !es[0].success && s.disk.db.jobs[j].retryCount < s.disk.db.jobs[j].maxRetries
                  then RetryDelay(s.disk.db.jobs[j].retryCount + 1) else 0;
      here + DelaySum(Next(s, es[0]), es[1..], j)
  }

  function TimeSpent(s: Sys, j: nat): int {
    if j in s.disk.db.jobs then TotalDelay(s.disk.db.jobs[j].retryCount) else 0
  }

  lemma Tally(s: Sys, e: Event, j: nat, lost: set<nat>)
    requires Quiet(s, lost) && Steady(s, e)
    ensures Accepted(s, e, j) ==> j in s.disk.db.jobs && e.Result?
    ensures var s' := Next(s, e);
      && (j in s.disk.db.jobs ==> j in s'.disk.db.jobs && s'.disk.db.jobs[j].maxRetries == s.disk.db.jobs[j].maxRetries)
      && (j in s.disk.db.jobs ==> Moves(s, e, j, s.disk.db.jobs[j], s'.disk.db.jobs[j]))
      && (j in s.disk.db.jobs && s.disk.db.jobs[j].retryCount >= s.disk.db.jobs[j].maxRetries ==> s.disk.db.jobs[j].retryCount == s.disk.db.jobs[j].maxRetries)
      && (j !in s.disk.db.jobs && j in s'.disk.db.jobs ==> s'.disk.db.jobs[j].status == Pending && s'.disk.db.jobs[j].retryCount == 0)
  {
    if j in s.disk.db.jobs {
      OldJob(s, e, j, lost);
    } else if j in Next(s, e).disk.db.jobs {
      NewJob(s, e, j, lost);
    }
    hide Next;
    hide Agree;
  }

  lemma {:induction false} SuccessesBalance(s: Sys, es: seq<Event>, j: nat, lost: set<nat>)
    requires Quiet(s, lost) && Always(s, es, Steady)
    ensures Successes(s, es, j) + (if Is(s, j, Completed) then 1 else 0) == if Is(Exec(s, es), j, Completed) then 1 else 0
    decreases |es|
  {
    hide Next;
    hide Quiet;
    hide Accepted;
    hide RetryDelay;
    if es != [] {
      NextQuiet(s, es[0], lost);
      Tally(s, es[0], j, lost);
      SuccessesBalance(Next(s, es[0]), es[1..], j, lost);
    }
  }

  lemma {:induction false} FailuresBalance(s: Sys, es: seq<Event>, j: nat, lost: set<nat>)
    requires Quiet(s, lost) && Always(s, es, Steady)
    ensures Failures(s, es, j) + Spent(s, j) == Spent(Exec(s, es), j)
    decreases |es|
  {
    hide Next;
    hide Quiet;
    hide Accepted;
    hide RetryDelay;
    if es != [] {
      NextQuiet(s, es[0], lost);
      Tally(s, es[0], j, lost);
      FailuresBalance(Next(s, es[0]), es[1..], j, lost);
    }
  }

  lemma {:induction false} DelaysBalance(s: Sys, es: seq<Event>, j: nat, lost: set<nat>)
    requires Quiet(s, lost) && Always(s, es, Steady)
    ensures DelaySum(s, es, j) + TimeSpent(s, j) == TimeSpent(Exec(s, es), j)
    decreases |es|
  {
    hide Next;
    hide Quiet;
    hide Accepted;
    hide RetryDelay;
    if es != [] {
      NextQuiet(s, es[0], lost);
      Tally(s, es[0], j, lost);
      DelaysBalance(Next(s, es[0]), es[1..], j, lost);
    }
  }

  /** Completed and failed are absorbing: the row never changes again. */
  lemma {:induction false} SettledStays(s: Sys, es: seq<Event>, j: nat, lost: set<nat>)
    requires Quiet(s, lost) && Always(s, es, Steady)
    requires j in s.disk.db.jobs && Final(s.disk.db.jobs[j].status)
    ensures j in Exec(s, es).disk.db.jobs && Exec(s, es).disk.db.jobs[j] == s.disk.db.jobs[j]
    decreases |es|
  {
    hide Next;
    hide Quiet;
    if es != [] {
      NextQuiet(s, es[0], lost);
      Tally(s, es[0], j, lost);
      SettledStays(Next(s, es[0]), es[1..], j, lost);
    }
  }

  /** From the empty system: one accepted success, and one Advance call, per completed job; at most
      max_retries + 1 accepted failures, that many exactly when the job failed. */
  lemma ResultsAccountedFor(es: seq<Event>, j: nat)
    requires Always(START, es, Steady) && j in Exec(START, es).disk.db.jobs
    ensures var row := Exec(START, es).disk.db.jobs[j];
      && Successes(START, es, j) == (if row.status == Completed then 1 else 0)
      && Failures(START, es, j) <= row.maxRetries + 1
      && (row.status == Failed <==> Failures(START, es, j) == row.maxRetries + 1)
  {
    StartQuiet();
    ExecQuiet(START, es, {});
    SuccessesBalance(START, es, j, {});
    FailuresBalance(START, es, j, {});
    FailedIsExhausted(es, j);
  }

  /** With a limit of at most 33 retries the granted delays are exact and add up to at most
      2^(limit+1) - 2 seconds, reached when every retry has been used. */
  lemma RetryTimeBound(es: seq<Event>, j: nat)
    requires Always(START, es, Steady) && j in Exec(START, es).disk.db.jobs
    requires Exec(START, es).disk.db.jobs[j].maxRetries <= 33
    ensures var row := Exec(START, es).disk.db.jobs[j];
      && row.retryCount <= row.maxRetries
      && DelaySum(START, es, j) == (Pow2(row.retryCount + 1) - 2) * SECOND <= (Pow2(row.maxRetries + 1) - 2) * SECOND
      && (row.status == Failed ==> DelaySum(START, es, j) == (Pow2(row.maxRetries + 1) - 2) * SECOND)
  {
    StartQuiet();
    ExecQuiet(START, es, {});
    DelaysBalance(START, es, j, {});
    FailedIsExhausted(es, j);
    var row := Exec(START, es).disk.db.jobs[j];
    TotalDelayExact(row.retryCount);
    Pow2Monotone(row.retryCount + 1, row.maxRetries + 1);
  }

  ghost predicate Exhausted(s: Sys, j: nat) {
    Is(s, j, Failed) ==> s.disk.db.jobs[j].retryCount == s.disk.db.jobs[j].maxRetries
  }

  lemma FailedIsExhausted(es: seq<Event>, j: nat)
    requires Always(START, es, Steady)
    ensures Exhausted(Exec(START, es), j)
  {
    StartQuiet();
    ExhaustedKept(START, es, j, {});
  }

  lemma {:induction false} ExhaustedKept(s: Sys, es: seq<Event>, j: nat, lost: set<nat>)
    requires Quiet(s, lost) && Always(s, es, Steady) && Exhausted(s, j)
    ensures Exhausted(Exec(s, es), j)
    decreases |es|
  {
    if es != [] {
      NextQuiet(s, es[0], lost);
      Tally(s, es[0], j, lost);
      hide Next;
      hide Quiet;
      hide Accepts;
      ExhaustedKept(Next(s, es[0]), es[1..], j, lost);
    }
  }
}
