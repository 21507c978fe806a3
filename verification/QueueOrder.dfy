/**
  The order in which the queue hands jobs out (internal/queue/redis.go): ready followed by
  processing is one first-in first-out line that consuming and crashing leave alone.
*/
module QueueOrder {
  import opened Prelude
  import opened Types
  import opened QueueState

  datatype Call =
    | Put(job: Job)
    | Take
    | Finish(id: nat)                       // Ack or Fail
    | Later(job: Job, score: int)           // Retry
    | Withdraw(id: nat)                     // Cancel
    | Due(now: int, batch: seq<nat>)        // promoteDueJobs
    | Restore                               // Recover after a crash

  function Apply(q: Queue, c: Call): Queue {
    match c
    case Put(job) => Enqueue(q, job)
    case Take => Consume(q).0
    case Finish(id) => Settle(q, id)
    case Later(job, score) => Retry(q, job, score)
    case Withdraw(id) => Cancel(q, id)
    case Due(now, batch) => Promote(q, batch)
    case Restore => Recover(q)
  }

  /** What the queue demands of its callers: only a job that is not waiting in ready is settled or
      retried, and the promoted batch is what Redis returned. */
  ghost predicate Fits(q: Queue, c: Call) {
    match c
    case Finish(id) => id !in q.ready
    case Later(job, score) => job.id !in q.ready
    case Due(now, batch) => IsDueBatch(q.delayed, now, batch)
    case _ => true
  }

  function Line(q: Queue): seq<nat> { q.ready + q.processing }

  /** The simple queue: one line, newest first, and the ids it knows. */
  datatype Fifo = Fifo(line: seq<nat>, known: set<nat>)

  function Abstract(q: Queue): Fifo { Fifo(Line(q), q.queued) }

  function FifoNext(f: Fifo, c: Call): Fifo {
    match c
    case Put(job) => if job.id in f.known then f else Fifo([job.id] + f.line, f.known + {job.id})
    case Take => f
    case Finish(id) => Fifo(RemoveFirst(f.line, id), f.known - {id})
    case Later(job, score) => Fifo(RemoveFirst(f.line, job.id), f.known + {job.id})
    case Withdraw(id) => Fifo(RemoveFirst(f.line, id), f.known - {id})
    case Due(now, batch) => f.(line := PushAll(f.line, batch))
    case Restore => f
  }

  lemma ConsConcat(x: nat, a: seq<nat>, b: seq<nat>)
    ensures [x] + (a + b) == ([x] + a) + b
  {
  }

  lemma HeadTail(a: seq<nat>, b: seq<nat>)
    requires a != []
    ensures (a + b)[0] == a[0] && (a + b)[1..] == a[1..] + b && a == [a[0]] + a[1..]
  {
  }

  lemma {:induction false} RemoveConcat(a: seq<nat>, b: seq<nat>, x: nat)
    ensures RemoveFirst(a + b, x) == if x in a then RemoveFirst(a, x) + b else a + RemoveFirst(b, x)
  {
    if a == [] {
      assert a + b == b;
    } else {
      HeadTail(a, b);
      if a[0] != x {
        RemoveConcat(a[1..], b, x);
        assert x in a <==> x in a[1..];
        ConsConcat(a[0], RemoveFirst(a[1..], x), b);
        ConsConcat(a[0], a[1..], RemoveFirst(b, x));
      }
    }
  }

  lemma {:induction false} PushAllConcat(a: seq<nat>, b: seq<nat>, batch: seq<nat>)
    ensures PushAll(a + b, batch) == PushAll(a, batch) + b
    decreases |batch|
  {
    if batch != [] {
      assert [batch[0]] + (a + b) == ([batch[0]] + a) + b;
      PushAllConcat([batch[0]] + a, b, batch[1..]);
    }
  }

  /** With one position per id, Consume hands out exactly the tail of ready. */
  lemma TakeIsOldest(q: Queue)
    requires Kept(q) && OnePlace(q) && q.ready != []
    ensures var n := |q.ready| - 1;
      && q.ready[n] in q.payloads
      && Consume(q) == (q.(ready := q.ready[..n], processing := [q.ready[n]] + q.processing), Some(q.payloads[q.ready[n]]))
  {
    var id := q.ready[|q.ready| - 1];
    assert id in q.ready;
    Count(q.ready, id);
    assert Places(q, id) >= 1;
  }

  lemma TakeKeepsLine(q: Queue)
    requires Kept(q) && OnePlace(q)
    ensures Line(Consume(q).0) == Line(q)
  {
    if q.ready != [] {
      TakeIsOldest(q);
      var n := |q.ready| - 1;
      assert q.ready == q.ready[..n] + [q.ready[n]];
    }
  }

  lemma WithdrawLine(q: Queue, id: nat)
    requires Places(q, id) <= 1
    ensures Line(Cancel(q, id)) == RemoveFirst(Line(q), id)
  {
    RemoveConcat(q.ready, q.processing, id);
    RemoveCount(q.ready, id);
    RemoveCount(q.processing, id);
    Count(q.ready, id);
    Count(q.processing, id);
  }

  lemma RemoveRefines(q: Queue, id: nat)
    requires id !in q.ready
    ensures q.ready + RemoveFirst(q.processing, id) == RemoveFirst(Line(q), id)
  {
    RemoveConcat(q.ready, q.processing, id);
  }

  lemma CallRefines(q: Queue, c: Call)
    requires Kept(q) && OnePlace(q) && Fits(q, c)
    ensures Kept(Apply(q, c)) && OnePlace(Apply(q, c))
    ensures Abstract(Apply(q, c)) == FifoNext(Abstract(q), c)
  {
    hide RemoveFirst;
    hide Kept;
    hide Places;
    hide PushAll;
    match c {
      case Put(job) =>
        EnqueueKept(q, job);
        assert ([job.id] + q.ready) + q.processing == [job.id] + Line(q);
      case Take => ConsumeKept(q); TakeKeepsLine(q); ConsumePlaces(q, 0);
      case Finish(id) => SettleKept(q, id); RemoveRefines(q, id);
      case Later(job, score) => RetryKept(q, job, score); RemoveRefines(q, job.id);
      case Withdraw(id) => CancelKept(q, id); assert Places(q, id) <= 1; WithdrawLine(q, id);
      case Due(now, batch) => PromoteKept(q, now, batch); PushAllConcat(q.ready, q.processing, batch);
      case Restore => RecoverKept(q);
    }
  }

  function ApplyAll(q: Queue, calls: seq<Call>): Queue
    decreases |calls|
  {
    if calls == [] then q else ApplyAll(Apply(q, calls[0]), calls[1..])
  }

  function FifoAll(f: Fifo, calls: seq<Call>): Fifo
    decreases |calls|
  {
    if calls == [] then f else FifoAll(FifoNext(f, calls[0]), calls[1..])
  }

  ghost predicate AllFit(q: Queue, calls: seq<Call>)
    decreases |calls|
  {
    calls == [] || (Fits(q, calls[0]) && AllFit(Apply(q, calls[0]), calls[1..]))
  }

  /** Every sequence of calls within the usage rule refines the simple queue, and keeps one position
      per id. */
  lemma {:induction false} QueueRefinesFifo(q: Queue, calls: seq<Call>)
    requires Kept(q) && OnePlace(q) && AllFit(q, calls)
    ensures Kept(ApplyAll(q, calls)) && OnePlace(ApplyAll(q, calls))
    ensures Abstract(ApplyAll(q, calls)) == FifoAll(Abstract(q), calls)
    decreases |calls|
  {
    hide Apply;
    hide Abstract;
    hide FifoNext;
    hide Kept;
    hide OnePlace;
    if calls != [] {
      CallRefines(q, calls[0]);
      QueueRefinesFifo(Apply(q, calls[0]), calls[1..]);
    }
  }

  // ----- hand-out order -----

  function Backwards(s: seq<nat>): seq<nat> {
    if s == [] then [] else [s[|s| - 1]] + Backwards(s[..|s| - 1])
  }

  /** The ids handed out if the queue is only consumed from now on. */
  function HandOut(q: Queue): seq<nat>
    decreases |q.ready|
  {
    if q.ready == [] then []
    else
      var n := |q.ready| - 1;
      var next := q.(ready := q.ready[..n], processing := [q.ready[n]] + q.processing);
      if q.ready[n] in q.payloads then [q.payloads[q.ready[n]].id] + HandOut(next)
      else HandOut(next.(processing := RemoveFirst(next.processing, q.ready[n])))
  }

  /** HandOut is what repeated Consume calls return. */
  lemma {:induction false} HandOutConsumes(q: Queue)
    ensures HandOut(q) == match Consume(q).1
      case None => []
      case Some(job) => [job.id] + HandOut(Consume(q).0)
    decreases |q.ready|
  {
    if q.ready != [] && q.ready[|q.ready| - 1] !in q.payloads {
      var id := q.ready[|q.ready| - 1];
      HandOutConsumes(q.(ready := q.ready[..|q.ready| - 1], processing := RemoveFirst([id] + q.processing, id)));
    }
  }

  lemma {:induction false} HandOutIsBackwards(q: Queue)
    requires forall j :: j in q.ready ==> j in q.payloads && q.payloads[j].id == j
    ensures HandOut(q) == Backwards(q.ready)
    decreases |q.ready|
  {
    if q.ready != [] {
      var n := |q.ready| - 1;
      assert q.ready[n] in q.ready;
      HandOutIsBackwards(q.(ready := q.ready[..n], processing := [q.ready[n]] + q.processing));
    }
  }

  lemma ReadyHasPayload(q: Queue)
    requires Kept(q) && OnePlace(q)
    ensures forall j :: j in q.ready ==> j in q.payloads && q.payloads[j].id == j
  {
    forall j | j in q.ready ensures j in q.queued {
      Count(q.ready, j);
      assert Places(q, j) >= 1;
    }
  }

  /** After any calls and a crash, the next server hands out the simple queue's line, oldest first. */
  lemma CrashRestoresOrder(q: Queue, calls: seq<Call>)
    requires Kept(q) && OnePlace(q) && AllFit(q, calls)
    ensures HandOut(Recover(ApplyAll(q, calls))) == Backwards(FifoAll(Abstract(q), calls).line)
    ensures Recover(ApplyAll(q, calls)).processing == []
  {
    QueueRefinesFifo(q, calls);
    var r := ApplyAll(q, calls);
    RecoverKept(r);
    ReadyHasPayload(Recover(r));
    HandOutIsBackwards(Recover(r));
  }

  lemma PushedTail(ready: seq<nat>, x: nat)
    requires ready != []
    ensures var n := |ready|;
      |[x] + ready| == n + 1 && ([x] + ready)[..n] == [x] + ready[..n - 1] && ([x] + ready)[n] == ready[n - 1]
  {
  }

  lemma {:induction false} BackwardsPush(ready: seq<nat>, x: nat)
    ensures Backwards([x] + ready) == Backwards(ready) + [x]
    decreases |ready|
  {
    if ready == [] {
      assert [x] + ready == [x] && [x][..0] == [];
    } else {
      var n := |ready|;
      PushedTail(ready, x);
      BackwardsPush(ready[..n - 1], x);
      ConsConcat(ready[n - 1], Backwards(ready[..n - 1]), [x]);
    }
  }

  lemma {:induction false} BackwardsPushAll(ready: seq<nat>, batch: seq<nat>)
    ensures Backwards(PushAll(ready, batch)) == Backwards(ready) + batch
    decreases |batch|
  {
    if batch != [] {
      BackwardsPush(ready, batch[0]);
      BackwardsPushAll([batch[0]] + ready, batch[1..]);
      assert batch == [batch[0]] + batch[1..];
    }
  }

  /** A promoted batch is consumed in due-time order, after everything that was already ready. */
  lemma PromotedInDueOrder(q: Queue, now: int, batch: seq<nat>)
    requires Kept(q) && OnePlace(q) && IsDueBatch(q.delayed, now, batch)
    ensures HandOut(Promote(q, batch)) == HandOut(q) + batch
  {
    ReadyHasPayload(q);
    HandOutIsBackwards(q);
    PromoteKept(q, now, batch);
    ReadyHasPayload(Promote(q, batch));
    HandOutIsBackwards(Promote(q, batch));
    BackwardsPushAll(q.ready, batch);
  }
}
