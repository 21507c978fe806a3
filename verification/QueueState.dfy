/**
  The five Redis keys of internal/queue/redis.go as one value, and what each queue call makes of
  it. Ids enter ready at its head and leave at its tail, so the oldest id stands last.
*/
module QueueState {
  import opened Prelude
  import opened Types

  datatype Queue = Queue(
    ready: seq<nat>, processing: seq<nat>, delayed: map<nat, int>,
    payloads: map<nat, Job>, queued: set<nat>)

  const EMPTY := Queue([], [], map[], map[], {})

  function Enqueue(q: Queue, job: Job): Queue {
    q.(queued := q.queued + {job.id}, payloads := q.payloads[job.id := job],
       ready := if job.id in q.queued then q.ready else [job.id] + q.ready)
  }

  /** BRPOPLPUSH, skipping ids whose payload is gone; None stands for a call that keeps blocking. */
  function Consume(q: Queue): (Queue, Option<Job>)
    decreases |q.ready|
  {
    if q.ready == [] then (q, None)
    else
      var rest, id := q.ready[..|q.ready| - 1], q.ready[|q.ready| - 1];
      var moved := q.(ready := rest, processing := [id] + q.processing);
      if id in q.payloads then (moved, Some(q.payloads[id]))
      else Consume(moved.(processing := RemoveFirst(moved.processing, id)))
  }

  /** Ack and Fail send the same four commands. */
  function Settle(q: Queue, id: nat): Queue {
    q.(processing := RemoveFirst(q.processing, id), queued := q.queued - {id},
       payloads := q.payloads - {id}, delayed := q.delayed - {id})
  }

  function Retry(q: Queue, job: Job, score: int): Queue {
    q.(payloads := q.payloads[job.id := job], processing := RemoveFirst(q.processing, job.id),
       queued := q.queued + {job.id}, delayed := q.delayed[job.id := score])
  }

  function Cancel(q: Queue, id: nat): Queue {
    Settle(q.(ready := RemoveFirst(q.ready, id)), id)
  }

  /** ZRANGEBYSCORE -inf now: every due member once, by score; members of one score in any order. */
  ghost predicate IsDueBatch(delayed: map<nat, int>, now: int, batch: seq<nat>) {
    && (forall j :: j in batch <==> j in delayed && delayed[j] <= now)
    && (forall a, b :: 0 <= a < b < |batch| ==> batch[a] != batch[b])
    && (forall a, b :: 0 <= a < b < |batch| && batch[a] in delayed && batch[b] in delayed
          ==> delayed[batch[a]] <= delayed[batch[b]])
  }

  /** LPUSH one after the other. */
  function PushAll(ready: seq<nat>, batch: seq<nat>): seq<nat>
    decreases |batch|
  {
    if batch == [] then ready else PushAll([batch[0]] + ready, batch[1..])
  }

  function Promote(q: Queue, batch: seq<nat>): Queue {
    q.(ready := PushAll(q.ready, batch), delayed := q.delayed - set j | j in batch)
  }

  function Recover(q: Queue): Queue {
    q.(ready := q.ready + q.processing, processing := [])
  }

  /** UnixMilli of now + delay, both in nanoseconds. */
  function Millis(t: int): int { t / 1_000_000 }

  // ----- where an id sits -----

  function Places(q: Queue, j: nat): nat {
    multiset(q.ready)[j] + multiset(q.processing)[j] + if j in q.delayed then 1 else 0
  }

  /** Nothing queued can get stuck: it has its payload and sits somewhere. */
  ghost predicate Kept(q: Queue) {
    && q.payloads.Keys == q.queued
    && forall j :: j in q.queued ==> q.payloads[j].id == j && Places(q, j) >= 1
  }

  /** One position per id, exactly while it is queued. */
  ghost predicate OnePlace(q: Queue) {
    forall j: nat {:trigger Places(q, j)} :: Places(q, j) == if j in q.queued then 1 else 0
  }

  lemma Count<T>(s: seq<T>, x: T)
    ensures multiset(s)[x] > 0 <==> x in s
  {
  }

  /** A call that concerns one id only has to get that id right. */
  lemma KeptBut(q: Queue, r: Queue, id: nat)
    requires Kept(q) && r.payloads.Keys == r.queued
    requires forall j: nat {:trigger Places(r, j)} :: j != id ==> Places(r, j) == Places(q, j)
    requires forall j: nat :: j != id ==> (j in r.queued <==> j in q.queued)
    requires forall j: nat :: j != id && j in r.payloads ==> j in q.payloads && r.payloads[j] == q.payloads[j]
    requires id in r.queued ==> r.payloads[id].id == id && Places(r, id) >= 1
    ensures Kept(r)
    ensures OnePlace(q) && Places(r, id) == (if id in r.queued then 1 else 0) ==> OnePlace(r)
  {
    hide Places;
  }

  lemma EnqueuePlaces(q: Queue, job: Job, j: nat)
    ensures Places(Enqueue(q, job), j) == Places(q, j) + if j == job.id && j !in q.queued then 1 else 0
  {
  }

  lemma EnqueueKept(q: Queue, job: Job)
    requires Kept(q)
    ensures Kept(Enqueue(q, job))
    ensures OnePlace(q) ==> OnePlace(Enqueue(q, job))
  {
    forall j: nat ensures Places(Enqueue(q, job), j) == Places(q, j) + if j == job.id && j !in q.queued then 1 else 0 {
      EnqueuePlaces(q, job, j);
    }
  }

  /** Consume never touches delayed, queued or payloads, moves at most, and drops only ids without payload. */
  lemma {:induction false} ConsumePlaces(q: Queue, j: nat)
    ensures var r := Consume(q).0;
      && r.delayed == q.delayed && r.queued == q.queued && r.payloads == q.payloads
      && Places(r, j) <= Places(q, j)
      && (j in q.payloads ==> Places(r, j) == Places(q, j))
      && (j in q.processing ==> j in r.processing)
    decreases |q.ready|
  {
    if q.ready != [] {
      var rest, id := q.ready[..|q.ready| - 1], q.ready[|q.ready| - 1];
      assert q.ready == rest + [id];
      var moved := q.(ready := rest, processing := [id] + q.processing);
      if id !in q.payloads {
        assert RemoveFirst(moved.processing, id) == q.processing;
        ConsumePlaces(q.(ready := rest), j);
      }
    }
  }

  lemma ConsumeKept(q: Queue)
    requires Kept(q)
    ensures Kept(Consume(q).0)
    ensures OnePlace(q) ==> OnePlace(Consume(q).0)
  {
    hide Places;
    hide Consume;
    forall j: nat ensures Places(Consume(q).0, j) <= Places(q, j) {
      ConsumePlaces(q, j);
    }
    forall j: nat | j in q.payloads ensures Places(Consume(q).0, j) == Places(q, j) {
      ConsumePlaces(q, j);
    }
    ConsumePlaces(q, 0);
  }

  /** What Consume returns: the payload of an id that came from ready and now stands in processing. */
  lemma {:induction false} ConsumeGives(q: Queue)
    requires forall j :: j in q.payloads ==> q.payloads[j].id == j
    ensures Consume(q).1.Some? ==> Consumed(q, Consume(q).1.value, Consume(q).0)
    ensures Consume(q).1.None? ==> Consume(q).0.ready == [] && forall j :: j in q.payloads ==> j !in q.ready
    decreases |q.ready|
  {
    if q.ready != [] {
      var rest, id := q.ready[..|q.ready| - 1], q.ready[|q.ready| - 1];
      assert q.ready == rest + [id];
      if id !in q.payloads {
        assert RemoveFirst([id] + q.processing, id) == q.processing;
        ConsumeGives(q.(ready := rest));
      }
    }
  }

  /** Consume pops ids from the tail of ready, position m the last: all of them but that one lack a payload
      and are dropped, and that one, if it has a payload, is returned and stands in processing. */
  lemma {:induction false} ConsumeExact(q: Queue) returns (m: nat)
    ensures var (r, got) := Consume(q);
      && m <= |q.ready| && r.ready == q.ready[..m]
      && r.delayed == q.delayed && r.payloads == q.payloads && r.queued == q.queued
      && (got.None? ==> m == 0 && r.processing == q.processing && forall i :: 0 <= i < |q.ready| ==> q.ready[i] !in q.payloads)
      && (got.Some? ==> m < |q.ready| && q.ready[m] in q.payloads && got.value == q.payloads[q.ready[m]])
      && (got.Some? ==> m < |q.ready| && r.processing == [q.ready[m]] + q.processing)
      && (got.Some? ==> forall i :: m < i < |q.ready| ==> q.ready[i] !in q.payloads)
    decreases |q.ready|
  {
    if q.ready == [] {
      m := 0;
    } else {
      var n := |q.ready| - 1;
      var rest, id := q.ready[..n], q.ready[n];
      if id in q.payloads {
        m := n;
      } else {
        assert RemoveFirst([id] + q.processing, id) == q.processing;
        m := ConsumeExact(q.(ready := rest));
        assert rest[..m] == q.ready[..m];
        assert forall i :: 0 <= i < n ==> rest[i] == q.ready[i];
      }
    }
  }

  ghost predicate Consumed(q: Queue, job: Job, r: Queue) {
    job.id in q.payloads && job == q.payloads[job.id] && job.id in q.ready && job.id in r.processing
  }

  function LessOne(n: nat): nat { if n == 0 then 0 else n - 1 }

  lemma SettlePlaces(q: Queue, id: nat, j: nat)
    ensures Places(Settle(q, id), j)
      == if j != id then Places(q, j) else multiset(q.ready)[j] + LessOne(multiset(q.processing)[j])
  {
    RemoveCount(q.processing, id);
  }

  lemma SettleKept(q: Queue, id: nat)
    requires Kept(q)
    ensures Kept(Settle(q, id))
    ensures OnePlace(q) && id !in q.ready ==> OnePlace(Settle(q, id))
  {
    SettledGone(q, id);
    forall j: nat | j != id ensures Places(Settle(q, id), j) == Places(q, j) { SettlePlaces(q, id, j); }
    hide Places;
    hide RemoveFirst;
    KeptBut(q, Settle(q, id), id);
  }

  lemma SettledGone(q: Queue, id: nat)
    ensures Places(q, id) <= 1 && id !in q.ready ==> Places(Settle(q, id), id) == 0
  {
    SettlePlaces(q, id, id);
  }

  lemma RetryPlaces(q: Queue, job: Job, score: int, j: nat)
    ensures j != job.id ==> Places(Retry(q, job, score), j) == Places(q, j)
    ensures Places(Retry(q, job, score), job.id) >= 1
    ensures job.id !in q.ready && Places(q, job.id) <= 1 ==> Places(Retry(q, job, score), job.id) == 1
  {
    RemoveCount(q.processing, job.id);
  }

  lemma RetryKept(q: Queue, job: Job, score: int)
    requires Kept(q)
    ensures Kept(Retry(q, job, score))
    ensures OnePlace(q) && job.id !in q.ready ==> OnePlace(Retry(q, job, score))
  {
    forall j: nat | j != job.id ensures Places(Retry(q, job, score), j) == Places(q, j) {
      RetryPlaces(q, job, score, j);
    }
    RetryPlaces(q, job, score, job.id);
    hide Places;
    hide RemoveFirst;
    assert OnePlace(q) ==> Places(q, job.id) <= 1;
    KeptBut(q, Retry(q, job, score), job.id);
  }

  lemma CancelPlaces(q: Queue, id: nat, j: nat)
    ensures j != id ==> Places(Cancel(q, id), j) == Places(q, j)
    ensures Places(q, id) <= 1 ==> Places(Cancel(q, id), id) == 0
  {
    RemoveCount(q.ready, id);
    SettlePlaces(q.(ready := RemoveFirst(q.ready, id)), id, j);
    SettlePlaces(q.(ready := RemoveFirst(q.ready, id)), id, id);
  }

  lemma CancelKept(q: Queue, id: nat)
    requires Kept(q)
    ensures Kept(Cancel(q, id))
    ensures OnePlace(q) ==> OnePlace(Cancel(q, id))
  {
    forall j: nat | j != id ensures Places(Cancel(q, id), j) == Places(q, j) { CancelPlaces(q, id, j); }
    CancelPlaces(q, id, id);
    hide Places;
    hide RemoveFirst;
    assert OnePlace(q) ==> Places(q, id) <= 1;
    KeptBut(q, Cancel(q, id), id);
  }

  lemma {:induction false} PushAllCount(ready: seq<nat>, batch: seq<nat>)
    ensures multiset(PushAll(ready, batch)) == multiset(ready) + multiset(batch)
    decreases |batch|
  {
    if batch != [] {
      PushAllCount([batch[0]] + ready, batch[1..]);
      assert batch == [batch[0]] + batch[1..];
    }
  }

  lemma {:induction false} NoRepeatCount(s: seq<nat>, x: nat)
    requires forall a, b :: 0 <= a < b < |s| ==> s[a] != s[b]
    ensures multiset(s)[x] == if x in s then 1 else 0
  {
    if s != [] {
      assert s == [s[0]] + s[1..];
      NoRepeatCount(s[1..], x);
    }
  }

  lemma PromotePlaces(q: Queue, now: int, batch: seq<nat>, j: nat)
    requires IsDueBatch(q.delayed, now, batch)
    ensures Places(Promote(q, batch), j) == Places(q, j)
  {
    PushAllCount(q.ready, batch);
    NoRepeatCount(batch, j);
  }

  lemma PromoteKept(q: Queue, now: int, batch: seq<nat>)
    requires Kept(q) && IsDueBatch(q.delayed, now, batch)
    ensures Kept(Promote(q, batch))
    ensures OnePlace(q) ==> OnePlace(Promote(q, batch))
  {
    forall j: nat ensures Places(Promote(q, batch), j) == Places(q, j) { PromotePlaces(q, now, batch, j); }
  }

  lemma RecoverKept(q: Queue)
    requires Kept(q)
    ensures Kept(Recover(q))
    ensures OnePlace(q) ==> OnePlace(Recover(q))
  {
    forall j: nat ensures Places(Recover(q), j) == Places(q, j) {}
  }

  // ----- due batches -----

  lemma {:induction false} Smallest(s: set<nat>, score: map<nat, int>)
    requires s != {} && forall j :: j in s ==> j in score
    ensures exists j :: j in s && forall k :: k in s ==> score[j] <= score[k]
    decreases |s|
  {
    var x :| x in s;
    if s - {x} == {} {
      assert s == {x};
    } else {
      Smallest(s - {x}, score);
      var y :| y in s - {x} && forall k :: k in s - {x} ==> score[y] <= score[k];
      var m := if score[x] <= score[y] then x else y;
      assert m in s && forall k :: k in s ==> score[m] <= score[k];
    }
  }

  ghost predicate Sorted(score: map<nat, int>, batch: seq<nat>, rest: set<nat>) {
    && (forall a :: 0 <= a < |batch| ==> batch[a] in score && batch[a] !in rest)
    && (forall a, b :: 0 <= a < b < |batch| ==> batch[a] != batch[b] && score[batch[a]] <= score[batch[b]])
    && (forall a, j :: 0 <= a < |batch| && j in rest && j in score ==> score[batch[a]] <= score[j])
  }

  lemma SortedStep(score: map<nat, int>, batch: seq<nat>, rest: set<nat>, j: nat)
    requires Sorted(score, batch, rest) && j in rest && j in score
    requires forall k :: k in rest && k in score ==> score[j] <= score[k]
    ensures Sorted(score, batch + [j], rest - {j})
  {
  }

  /** Redis can always walk the due members by score. */
  lemma {:induction false} SortRest(score: map<nat, int>, batch: seq<nat>, rest: set<nat>) returns (all: seq<nat>)
    requires (forall j :: j in rest ==> j in score) && Sorted(score, batch, rest)
    ensures Sorted(score, all, {}) && forall j :: j in all <==> j in batch || j in rest
    decreases |rest|
  {
    if rest == {} {
      all := batch;
    } else {
      Smallest(rest, score);
      var j :| j in rest && forall k :: k in rest ==> score[j] <= score[k];
      SortedStep(score, batch, rest, j);
      all := SortRest(score, batch + [j], rest - {j});
    }
  }

  lemma DueBatchExists(delayed: map<nat, int>, now: int) returns (batch: seq<nat>)
    ensures IsDueBatch(delayed, now, batch)
  {
    batch := SortRest(delayed, [], set j | j in delayed && delayed[j] <= now);
  }
}
