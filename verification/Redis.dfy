/** The RedisQueue object (internal/queue/redis.go): every method against the queue value. */
module Redis {
  import opened Prelude
  import opened Types
  import Q = QueueState

  class RedisQueue {
    var ready: seq<nat>
    var processing: seq<nat>
    var delayed: map<nat, int>
    var payloads: map<nat, Job>
    var queued: set<nat>

    function State(): Q.Queue
      reads this
    {
      Q.Queue(ready, processing, delayed, payloads, queued)
    }

    constructor ()
      ensures State() == Q.EMPTY
    {
      ready, processing, delayed, payloads, queued := [], [], map[], map[], {};
    }

    method Recover()
      modifies this
      ensures State() == Q.Recover(old(State()))
    {
      var jobIDs := processing;
      if |jobIDs| == 0 {
        assert old(ready) + [] == old(ready);
        return;
      }
      processing := [];
      for i := 0 to |jobIDs|
        invariant ready == old(ready) + jobIDs[..i]
        invariant State() == old(State()).(ready := ready, processing := [])
      {
        ready := ready + [jobIDs[i]];
        assert jobIDs[..i + 1] == jobIDs[..i] + [jobIDs[i]];
      }
      assert jobIDs[..|jobIDs|] == jobIDs;
    }

    method Enqueue(job: Job)
      modifies this
      ensures State() == Q.Enqueue(old(State()), job)
    {
      var added := job.id !in queued;
      queued := queued + {job.id};
      payloads := payloads[job.id := job];
      if added {
        ready := [job.id] + ready;
      }
    }

    /** None when ready runs empty: the Go call then goes on blocking. */
    method Consume() returns (job: Option<Job>)
      modifies this
      ensures (State(), job) == Q.Consume(old(State()))
    {
      while ready != []
        invariant Q.Consume(State()) == Q.Consume(old(State()))
        decreases |ready|
      {
        var id := ready[|ready| - 1];
        ready, processing := ready[..|ready| - 1], [id] + processing;
        if id in payloads {
          return Some(payloads[id]);
        }
        processing := RemoveFirst(processing, id);
      }
      job := None;
    }

    method Ack(id: nat)
      modifies this
      ensures State() == Q.Settle(old(State()), id)
    {
      processing := RemoveFirst(processing, id);
      queued := queued - {id};
      payloads := payloads - {id};
      delayed := delayed - {id};
    }

    method Fail(id: nat)
      modifies this
      ensures State() == Q.Settle(old(State()), id)
    {
      Ack(id);
    }

    method Retry(job: Job, delay: int, now: int)
      modifies this
      ensures State() == Q.Retry(old(State()), job, Q.Millis(now + delay))
    {
      payloads := payloads[job.id := job];
      processing := RemoveFirst(processing, job.id);
      queued := queued + {job.id};
      delayed := delayed[job.id := Q.Millis(now + delay)];
    }

    method Cancel(id: nat)
      modifies this
      ensures State() == Q.Cancel(old(State()), id)
    {
      ready := RemoveFirst(ready, id);
      processing := RemoveFirst(processing, id);
      queued := queued - {id};
      payloads := payloads - {id};
      delayed := delayed - {id};
    }

    /** ZRANGEBYSCORE over delayed: the sorted set walks its due members by score. */
    method DueMembers(now: int) returns (batch: seq<nat>)
      ensures Q.IsDueBatch(delayed, now, batch)
    {
      batch := [];
      var rest := set j | j in delayed && delayed[j] <= now;
      while rest != {}
        invariant Q.Sorted(delayed, batch, rest)
        invariant forall j :: j in rest || j in batch <==> j in delayed && delayed[j] <= now
        decreases |rest|
      {
        Q.Smallest(rest, delayed);
        var j :| j in rest && forall k :: k in rest ==> delayed[j] <= delayed[k];
        Q.SortedStep(delayed, batch, rest, j);
        batch, rest := batch + [j], rest - {j};
      }
    }

    method PromoteDueJobs(now: int) returns (batch: seq<nat>)
      modifies this
      ensures Q.IsDueBatch(old(delayed), Q.Millis(now), batch)
      ensures State() == Q.Promote(old(State()), batch)
    {
      batch := DueMembers(Q.Millis(now));
      ghost var start := State();
      for i := 0 to |batch|
        invariant State() == start.(ready := ready, delayed := delayed)
        invariant delayed == start.delayed - set j | j in batch[..i]
        invariant Q.PushAll(ready, batch[i..]) == Q.PushAll(start.ready, batch)
      {
        delayed := delayed - {batch[i]};
        assert batch[i..][0] == batch[i] && batch[i..][1..] == batch[i + 1..];
        ready := [batch[i]] + ready;
        assert batch[..i + 1] == batch[..i] + [batch[i]];
      }
      assert batch[..|batch|] == batch;
    }
  }
}
