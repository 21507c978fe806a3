/** The order of a relay pass: rows oldest first, and so jobs handed out in the order they were submitted. */
module RelayOrder {
  import opened Prelude
  import opened Types
  import opened Tables
  import opened Delivery
  import opened DeliverySafety
  import opened DeliveryRuns
  import opened QueueOrder
  import opened Positions
  import Q = QueueState

  predicate Joins(o: seq<OutboxRow>, jobs: map<nat, JobRow>, i: nat) {
    i < |o| && !o[i].processed && o[i].job in jobs
  }

  function EntryOf(r: OutboxRow, jobs: map<nat, JobRow>): Entry
    requires r.job in jobs
  {
    Entry(r.id, Job(r.job, 0, jobs[r.job].maxRetries, jobs[r.job].kind, jobs[r.job].payload))
  }

  lemma EntriesLast(o: seq<OutboxRow>, r: OutboxRow, jobs: map<nat, JobRow>)
    ensures Entries(o + [r], jobs)
         == Entries(o, jobs) + if !r.processed && r.job in jobs then [Entry(r.id, FirstCopy(r.job, jobs[r.job]))] else []
  {
    assert (o + [r])[..|o|] == o;
  }

  /** The entries are the unprocessed rows that join a job, one entry a row, oldest row first: at[e] is the
      position of the row entry e was made from. */
  lemma {:induction false} EntriesInOrder(o: seq<OutboxRow>, jobs: map<nat, JobRow>) returns (at: seq<nat>)
    ensures |at| == |Entries(o, jobs)|
    ensures forall a, b :: 0 <= a < b < |at| ==> at[a] < at[b]
    ensures forall e :: 0 <= e < |at| ==> Joins(o, jobs, at[e]) && Entries(o, jobs)[e] == EntryOf(o[at[e]], jobs)
    ensures forall i: nat :: Joins(o, jobs, i) ==> i in at
  {
    if o == [] {
      at := [];
    } else {
      var n := |o| - 1;
      at := EntriesInOrder(o[..n], jobs);
      EntriesLast(o[..n], o[n], jobs);
      hide Entries;
      assert o == o[..n] + [o[n]];
      forall i: nat ensures Joins(o, jobs, i) <==> (Joins(o[..n], jobs, i) || (i == n && Joins(o, jobs, n))) {}
      if Joins(o, jobs, n) { at := at + [n]; }
    }
  }

  /** The jobs the unprocessed rows bring, each at its oldest row, that the queue does not have yet. */
  function NewJobs(o: seq<OutboxRow>, jobs: map<nat, JobRow>, known: set<nat>): seq<nat> {
    if o == [] then []
    else if !o[0].processed && o[0].job in jobs && o[0].job !in known
    then [o[0].job] + NewJobs(o[1..], jobs, known + {o[0].job})
    else NewJobs(o[1..], jobs, known)
  }

  /** Among entries, likewise. */
  function NewIds(entries: seq<Entry>, known: set<nat>): seq<nat> {
    if entries == [] then []
    else if entries[0].job.id !in known then [entries[0].job.id] + NewIds(entries[1..], known + {entries[0].job.id})
    else NewIds(entries[1..], known)
  }

  /** The oldest row comes first. */
  lemma {:induction false} EntriesFirst(o: seq<OutboxRow>, jobs: map<nat, JobRow>)
    requires o != []
    ensures Entries(o, jobs)
         == (if !o[0].processed && o[0].job in jobs then [Entry(o[0].id, FirstCopy(o[0].job, jobs[o[0].job]))] else []) + Entries(o[1..], jobs)
    decreases |o|
  {
    var n := |o| - 1;
    EntriesLast(o[..n], o[n], jobs);
    assert o == o[..n] + [o[n]];
    if n > 0 {
      EntriesFirst(o[..n], jobs);
      EntriesLast(o[1..n], o[n], jobs);
      assert o[..n][1..] == o[1..n] && o[1..n] + [o[n]] == o[1..];
    } else {
      assert o[..0] == [] && o[1..] == [];
    }
  }

  lemma NewIdsStep(first: seq<Entry>, rest: seq<Entry>, known: set<nat>)
    requires |first| <= 1
    ensures first == [] ==> NewIds(first + rest, known) == NewIds(rest, known)
    ensures first != [] && first[0].job.id !in known ==>
      NewIds(first + rest, known) == [first[0].job.id] + NewIds(rest, known + {first[0].job.id})
    ensures first != [] && first[0].job.id in known ==> NewIds(first + rest, known) == NewIds(rest, known)
  {
    if first == [] { assert first + rest == rest; } else { assert (first + rest)[0] == first[0] && (first + rest)[1..] == rest; }
  }

  lemma {:induction false} NewIdsAreNewJobs(o: seq<OutboxRow>, jobs: map<nat, JobRow>, known: set<nat>)
    ensures NewIds(Entries(o, jobs), known) == NewJobs(o, jobs, known)
    decreases |o|
  {
    if o != [] {
      EntriesFirst(o, jobs);
      hide Entries;
      hide NewIds;
      var first := if !o[0].processed && o[0].job in jobs then [Entry(o[0].id, FirstCopy(o[0].job, jobs[o[0].job]))] else [];
      NewIdsStep(first, Entries(o[1..], jobs), known);
      NewIdsAreNewJobs(o[1..], jobs, known + {o[0].job});
      NewIdsAreNewJobs(o[1..], jobs, known);
    }
  }

  /** One Enqueue: a job the queue does not have goes to the end of the hand-out order; any other keeps its
      place. */
  lemma EnqueueLast(q: Q.Queue, job: Job)
    requires Q.Kept(q) && Q.OnePlace(q)
    ensures HandOut(Q.Enqueue(q, job)) == HandOut(q) + if job.id in q.queued then [] else [job.id]
  {
    Q.EnqueueKept(q, job);
    ReadyHasPayload(q);
    ReadyHasPayload(Q.Enqueue(q, job));
    HandOutIsBackwards(q);
    HandOutIsBackwards(Q.Enqueue(q, job));
    BackwardsPush(q.ready, job.id);
  }

  lemma {:induction false} EnqueueAllOrder(q: Q.Queue, entries: seq<Entry>)
    requires Q.Kept(q) && Q.OnePlace(q)
    ensures HandOut(EnqueueAll(q, entries)) == HandOut(q) + NewIds(entries, q.queued)
    decreases |entries|
  {
    hide HandOut;
    hide Q.Kept;
    hide Q.OnePlace;
    if entries == [] {
      assert HandOut(q) + [] == HandOut(q);
    } else {
      var job := entries[0].job;
      var q1 := Q.Enqueue(q, job);
      EnqueueLast(q, job);
      Q.EnqueueKept(q, job);
      EnqueueAllOrder(q1, entries[1..]);
      OrderStep(HandOut(q), job.id, NewIds(entries[1..], q1.queued));
      if job.id in q.queued { assert q1.queued == q.queued; }
    }
  }

  lemma OrderStep(a: seq<nat>, x: nat, b: seq<nat>)
    ensures (a + [x]) + b == a + ([x] + b) && (a + []) + b == a + b
  {
    assert a + [] == a;
  }

  /** A committed pass puts the new jobs behind everything ready, oldest outbox row first. */
  lemma RelayHandsOut(d: Disk, now: int)
    requires Q.Kept(d.q) && Q.OnePlace(d.q)
    ensures HandOut(RelayDisk(d, now).q) == HandOut(d.q) + NewJobs(d.db.outbox, d.db.jobs, d.q.queued)
  {
    EnqueueAllOrder(d.q, RelayEntries(d));
    NewIdsAreNewJobs(d.db.outbox, d.db.jobs, d.q.queued);
  }

  /** A pass that fails after k Enqueue calls has put the first k there, and changed no table. */
  lemma FailedRelayHandsOut(d: Disk, k: nat)
    requires Q.Kept(d.q) && Q.OnePlace(d.q) && k <= |RelayEntries(d)|
    ensures HandOut(RelayFailDisk(d, k).q) == HandOut(d.q) + NewIds(RelayEntries(d)[..k], d.q.queued)
    ensures RelayFailDisk(d, k).db == d.db
  {
    EnqueueAllOrder(d.q, RelayEntries(d)[..k]);
  }

  /** In the running system: in any run without a double drop, one pass and then nothing but ready workers
      hands out what was ready before, then the new jobs in the order of their oldest rows. */
  lemma RelayInOrder(s: Sys, lost: set<nat>)
    requires Single(s, lost)
    ensures HandOut(Next(s, RelayPass).disk.q) == HandOut(s.disk.q) + NewJobs(s.disk.db.outbox, s.disk.db.jobs, s.disk.q.queued)
  {
    RelayHandsOut(s.disk, s.now);
  }
}
