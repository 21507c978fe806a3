/** Relay passes that fail halfway and are retried end where one successful pass would have. */
module RelayConvergence {
  import opened Types
  import opened Tables
  import opened Delivery
  import opened DeliverySafety
  import opened DeliveryRuns
  import opened Positions
  import Q = QueueState
  import QueueOrder

  /** What the relay can see of the queue: consuming moves ids within the line only. */
  datatype View = View(line: seq<nat>, queued: set<nat>, payloads: map<nat, Job>, delayed: map<nat, int>)

  function ViewOf(q: Q.Queue): View { View(QueueOrder.Line(q), q.queued, q.payloads, q.delayed) }

  function Put(v: View, job: Job): View {
    v.(line := if job.id in v.queued then v.line else [job.id] + v.line,
       queued := v.queued + {job.id}, payloads := v.payloads[job.id := job])
  }

  function PutAll(v: View, entries: seq<Entry>): View
    decreases |entries|
  {
    if entries == [] then v else PutAll(Put(v, entries[0].job), entries[1..])
  }

  lemma {:induction false} EnqueueAllView(q: Q.Queue, entries: seq<Entry>)
    ensures ViewOf(EnqueueAll(q, entries)) == PutAll(ViewOf(q), entries)
    decreases |entries|
  {
    if entries != [] {
      var job := entries[0].job;
      assert ([job.id] + q.ready) + q.processing == [job.id] + (q.ready + q.processing);
      EnqueueAllView(Q.Enqueue(q, job), entries[1..]);
    }
  }

  lemma {:induction false} PutAllSplit(v: View, a: seq<Entry>, b: seq<Entry>)
    ensures PutAll(v, a + b) == PutAll(PutAll(v, a), b)
    decreases |a|
  {
    if a == [] {
      assert a + b == b;
    } else {
      assert (a + b)[1..] == a[1..] + b;
      PutAllSplit(Put(v, a[0].job), a[1..], b);
    }
  }

  /** Entries for one job all carry the same payload, because it is read from the job's row. */
  ghost predicate Consistent(entries: seq<Entry>) {
    forall a, b :: a in entries && b in entries && a.job.id == b.job.id ==> a.job == b.job
  }

  lemma {:induction false} PutAllIds(v: View, entries: seq<Entry>, j: nat)
    requires forall e :: e in entries ==> e.job.id != j
    ensures j in PutAll(v, entries).queued <==> j in v.queued
    ensures j in PutAll(v, entries).payloads <==> j in v.payloads
    ensures j in v.payloads ==> PutAll(v, entries).payloads[j] == v.payloads[j]
    decreases |entries|
  {
    if entries != [] {
      assert entries[0] in entries;
      PutAllIds(Put(v, entries[0].job), entries[1..], j);
    }
  }

  ghost predicate Has(v: View, job: Job) {
    job.id in v.queued && job.id in v.payloads && v.payloads[job.id] == job
  }

  lemma {:induction false} PutAllHas(v: View, entries: seq<Entry>, job: Job)
    requires Has(v, job) || exists e :: e in entries && e.job == job
    requires forall e :: e in entries && e.job.id == job.id ==> e.job == job
    ensures Has(PutAll(v, entries), job)
    decreases |entries|
  {
    if entries != [] {
      assert entries[0] in entries;
      assert forall e :: e in entries <==> e == entries[0] || e in entries[1..];
      PutAllHas(Put(v, entries[0].job), entries[1..], job);
    }
  }

  lemma {:induction false} PutAllAgain(v: View, entries: seq<Entry>)
    requires forall e :: e in entries ==> Has(v, e.job)
    ensures PutAll(v, entries) == v
    decreases |entries|
  {
    if entries != [] {
      assert entries[0] in entries && Has(v, entries[0].job);
      assert Put(v, entries[0].job) == v;
      PutAllAgain(v, entries[1..]);
    }
  }

  /** A pass that got through k entries before it failed changes nothing about the pass that succeeds. */
  lemma PrefixAbsorbed(v: View, entries: seq<Entry>, k: nat)
    requires Consistent(entries) && k <= |entries|
    ensures PutAll(PutAll(v, entries[..k]), entries) == PutAll(v, entries)
  {
    var pre, post := entries[..k], entries[k..];
    assert entries == pre + post;
    var w := PutAll(v, pre);
    forall e | e in pre ensures Has(w, e.job) { PutAllHas(v, pre, e.job); }
    PutAllAgain(w, pre);
    PutAllSplit(w, pre, post);
    PutAllSplit(v, pre, post);
  }

  // ----- in the running system -----

  /** Between the attempts: jobs are handed out and heartbeats arrive, but nothing is settled, put back,
      submitted or promoted. */
  ghost predicate Attempt(s: Sys, e: Event) {
    e.RelayFail? || (e.Ready? && e.sent) || e.Tick? || e.Heartbeat?
  }

  lemma {:induction false} EntriesStable(o: seq<OutboxRow>, a: map<nat, JobRow>, b: map<nat, JobRow>)
    requires a.Keys == b.Keys
    requires forall j :: j in a ==> FirstCopy(j, a[j]) == FirstCopy(j, b[j])
    ensures Entries(o, a) == Entries(o, b)
  {
    if o != [] { EntriesStable(o[..|o| - 1], a, b); }
  }

  lemma EntriesConsistent(o: seq<OutboxRow>, jobs: map<nat, JobRow>)
    ensures Consistent(Entries(o, jobs))
  {
    var entries := Entries(o, jobs);
    forall a, b | a in entries && b in entries && a.job.id == b.job.id ensures a.job == b.job {
      EntriesSound(o, jobs, a);
      EntriesSound(o, jobs, b);
    }
  }

  lemma TakeKeepsView(q: Q.Queue)
    requires Q.Kept(q) && Q.OnePlace(q)
    ensures ViewOf(Q.Consume(q).0) == ViewOf(q)
  {
    QueueOrder.TakeKeepsLine(q);
    Q.ConsumePlaces(q, 0);
  }

  lemma HandoutStep(s: Sys, w: string, lost: set<nat>)
    requires Single(s, lost)
    ensures var s' := Next(s, Ready(w, true));
      && ViewOf(s'.disk.q) == ViewOf(s.disk.q) && s'.disk.db.outbox == s.disk.db.outbox
      && RelayEntries(s'.disk) == RelayEntries(s.disk)
  {
    TakeKeepsView(s.disk.q);
    Q.ConsumeGives(s.disk.q);
    var s' := Next(s, Ready(w, true));
    hide Q.Consume;
    hide Entries;
    EntriesStable(s.disk.db.outbox, s.disk.db.jobs, s'.disk.db.jobs);
  }

  lemma FailedPass(d: Disk, k: nat)
    ensures var entries := RelayEntries(d);
      && PutAll(ViewOf(RelayFailDisk(d, k).q), entries) == PutAll(ViewOf(d.q), entries)
      && RelayFailDisk(d, k).db == d.db
  {
    var entries := RelayEntries(d);
    hide PutAll;
    hide ViewOf;
    hide Entries;
    hide EnqueueAll;
    hide Consistent;
    if k <= |entries| {
      EnqueueAllView(d.q, entries[..k]);
      EntriesConsistent(d.db.outbox, d.db.jobs);
      PrefixAbsorbed(ViewOf(d.q), entries, k);
    }
  }

  lemma AttemptStep(s: Sys, e: Event, lost: set<nat>)
    requires Single(s, lost) && Attempt(s, e)
    ensures var entries, s' := RelayEntries(s.disk), Next(s, e);
      && RelayEntries(s'.disk) == entries
      && s'.disk.db.outbox == s.disk.db.outbox
      && PutAll(ViewOf(s'.disk.q), entries) == PutAll(ViewOf(s.disk.q), entries)
  {
    hide PutAll;
    hide ViewOf;
    hide Entries;
    hide EnqueueAll;
    hide Single;
    if e.Ready? {
      HandoutStep(s, e.w, lost);
      assert e == Ready(e.w, true);
    } else if e.RelayFail? {
      FailedPass(s.disk, e.k);
      hide RelayFailDisk;
    }
  }

  lemma AttemptIsSteady(s: Sys, e: Event)
    requires Attempt(s, e)
    ensures !DoubleDrop(s, e) && LostBy(s, e) == {}
  {
  }

  lemma {:induction false} AttemptsConverge(s: Sys, es: seq<Event>, lost: set<nat>)
    requires Single(s, lost) && Always(s, es, Attempt)
    ensures var entries, s' := RelayEntries(s.disk), Exec(s, es);
      && RelayEntries(s'.disk) == entries && s'.disk.db.outbox == s.disk.db.outbox
      && PutAll(ViewOf(s'.disk.q), entries) == PutAll(ViewOf(s.disk.q), entries)
      && Single(s', lost)
    decreases |es|
  {
    hide Single;
    hide Next;
    hide PutAll;
    hide ViewOf;
    hide RelayEntries;
    if es != [] {
      AttemptStep(s, es[0], lost);
      AttemptIsSteady(s, es[0]);
      NextSingle(s, es[0], lost);
      assert lost + LostBy(s, es[0]) == lost;
      AttemptsConverge(Next(s, es[0]), es[1..], lost);
    }
  }

  /** Any number of passes failing at any point, with jobs handed out in between, followed by one
      successful pass: same line, queued set, payloads and delayed set as one successful pass at once,
      and no unprocessed outbox row is left. */
  lemma RelayConverges(s: Sys, es: seq<Event>, now: int, lost: set<nat>)
    requires Single(s, lost) && Always(s, es, Attempt)
    ensures ViewOf(RelayDisk(Exec(s, es).disk, now).q) == ViewOf(RelayDisk(s.disk, now).q)
    ensures forall j: nat :: RowCount(RelayDisk(Exec(s, es).disk, now).db.outbox, j) == 0
  {
    AttemptsConverge(s, es, lost);
    var s' := Exec(s, es);
    EnqueueAllView(s'.disk.q, RelayEntries(s.disk));
    EnqueueAllView(s.disk.q, RelayEntries(s.disk));
    RelayWrite(s'.disk, now, lost);
    hide Exec;
    hide RowCount;
    hide EnqueueAll;
    hide PutAll;
    hide ViewOf;
    hide Entries;
    hide MarkIds;
  }
}
