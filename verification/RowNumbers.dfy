/** Outbox rows keep distinct numbers in the order they were added, so a pass marks exactly its own rows. */
module RowNumbers {
  import opened Types
  import opened Tables
  import opened Delivery
  import RelayOrder

  ghost predicate Rising(o: seq<OutboxRow>, next: nat) {
    && (forall i, k :: 0 <= i < k < |o| ==> o[i].id < o[k].id)
    && (forall i :: 0 <= i < |o| ==> o[i].id < next)
  }

  ghost predicate Numbered(db: Db) { Rising(db.outbox, db.nextRow) }

  /** The same rows under the same numbers, whatever their marks. */
  ghost predicate SameNumbers(a: seq<OutboxRow>, b: seq<OutboxRow>) {
    |a| == |b| && forall i :: 0 <= i < |a| ==> a[i].id == b[i].id
  }

  lemma {:induction false} CleanupRising(o: seq<OutboxRow>, cutoff: int, next: nat)
    requires Rising(o, next)
    ensures Rising(Cleanup(o, cutoff), next)
  {
    if o != [] {
      var n := |o| - 1;
      assert Rising(o[..n], o[n].id);
      CleanupRising(o[..n], cutoff, o[n].id);
    }
  }

  lemma {:induction false} OrphansRising(db: Db, n: nat)
    requires Numbered(db)
    ensures Rising(WithOrphans(db, n), db.nextRow + n)
  {
    if n > 0 { OrphansRising(db, n - 1); }
  }

  lemma ResetNumbered(db: Db)
    requires Numbered(db)
    ensures Numbered(ResetRunningJobs(db))
  {
    OrphansRising(db, db.nextJob);
  }

  /** A handler without its last writes adds one row at most, marks rows, or removes some. */
  lemma HandlerNumbered(s: Sys, e: Event, cut: nat)
    requires Numbered(s.disk.db)
    ensures Numbered(DiskAfter(s, e, cut).db)
  {
    hide Rising;
    var d := s.disk;
    if e.CleanUp? {
      CleanupRising(d.db.outbox, s.now - e.age, d.db.nextRow);
    } else if e.Submit? || e.SubmitStep? {
      AppendRising(d.db);
    } else {
      MarksKeep(d.db.outbox, Rows(RelayEntries(d)), d.db.nextRow, s.now);
      MarksKeepJobs(d.db.outbox, if e.CancelRun? then Cancellable(d.db, e.run) else if e.CancelJob? then {e.job} else {}, d.db.nextRow, s.now);
    }
  }

  lemma AppendRising(db: Db)
    requires Numbered(db)
    ensures Rising(db.outbox + [OutboxRow(db.nextRow, db.nextJob, false, 0)], db.nextRow + 1)
  {
  }

  lemma MarksKeep(o: seq<OutboxRow>, ids: set<nat>, next: nat, at: int)
    requires Rising(o, next)
    ensures Rising(MarkIds(o, ids, at), next)
  {
    MarkIdsAt(o, ids, at);
  }

  lemma MarksKeepJobs(o: seq<OutboxRow>, jobs: set<nat>, next: nat, at: int)
    requires Rising(o, next)
    ensures Rising(MarkJobs(o, jobs, at), next)
  {
    MarkJobsAt(o, jobs, at);
  }

  lemma NextNumbered(s: Sys, e: Event)
    requires Numbered(s.disk.db)
    ensures Numbered(Next(s, e).disk.db)
  {
    HandlerNumbered(s, Handler(e), Writes(e));
    if e.Crash? { ResetNumbered(DiskAfter(s, e.during, e.cut).db); }
    hide DiskAfter;
    hide MemoryAfter;
  }

  /** Over every run, crashes included, the outbox stands in the order of its numbers. */
  lemma {:induction false} ExecNumbered(s: Sys, es: seq<Event>)
    requires Numbered(s.disk.db)
    ensures Numbered(Exec(s, es).disk.db)
    decreases |es|
  {
    hide Numbered;
    hide Next;
    if es != [] {
      NextNumbered(s, es[0]);
      ExecNumbered(Next(s, es[0]), es[1..]);
    }
  }

  /** A committed pass marks, with its time, exactly the unprocessed rows that join a job. */
  lemma PassMarksExactly(d: Disk, now: int, i: nat)
    requires Numbered(d.db) && i < |d.db.outbox|
    ensures |RelayDisk(d, now).db.outbox| == |d.db.outbox|
    ensures var r := d.db.outbox[i];
      RelayDisk(d, now).db.outbox[i] == if !r.processed && r.job in d.db.jobs then r.(processed := true, at := now) else r
  {
    var o, jobs := d.db.outbox, d.db.jobs;
    var entries := RelayEntries(d);
    var at := RelayOrder.EntriesInOrder(o, jobs);
    MarkIdsAt(o, Rows(entries), now);
    assert o[i].id in Rows(entries) <==> RelayOrder.Joins(o, jobs, i) by {
      if RelayOrder.Joins(o, jobs, i) {
        var e :| 0 <= e < |at| && at[e] == i;
        assert entries[e] in entries && entries[e].row == o[i].id;
      }
      if o[i].id in Rows(entries) {
        var en :| en in entries && en.row == o[i].id;
        var e :| 0 <= e < |entries| && entries[e] == en;
        assert at[e] == i;
      }
    }
  }
}
