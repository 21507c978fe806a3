/** What one sweep of the reaper does (internal/server/server.go), job by job. */
module Reaper {
  import opened Prelude
  import opened Types
  import opened Tables
  import opened Delivery

  function Sweep(rows: seq<Listing>): seq<Event> {
    seq(|rows|, i requires 0 <= i < |rows| => Reap(rows[i].id))
  }

  /** The sweep of all running jobs, newest first. */
  function FullSweep(db: Db): seq<Event> { Sweep(Listed(db.jobs, Running, db.nextJob)) }

  /** The job runs, has an owner, and was last seen 30 seconds ago or earlier. */
  predicate Silent(s: Sys, j: nat) {
    && j in s.disk.db.jobs && s.disk.db.jobs[j].status == Running
    && j in s.owner && j in s.lastSeen && s.now - s.lastSeen[j] >= 30_000_000_000
  }

  /** Job j was taken back: pending again with its retry count, owned by nobody, and queued with a copy of
      its row, due at once. */
  ghost predicate TakenBack(s: Sys, s': Sys, j: nat)
    requires j in s.disk.db.jobs
  {
    var row := s.disk.db.jobs[j];
    && j in s'.disk.db.jobs && s'.disk.db.jobs[j] == row.(status := Pending)
    && j !in s'.owner && j !in s'.lastSeen
    && j in s'.disk.q.queued && j in s'.disk.q.delayed && s'.disk.q.delayed[j] == s.now / 1_000_000
    && j in s'.disk.q.payloads && s'.disk.q.payloads[j] == Job(j, row.retryCount, row.maxRetries, row.kind, row.payload)
  }

  /** Nothing about job j changed. */
  ghost predicate LeftAlone(s: Sys, s': Sys, j: nat) {
    && (j in s.disk.db.jobs <==> j in s'.disk.db.jobs) && (j in s.disk.db.jobs ==> s'.disk.db.jobs[j] == s.disk.db.jobs[j])
    && (j in s.owner <==> j in s'.owner) && (j in s.owner ==> s'.owner[j] == s.owner[j])
    && (j in s.lastSeen <==> j in s'.lastSeen) && (j in s.lastSeen ==> s'.lastSeen[j] == s.lastSeen[j])
    && (j in s.disk.q.queued <==> j in s'.disk.q.queued)
    && (j in s.disk.q.payloads <==> j in s'.disk.q.payloads) && (j in s.disk.q.payloads ==> s'.disk.q.payloads[j] == s.disk.q.payloads[j])
    && (j in s.disk.q.delayed <==> j in s'.disk.q.delayed) && (j in s.disk.q.delayed ==> s'.disk.q.delayed[j] == s.disk.q.delayed[j])
  }

  lemma ReapOnce(s: Sys, i: nat, j: nat)
    ensures var s' := Next(s, Reap(i));
      && s'.now == s.now && s'.inFlight == s.inFlight
      && (if i == j && Silent(s, j) then TakenBack(s, s', j) else LeftAlone(s, s', j))
  {
    hide RemoveFirst;
    hide RowCount;
  }

  /** A job that is not among the rows is left alone; one that is, once, gets what it deserves. */
  lemma {:induction false} SweepRows(s: Sys, rows: seq<Listing>, j: nat)
    requires forall a, b :: 0 <= a < b < |rows| ==> rows[a].id > rows[b].id
    ensures var s' := Exec(s, Sweep(rows));
      && s'.now == s.now && s'.inFlight == s.inFlight
      && (if (exists a :: 0 <= a < |rows| && rows[a].id == j) && Silent(s, j) then TakenBack(s, s', j) else LeftAlone(s, s', j))
    decreases |rows|
  {
    if rows != [] {
      var s1 := Next(s, Reap(rows[0].id));
      ReapOnce(s, rows[0].id, j);
      assert Sweep(rows)[0] == Reap(rows[0].id) && Sweep(rows)[1..] == Sweep(rows[1..]);
      hide Next;
      SweepRows(s1, rows[1..], j);
      assert forall a :: 0 <= a < |rows[1..]| ==> rows[1..][a] == rows[a + 1];
      if rows[0].id == j { assert forall a :: 0 <= a < |rows[1..]| ==> rows[1..][a].id != j; }
    }
  }

  /** A sweep takes back every silent job, however long it has been silent, and touches no other job. */
  lemma SweepExact(s: Sys, j: nat)
    requires IdsBelowNext(s.disk.db)
    ensures var s' := Exec(s, FullSweep(s.disk.db));
      && s'.now == s.now && s'.inFlight == s.inFlight
      && (if Silent(s, j) then TakenBack(s, s', j) else LeftAlone(s, s', j))
  {
    var rows := Listed(s.disk.db.jobs, Running, s.disk.db.nextJob);
    ListedExactly(s.disk.db.jobs, Running, s.disk.db.nextJob);
    SweepRows(s, rows, j);
    hide Exec;
    hide TakenBack;
    hide LeftAlone;
    if Silent(s, j) {
      assert Listing(j, s.disk.db.jobs[j]) in rows;
    }
  }
}
