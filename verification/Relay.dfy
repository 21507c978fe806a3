/** The outbox relay (internal/outbox/relay.go): one pass as the program that makes it. */
module Relay {
  import opened Prelude
  import T = Tables
  import D = Delivery
  import Q = QueueState
  import opened Postgres
  import opened Redis

  function DiskOf(db: Database, q: RedisQueue): D.Disk
    reads db, q
  {
    D.Disk(db.State(), q.State())
  }

  /** Entry by entry: enqueue, then mark. `failing` is the number of Enqueue calls after which an error
      stops the pass, if one does; past the last call that is the mark or the commit. The transaction
      is rolled back there, but Redis keeps what it already has. */
  method RunPass(db: Database, q: RedisQueue, now: int, failing: Option<nat>) returns (ok: bool)
    modifies db, q
    ensures old(db.Valid()) ==> db.Valid()
    ensures ok <==> failing.None? || failing.value > |D.RelayEntries(old(DiskOf(db, q)))|
    ensures DiskOf(db, q) == if ok then D.RelayDisk(old(DiskOf(db, q)), now) else D.RelayFailDisk(old(DiskOf(db, q)), failing.value)
  {
    hide Q.Enqueue;
    hide T.MarkIds;
    hide T.Entries;
    ghost var was := DiskOf(db, q);
    var entries := db.GetUnprocessedOutbox();
    var saved := db.outbox;
    MarkNone(saved, now);
    assert T.Rows(entries[..0]) == {};
    for i := 0 to |entries|
      invariant failing.Some? ==> failing.value >= i
      invariant db.State() == was.db.(outbox := T.MarkIds(saved, T.Rows(entries[..i]), now))
      invariant q.State() == D.EnqueueAll(was.q, entries[..i])
    {
      if failing == Some(i) {
        db.outbox := saved;
        return false;
      }
      q.Enqueue(entries[i].job);
      EnqueueLast(was.q, entries[..i], entries[i]);
      db.MarkOutboxProcessed(entries[i].row, now);
      MarkTwice(saved, T.Rows(entries[..i]), entries[i].row, now);
      assert entries[..i + 1] == entries[..i] + [entries[i]];
      assert T.Rows(entries[..i + 1]) == T.Rows(entries[..i]) + {entries[i].row};
    }
    assert entries[..|entries|] == entries;
    ok := failing != Some(|entries|);
    if !ok {
      db.outbox := saved;
    }
  }

  lemma {:induction false} MarkNone(o: seq<T.OutboxRow>, at: int)
    ensures T.MarkIds(o, {}, at) == o
  {
    if o != [] { MarkNone(o[..|o| - 1], at); }
  }

  /** Marking row by row is marking the whole set. */
  lemma {:induction false} MarkTwice(o: seq<T.OutboxRow>, ids: set<nat>, id: nat, at: int)
    ensures T.MarkIds(T.MarkIds(o, ids, at), {id}, at) == T.MarkIds(o, ids + {id}, at)
  {
    if o != [] {
      var n := |o| - 1;
      MarkTwice(o[..n], ids, id, at);
      var once := T.MarkIds(o, ids, at);
      assert once[..|once| - 1] == T.MarkIds(o[..n], ids, at);
    }
  }

  lemma {:induction false} EnqueueLast(q: Q.Queue, entries: seq<T.Entry>, e: T.Entry)
    ensures D.EnqueueAll(q, entries + [e]) == Q.Enqueue(D.EnqueueAll(q, entries), e.job)
    decreases |entries|
  {
    if entries != [] {
      EnqueueLast(Q.Enqueue(q, entries[0].job), entries[1..], e);
      assert (entries + [e])[1..] == entries[1..] + [e];
    } else {
      assert (entries + [e])[1..] == [];
    }
  }
}
