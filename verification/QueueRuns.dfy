/**
  The queue's order in the running system: every event makes queue calls within the usage rule, so
  every run without a double drop refines one first-in first-out line, and a crash restores its order.
*/
module QueueRuns {
  import opened Prelude
  import opened Types
  import opened Tables
  import opened Delivery
  import opened DeliverySafety
  import opened DeliveryRuns
  import opened Positions
  import opened QueueOrder
  import Q = QueueState
  import Backoff

  function Puts(entries: seq<Entry>): seq<Call>
    decreases |entries|
  {
    if entries == [] then [] else [Put(entries[0].job)] + Puts(entries[1..])
  }

  /** The queue calls among a handler's first `cut` writes. */
  ghost function HandlerCalls(s: Sys, e: Event, cut: nat): seq<Call> {
    match e
    case Ready(w, sent) =>
      var got := Q.Consume(s.disk.q).1;
      if w in s.inFlight || cut == 0 then []
      else if got.Some? && !sent && cut > 3 then [Take, Later(got.value, Q.Millis(s.now))]
      else [Take]
    case Result(w, success, _) =>
      if !Accepts(s, w) then []
      else
        var j := s.inFlight[w].id;
        var row := s.disk.db.jobs[j];
        if success then if cut > 0 then [Finish(j)] else []
        else if cut < 2 then []
        else if row.retryCount < row.maxRetries then
          [Later(RowCopy(j, row).(retryCount := row.retryCount + 1), Q.Millis(s.now + Backoff.RetryDelay(row.retryCount + 1)))]
        else [Finish(j)]
    case Disconnect(w) => if w in s.inFlight && cut > 1 then [Later(s.inFlight[w], Q.Millis(s.now))] else []
    case Reap(j) => if Reaps(s, j) && cut > 1 then [Later(RowCopy(j, s.disk.db.jobs[j]), Q.Millis(s.now))] else []
    case CancelJob(j) => if Cancels(s, j) && cut > 2 then [Withdraw(j)] else []
    case RelayPass => if cut > 0 then Puts(RelayEntries(s.disk)) else []
    case RelayFail(k) => if cut > 0 && k <= |RelayEntries(s.disk)| then Puts(RelayEntries(s.disk)[..k]) else []
    case PromoteDue(batch) => if cut > 0 && Q.IsDueBatch(s.disk.q.delayed, Q.Millis(s.now), batch) then [Due(Q.Millis(s.now), batch)] else []
    case _ => []
  }

  /** The calls of a whole event; a crash ends with Recover. */
  ghost function EventCalls(s: Sys, e: Event): seq<Call> {
    HandlerCalls(s, Handler(e), Writes(e)) + if e.Crash? then [Restore] else []
  }

  ghost function RunCalls(s: Sys, es: seq<Event>): seq<Call>
    decreases |es|
  {
    if es == [] then [] else EventCalls(s, es[0]) + RunCalls(Next(s, es[0]), es[1..])
  }

  lemma {:induction false} PutsApply(q: Q.Queue, entries: seq<Entry>)
    ensures ApplyAll(q, Puts(entries)) == EnqueueAll(q, entries) && AllFit(q, Puts(entries))
    decreases |entries|
  {
    if entries != [] {
      PutsApply(Q.Enqueue(q, entries[0].job), entries[1..]);
      assert Puts(entries)[1..] == Puts(entries[1..]);
    }
  }

  lemma OneCall(q: Q.Queue, c: Call)
    ensures ApplyAll(q, [c]) == Apply(q, c) && (AllFit(q, [c]) <==> Fits(q, c))
  {
    hide Apply;
    hide Fits;
    assert [c][1..] == [] && ApplyAll(Apply(q, c), []) == Apply(q, c) && AllFit(Apply(q, c), []);
  }

  lemma {:induction false} JoinCalls(q: Q.Queue, a: seq<Call>, b: seq<Call>)
    ensures ApplyAll(q, a + b) == ApplyAll(ApplyAll(q, a), b)
    ensures AllFit(q, a + b) <==> AllFit(q, a) && AllFit(ApplyAll(q, a), b)
    decreases |a|
  {
    hide Apply;
    hide Fits;
    if a == [] {
      assert a + b == b;
    } else {
      assert (a + b)[1..] == a[1..] + b && (a + b)[0] == a[0];
      JoinCalls(Apply(q, a[0]), a[1..], b);
    }
  }

  lemma {:induction false} JoinFifo(f: Fifo, a: seq<Call>, b: seq<Call>)
    ensures FifoAll(f, a + b) == FifoAll(FifoAll(f, a), b)
    decreases |a|
  {
    hide FifoNext;
    if a == [] {
      assert a + b == b;
    } else {
      assert (a + b)[1..] == a[1..] + b && (a + b)[0] == a[0];
      JoinFifo(FifoNext(f, a[0]), a[1..], b);
    }
  }

  // ----- what an event does to the queue is these calls -----

  lemma ReadyCalls(s: Sys, e: Event, cut: nat)
    requires e.Ready?
    ensures DiskAfter(s, e, cut).q == ApplyAll(s.disk.q, HandlerCalls(s, e, cut))
  {
    hide Q.Consume;
    hide Q.Retry;
    var (q, got) := Q.Consume(s.disk.q);
    OneCall(s.disk.q, Take);
    if got.Some? {
      var c := Later(got.value, Q.Millis(s.now));
      JoinCalls(s.disk.q, [Take], [c]);
      OneCall(q, c);
      assert [Take] + [c] == [Take, c];
    }
  }

  lemma OtherCalls(s: Sys, e: Event, cut: nat)
    requires IsHandler(e) && !e.Ready?
    ensures DiskAfter(s, e, cut).q == ApplyAll(s.disk.q, HandlerCalls(s, e, cut))
    ensures |HandlerCalls(s, e, cut)| <= 1
  {
    hide Q.Retry;
    hide Q.Settle;
    hide Q.Cancel;
    hide MarkJobs;
    hide Backoff.RetryDelay;
    var calls := HandlerCalls(s, e, cut);
    if calls != [] {
      OneCall(s.disk.q, calls[0]);
      assert calls == [calls[0]];
    }
  }

  lemma BackgroundCalls(s: Sys, e: Event, cut: nat)
    requires !IsHandler(e)
    ensures DiskAfter(s, e, cut).q == ApplyAll(s.disk.q, HandlerCalls(s, e, cut))
    ensures AllFit(s.disk.q, HandlerCalls(s, e, cut))
  {
    hide MarkIds;
    hide MarkJobs;
    hide Cleanup;
    hide Q.Promote;
    var entries := RelayEntries(s.disk);
    hide Entries;
    match e {
      case RelayPass => PutsApply(s.disk.q, entries);
      case RelayFail(k) => if k <= |entries| { PutsApply(s.disk.q, entries[..k]); }
      case PromoteDue(batch) => OneCall(s.disk.q, Due(Q.Millis(s.now), batch));
      case _ =>
    }
  }

  /** The server keeps the queue's usage rule. */
  lemma HandlerFits(s: Sys, e: Event, cut: nat, lost: set<nat>)
    requires Single(s, lost) && !DoubleDrop(s, Crash(e, cut)) && IsHandler(e) && !e.Ready?
    ensures AllFit(s.disk.q, HandlerCalls(s, e, cut))
  {
    var calls := HandlerCalls(s, e, cut);
    OtherCalls(s, e, cut);
    if e.Result? && Accepts(s, e.w) { OwnedNotReady(s, s.inFlight[e.w].id, lost); }
    if e.Reap? && Reaps(s, e.job) { OwnedNotReady(s, e.job, lost); }
    hide Single;
    hide Backoff.RetryDelay;
    if calls != [] {
      OneCall(s.disk.q, calls[0]);
      assert calls == [calls[0]];
    }
  }

  lemma ReadyFits(s: Sys, e: Event, cut: nat, lost: set<nat>)
    requires Single(s, lost) && e.Ready?
    ensures AllFit(s.disk.q, HandlerCalls(s, e, cut))
  {
    Q.ConsumeKept(s.disk.q);
    Q.ConsumeGives(s.disk.q);
    var (q, got) := Q.Consume(s.disk.q);
    hide Q.Consume;
    OneCall(s.disk.q, Take);
    if got.Some? {
      var c := Later(got.value, Q.Millis(s.now));
      NotReady(q, got.value.id);
      JoinCalls(s.disk.q, [Take], [c]);
      OneCall(q, c);
      assert [Take] + [c] == [Take, c];
    }
    hide Single;
  }

  lemma EventIsCalls(s: Sys, e: Event, lost: set<nat>)
    requires Single(s, lost) && !DoubleDrop(s, e)
    ensures Next(s, e).disk.q == ApplyAll(s.disk.q, EventCalls(s, e)) && AllFit(s.disk.q, EventCalls(s, e))
  {
    var h, cut := Handler(e), Writes(e);
    if h.Ready? {
      ReadyCalls(s, h, cut);
      ReadyFits(s, h, cut, lost);
    } else if IsHandler(h) {
      OtherCalls(s, h, cut);
      HandlerFits(s, h, cut, lost);
    } else {
      BackgroundCalls(s, h, cut);
    }
    hide DiskAfter;
    hide MemoryAfter;
    hide HandlerCalls;
    hide Single;
    var calls := HandlerCalls(s, h, cut);
    if e.Crash? {
      JoinCalls(s.disk.q, calls, [Restore]);
      OneCall(ApplyAll(s.disk.q, calls), Restore);
    } else {
      assert calls + [] == calls;
    }
  }

  /** Every run without a double drop, crashes and failed relay passes included, refines the simple queue. */
  lemma {:induction false} RunRefinesFifo(s: Sys, es: seq<Event>, lost: set<nat>)
    requires Single(s, lost) && Always(s, es, NoDoubleDrop)
    ensures Abstract(Exec(s, es).disk.q) == FifoAll(Abstract(s.disk.q), RunCalls(s, es))
    decreases |es|
  {
    hide Next;
    hide Abstract;
    hide EventCalls;
    if es != [] {
      EventIsCalls(s, es[0], lost);
      SingleQueue(s, lost);
      QueueRefinesFifo(s.disk.q, EventCalls(s, es[0]));
      NextSingle(s, es[0], lost);
      hide Single;
      RunRefinesFifo(Next(s, es[0]), es[1..], lost + LostBy(s, es[0]));
      JoinFifo(Abstract(s.disk.q), EventCalls(s, es[0]), RunCalls(Next(s, es[0]), es[1..]));
    }
  }

  lemma SingleQueue(s: Sys, lost: set<nat>)
    requires Single(s, lost)
    ensures Q.Kept(s.disk.q) && Q.OnePlace(s.disk.q)
  {
  }

  /** After any such run from the first start, a crash between handlers leaves the next server handing out
      exactly the simple queue's line, oldest first. */
  lemma RestartKeepsOrder(es: seq<Event>)
    requires Always(START, es, NoDoubleDrop)
    ensures HandOut(Next(Exec(START, es), Crash(Tick(0), 0)).disk.q) == Backwards(FifoAll(Fifo([], {}), RunCalls(START, es)).line)
  {
    StartSingle();
    RunRefinesFifo(START, es, {});
    ExecSingle(START, es, {});
    var s := Exec(START, es);
    assert Abstract(START.disk.q) == Fifo([], {});
    hide Exec;
    SingleQueue(s, {} + LostIn(START, es));
    hide Single;
    assert Next(s, Crash(Tick(0), 0)).disk.q == Q.Recover(s.disk.q);
    hide Next;
    var none: seq<Call> := [];
    CrashRestoresOrder(s.disk.q, none);
  }
}
