/** Ownership epochs and the reaper's patience. */
module Ownership {
  import opened Prelude
  import opened Delivery
  import opened DeliveryRuns
  import Accounting
  import Q = QueueState

  /** The event assigns job j to worker w. */
  ghost predicate Assigns(s: Sys, e: Event, j: nat, w: string) {
    e == Ready(w, true) && Subject(s, e) == Some(j)
  }

  ghost predicate AssignsTo(s: Sys, e: Event, j: nat) {
    e.Ready? && Assigns(s, e, j, e.w)
  }

  ghost function Assignments(s: Sys, es: seq<Event>, j: nat): nat
    decreases |es|
  {
    if es == [] then 0
    else (if AssignsTo(s, es[0], j) then 1 else 0) + Assignments(Next(s, es[0]), es[1..], j)
  }

  ghost function Acceptances(s: Sys, es: seq<Event>, j: nat): nat
    decreases |es|
  {
    if es == [] then 0
    else (if Accounting.Accepted(s, es[0], j) then 1 else 0) + Acceptances(Next(s, es[0]), es[1..], j)
  }

  function Held(s: Sys, j: nat): nat { if j in s.owner then 1 else 0 }

  /** Only an assignment makes an owner, an accepted result comes from the owner, and it ends the epoch. */
  lemma OwnerStep(s: Sys, e: Event, j: nat)
    ensures j in Next(s, e).owner ==> AssignsTo(s, e, j) || (j in s.owner && Next(s, e).owner[j] == s.owner[j])
    ensures AssignsTo(s, e, j) ==> j in Next(s, e).owner && Next(s, e).owner[j] == e.w
    ensures Accounting.Accepted(s, e, j) ==> j in s.owner && s.owner[j] == e.w && j !in Next(s, e).owner
    ensures Accounting.Accepted(s, e, j) ==> !AssignsTo(s, e, j)
  {
    hide DiskAfter;
    hide Q.Consume;
  }

  /** Each assignment has at most one accepted result: over any run, crashes and stale drops included,
      acceptances never exceed assignments. */
  lemma {:induction false} EpochsBalance(s: Sys, es: seq<Event>, j: nat)
    ensures Acceptances(s, es, j) + Held(Exec(s, es), j) <= Assignments(s, es, j) + Held(s, j)
    decreases |es|
  {
    if es != [] {
      OwnerStep(s, es[0], j);
      EpochsBalance(Next(s, es[0]), es[1..], j);
      hide Next;
      hide AssignsTo;
      hide Accounting.Accepted;
    }
  }

  lemma {:induction false} ExecSplit(s: Sys, es: seq<Event>, n: nat)
    requires n < |es|
    ensures Exec(s, es[..n + 1]) == Next(Exec(s, es[..n]), es[n])
    decreases n
  {
    hide Next;
    if n == 0 {
      assert es[..1][1..] == [];
      assert Exec(Next(s, es[0]), []) == Next(s, es[0]);
    } else {
      assert es[..n + 1][1..] == es[1..][..n];
      assert es[..n][1..] == es[1..][..n - 1];
      ExecSplit(Next(s, es[0]), es[1..], n - 1);
    }
  }

  lemma StartOwnsNobody(es: seq<Event>, n: nat)
    requires n <= |es|
    ensures n == 0 ==> Exec(START, es[..n]).owner == map[]
  {
  }

  /** The event ends whoever's epoch on job j: a crash, a broken stream that holds j, a result from the
      stream of j's owner, a reap, or a failed send of j. */
  ghost predicate Ends(s: Sys, e: Event, j: nat) {
    match e
    case Crash(_, _) => true
    case Disconnect(w) => w in s.inFlight && s.inFlight[w].id == j
    case Result(w, _, _) => w in s.inFlight && s.inFlight[w].id == j && j in s.owner && s.owner[j] == w
    case Reap(_) => Subject(s, e) == Some(j)
    case Ready(_, sent) => !sent && Subject(s, e) == Some(j)
    case _ => false
  }

  /** Those are exactly the events that take a job from its owner. */
  lemma EndsIff(s: Sys, e: Event, j: nat)
    ensures j in s.owner ==> (j !in Next(s, e).owner <==> Ends(s, e, j))
    ensures Ends(s, e, j) ==> j !in Next(s, e).owner && !AssignsTo(s, e, j)
    ensures !Ends(s, e, j) && !AssignsTo(s, e, j) ==> (j in Next(s, e).owner <==> j in s.owner)
    ensures !Ends(s, e, j) && !AssignsTo(s, e, j) && j in s.owner ==> Next(s, e).owner[j] == s.owner[j]
  {
    hide DiskAfter;
    hide Q.Consume;
  }

  /** Event m assigned j to w, and no event from m on up to n assigned j anew or ended the epoch. */
  ghost predicate LatestIs(es: seq<Event>, n: nat, j: nat, w: string, m: nat)
    requires n <= |es|
  {
    && m < n && Assigns(Exec(START, es[..m]), es[m], j, w)
    && forall k :: m < k < n ==> !AssignsTo(Exec(START, es[..k]), es[k], j) && !Ends(Exec(START, es[..k]), es[k], j)
  }

  lemma {:induction false} OwnerHasEpoch(es: seq<Event>, n: nat, j: nat) returns (m: nat)
    requires n <= |es| && j in Exec(START, es[..n]).owner
    ensures LatestIs(es, n, j, Exec(START, es[..n]).owner[j], m)
    decreases n
  {
    hide Next;
    hide Ends;
    StartOwnsNobody(es, n);
    if n > 0 {
      ExecSplit(START, es, n - 1);
      OwnerStep(Exec(START, es[..n - 1]), es[n - 1], j);
      EndsIff(Exec(START, es[..n - 1]), es[n - 1], j);
      if AssignsTo(Exec(START, es[..n - 1]), es[n - 1], j) {
        m := n - 1;
      } else {
        m := OwnerHasEpoch(es, n - 1, j);
      }
    }
  }

  lemma {:induction false} EpochHasOwner(es: seq<Event>, n: nat, j: nat, w: string, m: nat)
    requires n <= |es| && LatestIs(es, n, j, w, m)
    ensures j in Exec(START, es[..n]).owner && Exec(START, es[..n]).owner[j] == w
    decreases n
  {
    hide Next;
    hide Ends;
    ExecSplit(START, es, n - 1);
    OwnerStep(Exec(START, es[..n - 1]), es[n - 1], j);
    EndsIff(Exec(START, es[..n - 1]), es[n - 1], j);
    if m < n - 1 { EpochHasOwner(es, n - 1, j, w, m); }
  }

  /** w owns j exactly when the last event that assigned j or ended an epoch on it was an assignment to w. */
  lemma OwnerIsLatestAssignee(es: seq<Event>, n: nat, j: nat, w: string)
    requires n <= |es|
    ensures (j in Exec(START, es[..n]).owner && Exec(START, es[..n]).owner[j] == w) <==> exists m :: LatestIs(es, n, j, w, m)
  {
    hide LatestIs;
    if j in Exec(START, es[..n]).owner && Exec(START, es[..n]).owner[j] == w { var m := OwnerHasEpoch(es, n, j); }
    forall m | LatestIs(es, n, j, w, m) ensures j in Exec(START, es[..n]).owner && Exec(START, es[..n]).owner[j] == w {
      EpochHasOwner(es, n, j, w, m);
    }
  }

  /** Every accepted result comes from the latest assignee of its job, and ends the epoch. */
  lemma AcceptedFromLatest(es: seq<Event>, n: nat, j: nat) returns (m: nat)
    requires n < |es| && Accounting.Accepted(Exec(START, es[..n]), es[n], j)
    ensures LatestIs(es, n, j, es[n].w, m)
    ensures Ends(Exec(START, es[..n]), es[n], j) && j !in Exec(START, es[..n + 1]).owner
  {
    OwnerStep(Exec(START, es[..n]), es[n], j);
    ExecSplit(START, es, n);
    hide Next;
    m := OwnerHasEpoch(es, n, j);
  }

  // ----- the reaper -----

  /** An assignment of j, or a heartbeat accepted for it. */
  ghost predicate Touches(s: Sys, e: Event, j: nat) {
    AssignsTo(s, e, j) || (e.Heartbeat? && e.job == j && j in s.owner && s.owner[j] == e.w)
  }

  /** Only an assignment of j, or a heartbeat from j's owner, sets when j was last seen, and sets it to now;
      no other event does more than forget it. */
  lemma SeenChanges(s: Sys, e: Event, j: nat)
    ensures AssignsTo(s, e, j) || (e.Heartbeat? && e.job == j && j in s.owner && s.owner[j] == e.w)
      ==> j in Next(s, e).lastSeen && Next(s, e).lastSeen[j] == s.now
    ensures !AssignsTo(s, e, j) && !(e.Heartbeat? && e.job == j && j in s.owner && s.owner[j] == e.w) && j in Next(s, e).lastSeen
      ==> j in s.lastSeen && Next(s, e).lastSeen[j] == s.lastSeen[j]
  {
    hide DiskAfter;
    hide Q.Consume;
  }

  ghost predicate SeenSince(s: Sys, j: nat, t: int) {
    s.now >= t && (j in s.lastSeen ==> s.lastSeen[j] >= t)
  }

  lemma SeenStep(s: Sys, e: Event, j: nat, t: int)
    requires SeenSince(s, j, t)
    ensures SeenSince(Next(s, e), j, t)
  {
    hide DiskAfter;
    hide Q.Consume;
  }

  lemma {:induction false} SeenStays(s: Sys, es: seq<Event>, j: nat, t: int)
    requires SeenSince(s, j, t)
    ensures SeenSince(Exec(s, es), j, t)
    decreases |es|
  {
    hide Next;
    if es != [] {
      SeenStep(s, es[0], j, t);
      SeenStays(Next(s, es[0]), es[1..], j, t);
    }
  }

  lemma TouchSeen(s: Sys, e: Event, j: nat)
    requires Touches(s, e, j)
    ensures SeenSince(Next(s, e), j, s.now)
  {
    hide DiskAfter;
    hide Q.Consume;
  }

  /** The reaper takes a job away only 30 seconds or more after its last assignment or accepted heartbeat. */
  lemma ReaperIsPatient(s: Sys, e: Event, es: seq<Event>, j: nat)
    requires Touches(s, e, j)
    requires Reaps(Exec(Next(s, e), es), j)
    ensures Exec(Next(s, e), es).now - s.now >= HEARTBEAT_TIMEOUT
  {
    TouchSeen(s, e, j);
    SeenStays(Next(s, e), es, j, s.now);
  }
}
