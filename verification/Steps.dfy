/**
  Workflow steps as values (internal/workflow/workflow.go): what Normalize makes of a list of
  steps, the dependency graph Validate judges, and the frontier UnblockedSteps computes.
*/
module Steps {
  import opened Prelude

  /** dependsOn is None for a nil slice; nil and empty differ in Normalize only. */
  datatype Step = Step(id: string, command: string, dependsOn: Option<seq<string>>, retries: int)

  function Deps(s: Step): seq<string> {
    if s.dependsOn.Some? then s.dependsOn.value else []
  }

  // ----- Normalize -----

  function AutoId(i: nat): string { "step-" + Decimal(i) }

  function Named(s: Step, i: nat): Step {
    if s.id == "" then s.(id := AutoId(i)) else s
  }

  function WithIds(steps: seq<Step>): seq<Step> {
    seq(|steps|, i requires 0 <= i < |steps| => Named(steps[i], i))
  }

  predicate DagMode(steps: seq<Step>) {
    exists i :: 0 <= i < |steps| && steps[i].dependsOn.Some?
  }

  function Linked(steps: seq<Step>, i: nat): Step
    requires i < |steps|
  {
    if i == 0 then steps[0] else steps[i].(dependsOn := Some([steps[i - 1].id]))
  }

  function Chained(steps: seq<Step>): seq<Step> {
    seq(|steps|, i requires 0 <= i < |steps| => Linked(steps, i))
  }

  function Normalized(steps: seq<Step>): seq<Step> {
    var named := WithIds(steps);
    if DagMode(named) then named else Chained(named)
  }

  // ----- what Validate accepts -----

  ghost predicate DistinctIds(steps: seq<Step>) {
    forall i, j :: 0 <= i < j < |steps| ==> steps[i].id != steps[j].id
  }

  predicate HasStep(steps: seq<Step>, id: string) {
    exists k :: 0 <= k < |steps| && steps[k].id == id
  }

  ghost predicate KnownDeps(steps: seq<Step>) {
    forall i, d :: 0 <= i < |steps| && d in Deps(steps[i]) ==> HasStep(steps, d)
  }

  /** Step i names step j as a dependency. */
  ghost predicate Edge(steps: seq<Step>, i: nat, j: nat) {
    i < |steps| && j < |steps| && steps[j].id in Deps(steps[i])
  }

  ghost predicate Walk(steps: seq<Step>, p: seq<nat>) {
    forall k :: 0 <= k < |p| - 1 ==> Edge(steps, p[k], p[k + 1])
  }

  ghost predicate IsCycle(steps: seq<Step>, p: seq<nat>) {
    |p| >= 2 && p[0] == p[|p| - 1] && Walk(steps, p)
  }

  ghost predicate Acyclic(steps: seq<Step>) {
    forall p :: !IsCycle(steps, p)
  }

  ghost predicate Valid(steps: seq<Step>) {
    DistinctIds(steps) && KnownDeps(steps) && Acyclic(steps)
  }

  /** A topological rank: every dependency ranks strictly below the step that names it. */
  ghost predicate Ranked(steps: seq<Step>, rank: seq<nat>) {
    |rank| == |steps| && forall i: nat, j: nat :: Edge(steps, i, j) ==> rank[j] < rank[i]
  }

  lemma RankedIsAcyclic(steps: seq<Step>, rank: seq<nat>)
    requires Ranked(steps, rank)
    ensures Acyclic(steps)
  {
    forall p ensures !IsCycle(steps, p) {
      if IsCycle(steps, p) {
        RankFalls(steps, rank, p, |p| - 1);
      }
    }
  }

  lemma {:induction false} RankFalls(steps: seq<Step>, rank: seq<nat>, p: seq<nat>, k: nat)
    requires Ranked(steps, rank) && Walk(steps, p) && 0 < k < |p|
    ensures p[k] < |rank| && p[0] < |rank| && rank[p[k]] < rank[p[0]]
  {
    assert Edge(steps, p[k - 1], p[k]);
    if k > 1 {
      RankFalls(steps, rank, p, k - 1);
    }
  }

  /** A list of steps in which every dependency stands before the step that names it. */
  ghost predicate Topological(steps: seq<Step>, order: seq<nat>) {
    forall p: nat, j: nat :: p < |order| && Edge(steps, order[p], j) ==> j in order[..p]
  }

  lemma FinishOne(steps: seq<Step>, order: seq<nat>, i: nat)
    requires Topological(steps, order)
    requires forall j: nat :: Edge(steps, i, j) ==> j in order
    ensures Topological(steps, order + [i])
  {
    var o := order + [i];
    forall p: nat, j: nat | p < |o| && Edge(steps, o[p], j) ensures j in o[..p] {
      if p < |order| { assert o[..p] == order[..p]; } else { assert o[..p] == order; }
    }
  }

  // ----- Normalize, once and for all -----

  /** LoadFromDir, TriggerWorkflow and Advance each normalize the shared step slice again. */
  lemma NormalizeIdempotent(steps: seq<Step>)
    ensures Normalized(Normalized(steps)) == Normalized(steps)
    ensures |Normalized(steps)| == |steps|
    ensures forall i :: 0 <= i < |steps| ==> Normalized(steps)[i].id != ""
  {
    var once := Normalized(steps);
    assert forall i :: 0 <= i < |steps| ==> once[i].id == Named(steps[i], i).id;
    assert WithIds(once) == once;
    if !DagMode(once) {
      assert once == Chained(WithIds(steps));
      forall i | 0 <= i < |once| ensures Linked(once, i) == once[i] {
        assert once[i] == Linked(WithIds(steps), i);
      }
      assert Chained(once) == once;
    }
  }

  /** What Normalize keeps of each step: the command, the retries and a given id; a missing id is made from
      the step's position. */
  lemma NormalizedKeeps(steps: seq<Step>)
    ensures |Normalized(steps)| == |steps|
    ensures forall i :: 0 <= i < |steps| ==>
      && Normalized(steps)[i].command == steps[i].command && Normalized(steps)[i].retries == steps[i].retries
      && Normalized(steps)[i].id == if steps[i].id == "" then "step-" + Decimal(i) else steps[i].id
  {
  }

  /** If any step declares depends_on, even an empty list, all dependencies stay as declared; a step without
      any is then a root. */
  lemma NormalizedDag(steps: seq<Step>)
    requires exists i :: 0 <= i < |steps| && steps[i].dependsOn.Some?
    ensures forall i :: 0 <= i < |steps| ==> Normalized(steps)[i].dependsOn == steps[i].dependsOn
  {
    var named := WithIds(steps);
    var w :| 0 <= w < |steps| && steps[w].dependsOn.Some?;
    assert named[w].dependsOn.Some?;
  }

  /** If none does, the steps form one chain in the order given. */
  lemma NormalizedChain(steps: seq<Step>)
    requires forall i :: 0 <= i < |steps| ==> steps[i].dependsOn.None?
    ensures var n := Normalized(steps);
      && (|n| > 0 ==> n[0].dependsOn.None?)
      && forall i :: 0 < i < |n| ==> n[i].dependsOn == Some([n[i - 1].id])
  {
    var named := WithIds(steps);
    forall i | 0 <= i < |steps| ensures named[i].dependsOn.None? {
      assert named[i] == Named(steps[i], i);
    }
    assert Normalized(steps) == Chained(named);
  }

  /** A workflow whose steps all have ids, and one of which declares depends_on, is taken as given. */
  lemma NormalizedAsGiven(steps: seq<Step>)
    requires forall i :: 0 <= i < |steps| ==> steps[i].id != ""
    requires exists i :: 0 <= i < |steps| && steps[i].dependsOn.Some?
    ensures Normalized(steps) == steps
  {
    NormalizedKeeps(steps);
    NormalizedDag(steps);
  }

  ghost predicate IsChain(steps: seq<Step>) {
    && (|steps| > 0 ==> Deps(steps[0]) == [])
    && forall i :: 0 < i < |steps| ==> Deps(steps[i]) == [steps[i - 1].id]
  }

  lemma ChainEdge(steps: seq<Step>, i: nat, j: nat)
    requires IsChain(steps) && DistinctIds(steps) && Edge(steps, i, j)
    ensures i == j + 1
  {
    assert i > 0 && steps[j].id == steps[i - 1].id;
  }

  lemma ChainIsValid(steps: seq<Step>)
    requires IsChain(steps) && DistinctIds(steps)
    ensures Valid(steps)
  {
    var rank: seq<nat> := seq(|steps|, (i: nat) => i);
    forall i: nat, j: nat | Edge(steps, i, j) ensures rank[j] < rank[i] {
      ChainEdge(steps, i, j);
    }
    RankedIsAcyclic(steps, rank);
    forall i, d | 0 <= i < |steps| && d in Deps(steps[i]) ensures HasStep(steps, d) {
      assert i > 0 && steps[i - 1].id == d;
    }
  }

  lemma ChainShape(steps: seq<Step>)
    requires !DagMode(steps)
    ensures Normalized(steps) == Chained(WithIds(steps)) && IsChain(Normalized(steps))
  {
    var named := WithIds(steps);
    forall i | 0 <= i < |steps| ensures named[i].dependsOn.None? {
      assert named[i] == Named(steps[i], i);
    }
  }

  /** Without any depends_on the steps form one chain, so only the ids can be at fault. */
  lemma ChainValidity(steps: seq<Step>)
    requires !DagMode(steps)
    ensures Valid(Normalized(steps)) <==> DistinctIds(WithIds(steps))
  {
    hide Acyclic;
    hide KnownDeps;
    hide IsChain;
    ChainShape(steps);
    SameIds(Normalized(steps), WithIds(steps));
    hide DistinctIds;
    if DistinctIds(WithIds(steps)) { ChainIsValid(Normalized(steps)); }
  }

  lemma SameIds(a: seq<Step>, b: seq<Step>)
    requires |a| == |b| && forall i :: 0 <= i < |a| ==> a[i].id == b[i].id
    ensures DistinctIds(a) <==> DistinctIds(b)
  {
  }

  /** A plain list of commands is always a valid workflow. */
  lemma PlainListIsValid(steps: seq<Step>)
    requires forall i :: 0 <= i < |steps| ==> steps[i].id == "" && steps[i].dependsOn.None?
    ensures Valid(Normalized(steps))
  {
    var named := WithIds(steps);
    forall i, j | 0 <= i < j < |named| ensures named[i].id != named[j].id {
      if named[i].id == named[j].id {
        assert AutoId(i)[5..] == Decimal(i) && AutoId(j)[5..] == Decimal(j);
        DecimalInjective(i, j);
      }
    }
    ChainValidity(steps);
  }

  // ----- UnblockedSteps -----

  predicate Enabled(steps: seq<Step>, completed: set<string>, i: nat)
    requires i < |steps|
  {
    forall d {:trigger d in Deps(steps[i])} :: d in Deps(steps[i]) ==> d in completed
  }

  /** The indices below n that are not submitted and have every dependency completed, ascending. */
  function Unblocked(steps: seq<Step>, completed: set<string>, submitted: set<nat>, n: nat): (r: seq<nat>)
    requires n <= |steps|
    ensures forall i: nat :: i in r <==> i < n && i !in submitted && Enabled(steps, completed, i)
  {
    if n == 0 then []
    else
      var r := Unblocked(steps, completed, submitted, n - 1);
      if n - 1 !in submitted && Enabled(steps, completed, n - 1) then r + [n - 1] else r
  }

  ghost predicate Ascending(s: seq<nat>) {
    forall p, q :: 0 <= p < q < |s| ==> s[p] < s[q]
  }

  lemma {:induction false} UnblockedAscending(steps: seq<Step>, completed: set<string>, submitted: set<nat>, n: nat)
    requires n <= |steps|
    ensures Ascending(Unblocked(steps, completed, submitted, n))
  {
    if n > 0 {
      UnblockedAscending(steps, completed, submitted, n - 1);
      var r := Unblocked(steps, completed, submitted, n - 1);
      forall p | 0 <= p < |r| ensures r[p] < n - 1 {
        assert r[p] in r;
      }
    }
  }

  lemma {:induction false} FrontierLength(steps: seq<Step>, completed: set<string>, submitted: set<nat>, n: nat)
    requires n <= |steps|
    ensures |Unblocked(steps, completed, submitted, n)| <= n
  {
    if n > 0 { FrontierLength(steps, completed, submitted, n - 1); }
  }

  /** The ids of a set of step indices; indices past the end are ignored, as Advance does. */
  function IdsOf(steps: seq<Step>, done: set<nat>): set<string> {
    IdsBelow(steps, done, |steps|)
  }

  function IdsBelow(steps: seq<Step>, done: set<nat>, n: nat): set<string>
    requires n <= |steps|
  {
    if n == 0 then {}
    else IdsBelow(steps, done, n - 1) + if n - 1 in done then {steps[n - 1].id} else {}
  }

  lemma {:induction false} IdsMember(steps: seq<Step>, done: set<nat>, n: nat, d: string)
    requires n <= |steps|
    ensures d in IdsBelow(steps, done, n) <==> exists k: nat :: k < n && k in done && steps[k].id == d
  {
    if n > 0 { IdsMember(steps, done, n - 1, d); }
  }

  lemma {:induction false} NoIds(steps: seq<Step>, n: nat)
    requires n <= |steps|
    ensures IdsBelow(steps, {}, n) == {}
  {
    if n > 0 { NoIds(steps, n - 1); }
  }

  lemma EnabledByIndex(steps: seq<Step>, done: set<nat>, i: nat)
    requires DistinctIds(steps) && KnownDeps(steps) && i < |steps|
    ensures Enabled(steps, IdsOf(steps, done), i) <==> forall j: nat :: Edge(steps, i, j) ==> j in done
  {
    var ids := IdsOf(steps, done);
    if Enabled(steps, ids, i) {
      forall j: nat | Edge(steps, i, j) ensures j in done {
        assert steps[j].id in ids;
        IdsMember(steps, done, |steps|, steps[j].id);
      }
    }
    if forall j: nat :: Edge(steps, i, j) ==> j in done {
      forall d | d in Deps(steps[i]) ensures d in ids {
        assert HasStep(steps, d);
        var k: nat :| k < |steps| && steps[k].id == d;
        assert Edge(steps, i, k);
        IdsMember(steps, done, |steps|, d);
      }
    }
  }

  // ----- the two graph algorithms agree -----

  /** In a valid workflow some unfinished step always has all its dependencies finished. */
  lemma FrontierExists(steps: seq<Step>, done: set<nat>) returns (i: nat)
    requires Valid(steps)
    requires exists k: nat :: k < |steps| && k !in done
    ensures i < |steps| && i !in done && Enabled(steps, IdsOf(steps, done), i)
  {
    if w: nat :| w < |steps| && w !in done && Enabled(steps, IdsOf(steps, done), w) {
      i := w;
    } else {
      var start: nat :| start < |steps| && start !in done;
      var p := WalkOutside(steps, done, start, |steps|);
      var a, b := Pigeonhole(p, |steps|);
      WalkSlice(steps, p, a, b + 1);
      assert IsCycle(steps, p[a..b + 1]);
      assert false;
    }
  }

  lemma WalkSlice(steps: seq<Step>, p: seq<nat>, a: nat, b: nat)
    requires Walk(steps, p) && a <= b <= |p|
    ensures Walk(steps, p[a..b])
  {
    var c := p[a..b];
    forall k | 0 <= k < |c| - 1 ensures Edge(steps, c[k], c[k + 1]) {
      var m := a + k;
      assert Edge(steps, p[m], p[m + 1]);
    }
  }

  lemma {:induction false} WalkOutside(steps: seq<Step>, done: set<nat>, start: nat, n: nat) returns (p: seq<nat>)
    requires DistinctIds(steps) && KnownDeps(steps)
    requires forall k: nat :: k < |steps| && k !in done ==> !Enabled(steps, IdsOf(steps, done), k)
    requires start < |steps| && start !in done
    ensures |p| == n + 1 && p[0] == start && Walk(steps, p)
    ensures forall k :: 0 <= k < |p| ==> p[k] < |steps| && p[k] !in done
    decreases n
  {
    if n == 0 {
      p := [start];
    } else {
      EnabledByIndex(steps, done, start);
      var next :| Edge(steps, start, next) && next !in done;
      var rest := WalkOutside(steps, done, next, n - 1);
      p := [start] + rest;
      forall k | 0 <= k < |p| - 1 ensures Edge(steps, p[k], p[k + 1]) {
        if k > 0 { assert Edge(steps, rest[k - 1], rest[k]); }
      }
    }
  }

  /** Mark as completed everything UnblockedSteps returns. */
  function Round(steps: seq<Step>, done: set<nat>): (r: set<nat>)
    ensures done <= r
    ensures forall i :: i in r && i !in done ==> i < |steps|
  {
    done + set i | i in Unblocked(steps, IdsOf(steps, done), done, |steps|)
  }

  lemma RoundMember(steps: seq<Step>, done: set<nat>, i: nat)
    requires i !in done && i < |steps|
    ensures i in Round(steps, done) <==> Enabled(steps, IdsOf(steps, done), i)
  {
  }

  function Drained(steps: seq<Step>, k: nat): (r: set<nat>)
    ensures forall i :: i in r ==> i < |steps|
  {
    if k == 0 then {} else Round(steps, Drained(steps, k - 1))
  }

  lemma {:induction false} DrainGrows(steps: seq<Step>, k: nat)
    requires Valid(steps)
    ensures |Drained(steps, k)| >= k || Drained(steps, k) == Below(|steps|)
  {
    hide Round;
    if k > 0 {
      DrainGrows(steps, k - 1);
      RoundGrows(steps, Drained(steps, k - 1));
    }
  }

  lemma RoundGrows(steps: seq<Step>, done: set<nat>)
    requires Valid(steps) && done <= Below(|steps|)
    ensures |Round(steps, done)| > |done| || Round(steps, done) == Below(|steps|)
  {
    if missing: nat :| missing < |steps| && missing !in done {
      var i := FrontierExists(steps, done);
      RoundMember(steps, done, i);
      SubsetSize(done + {i}, Round(steps, done));
    }
  }

  /** The round in which step i first appears. */
  ghost function Level(steps: seq<Step>, i: nat, k: nat): nat {
    if k > 0 && i in Drained(steps, k - 1) then Level(steps, i, k - 1) else k
  }

  lemma {:induction false} LevelIsFirst(steps: seq<Step>, i: nat, k: nat)
    requires i in Drained(steps, k)
    ensures 0 < Level(steps, i, k) <= k
    ensures i in Drained(steps, Level(steps, i, k)) && i !in Drained(steps, Level(steps, i, k) - 1)
  {
    if i in Drained(steps, k - 1) { LevelIsFirst(steps, i, k - 1); }
  }

  lemma {:induction false} DrainedMonotone(steps: seq<Step>, a: nat, b: nat)
    requires a <= b
    ensures Drained(steps, a) <= Drained(steps, b)
    decreases b
  {
    if a < b { DrainedMonotone(steps, a, b - 1); }
  }

  lemma LevelFalls(steps: seq<Step>, i: nat, j: nat, n: nat)
    requires DistinctIds(steps) && KnownDeps(steps) && Edge(steps, i, j)
    requires i in Drained(steps, n) && j in Drained(steps, n)
    ensures Level(steps, j, n) < Level(steps, i, n)
  {
    hide Round;
    LevelIsFirst(steps, i, n);
    LevelIsFirst(steps, j, n);
    var a, b := Level(steps, i, n), Level(steps, j, n);
    RoundMember(steps, Drained(steps, a - 1), i);
    EnabledByIndex(steps, Drained(steps, a - 1), i);
    if a <= b { DrainedMonotone(steps, a - 1, b - 1); }
  }

  /** The cycle check accepts exactly the graphs the frontier can empty, and |steps| rounds suffice. */
  lemma DrainIffAcyclic(steps: seq<Step>)
    requires DistinctIds(steps) && KnownDeps(steps)
    ensures Acyclic(steps) <==> Drained(steps, |steps|) == Below(|steps|)
    ensures Acyclic(steps) <==> exists rank :: Ranked(steps, rank)
    ensures Acyclic(steps) <==> exists k :: Drained(steps, k) == Below(|steps|)
  {
    var n := |steps|;
    if Acyclic(steps) {
      DrainGrows(steps, n);
      assert Drained(steps, n) <= Below(n);
      SubsetSize(Drained(steps, n), Below(n));
    }
    forall k | Drained(steps, k) == Below(n) ensures exists rank :: Ranked(steps, rank) {
      var rank := seq(n, i requires 0 <= i < n => assert i in Below(n); Level(steps, i, k));
      forall i: nat, j: nat | Edge(steps, i, j) ensures rank[j] < rank[i] {
        LevelFalls(steps, i, j, k);
      }
      assert Ranked(steps, rank);
    }
    if rank :| Ranked(steps, rank) { RankedIsAcyclic(steps, rank); }
  }
}
