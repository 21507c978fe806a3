/**
  The Workflow object of internal/workflow/workflow.go: Normalize rewrites the steps in place,
  Validate runs the three checks in order, and the recursive dfs colours the steps.
*/
module WorkflowDefinition {
  import opened Prelude
  import opened Steps

  datatype Error =
    | DuplicateId(id: string)
    | UnknownDependency(id: string, dep: string)
    | CycleAt(id: string)

  /** What each error of Validate says about the (normalized) steps. */
  ghost predicate Explains(e: Error, steps: seq<Step>) {
    match e
    case DuplicateId(id) => exists i, j :: 0 <= i < j < |steps| && steps[i].id == id && steps[j].id == id
    case UnknownDependency(id, dep) =>
      && DistinctIds(steps)
      && !HasStep(steps, dep)
      && exists i :: 0 <= i < |steps| && steps[i].id == id && dep in Deps(steps[i])
    case CycleAt(id) =>
      && DistinctIds(steps) && KnownDeps(steps)
      && exists c :: IsCycle(steps, c) && c[0] < |steps| && steps[c[0]].id == id
  }

  lemma ExplainedIsInvalid(e: Error, steps: seq<Step>)
    requires Explains(e, steps)
    ensures !Valid(steps)
  {
  }

  datatype Color = White | Gray | Black

  /** The colours say exactly: gray = on the recursion stack, black = finished. */
  ghost predicate Painted(colors: seq<Color>, stack: seq<nat>, order: seq<nat>) {
    && (forall k: nat :: k < |colors| ==> (colors[k] == Gray <==> k in stack))
    && (forall k: nat :: k < |colors| ==> (colors[k] == Black <==> k in order))
    && (forall k :: k in stack || k in order ==> k < |colors|)
  }

  ghost function Whites(colors: seq<Color>): set<nat> {
    set k: nat | k < |colors| && colors[k] == White
  }

  ghost function FirstIndex(order: seq<nat>, x: nat): (r: nat)
    requires x in order
    ensures r < |order| && order[r] == x && x !in order[..r]
  {
    if order[0] == x then 0 else 1 + FirstIndex(order[1..], x)
  }

  lemma TopologicalIsRanked(steps: seq<Step>, order: seq<nat>)
    requires Topological(steps, order)
    requires forall i: nat :: i < |steps| ==> i in order
    ensures exists rank :: Ranked(steps, rank)
  {
    var rank: seq<nat> := seq(|steps|, (i: nat) requires i < |steps| => FirstIndex(order, i));
    forall i: nat, j: nat | Edge(steps, i, j) ensures rank[j] < rank[i] {
      var p := FirstIndex(order, i);
      var q: nat :| q < |order[..p]| && order[..p][q] == j;
      assert FirstIndex(order, j) <= q;
    }
    assert Ranked(steps, rank);
  }

  class Workflow {
    var name: string
    var steps: seq<Step>

    constructor (name: string, steps: seq<Step>)
      ensures this.name == name && this.steps == steps
    {
      this.name := name;
      this.steps := steps;
    }

    method Normalize()
      modifies this`steps
      ensures steps == Normalized(old(steps))
    {
      AssignIDs();
      var dagMode := AnyDependsOn();
      if !dagMode {
        ChainSteps();
      }
    }

    method AssignIDs()
      modifies this`steps
      ensures steps == WithIds(old(steps))
    {
      var n := |steps|;
      for i := 0 to n
        invariant |steps| == n
        invariant forall k :: 0 <= k < n ==> steps[k] == if k < i then Named(old(steps)[k], k) else old(steps)[k]
      {
        if steps[i].id == "" {
          steps := steps[i := steps[i].(id := AutoId(i))];
        }
      }
    }

    method AnyDependsOn() returns (dagMode: bool)
      ensures dagMode <==> DagMode(steps)
    {
      dagMode := false;
      for i := 0 to |steps|
        invariant !dagMode
        invariant forall k :: 0 <= k < i ==> steps[k].dependsOn.None?
      {
        if steps[i].dependsOn.Some? {
          return true;
        }
      }
    }

    method ChainSteps()
      modifies this`steps
      ensures steps == Chained(old(steps))
    {
      var n := |steps|;
      ghost var was := steps;
      for i := 0 to n
        invariant |steps| == n
        invariant forall k :: 0 <= k < n ==> steps[k] == if k < i then Linked(was, k) else was[k]
      {
        if i > 0 {
          assert steps[i - 1].id == was[i - 1].id;
          steps := steps[i := steps[i].(dependsOn := Some([steps[i - 1].id]))];
        }
      }
    }

    method Validate() returns (err: Option<Error>)
      modifies this`steps
      ensures steps == Normalized(old(steps))
      ensures err.None? <==> Valid(steps)
      ensures (forall i :: 0 <= i < |old(steps)| ==> old(steps)[i].id != "")
        && (exists i :: 0 <= i < |old(steps)| && old(steps)[i].dependsOn.Some?)
        ==> steps == old(steps) && (err.None? <==> Valid(old(steps)))
      ensures err.Some? ==> Explains(err.value, steps)
    {
      if (forall i :: 0 <= i < |steps| ==> steps[i].id != "") && (exists i :: 0 <= i < |steps| && steps[i].dependsOn.Some?) {
        NormalizedAsGiven(steps);
      }
      Normalize();
      var seen: set<string>;
      err, seen := CheckIDs();
      if err.None? {
        err := CheckDeps(seen);
      }
      if err.None? {
        err := DetectCycles();
      } else {
        ExplainedIsInvalid(err.value, steps);
      }
    }

    method CheckIDs() returns (err: Option<Error>, seen: set<string>)
      ensures err.None? ==> DistinctIds(steps) && forall d :: d in seen <==> HasStep(steps, d)
      ensures err.Some? ==> err.value.DuplicateId? && Explains(err.value, steps)
    {
      seen := {};
      for i := 0 to |steps|
        invariant forall d :: d in seen <==> exists k :: 0 <= k < i && steps[k].id == d
        invariant forall p, q :: 0 <= p < q < i ==> steps[p].id != steps[q].id
      {
        if steps[i].id in seen {
          return Some(DuplicateId(steps[i].id)), seen;
        }
        seen := seen + {steps[i].id};
      }
      err := None;
    }

    method CheckDeps(seen: set<string>) returns (err: Option<Error>)
      requires DistinctIds(steps) && forall d :: d in seen <==> HasStep(steps, d)
      ensures err.None? ==> KnownDeps(steps)
      ensures err.Some? ==> err.value.UnknownDependency? && Explains(err.value, steps)
    {
      for i := 0 to |steps|
        invariant forall k, d :: 0 <= k < i && d in Deps(steps[k]) ==> HasStep(steps, d)
      {
        var deps := Deps(steps[i]);
        for m := 0 to |deps|
          invariant forall d :: d in deps[..m] ==> HasStep(steps, d)
        {
          if deps[m] !in seen {
            return Some(UnknownDependency(steps[i].id, deps[m]));
          }
          assert deps[..m + 1] == deps[..m] + [deps[m]];
        }
        assert deps[..|deps|] == deps;
      }
      err := None;
    }

    method DetectCycles() returns (err: Option<Error>)
      requires DistinctIds(steps) && KnownDeps(steps)
      ensures err.None? <==> Acyclic(steps)
      ensures err.Some? ==> err.value.CycleAt? && Explains(err.value, steps)
    {
      var indexByID: map<string, nat> := map[];
      for i := 0 to |steps|
        invariant forall id :: id in indexByID ==> indexByID[id] < i <= |steps| && steps[indexByID[id]].id == id
        invariant forall k :: 0 <= k < i ==> steps[k].id in indexByID
      {
        indexByID := indexByID[steps[i].id := i];
      }
      var colors := new Color[|steps|](_ => White);
      ghost var order: seq<nat> := [];
      for i := 0 to |steps|
        invariant Painted(colors[..], [], order) && Topological(steps, order)
        invariant forall k :: 0 <= k < i ==> colors[k] == Black
      {
        var found, order', cycle := Dfs(i, indexByID, colors, [], order);
        if found.Some? {
          assert IsCycle(steps, cycle);
          return Some(CycleAt(found.value));
        }
        order := order';
      }
      TopologicalIsRanked(steps, order);
      ghost var rank :| Ranked(steps, rank);
      RankedIsAcyclic(steps, rank);
      err := None;
    }

    method Dfs(i: nat, indexByID: map<string, nat>, colors: array<Color>, ghost stack: seq<nat>, ghost order: seq<nat>)
      returns (err: Option<string>, ghost order': seq<nat>, ghost cycle: seq<nat>)
      requires DistinctIds(steps) && KnownDeps(steps)
      requires forall k: nat :: k < |steps| ==> steps[k].id in indexByID && indexByID[steps[k].id] == k
      requires i < |steps| == colors.Length
      requires Painted(colors[..], stack, order) && Topological(steps, order)
      requires Walk(steps, stack + [i])
      modifies colors
      decreases Whites(colors[..])
      ensures Whites(colors[..]) <= Whites(old(colors[..]))
      ensures err.None? ==> colors[i] == Black
      ensures err.None? ==> Painted(colors[..], stack, order') && Topological(steps, order') && order <= order'
      ensures err.Some? ==> IsCycle(steps, cycle) && cycle[0] < |steps| && steps[cycle[0]].id == err.value
    {
      order', cycle := order, [];
      if colors[i] == Black {
        return None, order, [];
      }
      if colors[i] == Gray {
        ghost var p :| 0 <= p < |stack| && stack[p] == i;
        ghost var walk := stack + [i];
        WalkSlice(steps, walk, p, |walk|);
        cycle := walk[p..];
        return Some(steps[i].id), order, cycle;
      }
      colors[i] := Gray;
      ghost var stack' := stack + [i];
      assert Painted(colors[..], stack', order);
      assert i !in Whites(colors[..]) && i in Whites(old(colors[..]));
      var deps := Deps(steps[i]);
      for m := 0 to |deps|
        invariant Whites(colors[..]) < Whites(old(colors[..]))
        invariant Painted(colors[..], stack', order') && Topological(steps, order') && order <= order'
        invariant forall d :: d in deps[..m] ==> d in indexByID && indexByID[d] in order'
      {
        assert HasStep(steps, deps[m]);
        var next := indexByID[deps[m]];
        assert Edge(steps, i, next);
        WalkExtend(steps, stack', next);
        ghost var more;
        err, more, cycle := Dfs(next, indexByID, colors, stack', order');
        if err.Some? {
          return err, order', cycle;
        }
        order' := more;
        assert deps[..m + 1] == deps[..m] + [deps[m]];
      }
      assert deps[..|deps|] == deps;
      FinishOne(steps, order', i);
      colors[i] := Black;
      order' := order' + [i];
      err := None;
      assert Painted(colors[..], stack, order');
    }

    method UnblockedSteps(completedIDs: set<string>, submitted: set<nat>) returns (ready: seq<nat>)
      ensures ready == Unblocked(steps, completedIDs, submitted, |steps|)
    {
      ready := [];
      for i := 0 to |steps|
        invariant ready == Unblocked(steps, completedIDs, submitted, i)
      {
        if i in submitted {
          continue;
        }
        var allDone := true;
        var deps := Deps(steps[i]);
        for m := 0 to |deps|
          invariant allDone
          invariant forall d :: d in deps[..m] ==> d in completedIDs
        {
          if deps[m] !in completedIDs {
            allDone := false;
            assert deps[m] in Deps(steps[i]) && !Enabled(steps, completedIDs, i);
            break;
          }
          assert deps[..m + 1] == deps[..m] + [deps[m]];
        }
        assert allDone <==> Enabled(steps, completedIDs, i) by {
          if allDone { assert deps[..|deps|] == deps; }
        }
        if allDone {
          ready := ready + [i];
        }
      }
    }
  }

  lemma WalkExtend(steps: seq<Step>, p: seq<nat>, next: nat)
    requires Walk(steps, p) && |p| > 0 && Edge(steps, p[|p| - 1], next)
    ensures Walk(steps, p + [next])
  {
  }
}
