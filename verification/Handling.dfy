/**
  What handleResult makes of a result message (internal/server/server.go): the delivery step, and for an
  accepted success of a workflow job one call of Advance.
*/
module Handling {
  import opened Prelude
  import opened Types
  import opened Steps
  import opened Tables
  import opened Delivery
  import opened RunRefinement
  import opened Orchestration
  import opened WholeSystem
  import M = RunMachine
  import R = RunTables

  /** A whole handleResult: an accepted success of a workflow step ends with a call of Advance. */
  ghost function AfterResult(s: Sys, workflows: map<string, seq<Step>>, w: string, success: bool, output: string): Sys {
    var s' := Next(s, Result(w, success, output));
    if Accepts(s, w) && success && s.disk.db.jobs[s.inFlight[w].id].key.Some?
    then R.WithDb(s', R.Advanced(s'.disk.db, workflows, s.disk.db.jobs[s.inFlight[w].id].key.value.run))
    else s'
  }

  /** An accepted result about job j, once it has left its stream. */
  ghost function Finished(s: Sys, workflows: map<string, seq<Step>>, j: nat, success: bool, output: string): Sys
    requires j in s.disk.db.jobs
  {
    var s' := Disown(s, j).(disk := ResultDisk(s.disk, j, success, output, s.now, ALL));
    var key := s.disk.db.jobs[j].key;
    if success && key.Some? then R.WithDb(s', R.Advanced(s'.disk.db, workflows, key.value.run)) else s'
  }

  /** handleResult, whoever calls it. */
  ghost function Handled(s: Sys, workflows: map<string, seq<Step>>, w: string, j: nat, success: bool, output: string): Sys {
    if j !in s.owner || s.owner[j] != w then s
    else if j !in s.disk.db.jobs || Settled(s.disk.db.jobs[j].status) then Disown(s, j)
    else Finished(s, workflows, j, success, output)
  }

  lemma ResultIsHandled(s: Sys, workflows: map<string, seq<Step>>, w: string, success: bool, output: string)
    requires w in s.inFlight
    ensures AfterResult(s, workflows, w, success, output)
         == Handled(s.(inFlight := s.inFlight - {w}), workflows, w, s.inFlight[w].id, success, output)
  {
    hide ResultDisk;
    hide R.Advanced;
    hide Q.Consume;
    hide ReadyDisk;
    hide ReturnJob;
  }

  /** A result message, Advance included, is a run of the delivery protocol: the result, then one
      event for each statement of Advance. */
  lemma ResultIsRun(s: Sys, workflows: map<string, seq<Step>>, w: string, success: bool, output: string) returns (rest: seq<Event>)
    ensures AfterResult(s, workflows, w, success, output) == Exec(s, [Result(w, success, output)] + rest)
    ensures forall e :: e in rest ==> e.CountStep? || e.CloseRun? || e.SubmitStep?
  {
    var e := Result(w, success, output);
    var s' := Next(s, e);
    rest := [];
    if Accepts(s, w) && success && s.disk.db.jobs[s.inFlight[w].id].key.Some? {
      var run := s.disk.db.jobs[s.inFlight[w].id].key.value.run;
      rest := R.AdvanceEvents(s'.disk.db, workflows, run);
      R.AdvanceIsRun(s', workflows, run);
      R.AdvanceEventKinds(s'.disk.db, workflows, run);
    }
    assert ([e] + rest)[1..] == rest;
  }

  lemma SuccessKeepsRuns(s: Sys, w: string, output: string)
    requires Accepts(s, w)
    ensures Next(s, Result(w, true, output)).disk.db.runs == s.disk.db.runs
  {
    hide RemoveFirst;
  }

  /** An accepted success of a workflow job leaves what the interleaved system has after the result and n
      statements of the one call of Advance it starts, on that job's run; the call has then ended. */
  lemma SuccessCallsAdvance(s: Sys, workflows: map<string, seq<Step>>, w: string, output: string, o: Orch, run: nat, steps: seq<Step>) returns (n: nat)
    requires o.sys == s && o.next !in o.calls
    requires Accepts(s, w) && s.disk.db.jobs[s.inFlight[w].id].key.Some? && s.disk.db.jobs[s.inFlight[w].id].key.value.run == run
    requires run in s.disk.db.runs ==> s.disk.db.runs[run].name in workflows && workflows[s.disk.db.runs[run].name] == steps
    ensures var o' := Play(run, steps, o, [Deliver(Result(w, true, output))] + Repeat(o.next, n));
      o'.sys == AfterResult(s, workflows, w, true, output) && o'.calls == o.calls
  {
    var e := Result(w, true, output);
    var o1 := Take(run, steps, o, Deliver(e));
    SuccessKeepsRuns(s, w, output);
    assert CallsAdvance(s, e, run);
    assert o1.sys == Next(s, e) && o1.calls == o.calls[o.next := M.Entered];
    hide Next;
    hide Take;
    n := CallIsAdvance(run, steps, o1, o.next, workflows);
    assert ([Deliver(e)] + Repeat(o.next, n))[1..] == Repeat(o.next, n);
    assert o1.calls - {o.next} == o.calls;
  }

  /** Any other result message is the delivery step alone. */
  lemma OtherResults(s: Sys, workflows: map<string, seq<Step>>, w: string, success: bool, output: string)
    requires Accepts(s, w) && success ==> s.disk.db.jobs[s.inFlight[w].id].key.None?
    ensures AfterResult(s, workflows, w, success, output) == Next(s, Result(w, success, output))
  {
  }
}
