/**
 Which provisioning jobs of src/lib/super-admin.ts can still be completed: the counterpart of what the job machine
 forbids.
 */
module JobCompletion {
  import opened Options
  import opened TenantPlans
  import opened Provisioner
  import opened ProvisionJobs
  import opened JobTables

  /** Some continuation completes the job. */
  ghost predicate CanComplete(s: State, j: nat)
  {
    exists steps :: IsRun(s, steps) && j in After(s, steps).jobs && After(s, steps).jobs[j].status == Completed
  }

  lemma CompleteLater(s: State, step: Step, j: nat)
    requires Enabled(s, step) && CanComplete(Apply(s, step), j)
    ensures CanComplete(s, j)
  {
    var s' := Apply(s, step);
    var rest :| IsRun(s', rest) && j in After(s', rest).jobs && After(s', rest).jobs[j].status == Completed;
    RunCons(s, step, rest);
    assert IsRun(s, [step] + rest);
  }

  lemma CompletedNow(s: State, j: nat)
    requires j in s.jobs && s.jobs[j].status == Completed
    ensures CanComplete(s, j)
  {
    assert IsRun(s, []) && After(s, []) == s;
  }

  /******* What a job needs *******/

  /** Only jobs with a plan and agreeing dry-run flags have been started. */
  ghost predicate PlansInv(s: State)
  {
    forall j | j in s.jobs && s.jobs[j].status in {Running, Completed, Failed} ::
      s.jobs[j].plan != [] && s.jobs[j].dryRun == s.jobs[j].requestDryRun
  }

  lemma CallKeepsPlans(s: State, step: Step)
    requires PlansInv(s) && Enabled(s, step) && !step.RunStep? && !step.Finish?
    ensures PlansInv(Apply(s, step))
  {
  }

  lemma EndKeepsPlans(s: State, step: Step)
    requires ExecutionsInv(s) && PlansInv(s) && Enabled(s, step) && (step.RunStep? || step.Finish?)
    ensures PlansInv(Apply(s, step))
  {
    var j := s.executions[step.execution].job;
    assert s.jobs[j].status == Running;
    RequestKept(s, step, j);
    forall i | i in Apply(s, step).jobs && i != j ensures i in s.jobs && Apply(s, step).jobs[i] == s.jobs[i] {
      assert i in s.jobs;
      OtherRowKept(s, step, i);
    }
  }

  lemma {:induction false} RunKeepsPlans(s: State, steps: seq<Step>)
    requires Inv(s) && PlansInv(s) && IsRun(s, steps)
    ensures PlansInv(After(s, steps))
    decreases |steps|
  {
    if steps != [] {
      StepKeepsInv(s, steps[0]);
      if steps[0].RunStep? || steps[0].Finish? { EndKeepsPlans(s, steps[0]); } else { CallKeepsPlans(s, steps[0]); }
      RunKeepsPlans(Apply(s, steps[0]), steps[1..]);
    }
  }

  /******* A running job *******/

  lemma StepOfRunning(s: State, j: nat) returns (step: Step)
    requires ExecutionsInv(s) && j in s.jobs && s.jobs[j].status == Running && !Hung(s, j)
    requires |s.executions[s.executor[j]].recorded| < |s.jobs[j].plan|
    ensures Enabled(s, step)
    ensures var s', e := Apply(s, step), s.executor[j];
      && s'.jobs == s.jobs && s'.executor == s.executor && ExecutionsInv(s') && !Hung(s', j)
      && |s'.executions[e].recorded| == |s.executions[e].recorded| + 1
  {
    step := RunStep(s.executor[j], true, StepRun(Returned(0, s.jobs[j].dryRun), []));
  }

  lemma {:induction false} RunningCompletes(s: State, j: nat)
    requires ExecutionsInv(s) && j in s.jobs && s.jobs[j].status == Running && !Hung(s, j)
    ensures CanComplete(s, j)
    decreases |s.jobs[j].plan| - |s.executions[s.executor[j]].recorded|
  {
    var e := s.executor[j];
    if |s.executions[e].recorded| < |s.jobs[j].plan| {
      var step := StepOfRunning(s, j);
      RunningCompletes(Apply(s, step), j);
      CompleteLater(s, step, j);
    } else {
      var step := Finish(e);
      assert Enabled(s, step);
      CompletedNow(Apply(s, step), j);
      CompleteLater(s, step, j);
    }
  }

  /******* A job that is not running *******/

  lemma {:induction false} FreshId(ids: set<nat>) returns (id: nat)
    ensures forall i | i in ids :: i < id
  {
    if ids == {} {
      id := 0;
    } else {
      var i :| i in ids;
      var rest := FreshId(ids - {i});
      id := if i < rest then rest else i + 1;
      assert forall k | k in ids :: k == i || k in ids - {i};
    }
  }

  /** Anyone but the approver may start an approved job whose approver did not request it. */
  lemma ApprovedCompletes(s: State, j: nat)
    requires Inv(s) && j in s.jobs && s.jobs[j].plan != [] && s.jobs[j].dryRun == s.jobs[j].requestDryRun
    requires s.jobs[j].status == Approved && Approver(s.jobs[j]) != "" && Approver(s.jobs[j]) != s.jobs[j].requestedBy
    ensures CanComplete(s, j)
  {
    var e := FreshId(s.executions.Keys);
    var begin := Begin(e, j, s.jobs[j].requestedBy, true);
    assert Enabled(s, begin);
    assert RefusalOf(s.jobs[j], s.jobs[j].requestedBy, true) == None;
    StepKeepsInv(s, begin);
    RunningCompletes(Apply(s, begin), j);
    CompleteLater(s, begin, j);
  }

  lemma UnapprovedCompletes(s: State, j: nat)
    requires Inv(s) && j in s.jobs && s.jobs[j].plan != [] && s.jobs[j].dryRun == s.jobs[j].requestDryRun
    requires s.jobs[j].status in {Queued, Rejected, Failed}
    ensures CanComplete(s, j)
  {
    var someoneElse := s.jobs[j].requestedBy + "2";
    var approve := Decide(j, someoneElse, Approve);
    assert |someoneElse| == |s.jobs[j].requestedBy| + 1;
    StepKeepsInv(s, approve);
    ApprovedCompletes(Apply(s, approve), j);
    CompleteLater(s, approve, j);
  }

  lemma StoppedCompletes(s: State, j: nat)
    requires Inv(s) && j in s.jobs && s.jobs[j].plan != [] && s.jobs[j].dryRun == s.jobs[j].requestDryRun
    requires s.jobs[j].status in {Queued, Rejected, Failed, Approved}
    ensures CanComplete(s, j)
  {
    if s.jobs[j].status == Approved {
      var reject := Decide(j, "", Reject);
      StepKeepsInv(s, reject);
      UnapprovedCompletes(Apply(s, reject), j);
      CompleteLater(s, reject, j);
    } else {
      UnapprovedCompletes(s, j);
    }
  }

  /******* Main results *******/

  /** A job can still be completed exactly if it is not cancelled, does not await a step that never ends, has a plan,
      and its two dry-run flags agree. */
  lemma CanCompleteExactly(s: State, j: nat)
    requires Reachable(s) && j in s.jobs
    ensures CanComplete(s, j) <==>
      && s.jobs[j].status != Cancelled && !Hung(s, j)
      && s.jobs[j].plan != [] && s.jobs[j].dryRun == s.jobs[j].requestDryRun
  {
    ReachableInv(s);
    var before :| IsRun(EMPTY, before) && After(EMPTY, before) == s;
    RunKeepsPlans(EMPTY, before);
    if CanComplete(s, j) {
      var steps :| IsRun(s, steps) && j in After(s, steps).jobs && After(s, steps).jobs[j].status == Completed;
      if s.jobs[j].status == Cancelled { FinalRowsAreFrozen(s, steps, j); }
      if Hung(s, j) { HungJobStaysRunning(s, steps, j); }
      RunKeepsPlans(s, steps);
      RequestNeverChanges(s, steps, j);
    } else if s.jobs[j].status == Completed {
      CompletedNow(s, j);
    } else if s.jobs[j].status == Running && !Hung(s, j) {
      RunningCompletes(s, j);
    } else if s.jobs[j].status in {Queued, Rejected, Failed, Approved} && s.jobs[j].plan != []
      && s.jobs[j].dryRun == s.jobs[j].requestDryRun {
      StoppedCompletes(s, j);
    }
  }

  /** So live jobs can be completed: one with a plan, queued by anyone. */
  lemma LiveJobCanComplete(s: State, j: nat, requester: string, plan: seq<PlanStep>)
    requires Reachable(s) && j !in s.jobs && plan != []
    ensures CanComplete(Apply(s, QueueFromLibrary(j, false, requester, plan)), j)
  {
    var queued := Apply(s, QueueFromLibrary(j, false, requester, plan));
    Extend(s, QueueFromLibrary(j, false, requester, plan));
    ReachableInv(queued);
    CanCompleteExactly(queued, j);
  }
}
