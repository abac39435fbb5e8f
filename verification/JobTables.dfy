/**
 The job operations as the code performs them on the table (src/lib/super-admin.ts), and the run of the job machine that
 an execution makes up.
 */
module JobTables {
  import opened Options
  import opened TenantPlans
  import opened Provisioner
  import opened ProvisionJobs

  /******* How an execution goes *******/

  /** How the k-th plan step ends in its world; with live execution disabled it throws. */
  function StepEnd(job: Job, allowExec: bool, worlds: nat -> World, k: nat): StepRun
    requires k < |job.plan|
  {
    if !job.dryRun && !allowExec then StepRun(Threw, []) else RunProvisionStep(worlds(k), job.plan[k], job.dryRun)
  }

  predicate Returns(job: Job, allowExec: bool, worlds: nat -> World, k: nat)
    requires k < |job.plan|
  {
    StepEnd(job, allowExec, worlds, k).outcome.Returned?
  }

  /** The execution gets past exactly n steps. */
  predicate StopsAt(job: Job, allowExec: bool, worlds: nat -> World, n: nat)
  {
    && n <= |job.plan|
    && (forall k | 0 <= k < n :: Returns(job, allowExec, worlds, k))
    && (n < |job.plan| ==> !Returns(job, allowExec, worlds, n))
  }

  function Records(job: Job, n: nat): (r: seq<StepRecord>)
    requires n <= |job.plan|
    ensures |r| == n
  {
    seq(n, k requires 0 <= k < |job.plan| => StepRecord(job.plan[k].key, true, job.dryRun))
  }

  /** The row an execution that gets past n steps leaves; it stays running if step n never ends. */
  function RowAfter(job: Job, allowExec: bool, worlds: nat -> World, n: nat): Job
    requires n <= |job.plan|
  {
    if n == |job.plan| then job.(status := Completed, steps := Some(Records(job, n)))
    else if StepEnd(job, allowExec, worlds, n).outcome.NeverEnds? then job.(status := Running)
    else job.(status := Failed, steps := Some(Records(job, n)))
  }

  class JobTable {
    var jobs: map<nat, Job>

    constructor ()
      ensures jobs == map[]
    {
      jobs := map[];
    }

    method TransitionStatus(id: nat, actor: string, action: Action) returns (done: bool)
      modifies this
      ensures done <==> id in old(jobs) && Transition(old(jobs)[id], actor, action).Some?
      ensures done ==> jobs == old(jobs)[id := Transition(old(jobs)[id], actor, action).value]
      ensures !done ==> jobs == old(jobs)
    {
      if id !in jobs {
        return false;
      }
      var current := jobs[id].status;
      if current == Running || current == Completed || current == Cancelled {
        return false;
      }
      if action == Approve {
        if current != Queued && current != Rejected && current != Failed {
          return false;
        }
        jobs := jobs[id := jobs[id].(status := Approved, approvedBy := Some(actor))];
      } else if action == Reject {
        if current != Queued && current != Approved && current != Failed {
          return false;
        }
        jobs := jobs[id := jobs[id].(status := Rejected)];
      } else {
        jobs := jobs[id := jobs[id].(status := Cancelled)];
      }
      return true;
    }

    /** An execution with no other call in between: the k-th plan step meets the world `worlds(k)`.  It records the plan
        steps up to the first that does not return.  If that one never ends, neither does the call: what is returned is
        then what holds from there on. */
    method Execute(id: nat, actor: string, artifactsReady: bool, allowExec: bool, worlds: nat -> World)
      returns (started: bool, recorded: seq<StepRecord>)
      modifies this
      ensures started <==> id in old(jobs) && MayStart(old(jobs)[id], actor, artifactsReady)
      ensures !started ==> jobs == old(jobs)
      ensures started ==>
        var job := old(jobs)[id];
        && StopsAt(job, allowExec, worlds, |recorded|) && recorded == Records(job, |recorded|)
        && jobs == old(jobs)[id := RowAfter(job, allowExec, worlds, |recorded|)]
    {
      recorded := [];
      if id in jobs { StartsExactly(jobs[id], actor, artifactsReady); }
      if id !in jobs || RefusalOf(jobs[id], actor, artifactsReady).Some? {
        return false, recorded;
      }
      started := true;
      var job := jobs[id];
      jobs := jobs[id := job.(status := Running)];
      while |recorded| < |job.plan|
        invariant |recorded| <= |job.plan|
        invariant forall k | 0 <= k < |recorded| :: Returns(job, allowExec, worlds, k)
        invariant recorded == Records(job, |recorded|)
        invariant jobs == old(jobs)[id := job.(status := Running)]
        decreases |job.plan| - |recorded|
      {
        var step := job.plan[|recorded|];
        var outcome := Threw;
        if job.dryRun || allowExec {
          StepEndsSoundly(worlds(|recorded|), step, job.dryRun);
          outcome := RunProvisionStep(worlds(|recorded|), step, job.dryRun).outcome;
        }
        if outcome.NeverEnds? {
          return;
        }
        if outcome.Threw? {
          jobs := jobs[id := jobs[id].(status := Failed, steps := Some(recorded))];
          return;
        }
        recorded := recorded + [StepRecord(step.key, outcome.code == 0, outcome.skipped)];
      }
      jobs := jobs[id := jobs[id].(status := Completed, steps := Some(recorded))];
    }
  }

  /******* Such an execution is a run of the machine *******/

  function StepsFrom(e: nat, job: Job, allowExec: bool, worlds: nat -> World, k: nat): seq<Step>
    requires k <= |job.plan|
    decreases |job.plan| - k
  {
    if k == |job.plan| then [Finish(e)]
    else
      var run := StepEnd(job, allowExec, worlds, k);
      [RunStep(e, allowExec, run)] + (if run.outcome.Returned? then StepsFrom(e, job, allowExec, worlds, k + 1) else [])
  }

  /** The execution e of job j is at step k. */
  ghost predicate AtStep(s: State, e: nat, j: nat, job: Job, actor: string, k: nat)
  {
    && k <= |job.plan| && j in s.jobs && s.jobs[j] == job.(status := Running)
    && e in s.executions && s.executions[e] == Execution(j, actor, Records(job, k), false)
  }

  lemma StepIsEnabled(s: State, e: nat, j: nat, job: Job, actor: string, allowExec: bool, worlds: nat -> World, k: nat)
    requires AtStep(s, e, j, job, actor, k) && k < |job.plan|
    ensures var run := StepEnd(job, allowExec, worlds, k);
      && Enabled(s, RunStep(e, allowExec, run))
      && (run.outcome.Returned? ==> run.outcome == Returned(0, job.dryRun))
  {
    StepEndsSoundly(worlds(k), job.plan[k], job.dryRun);
  }

  lemma StepAdvances(s: State, e: nat, j: nat, job: Job, actor: string, allowExec: bool, run: StepRun, k: nat)
    requires AtStep(s, e, j, job, actor, k) && k < |job.plan| && Enabled(s, RunStep(e, allowExec, run))
    requires run.outcome == Returned(0, job.dryRun)
    ensures var s' := Apply(s, RunStep(e, allowExec, run)); AtStep(s', e, j, job, actor, k + 1) && s'.jobs == s.jobs
  {
    assert Records(job, k + 1) == Records(job, k) + [StepRecord(job.plan[k].key, true, job.dryRun)];
  }

  lemma RunCons(s: State, step: Step, rest: seq<Step>)
    requires Enabled(s, step) && IsRun(Apply(s, step), rest)
    ensures IsRun(s, [step] + rest) && After(s, [step] + rest) == After(Apply(s, step), rest)
  {
    assert ([step] + rest)[1..] == rest;
  }

  lemma OneStep(s: State, step: Step)
    requires Enabled(s, step)
    ensures IsRun(s, [step]) && After(s, [step]) == Apply(s, step)
  {
    assert [step][1..] == [];
  }

  /** The last step of an execution leaves its row. */
  lemma StepStops(s: State, e: nat, j: nat, job: Job, actor: string, allowExec: bool, worlds: nat -> World, n: nat)
    requires AtStep(s, e, j, job, actor, n) && StopsAt(job, allowExec, worlds, n)
    ensures var step :=
        if n == |job.plan| then Finish(e) else RunStep(e, allowExec, StepEnd(job, allowExec, worlds, n));
      Enabled(s, step) && Apply(s, step).jobs == s.jobs[j := RowAfter(job, allowExec, worlds, n)]
  {
    if n < |job.plan| { StepIsEnabled(s, e, j, job, actor, allowExec, worlds, n); }
  }

  lemma {:induction false} StepsFromRun(s: State, e: nat, j: nat, job: Job, actor: string, allowExec: bool,
      worlds: nat -> World, k: nat, n: nat)
    requires AtStep(s, e, j, job, actor, k) && StopsAt(job, allowExec, worlds, n) && k <= n
    ensures var steps := StepsFrom(e, job, allowExec, worlds, k);
      IsRun(s, steps) && After(s, steps).jobs == s.jobs[j := RowAfter(job, allowExec, worlds, n)]
    decreases |job.plan| - k
  {
    if k == n {
      StepStops(s, e, j, job, actor, allowExec, worlds, n);
      var step := if n == |job.plan| then Finish(e) else RunStep(e, allowExec, StepEnd(job, allowExec, worlds, n));
      OneStep(s, step);
      assert StepsFrom(e, job, allowExec, worlds, k) == [step];
    } else {
      var run := StepEnd(job, allowExec, worlds, k);
      var step := RunStep(e, allowExec, run);
      assert Returns(job, allowExec, worlds, k);
      StepIsEnabled(s, e, j, job, actor, allowExec, worlds, k);
      StepAdvances(s, e, j, job, actor, allowExec, run, k);
      StepsFromRun(Apply(s, step), e, j, job, actor, allowExec, worlds, k + 1, n);
      RunCons(s, step, StepsFrom(e, job, allowExec, worlds, k + 1));
    }
  }

  /** What `JobTable.Execute` makes of the rows is what the machine makes of them in the run that begins the execution
      and takes its steps one after the other. */
  lemma ExecuteIsARun(s: State, e: nat, j: nat, actor: string, artifactsReady: bool, allowExec: bool,
      worlds: nat -> World, n: nat)
    requires e !in s.executions && j in s.jobs && RefusalOf(s.jobs[j], actor, artifactsReady).None?
    requires StopsAt(s.jobs[j], allowExec, worlds, n)
    ensures var steps := [Begin(e, j, actor, artifactsReady)] + StepsFrom(e, s.jobs[j], allowExec, worlds, 0);
      IsRun(s, steps) && After(s, steps).jobs == s.jobs[j := RowAfter(s.jobs[j], allowExec, worlds, n)]
  {
    var begin, rest := Begin(e, j, actor, artifactsReady), StepsFrom(e, s.jobs[j], allowExec, worlds, 0);
    assert Records(s.jobs[j], 0) == [];
    StepsFromRun(Apply(s, begin), e, j, s.jobs[j], actor, allowExec, worlds, 0, n);
    assert ([begin] + rest)[1..] == rest;
  }

  /** The processes of the steps from the k-th on, up to and with the step n that does not return. */
  function SpawnedFrom(job: Job, allowExec: bool, worlds: nat -> World, k: nat, n: nat): seq<Command>
    requires k <= n <= |job.plan|
    decreases n - k
  {
    if k == |job.plan| then []
    else if k == n then StepEnd(job, allowExec, worlds, k).spawned
    else StepEnd(job, allowExec, worlds, k).spawned + SpawnedFrom(job, allowExec, worlds, k + 1, n)
  }

  lemma StepSpawns(s: State, e: nat, allowExec: bool, run: StepRun)
    requires Enabled(s, RunStep(e, allowExec, run))
    ensures var j := s.executions[e].job;
      SpawnedFor(Apply(s, RunStep(e, allowExec, run)), j) == SpawnedFor(s, j) + run.spawned
  {
  }

  lemma {:induction false} StepsFromSpawn(s: State, e: nat, j: nat, job: Job, actor: string, allowExec: bool,
      worlds: nat -> World, k: nat, n: nat)
    requires AtStep(s, e, j, job, actor, k) && StopsAt(job, allowExec, worlds, n) && k <= n
    ensures var steps := StepsFrom(e, job, allowExec, worlds, k);
      IsRun(s, steps)
      && SpawnedFor(After(s, steps), j) == SpawnedFor(s, j) + SpawnedFrom(job, allowExec, worlds, k, n)
    decreases |job.plan| - k
  {
    StepsFromRun(s, e, j, job, actor, allowExec, worlds, k, n);
    if k == |job.plan| {
      OneStep(s, Finish(e));
      assert SpawnedFor(s, j) + [] == SpawnedFor(s, j);
    } else {
      var run := StepEnd(job, allowExec, worlds, k);
      var step := RunStep(e, allowExec, run);
      StepIsEnabled(s, e, j, job, actor, allowExec, worlds, k);
      StepSpawns(s, e, allowExec, run);
      if k == n {
        OneStep(s, step);
        assert StepsFrom(e, job, allowExec, worlds, k) == [step];
      } else {
        assert Returns(job, allowExec, worlds, k);
        StepAdvances(s, e, j, job, actor, allowExec, run, k);
        StepsFromSpawn(Apply(s, step), e, j, job, actor, allowExec, worlds, k + 1, n);
        RunCons(s, step, StepsFrom(e, job, allowExec, worlds, k + 1));
        Assoc(SpawnedFor(s, j), run.spawned, SpawnedFrom(job, allowExec, worlds, k + 1, n));
      }
    }
  }

  lemma Assoc(a: seq<Command>, b: seq<Command>, c: seq<Command>)
    ensures (a + b) + c == a + (b + c)
  {
  }

  /** The processes an execution adds to those of its job are those of its steps, in order. */
  lemma ExecuteSpawns(s: State, e: nat, j: nat, actor: string, artifactsReady: bool, allowExec: bool,
      worlds: nat -> World, n: nat)
    requires e !in s.executions && j in s.jobs && RefusalOf(s.jobs[j], actor, artifactsReady).None?
    requires StopsAt(s.jobs[j], allowExec, worlds, n)
    ensures var steps := [Begin(e, j, actor, artifactsReady)] + StepsFrom(e, s.jobs[j], allowExec, worlds, 0);
      IsRun(s, steps)
      && SpawnedFor(After(s, steps), j) == SpawnedFor(s, j) + SpawnedFrom(s.jobs[j], allowExec, worlds, 0, n)
  {
    var begin, rest := Begin(e, j, actor, artifactsReady), StepsFrom(e, s.jobs[j], allowExec, worlds, 0);
    assert Records(s.jobs[j], 0) == [];
    StepsFromSpawn(Apply(s, begin), e, j, s.jobs[j], actor, allowExec, worlds, 0, n);
    assert ([begin] + rest)[1..] == rest;
  }
}
