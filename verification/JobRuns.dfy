/**
 The two-person rule of src/lib/super-admin.ts over whole runs: which calls have come before an execution starts.
 */
module JobRuns {
  import opened Options
  import opened TenantPlans
  import opened Provisioner
  import opened ProvisionJobs

  lemma {:induction false} RunSplit(s: State, steps: seq<Step>, n: nat)
    requires IsRun(s, steps) && n <= |steps|
    ensures IsRun(s, steps[..n])
    ensures n < |steps| ==> Enabled(After(s, steps[..n]), steps[n])
    ensures n < |steps| ==>
      IsRun(s, steps[..n + 1]) && After(s, steps[..n + 1]) == Apply(After(s, steps[..n]), steps[n])
    decreases n
  {
    if n == 0 {
      if steps != [] {
        assert steps[..1][0] == steps[0] && steps[..1][1..] == [];
      }
    } else {
      RunSplit(Apply(s, steps[0]), steps[1..], n - 1);
      assert steps[..n][1..] == steps[1..][..n - 1];
      if n < |steps| { assert steps[..n + 1][1..] == steps[1..][..n]; }
    }
  }

  /** The state before step n of a run from the empty table. */
  ghost function At(steps: seq<Step>, n: nat): State
    requires IsRun(EMPTY, steps) && n <= |steps|
  {
    RunSplit(EMPTY, steps, n);
    After(EMPTY, steps[..n])
  }

  lemma AtNext(steps: seq<Step>, n: nat)
    requires IsRun(EMPTY, steps) && n < |steps|
    ensures Enabled(At(steps, n), steps[n]) && At(steps, n + 1) == Apply(At(steps, n), steps[n])
  {
    RunSplit(EMPTY, steps, n);
  }

  /** Before step n the row of job j is as given. */
  ghost predicate RowIs(steps: seq<Step>, n: nat, j: nat, job: Job)
    requires IsRun(EMPTY, steps) && n <= |steps|
  {
    j in At(steps, n).jobs && At(steps, n).jobs[j] == job
  }

  predicate Queues(step: Step, j: nat, job: Job)
  {
    && (step.QueueFromLibrary? || step.QueueFromRoute?) && step.job == j
    && step.dryRun == job.dryRun && step.requester == job.requestedBy && step.plan == job.plan
    && job.requestDryRun == (if step.QueueFromRoute? then step.requestDryRun else step.dryRun)
  }

  lemma StepQueues(s: State, step: Step, j: nat)
    requires Enabled(s, step) && j in Apply(s, step).jobs && j !in s.jobs
    ensures Queues(step, j, Apply(s, step).jobs[j])
  {
  }

  lemma StepKeepsQueued(s: State, step: Step, queue: Step, j: nat)
    requires Enabled(s, step) && j in s.jobs && Queues(queue, j, s.jobs[j])
    ensures j in Apply(s, step).jobs && Queues(queue, j, Apply(s, step).jobs[j])
  {
    RequestKept(s, step, j);
  }

  /** Which step queued the job. */
  lemma {:induction false} QueueOf(steps: seq<Step>, n: nat, j: nat) returns (m: nat)
    requires IsRun(EMPTY, steps) && n <= |steps| && j in At(steps, n).jobs
    ensures m < n && Queues(steps[m], j, At(steps, n).jobs[j])
    decreases n
  {
    AtNext(steps, n - 1);
    var s := At(steps, n - 1);
    if j in s.jobs {
      m := QueueOf(steps, n - 1, j);
      StepKeepsQueued(s, steps[n - 1], steps[m], j);
    } else {
      StepQueues(s, steps[n - 1], j);
      m := n - 1;
    }
  }

  lemma StepApproves(s: State, step: Step, j: nat)
    requires ExecutionsInv(s) && Enabled(s, step) && j in Apply(s, step).jobs
    requires Apply(s, step).jobs[j].status == Approved && !(j in s.jobs && s.jobs[j] == Apply(s, step).jobs[j])
    ensures step.Decide? && step.job == j && step.action == Approve && j in s.jobs
    ensures Apply(s, step).jobs[j].approvedBy == Some(step.actor)
  {
  }

  predicate Approves(step: Step, j: nat, job: Job)
  {
    step.Decide? && step.job == j && step.action == Approve && job.approvedBy == Some(step.actor)
  }

  lemma ApprovedNow(steps: seq<Step>, n: nat, j: nat, job: Job)
    requires IsRun(EMPTY, steps) && n < |steps| && RowIs(steps, n + 1, j, job) && job.status == Approved
    requires !RowIs(steps, n, j, job)
    ensures Approves(steps[n], j, job) && j in At(steps, n).jobs
  {
    AtNext(steps, n);
    assert ExecutionsInv(At(steps, n)) by {
      RunSplit(EMPTY, steps, n);
      RunKeepsInv(EMPTY, steps[..n]);
    }
    StepApproves(At(steps, n), steps[n], j);
  }

  lemma NoRowAtFirst(steps: seq<Step>, j: nat, job: Job)
    requires IsRun(EMPTY, steps)
    ensures !RowIs(steps, 0, j, job)
  {
  }

  /** Which step approved a job that is approved; nothing has changed its row since. */
  lemma {:induction false} ApprovalOf(steps: seq<Step>, n: nat, j: nat, job: Job) returns (m: nat)
    requires IsRun(EMPTY, steps) && n <= |steps| && RowIs(steps, n, j, job) && job.status == Approved
    ensures m < n && Approves(steps[m], j, job) && j in At(steps, m).jobs
    ensures forall k | m < k <= n :: RowIs(steps, k, j, job)
    decreases n
  {
    NoRowAtFirst(steps, j, job);
    if RowIs(steps, n - 1, j, job) {
      m := ApprovalOf(steps, n - 1, j, job);
    } else {
      ApprovedNow(steps, n - 1, j, job);
      m := n - 1;
    }
  }

  /** Over whole runs: an execution that starts was preceded by the call that queued the job, with the very plan and
      flags it runs with, and by an approval since which the row has not changed.  A live job is requested, approved and
      started with an approver who is neither of the other two. */
  lemma StartTakesTwo(steps: seq<Step>, n: nat) returns (queue: nat, approval: nat)
    requires IsRun(EMPTY, steps) && n < |steps| && steps[n].Begin?
    requires var j := steps[n].job;
      j in At(steps, n).jobs && At(steps, n).jobs[j].status != Running
      && j in At(steps, n + 1).jobs && At(steps, n + 1).jobs[j].status == Running
    ensures queue < approval < n && Queues(steps[queue], steps[n].job, At(steps, n).jobs[steps[n].job])
    ensures steps[approval].Decide? && steps[approval].job == steps[n].job && steps[approval].action == Approve
    ensures steps[approval].actor != ""
    ensures forall k | approval < k <= n :: RowIs(steps, k, steps[n].job, At(steps, n).jobs[steps[n].job])
    ensures !steps[queue].dryRun ==>
      steps[approval].actor != steps[queue].requester && steps[approval].actor != steps[n].actor
  {
    var j := steps[n].job;
    var job := At(steps, n).jobs[j];
    AtNext(steps, n);
    StartsExactly(job, steps[n].actor, steps[n].artifactsReady);
    approval := ApprovalOf(steps, n, j, job);
    queue := QueueOf(steps, approval, j);
    AtNext(steps, approval);
    StepKeepsQueued(At(steps, approval), steps[approval], steps[queue], j);
    assert RowIs(steps, approval + 1, j, job);
  }
}
