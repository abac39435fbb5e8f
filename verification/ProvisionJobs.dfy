/**
 The provisioning job machine (src/lib/super-admin.ts): requests, approvals, and executions that await one plan step
 at a time while other calls go on.

 A step of the machine is a stretch of code between two awaits.  `executeProvisionJob` is cut into its checks and the
 write of `running` (Begin), one awaited plan step after the other (RunStep), and the final write (Finish).  A call that
 throws before writing leaves the state as it is.  `events`, `spawned` (the processes started for a job) and
 `executor` (the last execution begun for a job) are history: no step reads them to decide anything.
 */
module ProvisionJobs {
  import opened Options
  import opened TenantPlans
  import opened Provisioner

  datatype Status = Queued | Approved | Running | Completed | Failed | Rejected | Cancelled
  datatype Action = Approve | Reject | Cancel

  /** One entry of result_json.steps. */
  datatype StepRecord = StepRecord(key: string, ok: bool, skipped: bool)

  /** A row of provision_jobs; `requestDryRun` is `request.dry_run !== false` of the stored request. */
  datatype Job = Job(
    status: Status,
    dryRun: bool,
    requestDryRun: bool,
    requestedBy: string,
    approvedBy: Option<string>,
    plan: seq<PlanStep>,
    steps: Option<seq<StepRecord>>)

  /** An execution under way: its job, who started it, the steps it has recorded, and whether it awaits a step that
      never ends. */
  datatype Execution = Execution(job: nat, actor: string, recorded: seq<StepRecord>, hung: bool)

  datatype Event =
    | WasQueued(byLibrary: bool)
    | WasApproved(actor: string)
    | WasRejected(actor: string)
    | WasCancelled(actor: string)
    | WasStarted(actor: string)
    | HasCompleted
    | HasFailed

  datatype State = State(
    jobs: map<nat, Job>,
    executions: map<nat, Execution>,
    events: map<nat, seq<Event>>,
    spawned: map<nat, seq<Command>>,
    executor: map<nat, nat>)

  predicate SameRequest(a: Job, b: Job)
  {
    a.dryRun == b.dryRun && a.requestDryRun == b.requestDryRun && a.plan == b.plan && a.requestedBy == b.requestedBy
  }

  /******* transitionProvisionJobStatus *******/

  function StatusAfterAction(action: Action): Status
  {
    match action case Approve => Approved case Reject => Rejected case Cancel => Cancelled
  }

  /** The row after the action, or None if the call throws. */
  function Transition(job: Job, actor: string, action: Action): (r: Option<Job>)
    ensures r.Some? ==> job.status != Running && job.status != Completed && job.status != Cancelled
  {
    if job.status in {Running, Completed, Cancelled} then None
    else
      match action
      case Approve =>
        if job.status in {Queued, Rejected, Failed} then Some(job.(status := Approved, approvedBy := Some(actor)))
          else None
      case Reject =>
        if job.status in {Queued, Approved, Failed} then Some(job.(status := Rejected)) else None
      case Cancel =>
        if job.status in {Queued, Approved, Failed, Rejected} then Some(job.(status := Cancelled)) else None
  }

  /** An action succeeds exactly on a job that is neither running nor at an end and has not got the action's status
      already; it sets that status, an approval also the approver, and nothing else. */
  lemma DecisionsExactly(job: Job, actor: string, action: Action)
    ensures var r := Transition(job, actor, action);
      && (r.None? <==> job.status in {Running, Completed, Cancelled} || job.status == StatusAfterAction(action))
      && (r.Some? ==>
            && r.value.status == StatusAfterAction(action) && SameRequest(job, r.value) && r.value.steps == job.steps
            && r.value.approvedBy == if action == Approve then Some(actor) else job.approvedBy)
  {
    match job.status
    case Queued => case Approved => case Running => case Completed => case Failed => case Rejected => case Cancelled =>
  }

  /******* The checks of executeProvisionJob *******/

  datatype Refusal = NotApproved | EmptyPlan | DryRunMismatch | MissingApprover | ApproverIsRequester
      | ApproverIsRunner | NoArtifacts

  function Approver(job: Job): string { if job.approvedBy.Some? then job.approvedBy.value else "" }

  /** Why an execution by `actor` is refused; None if it starts. */
  function RefusalOf(job: Job, actor: string, artifactsReady: bool): Option<Refusal>
  {
    if job.status != Approved then Some(NotApproved)
    else if job.plan == [] then Some(EmptyPlan)
    else if job.requestDryRun != job.dryRun then Some(DryRunMismatch)
    else if Approver(job) == "" then Some(MissingApprover)
    else if !job.dryRun && Approver(job) == job.requestedBy then Some(ApproverIsRequester)
    else if !job.dryRun && Approver(job) == actor then Some(ApproverIsRunner)
    else if !artifactsReady then Some(NoArtifacts)
    else None
  }

  /** An execution starts exactly on an approved job with a plan, agreeing dry-run flags, a named approver and its
      artifacts in place; if the job is live the approver must be neither who requested nor who starts it. */
  predicate MayStart(job: Job, actor: string, artifactsReady: bool)
  {
    && job.status == Approved && job.plan != [] && job.requestDryRun == job.dryRun && artifactsReady
    && job.approvedBy.Some? && job.approvedBy.value != ""
    && (!job.dryRun ==> job.approvedBy.value != job.requestedBy && job.approvedBy.value != actor)
  }

  lemma StartsExactly(job: Job, actor: string, artifactsReady: bool)
    ensures RefusalOf(job, actor, artifactsReady).None? <==> MayStart(job, actor, artifactsReady)
  {
    if job.approvedBy.Some? { assert Approver(job) == job.approvedBy.value; }
  }

  /******* Steps of the machine *******/

  datatype Step =
    | QueueFromLibrary(job: nat, dryRun: bool, requester: string, plan: seq<PlanStep>)
    | QueueFromRoute(job: nat, dryRun: bool, requestDryRun: bool, requester: string, plan: seq<PlanStep>)
    | Decide(job: nat, actor: string, action: Action)
    | Begin(execution: nat, job: nat, actor: string, artifactsReady: bool)
    | RunStep(execution: nat, allowExec: bool, run: StepRun)
    | Finish(execution: nat)

  /** The execution's next plan step may end with `run`: any end that satisfies what `Provisioner.StepEndsSoundly`
      proves of every step run; with live execution disabled it throws without running anything. */
  ghost predicate CanRun(s: State, x: Execution, allowExec: bool, run: StepRun)
    requires x.job in s.jobs
  {
    var job := s.jobs[x.job];
    && !x.hung && |x.recorded| < |job.plan|
    && if !job.dryRun && !allowExec then run == StepRun(Threw, []) else SoundEnd(job.dryRun, run)
  }

  ghost predicate Enabled(s: State, step: Step)
  {
    match step
    case QueueFromLibrary(j, _, _, _) => j !in s.jobs
    case QueueFromRoute(j, _, _, _, _) => j !in s.jobs
    case Decide(j, _, _) => j in s.jobs
    case Begin(e, j, _, _) => j in s.jobs && e !in s.executions
    case RunStep(e, allowExec, run) => e in s.executions && s.executions[e].job in s.jobs
      && CanRun(s, s.executions[e], allowExec, run)
    case Finish(e) => e in s.executions && s.executions[e].job in s.jobs && !s.executions[e].hung
                      && |s.executions[e].recorded| == |s.jobs[s.executions[e].job].plan|
  }

  function EventOf(action: Action, actor: string): Event
  {
    match action
    case Approve => WasApproved(actor)
    case Reject => WasRejected(actor)
    case Cancel => WasCancelled(actor)
  }

  function History(s: State, j: nat): seq<Event> { if j in s.events then s.events[j] else [] }

  function WithEvent(s: State, j: nat, e: Event): map<nat, seq<Event>> { s.events[j := History(s, j) + [e]] }

  function SpawnedFor(s: State, j: nat): seq<Command> { if j in s.spawned then s.spawned[j] else [] }

  function NewJob(s: State, j: nat, dryRun: bool, requestDryRun: bool, requester: string, plan: seq<PlanStep>,
      byLibrary: bool): State
  {
    s.(jobs := s.jobs[j := Job(Queued, dryRun, requestDryRun, requester, None, plan, None)],
       events := s.events[j := [WasQueued(byLibrary)]],
       spawned := s.spawned[j := []])
  }

  function Recorded(step: PlanStep, outcome: StepOutcome): StepRecord
    requires outcome.Returned?
  {
    StepRecord(step.key, outcome.code == 0, outcome.skipped)
  }

  ghost function Apply(s: State, step: Step): State
    requires Enabled(s, step)
  {
    match step
    case QueueFromLibrary(j, dryRun, requester, plan) => NewJob(s, j, dryRun, dryRun, requester, plan, true)
    case QueueFromRoute(j, dryRun, requestDryRun, requester, plan) => NewJob(s, j, dryRun, requestDryRun, requester,
      plan, false)
    case Decide(j, actor, action) =>
      var r := Transition(s.jobs[j], actor, action);
      if r.None? then s
      else
        s.(jobs := s.jobs[j := r.value], events := WithEvent(s, j, EventOf(action, actor)))
    case Begin(e, j, actor, artifactsReady) =>
      if RefusalOf(s.jobs[j], actor, artifactsReady).Some? then s
      else
        s.(jobs := s.jobs[j := s.jobs[j].(status := Running)],
           executions := s.executions[e := Execution(j, actor, [], false)],
           events := WithEvent(s, j, WasStarted(actor)),
           executor := s.executor[j := e])
    case RunStep(e, allowExec, run) =>
      var x := s.executions[e];
      var job := s.jobs[x.job];
      var spawned := s.spawned[x.job := SpawnedFor(s, x.job) + run.spawned];
      if run.outcome.Returned? then
        s.(executions := s.executions[e := x.(recorded := x.recorded
          + [Recorded(job.plan[|x.recorded|], run.outcome)])],
           spawned := spawned)
      else if run.outcome.NeverEnds? then
        s.(executions := s.executions[e := x.(hung := true)], spawned := spawned)
      else
        s.(jobs := s.jobs[x.job := job.(status := Failed, steps := Some(x.recorded))],
           executions := s.executions - {e},
           events := WithEvent(s, x.job, HasFailed),
           spawned := spawned)
    case Finish(e) =>
      var x := s.executions[e];
      s.(jobs := s.jobs[x.job := s.jobs[x.job].(status := Completed, steps := Some(x.recorded))],
         executions := s.executions - {e},
         events := WithEvent(s, x.job, HasCompleted))
  }

  const EMPTY: State := State(map[], map[], map[], map[], map[])

  ghost predicate IsRun(s: State, steps: seq<Step>)
    decreases |steps|
  {
    steps == [] || (Enabled(s, steps[0]) && IsRun(Apply(s, steps[0]), steps[1..]))
  }

  ghost function After(s: State, steps: seq<Step>): State
    requires IsRun(s, steps)
    decreases |steps|
  {
    if steps == [] then s else After(Apply(s, steps[0]), steps[1..])
  }

  ghost predicate Reachable(s: State)
  {
    exists steps :: IsRun(EMPTY, steps) && After(EMPTY, steps) == s
  }

  /******* Invariant *******/

  /** Records of the first steps of the plan, in order, all with exit code 0. */
  ghost predicate RecordsPrefix(job: Job, recorded: seq<StepRecord>)
  {
    && |recorded| <= |job.plan|
    && forall k | 0 <= k < |recorded| :: recorded[k] == StepRecord(job.plan[k].key, true, job.dryRun)
  }

  /** Every execution belongs to a running job whose executor it is, and every running job has its executor. */
  ghost predicate ExecutionsInv(s: State)
  {
    && (forall e | e in s.executions ::
          && s.executions[e].job in s.jobs
          && s.jobs[s.executions[e].job].status == Running
          && s.executions[e].job in s.executor && s.executor[s.executions[e].job] == e
          && RecordsPrefix(s.jobs[s.executions[e].job], s.executions[e].recorded))
    && (forall j | j in s.jobs && s.jobs[j].status == Running ::
          j in s.executor && s.executor[j] in s.executions && s.executions[s.executor[j]].job == j)
  }

  ghost predicate ResultsInv(s: State)
  {
    forall j | j in s.jobs ::
      && (s.jobs[j].status == Completed ==>
            s.jobs[j].steps.Some? && RecordsPrefix(s.jobs[j], s.jobs[j].steps.value)
              && |s.jobs[j].steps.value| == |s.jobs[j].plan|)
      && (s.jobs[j].status == Failed ==>
            s.jobs[j].steps.Some? && RecordsPrefix(s.jobs[j], s.jobs[j].steps.value)
              && |s.jobs[j].steps.value| < |s.jobs[j].plan|)
  }

  /** The status an event leaves. */
  function StatusAfter(e: Event): Status
  {
    match e
    case WasQueued(_) => Queued
    case WasApproved(_) => Approved
    case WasRejected(_) => Rejected
    case WasCancelled(_) => Cancelled
    case WasStarted(_) => Running
    case HasCompleted => Completed
    case HasFailed => Failed
  }

  function LastApprover(h: seq<Event>): Option<string>
  {
    if h == [] then None
    else if h[|h| - 1].WasApproved? then Some(h[|h| - 1].actor)
    else LastApprover(h[..|h| - 1])
  }

  /** The event `i` of a job's history may follow the one before it. */
  ghost predicate Follows(job: Job, h: seq<Event>, i: nat)
    requires i < |h|
  {
    match h[i]
    case WasQueued(byLibrary) => i == 0 && (byLibrary ==> job.dryRun == job.requestDryRun)
    case WasStarted(runner) =>
      && i > 0 && h[i - 1].WasApproved? && h[i - 1].actor != ""
      && job.dryRun == job.requestDryRun
      && (!job.dryRun ==> h[i - 1].actor != job.requestedBy && h[i - 1].actor != runner)
    case HasCompleted => i > 0 && h[i - 1].WasStarted?
    case HasFailed => i > 0 && h[i - 1].WasStarted?
    case _ => i > 0 && !h[i - 1].WasStarted? && !h[i - 1].HasCompleted? && !h[i - 1].WasCancelled?
  }

  /** The history of one job tells its status and approver, and its events follow each other. */
  ghost predicate Tells(h: seq<Event>, job: Job)
  {
    && h != [] && job.status == StatusAfter(h[|h| - 1]) && job.approvedBy == LastApprover(h)
    && forall i | 0 <= i < |h| :: Follows(job, h, i)
  }

  ghost predicate HistoryInv(s: State)
  {
    s.events.Keys == s.jobs.Keys && forall j | j in s.jobs :: Tells(s.events[j], s.jobs[j])
  }

  /** Nothing is ever spawned for a dry run, nor for a job of which no execution has begun. */
  ghost predicate SpawnInv(s: State)
  {
    forall j | j in s.spawned && s.spawned[j] != [] :: j in s.jobs && !s.jobs[j].dryRun && j in s.executor
  }

  ghost predicate Inv(s: State)
  {
    ExecutionsInv(s) && ResultsInv(s) && HistoryInv(s) && SpawnInv(s)
  }

  /******* Preservation *******/

  /** An event that may follow the last one makes the history of the changed job. */
  lemma TellsMore(h: seq<Event>, job: Job, job': Job, e: Event)
    requires Tells(h, job) && SameRequest(job, job') && job'.status == StatusAfter(e)
    requires job'.approvedBy == if e.WasApproved? then Some(e.actor) else job.approvedBy
    requires Follows(job, h + [e], |h|)
    ensures Tells(h + [e], job')
  {
    var h' := h + [e];
    assert h'[..|h|] == h;
    forall i | 0 <= i < |h'| ensures Follows(job', h', i) {
      if i < |h| {
        assert Follows(job, h, i);
      }
    }
  }

  lemma HistoryGrows(s: State, j: nat, job': Job, e: Event)
    requires HistoryInv(s) && j in s.jobs && SameRequest(s.jobs[j], job') && job'.status == StatusAfter(e)
    requires job'.approvedBy == if e.WasApproved? then Some(e.actor) else s.jobs[j].approvedBy
    requires Follows(s.jobs[j], s.events[j] + [e], |s.events[j]|)
    ensures HistoryInv(s.(jobs := s.jobs[j := job'], events := WithEvent(s, j, e)))
  {
    TellsMore(s.events[j], s.jobs[j], job', e);
  }

  lemma RequestKeepsExecutions(s: State, step: Step)
    requires ExecutionsInv(s) && Enabled(s, step) && (step.QueueFromLibrary? || step.QueueFromRoute? || step.Decide?)
    ensures ExecutionsInv(Apply(s, step))
  {
  }

  lemma BeginKeepsExecutions(s: State, step: Step)
    requires ExecutionsInv(s) && Enabled(s, step) && step.Begin?
    ensures ExecutionsInv(Apply(s, step))
  {
  }

  lemma FinishKeepsExecutions(s: State, step: Step)
    requires ExecutionsInv(s) && Enabled(s, step) && step.Finish?
    ensures ExecutionsInv(Apply(s, step))
  {
  }

  lemma ReturnKeepsExecutions(s: State, step: Step)
    requires ExecutionsInv(s) && Enabled(s, step) && step.RunStep? && step.run.outcome.Returned?
    ensures ExecutionsInv(Apply(s, step))
  {
    var x := s.executions[step.execution];
    var recorded := x.recorded + [Recorded(s.jobs[x.job].plan[|x.recorded|], step.run.outcome)];
    assert RecordsPrefix(s.jobs[x.job], recorded);
  }

  lemma OtherEndKeepsExecutions(s: State, step: Step)
    requires ExecutionsInv(s) && Enabled(s, step) && step.RunStep? && !step.run.outcome.Returned?
    ensures ExecutionsInv(Apply(s, step))
  {
  }

  lemma RequestKeepsResults(s: State, step: Step)
    requires ResultsInv(s) && Enabled(s, step) && !step.RunStep? && !step.Finish?
    ensures ResultsInv(Apply(s, step))
  {
  }

  lemma RunStepKeepsResults(s: State, step: Step)
    requires ExecutionsInv(s) && ResultsInv(s) && Enabled(s, step) && step.RunStep?
    ensures ResultsInv(Apply(s, step))
  {
  }

  lemma FinishKeepsResults(s: State, step: Step)
    requires ExecutionsInv(s) && ResultsInv(s) && Enabled(s, step) && step.Finish?
    ensures ResultsInv(Apply(s, step))
  {
  }

  /** What a plan step changes of the processes and of the flags they depend on. */
  lemma RunStepSpawns(s: State, step: Step)
    requires Enabled(s, step) && step.RunStep?
    ensures var s', j := Apply(s, step), s.executions[step.execution].job;
      && s'.spawned == s.spawned[j := SpawnedFor(s, j) + step.run.spawned] && s'.executor == s.executor
      && s'.jobs.Keys == s.jobs.Keys && (forall i | i in s.jobs :: s'.jobs[i].dryRun == s.jobs[i].dryRun)
      && (s.jobs[j].dryRun ==> step.run.spawned == [])
  {
  }

  lemma RunStepKeepsSpawn(s: State, step: Step)
    requires ExecutionsInv(s) && SpawnInv(s) && Enabled(s, step) && step.RunStep?
    ensures SpawnInv(Apply(s, step))
  {
    var s', j := Apply(s, step), s.executions[step.execution].job;
    RunStepSpawns(s, step);
    forall i | i in s'.spawned && s'.spawned[i] != [] ensures i in s'.jobs && !s'.jobs[i].dryRun && i in s'.executor {
      assert i == j || (i in s.spawned && s'.spawned[i] == s.spawned[i]);
    }
  }

  lemma OtherStepKeepsSpawn(s: State, step: Step)
    requires SpawnInv(s) && Enabled(s, step) && !step.RunStep?
    ensures SpawnInv(Apply(s, step))
  {
  }

  lemma NewHistory(job: Job, byLibrary: bool)
    requires job.status == Queued && job.approvedBy == None && (byLibrary ==> job.dryRun == job.requestDryRun)
    ensures Tells([WasQueued(byLibrary)], job)
  {
    var h := [WasQueued(byLibrary)];
    assert Follows(job, h, 0);
    assert LastApprover(h[..0]) == None;
  }

  lemma QueueKeepsHistory(s: State, step: Step)
    requires HistoryInv(s) && Enabled(s, step) && (step.QueueFromLibrary? || step.QueueFromRoute?)
    ensures HistoryInv(Apply(s, step))
  {
    NewHistory(Apply(s, step).jobs[step.job], step.QueueFromLibrary?);
  }

  lemma DecideKeepsHistory(s: State, step: Step)
    requires HistoryInv(s) && Enabled(s, step) && step.Decide?
    ensures HistoryInv(Apply(s, step))
  {
    var r := Transition(s.jobs[step.job], step.actor, step.action);
    if r.Some? {
      HistoryGrows(s, step.job, r.value, EventOf(step.action, step.actor));
    }
  }

  lemma BeginKeepsHistory(s: State, step: Step)
    requires HistoryInv(s) && Enabled(s, step) && step.Begin?
    ensures HistoryInv(Apply(s, step))
  {
    var job := s.jobs[step.job];
    if RefusalOf(job, step.actor, step.artifactsReady).None? {
      HistoryGrows(s, step.job, job.(status := Running), WasStarted(step.actor));
    }
  }

  lemma EndKeepsHistory(s: State, step: Step)
    requires ExecutionsInv(s) && HistoryInv(s) && Enabled(s, step) && (step.RunStep? || step.Finish?)
    ensures HistoryInv(Apply(s, step))
  {
    var x := s.executions[step.execution];
    assert Tells(s.events[x.job], s.jobs[x.job]) && s.jobs[x.job].status == Running;
    if step.Finish? {
      HistoryGrows(s, x.job, s.jobs[x.job].(status := Completed, steps := Some(x.recorded)), HasCompleted);
    } else if step.run.outcome.Threw? {
      HistoryGrows(s, x.job, s.jobs[x.job].(status := Failed, steps := Some(x.recorded)), HasFailed);
    }
  }

  lemma StepKeepsInv(s: State, step: Step)
    requires Inv(s) && Enabled(s, step)
    ensures Inv(Apply(s, step))
  {
    if step.RunStep? { RunStepKeepsSpawn(s, step); } else { OtherStepKeepsSpawn(s, step); }
    if step.RunStep? || step.Finish? {
      if step.Finish? { FinishKeepsResults(s, step); } else { RunStepKeepsResults(s, step); }
      EndKeepsHistory(s, step);
      if step.Finish? {
        FinishKeepsExecutions(s, step);
      } else if step.run.outcome.Returned? {
        ReturnKeepsExecutions(s, step);
      } else {
        OtherEndKeepsExecutions(s, step);
      }
    } else {
      RequestKeepsResults(s, step);
      if step.Begin? {
        BeginKeepsExecutions(s, step);
        BeginKeepsHistory(s, step);
      } else {
        RequestKeepsExecutions(s, step);
        if step.Decide? { DecideKeepsHistory(s, step); } else { QueueKeepsHistory(s, step); }
      }
    }
  }

  lemma {:induction false} RunKeepsInv(s: State, steps: seq<Step>)
    requires Inv(s) && IsRun(s, steps)
    ensures Inv(After(s, steps))
    decreases |steps|
  {
    if steps != [] {
      StepKeepsInv(s, steps[0]);
      RunKeepsInv(Apply(s, steps[0]), steps[1..]);
    }
  }

  lemma ReachableInv(s: State)
    requires Reachable(s)
    ensures Inv(s)
  {
    var steps :| IsRun(EMPTY, steps) && After(EMPTY, steps) == s;
    RunKeepsInv(EMPTY, steps);
  }

  /******* Main results *******/

  /** Every entry into `running` directly follows an approval of its own; no run starts on the approval of another.
      For a live job that approval came neither from the requester nor from the runner. */
  lemma StartUsesItsOwnApproval(s: State, j: nat, i: nat)
    requires Reachable(s) && j in s.events && i < |s.events[j]| && s.events[j][i].WasStarted?
    ensures j in s.jobs && i > 0 && s.events[j][i - 1].WasApproved?
    ensures var approver, runner := s.events[j][i - 1].actor, s.events[j][i].actor;
      approver != "" && (!s.jobs[j].dryRun ==> approver != s.jobs[j].requestedBy && approver != runner)
  {
    ReachableInv(s);
    assert Follows(s.jobs[j], s.events[j], i);
  }

  lemma RunningRowKept(s: State, step: Step, j: nat)
    requires Enabled(s, step) && j in s.jobs && s.jobs[j].status == Running
    requires !step.RunStep? && !step.Finish?
    ensures j in Apply(s, step).jobs && Apply(s, step).jobs[j] == s.jobs[j]
  {
  }

  lemma OtherRowKept(s: State, step: Step, j: nat)
    requires Enabled(s, step) && j in s.jobs
    requires (step.RunStep? || step.Finish?) && s.executions[step.execution].job != j
    ensures j in Apply(s, step).jobs && Apply(s, step).jobs[j] == s.jobs[j]
  {
  }

  lemma RowsStay(s: State, step: Step, j: nat)
    requires Enabled(s, step) && j in s.jobs
    ensures j in Apply(s, step).jobs
  {
  }

  /** A running job is changed only by a step of its executor, the one execution there is for it. */
  lemma OnlyTheExecutorChangesARunningJob(s: State, step: Step, j: nat)
    requires Reachable(s) && Enabled(s, step)
    requires j in s.jobs && s.jobs[j].status == Running
    ensures j in Apply(s, step).jobs
    ensures Apply(s, step).jobs[j] != s.jobs[j] ==>
      (step.RunStep? || step.Finish?) && s.executions[step.execution].job == j
    ensures j in s.executor && forall e | e in s.executions :: s.executions[e].job == j <==> e == s.executor[j]
  {
    assert ExecutionsInv(s) by { ReachableInv(s); }
    RowsStay(s, step, j);
    if !step.RunStep? && !step.Finish? {
      RunningRowKept(s, step, j);
    } else if s.executions[step.execution].job != j {
      OtherRowKept(s, step, j);
    }
  }

  lemma FinalRowKept(s: State, step: Step, j: nat)
    requires ExecutionsInv(s) && Enabled(s, step)
    requires j in s.jobs && (s.jobs[j].status == Completed || s.jobs[j].status == Cancelled)
    ensures j in Apply(s, step).jobs && Apply(s, step).jobs[j] == s.jobs[j]
  {
  }

  /** `completed` and `cancelled` are never left: the whole row stays as it is in every continuation. */
  lemma {:induction false} FinalRowsAreFrozen(s: State, steps: seq<Step>, j: nat)
    requires Inv(s) && IsRun(s, steps)
    requires j in s.jobs && (s.jobs[j].status == Completed || s.jobs[j].status == Cancelled)
    ensures j in After(s, steps).jobs && After(s, steps).jobs[j] == s.jobs[j]
    decreases |steps|
  {
    if steps != [] {
      FinalRowKept(s, steps[0], j);
      StepKeepsInv(s, steps[0]);
      FinalRowsAreFrozen(Apply(s, steps[0]), steps[1..], j);
    }
  }

  lemma FinalStatusIsNeverLeft(before: seq<Step>, after: seq<Step>, j: nat)
    requires IsRun(EMPTY, before) && IsRun(After(EMPTY, before), after)
    requires var s := After(EMPTY, before);
      j in s.jobs && (s.jobs[j].status == Completed || s.jobs[j].status == Cancelled)
    ensures var s, s' := After(EMPTY, before), After(After(EMPTY, before), after);
      j in s'.jobs && s'.jobs[j] == s.jobs[j]
  {
    RunKeepsInv(EMPTY, before);
    FinalRowsAreFrozen(After(EMPTY, before), after, j);
  }

  /** Who started the last execution of a job. */
  function LastRunner(h: seq<Event>): Option<string>
  {
    if h == [] then None
    else if h[|h| - 1].WasStarted? then Some(h[|h| - 1].actor)
    else LastRunner(h[..|h| - 1])
  }

  lemma StartedLast(job: Job, h: seq<Event>)
    requires h != [] && Follows(job, h, |h| - 1) && h[|h| - 1].WasStarted?
    ensures |h| >= 2 && h[|h| - 2].WasApproved?
    ensures LastRunner(h) == Some(h[|h| - 1].actor) && LastApprover(h) == Some(h[|h| - 2].actor)
  {
    assert h[..|h| - 1][|h| - 2] == h[|h| - 2];
  }

  lemma EndedLast(h: seq<Event>)
    requires h != [] && (h[|h| - 1].HasCompleted? || h[|h| - 1].HasFailed?)
    ensures LastRunner(h) == LastRunner(h[..|h| - 1]) && LastApprover(h) == LastApprover(h[..|h| - 1])
  {
  }

  /** Where the last execution of a job that is running or has run began. */
  function StartOf(h: seq<Event>): int { if h != [] && h[|h| - 1].WasStarted? then |h| - 1 else |h| - 2 }

  lemma EndedStart(job: Job, h: seq<Event>)
    requires h != [] && (h[|h| - 1].HasCompleted? || h[|h| - 1].HasFailed?)
    requires forall i | 0 <= i < |h| :: Follows(job, h, i)
    ensures |h| >= 3 && h[|h| - 2].WasStarted? && h[|h| - 3].WasApproved?
    ensures LastRunner(h) == Some(h[|h| - 2].actor) && LastApprover(h) == Some(h[|h| - 3].actor)
  {
    var h1 := h[..|h| - 1];
    EndedLast(h);
    assert Follows(job, h, |h| - 1) && Follows(job, h, |h| - 2);
    assert Follows(job, h1, |h1| - 1);
    StartedLast(job, h1);
  }

  lemma LastStart(job: Job, h: seq<Event>)
    requires Tells(h, job) && job.status in {Running, Completed, Failed}
    ensures var i := StartOf(h);
      && 0 < i < |h| && h[i].WasStarted? && h[i - 1].WasApproved?
      && LastRunner(h) == Some(h[i].actor) && LastApprover(h) == Some(h[i - 1].actor)
  {
    assert Follows(job, h, |h| - 1);
    if h[|h| - 1].WasStarted? { StartedLast(job, h); } else { EndedStart(job, h); }
  }

  /** In every reachable state a job that is running, completed or failed agrees with its stored request on being a dry
      run and has a non-empty approver; a live one was approved neither by its requester nor by whoever started it. */
  lemma TwoPersonRule(s: State, j: nat)
    requires Reachable(s) && j in s.jobs && s.jobs[j].status in {Running, Completed, Failed}
    ensures s.jobs[j].dryRun == s.jobs[j].requestDryRun
    ensures Approver(s.jobs[j]) != ""
    ensures !s.jobs[j].dryRun ==>
      && Approver(s.jobs[j]) != s.jobs[j].requestedBy
      && LastRunner(History(s, j)).Some? && LastRunner(History(s, j)) != Some(Approver(s.jobs[j]))
  {
    assert j in s.events && Tells(s.events[j], s.jobs[j]) by { ReachableInv(s); }
    LastStart(s.jobs[j], s.events[j]);
    assert Follows(s.jobs[j], s.events[j], StartOf(s.events[j]));
  }

  /** The recorded steps of a completed job are exactly its plan in order, all with exit code 0; those of a failed
      job are a strict prefix of the plan, and nothing was ever spawned for a dry run. */
  lemma RecordedStepsAreThePlan(s: State, j: nat)
    requires Reachable(s) && j in s.jobs
    ensures s.jobs[j].status in {Completed, Failed} ==>
      && s.jobs[j].steps.Some? && |s.jobs[j].steps.value| <= |s.jobs[j].plan|
      && (s.jobs[j].status == Completed <==> |s.jobs[j].steps.value| == |s.jobs[j].plan|)
      && forall k | 0 <= k < |s.jobs[j].steps.value| ::
           s.jobs[j].steps.value[k] == StepRecord(s.jobs[j].plan[k].key, true, s.jobs[j].dryRun)
    ensures s.jobs[j].dryRun || j !in s.executor ==> SpawnedFor(s, j) == []
  {
    ReachableInv(s);
  }

  /******* The dry-run mismatch *******/

  lemma RequestKept(s: State, step: Step, j: nat)
    requires Enabled(s, step) && j in s.jobs
    ensures j in Apply(s, step).jobs && SameRequest(s.jobs[j], Apply(s, step).jobs[j])
  {
  }

  /** Request, plan and both dry-run flags of a job never change. */
  lemma {:induction false} RequestNeverChanges(s: State, steps: seq<Step>, j: nat)
    requires IsRun(s, steps) && j in s.jobs
    ensures j in After(s, steps).jobs && SameRequest(s.jobs[j], After(s, steps).jobs[j])
    decreases |steps|
  {
    if steps != [] {
      RequestKept(s, steps[0], j);
      RequestNeverChanges(Apply(s, steps[0]), steps[1..], j);
    }
  }

  /** The mismatch error is never raised for a job queued by the library functions: it concerns only jobs queued through
      the API route. */
  lemma MismatchOnlyFromRoute(s: State, j: nat, actor: string, artifactsReady: bool)
    requires Reachable(s) && j in s.jobs
    ensures j in s.events && s.events[j] != [] && s.events[j][0].WasQueued?
    ensures RefusalOf(s.jobs[j], actor, artifactsReady) == Some(DryRunMismatch) ==> !s.events[j][0].byLibrary
  {
    ReachableInv(s);
    assert Follows(s.jobs[j], s.events[j], 0);
  }

  /** For a job queued through the route the error is raised exactly if the two flags it was queued with differ. */
  lemma MismatchExactly(s: State, queue: Step, steps: seq<Step>, actor: string, artifactsReady: bool)
    requires queue.QueueFromRoute? && Enabled(s, queue) && IsRun(Apply(s, queue), steps)
    requires var jobs := After(Apply(s, queue), steps).jobs;
      queue.job in jobs && jobs[queue.job].status == Approved && queue.plan != []
    ensures RefusalOf(After(Apply(s, queue), steps).jobs[queue.job], actor, artifactsReady) == Some(DryRunMismatch)
      <==> queue.dryRun != queue.requestDryRun
  {
    RequestNeverChanges(Apply(s, queue), steps, queue.job);
  }

  lemma {:induction false} RunAppend(s: State, steps: seq<Step>, step: Step)
    requires IsRun(s, steps) && Enabled(After(s, steps), step)
    ensures IsRun(s, steps + [step]) && After(s, steps + [step]) == Apply(After(s, steps), step)
    decreases |steps|
  {
    if steps == [] {
      assert steps + [step] == [step];
      assert [step][1..] == [];
    } else {
      assert (steps + [step])[1..] == steps[1..] + [step];
      RunAppend(Apply(s, steps[0]), steps[1..], step);
    }
  }

  lemma Extend(s: State, step: Step)
    requires Reachable(s) && Enabled(s, step)
    ensures Reachable(Apply(s, step))
  {
    var steps :| IsRun(EMPTY, steps) && After(EMPTY, steps) == s;
    RunAppend(EMPTY, steps, step);
  }

  /** The error is reachable: a route request whose `dry_run` is false and whose `request_json` leaves it out, then an
      approval. */
  lemma MismatchIsReachable(step: PlanStep)
    ensures exists s, j :: Reachable(s) && j in s.jobs && RefusalOf(s.jobs[j], "carol", true) == Some(DryRunMismatch)
  {
    var queue, approve := QueueFromRoute(1, false, true, "alice", [step]), Decide(1, "bob", Approve);
    assert IsRun(EMPTY, []) && After(EMPTY, []) == EMPTY;
    Extend(EMPTY, queue);
    var queued := Apply(EMPTY, queue);
    Extend(queued, approve);
    var s := Apply(queued, approve);
    assert RefusalOf(s.jobs[1], "carol", true) == Some(DryRunMismatch);
  }

  /******* A step that never ends *******/

  /** The executor of the job awaits a step that never ends. */
  predicate Hung(s: State, j: nat)
  {
    j in s.executor && s.executor[j] in s.executions && s.executions[s.executor[j]].job == j
    && s.executions[s.executor[j]].hung
  }

  lemma HungKeptByEnd(s: State, step: Step, j: nat)
    requires ExecutionsInv(s) && Enabled(s, step) && j in s.jobs && Hung(s, j) && (step.RunStep? || step.Finish?)
    ensures j in Apply(s, step).jobs && Apply(s, step).jobs[j] == s.jobs[j] && Hung(Apply(s, step), j)
  {
    assert step.execution != s.executor[j] && s.executions[step.execution].job != j;
  }

  lemma HungKept(s: State, step: Step, j: nat)
    requires ExecutionsInv(s) && Enabled(s, step) && j in s.jobs && Hung(s, j)
    ensures j in Apply(s, step).jobs && Apply(s, step).jobs[j] == s.jobs[j] && Hung(Apply(s, step), j)
  {
    assert s.jobs[j].status == Running;
    if step.RunStep? || step.Finish? { HungKeptByEnd(s, step, j); }
  }

  /** Such a job is reachable. */
  lemma HungIsReachable(step: PlanStep)
    ensures exists s, j :: Reachable(s) && j in s.jobs && Hung(s, j)
  {
    assert IsRun(EMPTY, []) && After(EMPTY, []) == EMPTY;
    var queue, approve := QueueFromLibrary(1, true, "alice", [step]), Decide(1, "bob", Approve);
    var begin, hang := Begin(7, 1, "carol", true), RunStep(7, false, StepRun(NeverEnds, []));
    Extend(EMPTY, queue);
    var queued := Apply(EMPTY, queue);
    Extend(queued, approve);
    var approved := Apply(queued, approve);
    assert RefusalOf(approved.jobs[1], "carol", true) == None;
    Extend(approved, begin);
    var begun := Apply(approved, begin);
    Extend(begun, hang);
    assert Hung(Apply(begun, hang), 1);
  }

  /** A job whose execution awaits a step that never ends stays running in every continuation: it can be neither
      cancelled nor executed again. */
  lemma {:induction false} HungJobStaysRunning(s: State, steps: seq<Step>, j: nat)
    requires Inv(s) && IsRun(s, steps) && j in s.jobs && Hung(s, j)
    ensures s.jobs[j].status == Running
    ensures j in After(s, steps).jobs && After(s, steps).jobs[j] == s.jobs[j]
    decreases |steps|
  {
    if steps != [] {
      HungKept(s, steps[0], j);
      StepKeepsInv(s, steps[0]);
      HungJobStaysRunning(Apply(s, steps[0]), steps[1..], j);
    }
  }

  /** Some step ends the job. */
  ghost predicate CanEnd(s: State, j: nat)
  {
    exists step :: Enabled(s, step) && j in Apply(s, step).jobs && Apply(s, step).jobs[j].status != Running
  }

  /** A running job can still end exactly if its execution does not await such a step. */
  lemma RunningJobCanEndExactly(s: State, j: nat)
    requires Reachable(s) && j in s.jobs && s.jobs[j].status == Running
    ensures CanEnd(s, j) <==> !Hung(s, j)
  {
    ReachableInv(s);
    var e := s.executor[j];
    var x := s.executions[e];
    if Hung(s, j) {
      forall step | Enabled(s, step) ensures j in Apply(s, step).jobs && Apply(s, step).jobs[j].status == Running {
        HungKept(s, step, j);
      }
    } else {
      assert !x.hung;
      var step := if |x.recorded| < |s.jobs[j].plan| then RunStep(e, false, StepRun(Threw, [])) else Finish(e);
      assert Enabled(s, step);
      assert Apply(s, step).jobs[j].status != Running;
    }
  }
}
