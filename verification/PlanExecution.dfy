/**
 From a validated request to the end of its execution: the plan generator, the allowlist, the daemon and the executor
 together.
 */
module PlanExecution {
  import opened Options
  import opened TenantPlans
  import opened Allowlist
  import opened PlanAcceptance
  import opened Provisioner
  import opened ProvisionJobs
  import opened JobTables

  /** The daemon is in use, reachable, and shares token and settings with the application. */
  predicate DaemonReachable(cfg: Settings, w: World)
  {
    w.cfg == cfg && w.daemonMode && w.clientToken != "" && w.clientToken == w.daemonToken && ReplyIn(w).Came?
  }

  predicate ForRoot(plan: seq<PlanStep>)
  {
    forall k | 0 <= k < |plan| :: plan[k].requiresRoot && plan[k].command != ""
  }

  lemma PlansAreForRoot(cfg: Settings, t: Tenant, options: RemovalOptions)
    ensures ForRoot(BootstrapPlan(cfg, t)) && ForRoot(DecommissionPlan(t, options))
  {
  }

  lemma DryStepReturns(cfg: Settings, w: World, step: PlanStep)
    requires DaemonReachable(cfg, w) && step.requiresRoot && step.command != ""
    ensures RunProvisionStep(w, step, true).outcome.Returned? <==> Accepts(cfg, step)
    ensures !RunProvisionStep(w, step, true).outcome.NeverEnds?
  {
  }

  /** Every step of a dry run returns exactly if the allowlist accepts the whole plan. */
  lemma DryRunFollowsAllowlist(cfg: Settings, job: Job, allowExec: bool, worlds: nat -> World)
    requires job.dryRun && ForRoot(job.plan) && forall k :: DaemonReachable(cfg, worlds(k))
    ensures (forall k | 0 <= k < |job.plan| :: Returns(job, allowExec, worlds, k)) <==> AllAccepted(cfg, job.plan)
  {
    forall k | 0 <= k < |job.plan| ensures Returns(job, allowExec, worlds, k) <==> Accepts(cfg, job.plan[k]) {
      DryStepReturns(cfg, worlds(k), job.plan[k]);
    }
    if forall k | 0 <= k < |job.plan| :: Returns(job, allowExec, worlds, k) {
      forall step | step in job.plan ensures Accepts(cfg, step) {
        var k :| 0 <= k < |job.plan| && job.plan[k] == step;
        assert Returns(job, allowExec, worlds, k);
      }
    }
  }

  /** The daemon's attempts at the step end well. */
  ghost predicate EndsWell(w: World, step: PlanStep)
  {
    exists i: nat :: SucceedsAt(Program(step.command), w.child, i)
  }

  /** Every step of a live run returns exactly if the allowlist accepts the whole plan and the attempts of every step
      end well. */
  lemma LiveRunFollows(cfg: Settings, job: Job, worlds: nat -> World)
    requires !job.dryRun && ForRoot(job.plan) && forall k :: DaemonReachable(cfg, worlds(k))
    ensures (forall k | 0 <= k < |job.plan| :: Returns(job, true, worlds, k)) <==>
      AllAccepted(cfg, job.plan) && forall k | 0 <= k < |job.plan| :: EndsWell(worlds(k), job.plan[k])
  {
    forall k | 0 <= k < |job.plan|
      ensures Returns(job, true, worlds, k) <==> Accepts(cfg, job.plan[k]) && EndsWell(worlds(k), job.plan[k])
    {
      ReturnsExactly(worlds(k), job.plan[k], false);
    }
    AcceptedByIndex(cfg, job.plan);
  }

  lemma AcceptedByIndex(cfg: Settings, plan: seq<PlanStep>)
    ensures AllAccepted(cfg, plan) <==> forall k | 0 <= k < |plan| :: Accepts(cfg, plan[k])
  {
    if forall k | 0 <= k < |plan| :: Accepts(cfg, plan[k]) {
      forall step | step in plan ensures Accepts(cfg, step) {
        var k :| 0 <= k < |plan| && plan[k] == step;
      }
    }
  }

  /** A live run without leave to execute ends at its first step, which runs nothing. */
  lemma LiveRunNeedsLeave(job: Job, worlds: nat -> World)
    requires !job.dryRun && job.plan != []
    ensures StopsAt(job, false, worlds, 0) && StepEnd(job, false, worlds, 0) == StepRun(Threw, [])
  {
  }

  /** What a live run of such a plan spawns for each step that returns: its command, once for each attempt. */
  lemma LiveRunSpawnsItsPlan(cfg: Settings, job: Job, worlds: nat -> World, k: nat)
    requires !job.dryRun && ForRoot(job.plan) && k < |job.plan| && DaemonReachable(cfg, worlds(k))
    requires Returns(job, true, worlds, k)
    ensures var spawned := StepEnd(job, true, worlds, k).spawned;
      && spawned != []
      && (forall c | c in spawned :: c == Command(job.plan[k].command, job.plan[k].args))
      && worlds(k).child(|spawned| - 1).exit == Code(0)
  {
    ReturnsExactly(worlds(k), job.plan[k], false);
    SpawnedExactly(worlds(k), job.plan[k]);
    ReturnedStepSucceeded(worlds(k), job.plan[k], false);
  }

  /** The dry run of a bootstrap job, with the daemon reachable, goes through to the end if and only if the home root is
      usable and the seed template is none of the other copy sources; live execution need not be allowed. */
  lemma BootstrapDryRunCompletes(cfg: Settings, t: Tenant, job: Job, allowExec: bool, worlds: nat -> World)
    requires TenantOf(cfg, t) && job.dryRun && job.plan == BootstrapPlan(cfg, t)
    requires forall k :: DaemonReachable(cfg, worlds(k))
    ensures (forall k | 0 <= k < |job.plan| :: Returns(job, allowExec, worlds, k))
      <==> (UsableHomeRoot(cfg) && cfg.templateJson != GatewayTemplate(cfg)
        && cfg.templateJson != EnvArtifact(cfg, t.slug))
  {
    PlansAreForRoot(cfg, t, RemovalOptions(false, false));
    DryRunFollowsAllowlist(cfg, job, allowExec, worlds);
    BootstrapPlanAccepted(cfg, t);
  }

  /** The same for decommission jobs. */
  lemma DecommissionDryRunCompletes(cfg: Settings, t: Tenant, options: RemovalOptions, job: Job, allowExec: bool,
      worlds: nat -> World)
    requires TenantOf(cfg, t) && job.dryRun && job.plan == DecommissionPlan(t, options)
    requires forall k :: DaemonReachable(cfg, worlds(k))
    ensures (forall k | 0 <= k < |job.plan| :: Returns(job, allowExec, worlds, k))
      <==> (options.removeStateDirs && !options.removeLinuxUser ==>
              UsableHomeRoot(cfg) && (PlainWorkspace(cfg) || IsSomeState(cfg, t.workspaceRoot)))
  {
    PlansAreForRoot(cfg, t, options);
    DryRunFollowsAllowlist(cfg, job, allowExec, worlds);
    DecommissionPlanAccepted(cfg, t, options);
  }

  /** A dry run of a freshly approved bootstrap job in the table ends completed, with every step of the plan recorded as
      skipped, exactly under that condition, and failed otherwise. */
  method DryRunBootstrap(table: JobTable, id: nat, actor: string, cfg: Settings, t: Tenant, worlds: nat -> World)
    returns (completed: bool)
    requires id in table.jobs && TenantOf(cfg, t)
    requires table.jobs[id].dryRun && table.jobs[id].requestDryRun && table.jobs[id].plan == BootstrapPlan(cfg, t)
    requires table.jobs[id].status == Approved && Approver(table.jobs[id]) != ""
    requires forall k :: DaemonReachable(cfg, worlds(k))
    modifies table
    ensures completed
      <==> (UsableHomeRoot(cfg) && cfg.templateJson != GatewayTemplate(cfg)
        && cfg.templateJson != EnvArtifact(cfg, t.slug))
    ensures id in table.jobs && table.jobs[id].status == if completed then Completed else ProvisionJobs.Failed
    ensures completed ==>
      && table.jobs[id].steps.Some? && |table.jobs[id].steps.value| == |BootstrapPlan(cfg, t)|
      && forall k | 0 <= k < |BootstrapPlan(cfg, t)| ::
           table.jobs[id].steps.value[k] == StepRecord(BootstrapPlan(cfg, t)[k].key, true, true)
  {
    ghost var job := table.jobs[id];
    BootstrapDryRunCompletes(cfg, t, job, false, worlds);
    PlansAreForRoot(cfg, t, RemovalOptions(false, false));
    var started, recorded := table.Execute(id, actor, true, false, worlds);
    completed := |recorded| == |BootstrapPlan(cfg, t)|;
    if !completed { DryStepReturns(cfg, worlds(|recorded|), job.plan[|recorded|]); }
  }
}
