/**
 Tenant names, paths and provisioning plans as the application builds them (src/lib/super-admin.ts).
 Step titles and timeouts are left out: they reach no decision.
 */
module TenantPlans {
  import opened Options
  import opened PosixPaths

  /** The settings the application and the daemon read from the same environment. */
  datatype Settings = Settings(homeRoot: string, workspaceDir: string, templateJson: string, repoRoot: string,
      dataDir: string)

  datatype Tenant = Tenant(slug: string, linuxUser: string, openclawHome: string, workspaceRoot: string)

  /** The command array of a step, taken apart as `[command, ...args]`. */
  datatype PlanStep = PlanStep(key: string, command: string, args: seq<string>, requiresRoot: bool)

  datatype RemovalOptions = RemovalOptions(removeLinuxUser: bool, removeStateDirs: bool)

  /******* Names *******/

  predicate LowerOrDigit(c: char) { 'a' <= c <= 'z' || '0' <= c <= '9' }

  /** /^[a-z_][a-z0-9_-]{1,30}$/ */
  predicate SafeUser(s: string)
  {
    && 2 <= |s| <= 31
    && ('a' <= s[0] <= 'z' || s[0] == '_')
    && forall k | 1 <= k < |s| :: LowerOrDigit(s[k]) || s[k] == '_' || s[k] == '-'
  }

  /** /^[a-z0-9][a-z0-9-]{1,30}[a-z0-9]$/ */
  predicate ValidSlug(s: string)
  {
    && 3 <= |s| <= 32
    && LowerOrDigit(s[0]) && LowerOrDigit(s[|s| - 1])
    && forall k | 1 <= k < |s| - 1 :: LowerOrDigit(s[k]) || s[k] == '-'
  }

  /******* Paths *******/

  function HomeDir(cfg: Settings, user: string): string
  {
    JoinPosix([cfg.homeRoot, user])
  }

  function GatewayTemplate(cfg: Settings): string
  {
    Join([cfg.repoRoot, "ops", "templates", "openclaw-gateway@.service"])
  }

  /** The tenant's environment file in the artifact directory. */
  function EnvArtifact(cfg: Settings, slug: string): string
  {
    Join([cfg.dataDir, "provisioner", slug]) + "/openclaw-gateway.env"
  }

  const TENANTS_DIR := "/etc/openclaw-tenants"
  const GATEWAY_UNIT := "/etc/systemd/system/openclaw-gateway@.service"

  function EnvFile(user: string): string
  {
    TENANTS_DIR + "/" + (user + ".env")
  }

  function GatewayService(user: string): string
  {
    "openclaw-gateway@" + user + ".service"
  }

  /******* Requests *******/

  /** Validation of a bootstrap request whose slug and user are trimmed and lower-cased; an empty user takes the
      default. */
  function NewTenant(cfg: Settings, slug: string, requestedUser: string): (t: Option<Tenant>)
    ensures t.Some? ==> ValidSlug(t.value.slug) && SafeUser(t.value.linuxUser) && t.value.slug == slug
    ensures t.Some? && requestedUser != "" ==> t.value.linuxUser == requestedUser
    ensures requestedUser != "" ==> (t.Some? <==> cfg.templateJson != "" && ValidSlug(slug) && SafeUser(requestedUser))
  {
    var user := if requestedUser == "" then "oc-" + slug else requestedUser;
    if cfg.templateJson == "" || !ValidSlug(slug) || !SafeUser(user) then None
    else Some(Tenant(slug, user,
                     JoinPosix([cfg.homeRoot, user, ".openclaw"]),
                     JoinPosix([cfg.homeRoot, user, cfg.workspaceDir])))
  }

  /** Without a user of its own, a request with a valid slug passes exactly if the slug leaves room for the prefix
      of the default user: a slug of 29 to 32 characters is valid and yet refused. */
  lemma DefaultUserFits(cfg: Settings, slug: string)
    ensures NewTenant(cfg, slug, "").Some? <==> cfg.templateJson != "" && ValidSlug(slug) && |slug| <= 28
    ensures NewTenant(cfg, slug, "").Some? ==> NewTenant(cfg, slug, "").value.linuxUser == "oc-" + slug
  {
    var user := "oc-" + slug;
    assert user[0] == 'o' && user[1] == 'c' && user[2] == '-';
    assert forall k | 3 <= k < |user| :: user[k] == slug[k - 3];
    assert ValidSlug(slug) ==> forall k | 0 <= k < |slug| :: LowerOrDigit(slug[k]) || slug[k] == '-';
  }

  /** A tenant row that a bootstrap request created under these settings. */
  predicate TenantOf(cfg: Settings, t: Tenant)
  {
    NewTenant(cfg, t.slug, t.linuxUser) == Some(t)
  }

  /** These are all that requests create: one that takes the default user could have named it. */
  lemma AnyTenant(cfg: Settings, slug: string, requestedUser: string)
    ensures NewTenant(cfg, slug, requestedUser).Some? ==> TenantOf(cfg, NewTenant(cfg, slug, requestedUser).value)
  {
  }

  /******* Plans *******/

  function CreateUserStep(t: Tenant): PlanStep
  {
    PlanStep("create-linux-user", "/usr/sbin/useradd", ["-m", "-s", "/bin/bash", t.linuxUser], true)
  }

  function CreateStateStep(t: Tenant): PlanStep
  {
    PlanStep("create-openclaw-state",
             "/usr/bin/install", ["-d", "-m", "0750", "-o", t.linuxUser, "-g", t.linuxUser, t.openclawHome], true)
  }

  function CreateWorkspaceStep(t: Tenant): PlanStep
  {
    PlanStep("create-workspace-root",
             "/usr/bin/install", ["-d", "-m", "0750", "-o", t.linuxUser, "-g", t.linuxUser, t.workspaceRoot], true)
  }

  function SeedTemplateStep(cfg: Settings, t: Tenant): PlanStep
  {
    PlanStep("seed-openclaw-template", "/usr/bin/cp", ["-n", cfg.templateJson, t.openclawHome + "/openclaw.json"], true)
  }

  function SetOwnerStep(cfg: Settings, t: Tenant): PlanStep
  {
    PlanStep("set-owner-home", "/usr/bin/chown", ["-R", t.linuxUser + ":" + t.linuxUser, HomeDir(cfg, t.linuxUser)],
      true)
  }

  function TenantsDirStep(): PlanStep
  {
    PlanStep("ensure-openclaw-tenants-dir",
             "/usr/bin/install", ["-d", "-m", "0750", "-o", "root", "-g", "root", TENANTS_DIR], true)
  }

  function InstallUnitStep(cfg: Settings): PlanStep
  {
    PlanStep("install-gateway-systemd-template", "/usr/bin/cp", ["-n", GatewayTemplate(cfg), GATEWAY_UNIT], true)
  }

  function InstallEnvStep(cfg: Settings, t: Tenant): PlanStep
  {
    PlanStep("install-tenant-gateway-env", "/usr/bin/cp", ["-f", EnvArtifact(cfg, t.slug), EnvFile(t.linuxUser)], true)
  }

  function ReloadStep(): PlanStep
  {
    PlanStep("systemd-daemon-reload", "/usr/bin/systemctl", ["daemon-reload"], true)
  }

  function EnableGatewayStep(t: Tenant): PlanStep
  {
    PlanStep("enable-start-gateway", "/usr/bin/systemctl", ["enable", "--now", GatewayService(t.linuxUser)], true)
  }

  function BootstrapPlan(cfg: Settings, t: Tenant): seq<PlanStep>
  {
    [ CreateUserStep(t), CreateStateStep(t), CreateWorkspaceStep(t), SeedTemplateStep(cfg, t), SetOwnerStep(cfg, t),
      TenantsDirStep(), InstallUnitStep(cfg), InstallEnvStep(cfg, t), ReloadStep(), EnableGatewayStep(t) ]
  }

  function DisableGatewayStep(t: Tenant): PlanStep
  {
    PlanStep("disable-stop-gateway", "/usr/bin/systemctl", ["disable", "--now", GatewayService(t.linuxUser)], true)
  }

  function RemoveEnvStep(t: Tenant): PlanStep
  {
    PlanStep("remove-tenant-gateway-env", "/usr/bin/rm", ["-f", EnvFile(t.linuxUser)], true)
  }

  function RemoveStateStep(t: Tenant): PlanStep
  {
    PlanStep("remove-openclaw-state-dir", "/usr/bin/rm", ["-rf", t.openclawHome], true)
  }

  function RemoveWorkspaceStep(t: Tenant): PlanStep
  {
    PlanStep("remove-workspace-dir", "/usr/bin/rm", ["-rf", t.workspaceRoot], true)
  }

  function RemoveUserStep(t: Tenant): PlanStep
  {
    PlanStep("remove-linux-user", "/usr/sbin/userdel", ["-r", t.linuxUser], true)
  }

  function DecommissionPlan(t: Tenant, options: RemovalOptions): seq<PlanStep>
  {
    [DisableGatewayStep(t), RemoveEnvStep(t)]
    + (if options.removeStateDirs && !options.removeLinuxUser then [RemoveStateStep(t), RemoveWorkspaceStep(t)] else [])
    + (if options.removeLinuxUser then [RemoveUserStep(t)] else [])
  }

  method BuildDecommissionPlan(t: Tenant, options: RemovalOptions) returns (plan: seq<PlanStep>)
    ensures plan == DecommissionPlan(t, options)
  {
    plan := [DisableGatewayStep(t), RemoveEnvStep(t)];
    if options.removeStateDirs && !options.removeLinuxUser {
      plan := plan + [RemoveStateStep(t), RemoveWorkspaceStep(t)];
    }
    if options.removeLinuxUser {
      plan := plan + [RemoveUserStep(t)];
    }
  }
}
