/**
 What the plans of one tenant delete, re-own or write never lies at or under a path of another tenant's plans.
 */
module TenantIsolation {
  import opened Options
  import opened PosixPaths
  import opened TenantPlans
  import opened PlanAcceptance

  /** `p` is the path `q` or lies below it. */
  predicate AtOrUnder(p: string, q: string)
  {
    p == q || (|q| < |p| && p[..|q|] == q && p[|q|] == '/')
  }

  /** The segments of the directory in which `useradd` creates home directories.  It is a setting of the host: the plans
      do not name it, and it need not be the home root of the tenants. */
  type Accounts = segments: seq<string> | AllPlain(segments)

  function AccountHome(accounts: Accounts, user: string): string { Render(true, accounts + [user]) }

  /** The path a step deletes, re-owns recursively, creates or writes: the last argument of a file command, the
      account's home directory for account commands. */
  function Affects(accounts: Accounts, step: PlanStep): Option<string>
  {
    if step.args == [] || step.command == "/usr/bin/systemctl" then None
    else
      var last := step.args[|step.args| - 1];
      if step.command == "/usr/sbin/useradd" || step.command == "/usr/sbin/userdel"
        then Some(AccountHome(accounts, last))
      else Some(last)
  }

  /** Two bootstrap steps prepare what all tenants share. */
  predicate ForAllTenants(cfg: Settings, step: PlanStep)
  {
    step == TenantsDirStep() || step == InstallUnitStep(cfg)
  }

  ghost predicate InPlanOf(cfg: Settings, t: Tenant, step: PlanStep)
  {
    step in BootstrapPlan(cfg, t) || exists options :: step in DecommissionPlan(t, options)
  }

  /** Some plan of the tenant affects `p` for this tenant. */
  ghost predicate Touches(cfg: Settings, accounts: Accounts, t: Tenant, p: string)
  {
    exists step :: InPlanOf(cfg, t, step) && !ForAllTenants(cfg, step) && Affects(accounts, step) == Some(p)
  }

  ghost predicate Apart(cfg: Settings, accounts: Accounts, a: Tenant, b: Tenant)
  {
    forall p, q | Touches(cfg, accounts, a, p) && Touches(cfg, accounts, b, q) :: !AtOrUnder(p, q)
  }

  ghost predicate Isolated(cfg: Settings, accounts: Accounts)
  {
    forall a, b | TenantOf(cfg, a) && TenantOf(cfg, b) && a.linuxUser != b.linuxUser :: Apart(cfg, accounts, a, b)
  }

  /** The directory is neither `/` nor `/etc` and not at or under some user's environment file. */
  ghost predicate ClearOfEtc(dir: string)
  {
    dir != "/" && dir != "/etc" && forall u | SafeUser(u) :: !AtOrUnder(dir, EnvFile(u))
  }

  /** Neither does the home root lie at or under some account's home, nor the account base in some tenant's home. */
  ghost predicate NotNested(cfg: Settings, accounts: Accounts)
  {
    forall u | SafeUser(u) ::
      !AtOrUnder(JoinPosix([cfg.homeRoot]), AccountHome(accounts, u))
        && !AtOrUnder(Render(true, accounts), HomeDir(cfg, u))
  }

  /** The workspace of this user is in the user's home. */
  ghost predicate WorkspaceIn(cfg: Settings, user: string)
  {
    AtOrUnder(JoinPosix([cfg.homeRoot, user, cfg.workspaceDir]), HomeDir(cfg, user))
  }

  /** The workspace name does not lead out of the homes. */
  ghost predicate WorkspacesInside(cfg: Settings) { forall u | SafeUser(u) :: WorkspaceIn(cfg, u) }

  /******* Paths as segments *******/

  predicate Segments(s: seq<string>) { forall k | 0 <= k < |s| :: '/' !in s[k] && s[k] != "" }

  lemma SplitRendered(segments: seq<string>)
    requires segments != [] && Segments(segments)
    ensures Split(Render(true, segments), '/') == [""] + segments
  {
    SplitRender(true, segments);
  }

  lemma UnderIsPrefix(p: string, q: string)
    requires AtOrUnder(p, q)
    ensures Split(q, '/') <= Split(p, '/')
  {
    if p != q {
      var rest := p[|q| + 1..];
      assert p == q + ['/'] + rest;
      SplitAppend(q, rest, '/');
    }
  }

  lemma TextIsUnder(q: string, rest: string)
    ensures AtOrUnder(q + ['/'] + rest, q)
  {
    assert (q + ['/'] + rest)[..|q|] == q;
  }

  lemma GluedUnder(a: seq<string>, rest: seq<string>)
    requires a != []
    ensures AtOrUnder(Glue(a + rest, '/'), Glue(a, '/'))
  {
    if rest == [] {
      assert a + rest == a;
    } else {
      GlueAppend(a, rest, '/');
      TextIsUnder(Glue(a, '/'), Glue(rest, '/'));
    }
  }

  lemma PrefixIsUnder(p: string, q: string)
    requires Split(q, '/') <= Split(p, '/')
    ensures AtOrUnder(p, q)
  {
    var a, b := Split(q, '/'), Split(p, '/');
    GlueSplit(p, '/');
    GlueSplit(q, '/');
    GluedUnder(a, b[|a|..]);
    assert b == a + b[|a|..];
  }

  lemma Shifted(a: seq<string>, b: seq<string>)
    ensures [""] + a <= [""] + b <==> a <= b
  {
    if [""] + a <= [""] + b {
      assert forall k | 0 <= k < |a| :: a[k] == ([""] + a)[k + 1] == ([""] + b)[k + 1] == b[k];
    }
  }

  /** Among absolute paths, lying at or under another is having its segments as a prefix. */
  lemma PathOrder(x: seq<string>, y: seq<string>)
    requires Segments(x) && Segments(y) && y != []
    ensures AtOrUnder(Render(true, x), Render(true, y)) <==> y <= x
  {
    var p, q := Render(true, x), Render(true, y);
    SplitRendered(y);
    if x == [] {
      assert p == "/" && |q| > 1 by { assert Glue(y, '/') != "" by { GlueNotEmpty(y); } }
    } else {
      SplitRendered(x);
      Shifted(y, x);
      if y <= x { PrefixIsUnder(p, q); }
      if AtOrUnder(p, q) { UnderIsPrefix(p, q); }
    }
  }

  lemma GlueNotEmpty(s: seq<string>)
    requires s != [] && Segments(s)
    ensures Glue(s, '/') != ""
  {
    assert s[0] != "";
  }

  /** Rendering tells the segments. */
  lemma RenderedAlike(x: seq<string>, y: seq<string>)
    requires Segments(x) && Segments(y) && y != [] && Render(true, x) == Render(true, y)
    ensures x == y
  {
    PathOrder(x, y);
    assert y <= x && x != [];
    PathOrder(y, x);
  }

  function EnvSegments(user: string): seq<string> { ["etc", "openclaw-tenants", user + ".env"] }

  lemma ThreeSegments(a: string, b: string, c: string)
    ensures Render(true, [a, b, c]) == "/" + a + "/" + b + "/" + c
  {
    assert [a, b, c][1..] == [b, c] && [b, c][1..] == [c];
    assert Glue([b, c], '/') == b + "/" + c;
    assert "/" + (a + "/" + (b + "/" + c)) == "/" + a + "/" + b + "/" + c;
  }

  lemma TenantsDirText(a: string, b: string)
    requires a == "etc" && b == "openclaw-tenants"
    ensures "/" + a + "/" + b == TENANTS_DIR
  {
  }

  lemma EnvFileRendered(user: string)
    requires SafeUser(user)
    ensures Segments(EnvSegments(user)) && EnvFile(user) == Render(true, EnvSegments(user))
  {
    SafeUserIsPlain(user);
    ThreeSegments("etc", "openclaw-tenants", user + ".env");
    TenantsDirText("etc", "openclaw-tenants");
  }

  /******* Where the paths of a tenant's plans lie *******/

  /** A path at or below the user's directory in `base`. */
  ghost predicate InTree(base: seq<string>, user: string, p: string)
  {
    [""] + (base + [user]) <= Split(p, '/')
  }

  ghost predicate InHome(cfg: Settings, user: string, p: string) { InTree(Base(cfg), user, p) }

  ghost predicate OwnPath(cfg: Settings, accounts: Accounts, user: string, p: string)
  {
    InHome(cfg, user, p) || p == AccountHome(accounts, user) || p == EnvFile(user)
  }

  ghost predicate StepIsOwn(cfg: Settings, accounts: Accounts, t: Tenant, step: PlanStep)
  {
    || ForAllTenants(cfg, step)
    || Affects(accounts, step) == None
    || OwnPath(cfg, accounts, t.linuxUser, Affects(accounts, step).value)
  }

  lemma BaseSegmentsOk(cfg: Settings)
    ensures Segments(Base(cfg))
  {
    BaseIsResolved(cfg);
  }

  lemma RenderedInTree(base: seq<string>, user: string, rest: seq<string>)
    requires Segments(base) && SafeUser(user) && Segments(rest)
    ensures InTree(base, user, Render(true, base + [user] + rest))
  {
    SafeUserIsPlain(user);
    var segments := base + [user] + rest;
    assert Segments(segments);
    SplitRendered(segments);
    Shifted(base + [user], segments);
  }

  lemma HomeDirInHome(cfg: Settings, user: string)
    requires SafeUser(user) && Absolute(cfg)
    ensures InHome(cfg, user, HomeDir(cfg, user))
  {
    HomeDirShape(cfg, user);
    BaseSegmentsOk(cfg);
    RenderedInTree(Base(cfg), user, []);
    assert Base(cfg) + [user] + [] == Base(cfg) + [user];
  }

  lemma BelowInHome(cfg: Settings, user: string, p: string, name: string)
    requires InHome(cfg, user, p)
    ensures InHome(cfg, user, p + "/" + name)
  {
    SplitAppend(p, name, '/');
  }

  lemma OneBelowHome(cfg: Settings, user: string, name: string)
    requires SafeUser(user) && Plain(name)
    ensures InHome(cfg, user, Render(true, Base(cfg) + [user, name]))
  {
    BaseSegmentsOk(cfg);
    RenderedInTree(Base(cfg), user, [name]);
    assert Base(cfg) + [user] + [name] == Base(cfg) + [user, name];
  }

  lemma StateInHome(cfg: Settings, user: string, home: string)
    requires SafeUser(user) && Absolute(cfg) && home == JoinPosix([cfg.homeRoot, user, ".openclaw"])
    ensures InHome(cfg, user, home)
  {
    OpenclawHomeShape(cfg, user);
    OneBelowHome(cfg, user, ".openclaw");
  }

  lemma HomeDirSegments(cfg: Settings, user: string)
    requires SafeUser(user) && Absolute(cfg)
    ensures Split(HomeDir(cfg, user), '/') == [""] + (Base(cfg) + [user]) && Segments(Base(cfg) + [user])
  {
    HomeDirShape(cfg, user);
    SafeUserIsPlain(user);
    BaseSegmentsOk(cfg);
    SplitRendered(Base(cfg) + [user]);
  }

  lemma WorkspaceInHome(cfg: Settings, user: string, workspace: string)
    requires SafeUser(user) && Absolute(cfg) && WorkspaceIn(cfg, user)
    requires workspace == JoinPosix([cfg.homeRoot, user, cfg.workspaceDir])
    ensures InHome(cfg, user, workspace)
  {
    HomeDirSegments(cfg, user);
    UnderIsPrefix(workspace, HomeDir(cfg, user));
  }

  ghost predicate AllOwn(cfg: Settings, accounts: Accounts, t: Tenant, plan: seq<PlanStep>)
  {
    forall step | step in plan :: StepIsOwn(cfg, accounts, t, step)
  }

  lemma OwnAppend(cfg: Settings, accounts: Accounts, t: Tenant, a: seq<PlanStep>, b: seq<PlanStep>)
    requires AllOwn(cfg, accounts, t, a) && AllOwn(cfg, accounts, t, b)
    ensures AllOwn(cfg, accounts, t, a + b)
  {
    assert forall step :: step in a + b <==> step in a || step in b;
  }

  /** A step that affects its last argument. */
  lemma FileStepIsOwn(cfg: Settings, accounts: Accounts, t: Tenant, step: PlanStep, p: string)
    requires step.args != [] && step.args[|step.args| - 1] == p && OwnPath(cfg, accounts, t.linuxUser, p)
    requires step.command != "/usr/sbin/useradd" && step.command != "/usr/sbin/userdel"
    ensures AllOwn(cfg, accounts, t, [step])
  {
  }

  lemma AccountStepAffects(accounts: Accounts, step: PlanStep)
    requires step.args != [] && (step.command == "/usr/sbin/useradd" || step.command == "/usr/sbin/userdel")
    ensures Affects(accounts, step) == Some(AccountHome(accounts, step.args[|step.args| - 1]))
  {
    assert step.command[5] == 's' && "/usr/bin/systemctl"[5] == 'b';
  }

  lemma AccountStepIsOwn(cfg: Settings, accounts: Accounts, t: Tenant, step: PlanStep)
    requires step.args != [] && step.args[|step.args| - 1] == t.linuxUser
    requires step.command == "/usr/sbin/useradd" || step.command == "/usr/sbin/userdel"
    ensures AllOwn(cfg, accounts, t, [step])
  {
    AccountStepAffects(accounts, step);
  }

  lemma ServiceStepIsOwn(cfg: Settings, accounts: Accounts, t: Tenant, step: PlanStep)
    requires step.command == "/usr/bin/systemctl"
    ensures AllOwn(cfg, accounts, t, [step])
  {
  }

  lemma OwnThree(cfg: Settings, accounts: Accounts, t: Tenant, a: PlanStep, b: PlanStep, c: PlanStep)
    requires AllOwn(cfg, accounts, t, [a]) && AllOwn(cfg, accounts, t, [b]) && AllOwn(cfg, accounts, t, [c])
    ensures AllOwn(cfg, accounts, t, [a, b, c])
  {
    assert a in [a] && b in [b] && c in [c];
  }

  lemma StateStepsOwn(cfg: Settings, accounts: Accounts, t: Tenant)
    requires TenantOf(cfg, t) && Absolute(cfg)
    ensures AllOwn(cfg, accounts, t, [CreateStateStep(t)]) && AllOwn(cfg, accounts, t, [RemoveStateStep(t)])
  {
    StateInHome(cfg, t.linuxUser, t.openclawHome);
    FileStepIsOwn(cfg, accounts, t, CreateStateStep(t), t.openclawHome);
    FileStepIsOwn(cfg, accounts, t, RemoveStateStep(t), t.openclawHome);
  }

  lemma WorkspaceStepsOwn(cfg: Settings, accounts: Accounts, t: Tenant)
    requires TenantOf(cfg, t) && Absolute(cfg) && WorkspaceIn(cfg, t.linuxUser)
    ensures AllOwn(cfg, accounts, t, [CreateWorkspaceStep(t)]) && AllOwn(cfg, accounts, t, [RemoveWorkspaceStep(t)])
  {
    WorkspaceInHome(cfg, t.linuxUser, t.workspaceRoot);
    FileStepIsOwn(cfg, accounts, t, CreateWorkspaceStep(t), t.workspaceRoot);
    FileStepIsOwn(cfg, accounts, t, RemoveWorkspaceStep(t), t.workspaceRoot);
  }

  lemma AccountStepsOwn(cfg: Settings, accounts: Accounts, t: Tenant)
    requires TenantOf(cfg, t) && Absolute(cfg) && WorkspaceIn(cfg, t.linuxUser)
    ensures AllOwn(cfg, accounts, t, [CreateUserStep(t), CreateStateStep(t), CreateWorkspaceStep(t)])
  {
    AccountStepIsOwn(cfg, accounts, t, CreateUserStep(t));
    StateStepsOwn(cfg, accounts, t);
    WorkspaceStepsOwn(cfg, accounts, t);
    OwnThree(cfg, accounts, t, CreateUserStep(t), CreateStateStep(t), CreateWorkspaceStep(t));
  }

  lemma SeedInHome(cfg: Settings, user: string, home: string)
    requires InHome(cfg, user, home)
    ensures InHome(cfg, user, home + "/openclaw.json")
  {
    BelowInHome(cfg, user, home, "openclaw.json");
    assert home + "/" + "openclaw.json" == home + "/openclaw.json";
  }

  lemma SeedStepOwn(cfg: Settings, accounts: Accounts, t: Tenant)
    requires TenantOf(cfg, t) && Absolute(cfg)
    ensures AllOwn(cfg, accounts, t, [SeedTemplateStep(cfg, t)])
  {
    StateInHome(cfg, t.linuxUser, t.openclawHome);
    SeedInHome(cfg, t.linuxUser, t.openclawHome);
    FileStepIsOwn(cfg, accounts, t, SeedTemplateStep(cfg, t), t.openclawHome + "/openclaw.json");
  }

  lemma ChownStepOwn(cfg: Settings, accounts: Accounts, t: Tenant)
    requires TenantOf(cfg, t) && Absolute(cfg)
    ensures AllOwn(cfg, accounts, t, [SetOwnerStep(cfg, t)])
  {
    HomeDirInHome(cfg, t.linuxUser);
    FileStepIsOwn(cfg, accounts, t, SetOwnerStep(cfg, t), HomeDir(cfg, t.linuxUser));
  }

  lemma OwnershipStepsOwn(cfg: Settings, accounts: Accounts, t: Tenant)
    requires TenantOf(cfg, t) && Absolute(cfg)
    ensures AllOwn(cfg, accounts, t, [SeedTemplateStep(cfg, t), SetOwnerStep(cfg, t), TenantsDirStep()])
  {
    SeedStepOwn(cfg, accounts, t);
    ChownStepOwn(cfg, accounts, t);
    assert AllOwn(cfg, accounts, t, [TenantsDirStep()]);
    OwnThree(cfg, accounts, t, SeedTemplateStep(cfg, t), SetOwnerStep(cfg, t), TenantsDirStep());
  }

  lemma GatewayStepsOwn(cfg: Settings, accounts: Accounts, t: Tenant)
    ensures AllOwn(cfg, accounts, t, [InstallUnitStep(cfg), InstallEnvStep(cfg, t), ReloadStep()]
      + [EnableGatewayStep(t)])
  {
    assert AllOwn(cfg, accounts, t, [InstallUnitStep(cfg)]);
    FileStepIsOwn(cfg, accounts, t, InstallEnvStep(cfg, t), EnvFile(t.linuxUser));
    ServiceStepIsOwn(cfg, accounts, t, ReloadStep());
    ServiceStepIsOwn(cfg, accounts, t, EnableGatewayStep(t));
    OwnThree(cfg, accounts, t, InstallUnitStep(cfg), InstallEnvStep(cfg, t), ReloadStep());
    OwnAppend(cfg, accounts, t, [InstallUnitStep(cfg), InstallEnvStep(cfg, t), ReloadStep()], [EnableGatewayStep(t)]);
  }

  lemma BootstrapOwn(cfg: Settings, accounts: Accounts, t: Tenant)
    requires TenantOf(cfg, t) && Absolute(cfg) && WorkspaceIn(cfg, t.linuxUser)
    ensures AllOwn(cfg, accounts, t, BootstrapPlan(cfg, t))
  {
    AccountStepsOwn(cfg, accounts, t);
    OwnershipStepsOwn(cfg, accounts, t);
    GatewayStepsOwn(cfg, accounts, t);
    var a := [CreateUserStep(t), CreateStateStep(t), CreateWorkspaceStep(t)];
    var b := [SeedTemplateStep(cfg, t), SetOwnerStep(cfg, t), TenantsDirStep()];
    OwnAppend(cfg, accounts, t, a, b);
    OwnAppend(cfg, accounts, t, a + b, [InstallUnitStep(cfg), InstallEnvStep(cfg, t), ReloadStep()]
      + [EnableGatewayStep(t)]);
    PlanParts(cfg, t);
  }

  lemma AlwaysStepsOwn(cfg: Settings, accounts: Accounts, t: Tenant)
    ensures AllOwn(cfg, accounts, t, [DisableGatewayStep(t)] + [RemoveEnvStep(t)])
  {
    ServiceStepIsOwn(cfg, accounts, t, DisableGatewayStep(t));
    FileStepIsOwn(cfg, accounts, t, RemoveEnvStep(t), EnvFile(t.linuxUser));
    OwnAppend(cfg, accounts, t, [DisableGatewayStep(t)], [RemoveEnvStep(t)]);
  }

  lemma RemovalStepsOwn(cfg: Settings, accounts: Accounts, t: Tenant)
    requires TenantOf(cfg, t) && Absolute(cfg) && WorkspaceIn(cfg, t.linuxUser)
    ensures AllOwn(cfg, accounts, t, [RemoveStateStep(t)] + [RemoveWorkspaceStep(t)])
  {
    StateStepsOwn(cfg, accounts, t);
    WorkspaceStepsOwn(cfg, accounts, t);
    OwnAppend(cfg, accounts, t, [RemoveStateStep(t)], [RemoveWorkspaceStep(t)]);
  }

  lemma DecommissionOwn(cfg: Settings, accounts: Accounts, t: Tenant, options: RemovalOptions)
    requires TenantOf(cfg, t) && Absolute(cfg) && WorkspaceIn(cfg, t.linuxUser)
    ensures AllOwn(cfg, accounts, t, DecommissionPlan(t, options))
  {
    DecommissionParts(t, options);
    AlwaysStepsOwn(cfg, accounts, t);
    var always := [DisableGatewayStep(t)] + [RemoveEnvStep(t)];
    if options.removeLinuxUser {
      AccountStepIsOwn(cfg, accounts, t, RemoveUserStep(t));
      OwnAppend(cfg, accounts, t, always, [RemoveUserStep(t)]);
    } else if options.removeStateDirs {
      RemovalStepsOwn(cfg, accounts, t);
      OwnAppend(cfg, accounts, t, always, [RemoveStateStep(t)] + [RemoveWorkspaceStep(t)]);
    }
  }

  /** Everything a tenant's plans touch is in the tenant's home, is the account's home or the tenant's environment
      file. */
  lemma TouchedIsOwn(cfg: Settings, accounts: Accounts, t: Tenant, p: string)
    requires TenantOf(cfg, t) && Absolute(cfg) && WorkspaceIn(cfg, t.linuxUser)
    ensures Touches(cfg, accounts, t, p) ==> OwnPath(cfg, accounts, t.linuxUser, p)
  {
    if Touches(cfg, accounts, t, p) {
      var step :| InPlanOf(cfg, t, step) && !ForAllTenants(cfg, step) && Affects(accounts, step) == Some(p);
      assert StepIsOwn(cfg, accounts, t, step) by {
        if step in BootstrapPlan(cfg, t) {
          BootstrapOwn(cfg, accounts, t);
        } else {
          var options :| step in DecommissionPlan(t, options);
          DecommissionOwn(cfg, accounts, t, options);
        }
      }
    }
  }

  /******* The condition on segments *******/

  predicate BelowUser(x: seq<string>, y: seq<string>, u: string) { SafeUser(u) && y + [u] <= x }

  /** The base directory x stands in the way of the environment files. */
  ghost predicate InTheWay(x: seq<string>)
  {
    x == [] || x == ["etc"] || exists u :: SafeUser(u) && EnvSegments(u) <= x
  }

  ghost predicate Separate(x: seq<string>, y: seq<string>) { forall u :: !BelowUser(x, y, u) && !BelowUser(y, x, u) }

  /** Users' directories in two bases can only meet if one base lies in a user's directory of the other. */
  lemma TreesMeet(x: seq<string>, y: seq<string>, a: string, b: string, s: seq<string>)
    requires SafeUser(a) && SafeUser(b) && a != b && x + [a] <= s && y + [b] <= s
    ensures BelowUser(y, x, a) || BelowUser(x, y, b)
  {
    assert (x + [a])[|x|] == a && (y + [b])[|y|] == b;
    assert |x| != |y|;
    if |x| < |y| {
      assert forall k | 0 <= k <= |x| :: (x + [a])[k] == s[k] == (y + [b])[k] == y[k];
    } else {
      assert forall k | 0 <= k <= |y| :: (y + [b])[k] == s[k] == (x + [a])[k] == x[k];
    }
  }

  lemma NoDotUser(user: string, other: string)
    requires SafeUser(user)
    ensures user != other + ".env"
  {
    SafeUserIsPlain(user);
    assert '.' in other + ".env" by {
      assert (other + ".env")[|other|] == '.';
    }
  }

  /** A user's directory and an environment file can only meet if the base is in the way. */
  lemma TreeMeetsEnvFile(x: seq<string>, a: string, b: string, s: seq<string>)
    requires SafeUser(a) && SafeUser(b) && x + [a] <= s && EnvSegments(b) <= s
    ensures InTheWay(x)
  {
    var home, env := x + [a], EnvSegments(b);
    assert forall k | 0 <= k < |x| :: x[k] == home[k] == s[k];
    assert home[|x|] == a;
    if |x| == 1 {
      assert x[0] == s[0] == env[0];
      assert x == ["etc"];
    } else if |x| == 2 {
      assert a == s[2] == env[2];
      NoDotUser(a, b);
    } else if |x| >= 3 {
      assert forall k | 0 <= k < 3 :: env[k] == s[k] == x[k];
    }
  }

  /******* Sufficiency *******/

  lemma InTreeSegments(base: seq<string>, user: string, p: string, s: seq<string>)
    requires InTree(base, user, p) && Split(p, '/') == [""] + s
    ensures base + [user] <= s
  {
    Shifted(base + [user], s);
  }

  /** The segments after the leading slash of a path in a user's directory. */
  ghost function Below(p: string): seq<string> { Split(p, '/')[1..] }

  lemma TreeBelow(base: seq<string>, user: string, p: string)
    requires InTree(base, user, p)
    ensures Split(p, '/') == [""] + Below(p) && base + [user] <= Below(p)
  {
    var s := Split(p, '/');
    assert s[0] == ([""] + (base + [user]))[0] == "";
    assert s == [s[0]] + s[1..];
    InTreeSegments(base, user, p, Below(p));
  }

  lemma EnvBelow(user: string)
    requires SafeUser(user)
    ensures Split(EnvFile(user), '/') == [""] + EnvSegments(user) && Below(EnvFile(user)) == EnvSegments(user)
  {
    EnvFileRendered(user);
    SplitRendered(EnvSegments(user));
    assert ([""] + EnvSegments(user))[1..] == EnvSegments(user);
  }

  lemma UnderBelow(p: string, q: string)
    requires AtOrUnder(p, q)
    ensures Below(q) <= Below(p)
  {
    UnderIsPrefix(p, q);
    var s, r := Split(p, '/'), Split(q, '/');
    assert forall k | 0 <= k < |r| - 1 :: r[1..][k] == r[k + 1] == s[k + 1] == s[1..][k];
  }

  /** A path of the tenant's own lies in its directory of one of the bases, or is its environment file. */
  lemma OwnBelow(cfg: Settings, accounts: Accounts, user: string, p: string) returns (x: seq<string>)
    requires SafeUser(user) && OwnPath(cfg, accounts, user, p)
    ensures p == EnvFile(user) || ((x == Base(cfg) || x == accounts) && x + [user] <= Below(p))
  {
    x := Base(cfg);
    if InHome(cfg, user, p) {
      TreeBelow(x, user, p);
    } else if p == AccountHome(accounts, user) {
      x := accounts;
      RenderedInTree(x, user, []);
      assert x + [user] + [] == x + [user];
      TreeBelow(x, user, p);
    }
  }

  lemma EnvSegmentsApart(a: string, b: string)
    requires a != b
    ensures !(EnvSegments(b) <= EnvSegments(a))
  {
    assert (a + ".env")[..|a|] == a && (b + ".env")[..|b|] == b;
    assert EnvSegments(b)[2] == b + ".env" && EnvSegments(a)[2] == a + ".env";
  }

  lemma OwnPathsApart(cfg: Settings, accounts: Accounts, a: string, b: string, p: string, q: string)
    requires SafeUser(a) && SafeUser(b) && a != b
    requires OwnPath(cfg, accounts, a, p) && OwnPath(cfg, accounts, b, q) && AtOrUnder(p, q)
    ensures InTheWay(Base(cfg)) || InTheWay(accounts) || !Separate(Base(cfg), accounts)
  {
    UnderBelow(p, q);
    EnvBelow(a);
    EnvBelow(b);
    var x := OwnBelow(cfg, accounts, a, p);
    var y := OwnBelow(cfg, accounts, b, q);
    EnvSegmentsApart(a, b);
    if p == EnvFile(a) && q != EnvFile(b) {
      TreeMeetsEnvFile(y, b, a, Below(p));
    } else if p != EnvFile(a) && q == EnvFile(b) {
      TreeMeetsEnvFile(x, a, b, Below(p));
    } else if p != EnvFile(a) && q != EnvFile(b) {
      TreesMeet(x, y, a, b, Below(p));
      NotBelowItself(x, a, b);
    }
  }

  lemma NotBelowItself(x: seq<string>, a: string, b: string)
    ensures !BelowUser(x, x, a) && !BelowUser(x, x, b)
  {
  }

  lemma IsolatedIf(cfg: Settings, accounts: Accounts)
    requires Absolute(cfg) && WorkspacesInside(cfg)
    requires !InTheWay(Base(cfg)) && !InTheWay(accounts) && Separate(Base(cfg), accounts)
    ensures Isolated(cfg, accounts)
  {
    forall a, b, p, q | TenantOf(cfg, a) && TenantOf(cfg, b) && a.linuxUser != b.linuxUser
      && Touches(cfg, accounts, a, p) && Touches(cfg, accounts, b, q)
      ensures !AtOrUnder(p, q)
    {
      TouchedIsOwn(cfg, accounts, a, p);
      TouchedIsOwn(cfg, accounts, b, q);
      if AtOrUnder(p, q) { OwnPathsApart(cfg, accounts, a.linuxUser, b.linuxUser, p, q); }
    }
  }

  /******* Necessity *******/

  function SomeTenant(cfg: Settings, user: string): Tenant
  {
    Tenant("abc", user, JoinPosix([cfg.homeRoot, user, ".openclaw"]), JoinPosix([cfg.homeRoot, user, cfg.workspaceDir]))
  }

  lemma SomeTenantExists(cfg: Settings, user: string)
    requires SafeUser(user) && cfg.templateJson != ""
    ensures TenantOf(cfg, SomeTenant(cfg, user))
  {
    assert NewTenant(cfg, "abc", user) == Some(SomeTenant(cfg, user));
  }

  lemma NotShared(cfg: Settings, step: PlanStep)
    requires |step.args| != 8 && (step.args == [] || step.args[0] != "-n")
    ensures !ForAllTenants(cfg, step)
  {
    assert |TenantsDirStep().args| == 8 && InstallUnitStep(cfg).args[0] == "-n";
  }

  lemma TouchesAccount(cfg: Settings, accounts: Accounts, t: Tenant)
    ensures Touches(cfg, accounts, t, AccountHome(accounts, t.linuxUser))
  {
    var step := CreateUserStep(t);
    assert InPlanOf(cfg, t, step) by {
      assert BootstrapPlan(cfg, t)[0] == step;
    }
    NotShared(cfg, step);
    AccountStepAffects(accounts, step);
  }

  lemma ChownAffects(cfg: Settings, accounts: Accounts, t: Tenant)
    ensures Affects(accounts, SetOwnerStep(cfg, t)) == Some(HomeDir(cfg, t.linuxUser))
  {
    var command := SetOwnerStep(cfg, t).command;
    assert command[5] == 'b' && "/usr/sbin/useradd"[5] == 's' && "/usr/sbin/userdel"[5] == 's';
    assert command[9] == 'c' && "/usr/bin/systemctl"[9] == 's';
  }

  lemma TouchesHome(cfg: Settings, accounts: Accounts, t: Tenant)
    ensures Touches(cfg, accounts, t, HomeDir(cfg, t.linuxUser))
  {
    var step := SetOwnerStep(cfg, t);
    assert InPlanOf(cfg, t, step) by {
      assert BootstrapPlan(cfg, t)[4] == step;
    }
    assert step.args[0] == "-R";
    NotShared(cfg, step);
    ChownAffects(cfg, accounts, t);
  }

  lemma RmAffects(accounts: Accounts, step: PlanStep)
    requires step.command == "/usr/bin/rm" && step.args != []
    ensures Affects(accounts, step) == Some(step.args[|step.args| - 1])
  {
    assert |step.command| == 11 && |"/usr/bin/systemctl"| == 18 && |"/usr/sbin/useradd"| == 17 == |"/usr/sbin/userdel"|;
  }

  lemma RemoveEnvInPlan(cfg: Settings, t: Tenant)
    ensures InPlanOf(cfg, t, RemoveEnvStep(t))
  {
    var options := RemovalOptions(false, false);
    assert DecommissionPlan(t, options)[1] == RemoveEnvStep(t);
    assert RemoveEnvStep(t) in DecommissionPlan(t, options);
  }

  lemma TouchesEnvFile(cfg: Settings, accounts: Accounts, t: Tenant)
    ensures Touches(cfg, accounts, t, EnvFile(t.linuxUser))
  {
    RemoveEnvInPlan(cfg, t);
    assert RemoveEnvStep(t).args[0] == "-f";
    NotShared(cfg, RemoveEnvStep(t));
    RmAffects(accounts, RemoveEnvStep(t));
  }

  /** The tenant with this user touches its directory in each of the two bases. */
  lemma TouchesTree(cfg: Settings, accounts: Accounts, x: seq<string>, user: string)
    requires Absolute(cfg) && SafeUser(user) && (x == Base(cfg) || x == accounts)
    ensures Segments(x + [user]) && Touches(cfg, accounts, SomeTenant(cfg, user), Render(true, x + [user]))
  {
    SafeUserIsPlain(user);
    BaseSegmentsOk(cfg);
    HomeDirShape(cfg, user);
    if x == Base(cfg) {
      TouchesHome(cfg, accounts, SomeTenant(cfg, user));
    } else {
      TouchesAccount(cfg, accounts, SomeTenant(cfg, user));
    }
  }

  /** Two users of which one's path lies at or under the other's refute isolation. */
  lemma NotIsolated(cfg: Settings, accounts: Accounts, a: string, b: string, p: seq<string>, q: seq<string>)
    requires cfg.templateJson != "" && SafeUser(a) && SafeUser(b) && a != b
    requires Segments(p) && Segments(q) && q != [] && q <= p
    ensures
      Touches(cfg, accounts, SomeTenant(cfg, a), Render(true, p)) ==>
      Touches(cfg, accounts, SomeTenant(cfg, b), Render(true, q)) ==>
      !Isolated(cfg, accounts)
  {
    PathOrder(p, q);
    SomeTenantExists(cfg, a);
    SomeTenantExists(cfg, b);
    if Apart(cfg, accounts, SomeTenant(cfg, a), SomeTenant(cfg, b)) {
      assert !(Touches(cfg, accounts, SomeTenant(cfg, a), Render(true, p))
               && Touches(cfg, accounts, SomeTenant(cfg, b), Render(true, q)));
    }
  }

  lemma TreeOverEnvFile(cfg: Settings, accounts: Accounts, x: seq<string>, a: string, b: string)
    requires Absolute(cfg) && cfg.templateJson != "" && (x == Base(cfg) || x == accounts)
    requires SafeUser(a) && SafeUser(b) && a != b && x + [b] <= EnvSegments(a)
    ensures !Isolated(cfg, accounts)
  {
    TouchesEnvFile(cfg, accounts, SomeTenant(cfg, a));
    EnvFileRendered(a);
    TouchesTree(cfg, accounts, x, b);
    NotIsolated(cfg, accounts, a, b, EnvSegments(a), x + [b]);
  }

  function Another(u: string): (v: string)
    ensures SafeUser(v) && v != u
  {
    if u == "aa" then "bb" else "aa"
  }

  lemma TreeUnderEnvFile(cfg: Settings, accounts: Accounts, x: seq<string>, u: string)
    requires Absolute(cfg) && cfg.templateJson != "" && (x == Base(cfg) || x == accounts)
    requires SafeUser(u) && EnvSegments(u) <= x
    ensures !Isolated(cfg, accounts)
  {
    var a := Another(u);
    TouchesTree(cfg, accounts, x, a);
    TouchesEnvFile(cfg, accounts, SomeTenant(cfg, u));
    EnvFileRendered(u);
    NotIsolated(cfg, accounts, a, u, x + [a], EnvSegments(u));
  }

  lemma UsersOfEtc(etc: string, tenants: string)
    requires etc == "etc" && tenants == "openclaw-tenants"
    ensures SafeUser(etc) && SafeUser(tenants) && Another(etc) != etc && Another(tenants) != tenants
  {
  }

  lemma InTheWayIsNotIsolated(cfg: Settings, accounts: Accounts, x: seq<string>)
    requires Absolute(cfg) && cfg.templateJson != "" && (x == Base(cfg) || x == accounts) && InTheWay(x)
    ensures !Isolated(cfg, accounts)
  {
    var etc, tenants := "etc", "openclaw-tenants";
    UsersOfEtc(etc, tenants);
    if x == [] {
      assert x + [etc] == [etc] <= EnvSegments(Another(etc));
      TreeOverEnvFile(cfg, accounts, x, Another(etc), etc);
    } else if x == ["etc"] {
      assert x + [tenants] == [etc, tenants] <= EnvSegments(Another(tenants));
      TreeOverEnvFile(cfg, accounts, x, Another(tenants), tenants);
    } else {
      var u :| SafeUser(u) && EnvSegments(u) <= x;
      TreeUnderEnvFile(cfg, accounts, x, u);
    }
  }

  lemma NestedIsNotIsolated(cfg: Settings, accounts: Accounts, x: seq<string>, y: seq<string>, u: string)
    requires Absolute(cfg) && cfg.templateJson != "" && BelowUser(x, y, u)
    requires (x == Base(cfg) || x == accounts) && (y == Base(cfg) || y == accounts)
    ensures !Isolated(cfg, accounts)
  {
    var a := Another(u);
    TouchesTree(cfg, accounts, x, a);
    TouchesTree(cfg, accounts, y, u);
    assert y + [u] <= x + [a];
    NotIsolated(cfg, accounts, a, u, x + [a], y + [u]);
  }

  /** How the workspace name leads on from a user's home, the same for every user. */
  ghost function WorkspaceWalk(cfg: Settings): Walk
  {
    WalkFrom(Base(cfg), [], Split(StripSlashes(cfg.workspaceDir), '/'))
  }

  lemma WorkspaceWalks(cfg: Settings, user: string)
    requires SafeUser(user) && Absolute(cfg)
    ensures var w := WorkspaceWalk(cfg);
      && (w.Inside? ==> AllPlain(w.rest))
      && JoinPosix([cfg.homeRoot, user, cfg.workspaceDir]) ==
         Render(true, if w.Inside? then Base(cfg) + [user] + w.rest else w.path)
  {
    SafeUserIsPlain(user);
    JoinWalks(cfg.homeRoot, user, cfg.workspaceDir);
    WalkFromIs(Base(cfg), user, [], Split(StripSlashes(cfg.workspaceDir), '/'));
    assert Base(cfg) + [user] + [] == Base(cfg) + [user];
  }

  lemma InsideStaysInside(cfg: Settings, user: string)
    requires SafeUser(user) && Absolute(cfg)
    ensures WorkspaceWalk(cfg).Inside? ==> WorkspaceIn(cfg, user)
  {
    var w := WorkspaceWalk(cfg);
    WorkspaceWalks(cfg, user);
    if w.Inside? {
      HomeDirSegments(cfg, user);
      HomeDirShape(cfg, user);
      assert Segments(Base(cfg) + [user] + w.rest);
      PathOrder(Base(cfg) + [user] + w.rest, Base(cfg) + [user]);
    }
  }

  lemma TouchesWorkspace(cfg: Settings, accounts: Accounts, t: Tenant)
    ensures Touches(cfg, accounts, t, t.workspaceRoot)
  {
    var options, step := RemovalOptions(false, true), RemoveWorkspaceStep(t);
    assert InPlanOf(cfg, t, step) by {
      assert DecommissionPlan(t, options)[3] == step;
    }
    assert step.args[0] == "-rf";
    NotShared(cfg, step);
    RmAffects(accounts, step);
  }

  /** A workspace name that leads out of the homes leads all tenants to one directory. */
  lemma SharedWorkspaceIsNotIsolated(cfg: Settings, accounts: Accounts)
    requires Absolute(cfg) && cfg.templateJson != ""
    ensures WorkspaceWalk(cfg).Outside? ==> !Isolated(cfg, accounts)
  {
    if WorkspaceWalk(cfg).Outside? {
      var a, b := SomeTenant(cfg, "aa"), SomeTenant(cfg, "bb");
      SomeTenantExists(cfg, "aa");
      SomeTenantExists(cfg, "bb");
      WorkspaceWalks(cfg, "aa");
      WorkspaceWalks(cfg, "bb");
      TouchesWorkspace(cfg, accounts, a);
      TouchesWorkspace(cfg, accounts, b);
      assert AtOrUnder(a.workspaceRoot, b.workspaceRoot);
      assert !Apart(cfg, accounts, a, b);
    }
  }

  /** So does the name `..`: every tenant's workspace is the home root itself. */
  lemma WorkspaceAboveTheHome(cfg: Settings, accounts: Accounts, t: Tenant)
    requires Absolute(cfg) && cfg.templateJson != "" && cfg.workspaceDir == ".." && TenantOf(cfg, t)
    ensures t.workspaceRoot == JoinPosix([cfg.homeRoot]) && !Isolated(cfg, accounts)
  {
    assert StripSlashes("..") == "..";
    SplitWithout("..", '/');
    assert [".."][1..] == [];
    assert WorkspaceWalk(cfg) == Outside(Base(cfg));
    WorkspaceWalks(cfg, t.linuxUser);
    BaseIsResolved(cfg);
    SharedWorkspaceIsNotIsolated(cfg, accounts);
  }

  /** With the tenants' home root at `/home/bob` and accounts in `/home`, removing the account bob removes the home
      root. */
  lemma RootInAnAccountHome(cfg: Settings, accounts: Accounts, bob: string)
    requires Absolute(cfg) && cfg.templateJson != "" && SafeUser(bob)
    requires accounts == ["home"] && Base(cfg) == ["home", bob]
    ensures !Isolated(cfg, accounts)
  {
    assert accounts + [bob] == Base(cfg);
    NestedIsNotIsolated(cfg, accounts, Base(cfg), accounts, bob);
  }

  /******* Main result *******/

  lemma ClearOfEtcExactly(x: seq<string>)
    requires Segments(x)
    ensures ClearOfEtc(Render(true, x)) <==> !InTheWay(x)
  {
    var dir := Render(true, x);
    forall u | SafeUser(u) ensures AtOrUnder(dir, EnvFile(u)) <==> EnvSegments(u) <= x {
      EnvFileRendered(u);
      PathOrder(x, EnvSegments(u));
    }
    assert Render(true, ["etc"]) == "/etc";
    if dir == "/etc" { RenderedAlike(x, ["etc"]); }
    if x != [] { GlueNotEmpty(x); }
  }

  lemma NotNestedExactly(cfg: Settings, accounts: Accounts)
    requires Absolute(cfg)
    ensures NotNested(cfg, accounts) <==> Separate(Base(cfg), accounts)
  {
    BaseIsResolved(cfg);
    BaseSegmentsOk(cfg);
    forall u | SafeUser(u)
      ensures AtOrUnder(JoinPosix([cfg.homeRoot]), AccountHome(accounts, u)) <==> BelowUser(Base(cfg), accounts, u)
      ensures AtOrUnder(Render(true, accounts), HomeDir(cfg, u)) <==> BelowUser(accounts, Base(cfg), u)
    {
      SafeUserIsPlain(u);
      HomeDirShape(cfg, u);
      PathOrder(Base(cfg), accounts + [u]);
      PathOrder(accounts, Base(cfg) + [u]);
    }
  }

  /** For an absolute home root, any account base and any workspace name: the plans of any two tenants with different
      linux users are apart (no path that one deletes, re-owns or writes for its tenant lies at or under such a path of
      the other) if and only if neither the normalised root nor the account base is `/`, `/etc` or at or under a tenant
      environment file, the root is not in an account's home, the account base not in a tenant's home, and the
      workspace name does not lead out of the homes. */
  lemma TenantsAreIsolated(cfg: Settings, accounts: Accounts)
    requires IsAbsolute(StripSlashes(cfg.homeRoot)) && cfg.templateJson != ""
    ensures Isolated(cfg, accounts) <==>
      && ClearOfEtc(JoinPosix([cfg.homeRoot])) && ClearOfEtc(Render(true, accounts))
      && NotNested(cfg, accounts) && WorkspacesInside(cfg)
  {
    BaseIsResolved(cfg);
    BaseSegmentsOk(cfg);
    ClearOfEtcExactly(Base(cfg));
    ClearOfEtcExactly(accounts);
    NotNestedExactly(cfg, accounts);
    if InTheWay(Base(cfg)) {
      InTheWayIsNotIsolated(cfg, accounts, Base(cfg));
    } else if InTheWay(accounts) {
      InTheWayIsNotIsolated(cfg, accounts, accounts);
    } else if !Separate(Base(cfg), accounts) {
      var u :| BelowUser(Base(cfg), accounts, u) || BelowUser(accounts, Base(cfg), u);
      if BelowUser(Base(cfg), accounts, u) {
        NestedIsNotIsolated(cfg, accounts, Base(cfg), accounts, u);
      } else {
        NestedIsNotIsolated(cfg, accounts, accounts, Base(cfg), u);
      }
    } else if WorkspacesInside(cfg) {
      IsolatedIf(cfg, accounts);
    } else {
      var u :| SafeUser(u) && !WorkspaceIn(cfg, u);
      InsideStaysInside(cfg, u);
      SharedWorkspaceIsNotIsolated(cfg, accounts);
    }
  }
}
