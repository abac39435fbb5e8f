/**
 The plan builder and the daemon's allowlist agree: which plans the daemon accepts in full.
 */
module PlanAcceptance {
  import opened Options
  import opened PosixPaths
  import opened TenantPlans
  import opened Allowlist

  /** The home root, normalised, is a directory the allowlist's patterns can extend. */
  predicate UsableHomeRoot(cfg: Settings)
  {
    JoinPosix([cfg.homeRoot]) != "/" && JoinPosix([cfg.homeRoot]) != "."
  }

  predicate PlainWorkspace(cfg: Settings)
  {
    AllPlain(Split(cfg.workspaceDir, '/'))
  }

  /******* Program names *******/

  lemma ProgramOf(dir: string, name: string)
    requires '/' !in name
    ensures Program(dir + "/" + name) == name
  {
    SplitAppend(dir, name, '/');
    SplitWithout(name, '/');
  }

  /** Where the plans find a program. */
  function Path(tool: Tool): string
  {
    match tool
    case Useradd => "/usr/sbin/useradd"
    case Userdel => "/usr/sbin/userdel"
    case Install => "/usr/bin/install"
    case Cp => "/usr/bin/cp"
    case Chown => "/usr/bin/chown"
    case Rm => "/usr/bin/rm"
    case NoOp => "/usr/bin/true"
    case Systemctl => "/usr/bin/systemctl"
    case Unlisted => ""
  }

  function Directory(tool: Tool): string { if tool == Useradd || tool == Userdel then "/usr/sbin" else "/usr/bin" }

  function Name(tool: Tool): string
  {
    match tool
    case Useradd => "useradd"
    case Userdel => "userdel"
    case Install => "install"
    case Cp => "cp"
    case Chown => "chown"
    case Rm => "rm"
    case NoOp => "true"
    case Systemctl => "systemctl"
    case Unlisted => ""
  }

  lemma ToolOfName(tool: Tool)
    ensures '/' !in Name(tool) && ToolOf(Name(tool)) == tool
  {
  }

  lemma PathInDirectory(tool: Tool)
    requires tool != Unlisted
    ensures Path(tool) == Directory(tool) + "/" + Name(tool)
  {
  }

  /** A step that calls a program by its path is judged by the rules for the program. */
  lemma StepVerdict(cfg: Settings, step: PlanStep, tool: Tool)
    requires tool != Unlisted && step.command == Path(tool)
    ensures Accepts(cfg, step) <==> CheckArgs(cfg, tool, step.command, step.args) == Allowed
  {
    PathInDirectory(tool);
    ToolOfName(tool);
    ProgramOf(Directory(tool), Name(tool));
  }

  /******* Path shapes *******/

  lemma SafeUserIsPlain(user: string)
    requires SafeUser(user)
    ensures Plain(user) && '.' !in user && ':' !in user
  {
  }

  ghost function Absolute(cfg: Settings): bool { IsAbsolute(StripSlashes(cfg.homeRoot)) }

  ghost function Base(cfg: Settings): seq<string> { BaseSegments(cfg.homeRoot) }

  lemma BaseIsResolved(cfg: Settings)
    ensures forall k | 0 <= k < |Base(cfg)| :: '/' !in Base(cfg)[k] && Base(cfg)[k] != "" && Base(cfg)[k] != "."
    ensures JoinPosix([cfg.homeRoot]) == Render(Absolute(cfg), Base(cfg))
  {
    JoinBase(cfg.homeRoot);
    if StripSlashes(cfg.homeRoot) != "" {
      ResolvedSegments(Absolute(cfg), Split(StripSlashes(cfg.homeRoot), '/'));
    }
  }

  /** The home root is usable exactly when something of it is left after normalisation. */
  lemma UsableIff(cfg: Settings)
    ensures UsableHomeRoot(cfg) <==> Base(cfg) != []
  {
    BaseIsResolved(cfg);
    if Base(cfg) != [] {
      var g := Glue(Base(cfg), '/');
      assert g[0] == Base(cfg)[0][0] && g[0] in Base(cfg)[0];
      if |Base(cfg)| == 1 {
        assert g != ".";
      } else {
        assert |g| > 1;
      }
      if Absolute(cfg) {
        assert Render(true, Base(cfg))[0] == '/' && Render(true, Base(cfg))[1] == g[0];
      } else {
        assert Render(false, Base(cfg)) == g;
      }
    }
  }

  lemma HomeDirShape(cfg: Settings, user: string)
    requires SafeUser(user)
    ensures HomeDir(cfg, user) == Render(Absolute(cfg), Base(cfg) + [user])
  {
    SafeUserIsPlain(user);
    assert [cfg.homeRoot, user] == [cfg.homeRoot] + [user];
    JoinUnder(cfg.homeRoot, [user], [user]);
  }

  lemma OpenclawHomeShape(cfg: Settings, user: string)
    requires SafeUser(user)
    ensures JoinPosix([cfg.homeRoot, user, ".openclaw"]) == Render(Absolute(cfg), Base(cfg) + [user, ".openclaw"])
  {
    SafeUserIsPlain(user);
    assert [cfg.homeRoot, user, ".openclaw"] == [cfg.homeRoot] + [user, ".openclaw"];
    JoinUnder(cfg.homeRoot, [user, ".openclaw"], [user, ".openclaw"]);
  }

  lemma WorkspaceShape(cfg: Settings, user: string)
    requires SafeUser(user) && PlainWorkspace(cfg)
    ensures JoinPosix([cfg.homeRoot, user, cfg.workspaceDir]) ==
      Render(Absolute(cfg), Base(cfg) + ([user] + Split(cfg.workspaceDir, '/')))
    ensures Glue([user] + Split(cfg.workspaceDir, '/'), '/') == user + "/" + cfg.workspaceDir
  {
    var ws := Split(cfg.workspaceDir, '/');
    SafeUserIsPlain(user);
    GlueSplit(cfg.workspaceDir, '/');
    GlueEndsPlain(ws);
    GlueAppend([user], ws, '/');
    assert Glue([user, cfg.workspaceDir], '/') == user + "/" + cfg.workspaceDir by {
      assert [user, cfg.workspaceDir][1..] == [cfg.workspaceDir];
    }
    assert [cfg.homeRoot, user, cfg.workspaceDir] == [cfg.homeRoot] + [user, cfg.workspaceDir];
    JoinUnder(cfg.homeRoot, [user, cfg.workspaceDir], [user] + ws);
  }

  lemma TwoSegments(a: string, b: string)
    ensures Glue([a, b], '/') == a + "/" + b
  {
    assert [a, b][1..] == [b];
  }

  lemma Regroup(home: string, user: string, rest: string)
    ensures home + "/" + (user + "/" + rest) == home + "/" + user + ("/" + rest)
  {
  }

  /** A path under the tenant's home, as the allowlist's patterns spell it. */
  lemma UnderHomeText(cfg: Settings, user: string, segments: seq<string>, rest: string)
    requires segments != [] && Glue(segments, '/') == user + "/" + rest && Base(cfg) != []
    ensures Render(Absolute(cfg), Base(cfg) + segments) == JoinPosix([cfg.homeRoot]) + "/" + user + ("/" + rest)
  {
    assert JoinPosix([cfg.homeRoot]) == Render(Absolute(cfg), Base(cfg)) by {
      BaseIsResolved(cfg);
    }
    RenderUnder(Absolute(cfg), Base(cfg), segments);
    Regroup(JoinPosix([cfg.homeRoot]), user, rest);
  }

  lemma OpenclawHomeText(cfg: Settings, user: string)
    requires SafeUser(user) && Base(cfg) != []
    ensures JoinPosix([cfg.homeRoot, user, ".openclaw"]) == JoinPosix([cfg.homeRoot]) + "/" + user + "/.openclaw"
  {
    OpenclawHomeShape(cfg, user);
    TwoSegments(user, ".openclaw");
    UnderHomeText(cfg, user, [user, ".openclaw"], ".openclaw");
    assert "/" + ".openclaw" == "/.openclaw";
  }

  /** Without a usable home root the state directory starts with the user name, or with a slash and the user name. */
  lemma OpenclawHomeUnusable(cfg: Settings, user: string)
    requires SafeUser(user) && Base(cfg) == []
    ensures JoinPosix([cfg.homeRoot, user, ".openclaw"]) == (if Absolute(cfg) then "/" else "")
      + (user + "/" + ".openclaw")
  {
    OpenclawHomeShape(cfg, user);
    TwoSegments(user, ".openclaw");
    assert Base(cfg) + [user, ".openclaw"] == [user, ".openclaw"];
  }

  lemma WorkspaceText(cfg: Settings, user: string)
    requires SafeUser(user) && PlainWorkspace(cfg) && Base(cfg) != []
    ensures JoinPosix([cfg.homeRoot, user, cfg.workspaceDir]) ==
      JoinPosix([cfg.homeRoot]) + "/" + user + ("/" + cfg.workspaceDir)
  {
    WorkspaceShape(cfg, user);
    UnderHomeText(cfg, user, [user] + Split(cfg.workspaceDir, '/'), cfg.workspaceDir);
  }

  /******* Copy sources *******/

  lemma SlugIsPlain(slug: string)
    requires ValidSlug(slug)
    ensures Plain(slug) && SlugClass(slug)
  {
    assert LowerOrDigit(slug[0]);
  }

  /** The tenant's artifact lies in the directory whose pattern the daemon checks. */
  lemma EnvArtifactShape(cfg: Settings, slug: string)
    requires ValidSlug(slug)
    ensures EnvArtifact(cfg, slug) == Join([cfg.dataDir, "provisioner"]) + "/" + slug + "/openclaw-gateway.env"
  {
    SlugIsPlain(slug);
    var d := cfg.dataDir;
    var segments := if d == "" then [] else Resolve(IsAbsolute(d), Split(d, '/'));
    assert [d, "provisioner"] == [d] + ["provisioner"];
    assert [d, "provisioner", slug] == [d] + ["provisioner", slug];
    JoinParts(d, ["provisioner"], ["provisioner"]);
    JoinParts(d, ["provisioner", slug], ["provisioner", slug]);
    assert segments + ["provisioner", slug] == (segments + ["provisioner"]) + [slug];
    RenderUnder(IsAbsolute(d), segments + ["provisioner"], [slug]);
  }

  lemma EndsAs(front: string, last: string, p: string)
    requires last != "" && p == front + last
    ensures |p| > 0 && p[|p| - 1] == last[|last| - 1]
  {
  }

  lemma RenderEnds(absolute: bool, segments: seq<string>, last: string)
    requires segments != [] && last != ""
    ensures var p := Render(absolute, segments + [last]); |p| > 0 && p[|p| - 1] == last[|last| - 1]
  {
    RenderUnder(absolute, segments, [last]);
    assert Glue([last], '/') == last;
    EndsAs(Render(absolute, segments) + "/", last, Render(absolute, segments + [last]));
  }

  /** A joined path ends as its last plain part does. */
  lemma JoinEnds(r: string, a: string, b: string, last: string)
    requires Plain(a) && Plain(b) && Plain(last)
    ensures var p := Join([r, a, b, last]); |p| > 0 && p[|p| - 1] == last[|last| - 1]
  {
    var segments := if r == "" then [] else Resolve(IsAbsolute(r), Split(r, '/'));
    assert Join([r, a, b, last]) == Render(IsAbsolute(r), (segments + [a, b]) + [last]) by {
      assert [r, a, b, last] == [r] + [a, b, last];
      JoinParts(r, [a, b, last], [a, b, last]);
      assert segments + [a, b, last] == (segments + [a, b]) + [last];
    }
    RenderEnds(IsAbsolute(r), segments + [a, b], last);
  }

  lemma TemplateNames(ops: string, templates: string, unit: string)
    requires ops == "ops" && templates == "templates" && unit == "openclaw-gateway@.service"
    ensures Plain(ops) && Plain(templates) && Plain(unit) && unit[|unit| - 1] == 'e'
  {
  }

  lemma GatewayTemplateEnds(cfg: Settings)
    ensures |GatewayTemplate(cfg)| > 0 && GatewayTemplate(cfg)[|GatewayTemplate(cfg)| - 1] == 'e'
  {
    TemplateNames("ops", "templates", "openclaw-gateway@.service");
    JoinEnds(cfg.repoRoot, "ops", "templates", "openclaw-gateway@.service");
  }

  /******* Verdicts on lists of steps *******/

  ghost predicate AllAccepted(cfg: Settings, plan: seq<PlanStep>)
  {
    forall step | step in plan :: Accepts(cfg, step)
  }

  lemma AllOne(cfg: Settings, step: PlanStep)
    ensures AllAccepted(cfg, [step]) <==> Accepts(cfg, step)
  {
    if AllAccepted(cfg, [step]) {
      assert step in [step];
    }
  }

  lemma AllAppend(cfg: Settings, a: seq<PlanStep>, b: seq<PlanStep>)
    ensures AllAccepted(cfg, a + b) <==> AllAccepted(cfg, a) && AllAccepted(cfg, b)
  {
    assert forall step :: step in a + b <==> step in a || step in b;
  }

  lemma AllThree(cfg: Settings, a: PlanStep, b: PlanStep, c: PlanStep)
    requires AllAccepted(cfg, [a]) && AllAccepted(cfg, [b]) && AllAccepted(cfg, [c])
    ensures AllAccepted(cfg, [a, b, c])
  {
    AllOne(cfg, a);
    AllOne(cfg, b);
    AllOne(cfg, c);
  }

  lemma RefusedInPlan(cfg: Settings, plan: seq<PlanStep>, step: PlanStep)
    requires step in plan && !AllAccepted(cfg, [step])
    ensures !AllAccepted(cfg, plan)
  {
    AllOne(cfg, step);
  }

  /******* Verdicts on single steps *******/

  lemma UseraddAllowed(user: string)
    requires SafeUser(user)
    ensures CheckUseradd(["-m", "-s", "/bin/bash", user]) == Allowed
  {
  }

  lemma CreateUserAccepted(cfg: Settings, t: Tenant)
    requires SafeUser(t.linuxUser)
    ensures AllAccepted(cfg, [CreateUserStep(t)])
  {
    UseraddAllowed(t.linuxUser);
    StepVerdict(cfg, CreateUserStep(t), Useradd);
    AllOne(cfg, CreateUserStep(t));
  }

  lemma InstallAllowed(cfg: Settings, user: string, target: string)
    requires SafeUser(user)
    requires target == JoinPosix([cfg.homeRoot, user, ".openclaw"])
      || target == JoinPosix([cfg.homeRoot, user, cfg.workspaceDir])
    ensures CheckInstall(cfg, ["-d", "-m", "0750", "-o", user, "-g", user, target]) == Allowed
  {
  }

  lemma InstallStep(cfg: Settings, step: PlanStep, owner: string, target: string)
    requires step.command == "/usr/bin/install" && step.args == ["-d", "-m", "0750", "-o", owner, "-g", owner, target]
    ensures AllAccepted(cfg, [step])
      <==> CheckInstall(cfg, ["-d", "-m", "0750", "-o", owner, "-g", owner, target]) == Allowed
  {
    StepVerdict(cfg, step, Install);
    AllOne(cfg, step);
  }

  lemma CreateStateAccepted(cfg: Settings, t: Tenant)
    requires SafeUser(t.linuxUser) && t.openclawHome == JoinPosix([cfg.homeRoot, t.linuxUser, ".openclaw"])
    ensures AllAccepted(cfg, [CreateStateStep(t)])
  {
    InstallAllowed(cfg, t.linuxUser, t.openclawHome);
    InstallStep(cfg, CreateStateStep(t), t.linuxUser, t.openclawHome);
  }

  lemma CreateWorkspaceAccepted(cfg: Settings, t: Tenant)
    requires SafeUser(t.linuxUser) && t.workspaceRoot == JoinPosix([cfg.homeRoot, t.linuxUser, cfg.workspaceDir])
    ensures AllAccepted(cfg, [CreateWorkspaceStep(t)])
  {
    InstallAllowed(cfg, t.linuxUser, t.workspaceRoot);
    InstallStep(cfg, CreateWorkspaceStep(t), t.linuxUser, t.workspaceRoot);
  }

  lemma TenantsDirAllowed(cfg: Settings, owner: string, target: string)
    requires owner == "root" && target == TENANTS_DIR
    ensures CheckInstall(cfg, ["-d", "-m", "0750", "-o", owner, "-g", owner, target]) == Allowed
  {
  }

  lemma TenantsDirAccepted(cfg: Settings)
    ensures AllAccepted(cfg, [TenantsDirStep()])
  {
    TenantsDirAllowed(cfg, "root", TENANTS_DIR);
    InstallStep(cfg, TenantsDirStep(), "root", TENANTS_DIR);
  }

  lemma SeedText(root: string, user: string, state: string, json: string)
    ensures (root + "/" + user + state) + json == (root + "/") + user + (state + json)
  {
  }

  lemma SeedSuffix(state: string, json: string)
    requires state == "/.openclaw" && json == "/openclaw.json"
    ensures state + json == "/.openclaw/openclaw.json"
  {
  }

  /** The target of a copy below the state directory matches the daemon's pattern under a usable home root. */
  lemma SeedTargetMatches(root: string, user: string, state: string, json: string)
    requires SafeUser(user)
    ensures UserBetween((root + "/" + user + state) + json, root + "/", state + json)
  {
    SeedText(root, user, state, json);
    UserBetweenIff((root + "/" + user + state) + json, root + "/", state + json);
  }

  /** Under an unusable home root no path of the tenant starts with the prefix of the daemon's patterns. */
  lemma UnusablePrefix(cfg: Settings, user: string, home: string, root: string, tail: string, suffix: string)
    requires SafeUser(user)
    requires home == JoinPosix([cfg.homeRoot, user, ".openclaw"]) && root == JoinPosix([cfg.homeRoot])
    requires Base(cfg) == []
    ensures !UserBetween(home + tail, root + "/", suffix)
  {
    OpenclawHomeUnusable(cfg, user);
    BaseIsResolved(cfg);
    var target, prefix := home + tail, root + "/";
    if Absolute(cfg) {
      assert target[1] == user[0] && prefix[1] == '/';
    } else {
      assert target[0] == user[0] && prefix[0] == '.';
    }
  }

  lemma SeedAllowed(cfg: Settings, user: string, home: string)
    requires SafeUser(user) && cfg.templateJson != ""
    requires home == JoinPosix([cfg.homeRoot, user, ".openclaw"])
    ensures CheckCp(cfg, ["-n", cfg.templateJson, home + "/openclaw.json"]) == Allowed <==> UsableHomeRoot(cfg)
  {
    UsableIff(cfg);
    var root := JoinPosix([cfg.homeRoot]);
    if Base(cfg) != [] {
      OpenclawHomeText(cfg, user);
      SeedSuffix("/.openclaw", "/openclaw.json");
      SeedTargetMatches(root, user, "/.openclaw", "/openclaw.json");
    } else {
      UnusablePrefix(cfg, user, home, root, "/openclaw.json", "/.openclaw/openclaw.json");
    }
  }

  lemma CpStep(cfg: Settings, step: PlanStep, flag: string, source: string, target: string)
    requires step.command == "/usr/bin/cp" && step.args == [flag, source, target]
    ensures AllAccepted(cfg, [step]) <==> CheckCp(cfg, [flag, source, target]) == Allowed
  {
    StepVerdict(cfg, step, Cp);
    AllOne(cfg, step);
  }

  lemma SeedTemplateAccepted(cfg: Settings, t: Tenant)
    requires SafeUser(t.linuxUser) && cfg.templateJson != ""
    requires t.openclawHome == JoinPosix([cfg.homeRoot, t.linuxUser, ".openclaw"])
    ensures AllAccepted(cfg, [SeedTemplateStep(cfg, t)]) <==> UsableHomeRoot(cfg)
  {
    SeedAllowed(cfg, t.linuxUser, t.openclawHome);
    CpStep(cfg, SeedTemplateStep(cfg, t), "-n", cfg.templateJson, t.openclawHome + "/openclaw.json");
  }

  lemma ChownAllowed(cfg: Settings, user: string)
    requires SafeUser(user)
    ensures CheckChown(cfg, ["-R", user + ":" + user, HomeDir(cfg, user)]) == Allowed
  {
    SafeUserIsPlain(user);
    SplitAppend(user, user, ':');
    SplitWithout(user, ':');
  }

  lemma ChownStep(cfg: Settings, step: PlanStep, owner: string, target: string)
    requires step.command == "/usr/bin/chown" && step.args == ["-R", owner, target]
    ensures AllAccepted(cfg, [step]) <==> CheckChown(cfg, ["-R", owner, target]) == Allowed
  {
    StepVerdict(cfg, step, Chown);
    AllOne(cfg, step);
  }

  lemma SetOwnerAccepted(cfg: Settings, t: Tenant)
    requires SafeUser(t.linuxUser)
    ensures AllAccepted(cfg, [SetOwnerStep(cfg, t)])
  {
    ChownAllowed(cfg, t.linuxUser);
    ChownStep(cfg, SetOwnerStep(cfg, t), t.linuxUser + ":" + t.linuxUser, HomeDir(cfg, t.linuxUser));
  }

  lemma UnitAllowed(cfg: Settings, source: string, target: string)
    requires source == GatewayTemplate(cfg) && target == GATEWAY_UNIT
    ensures CheckCp(cfg, ["-n", source, target]) == Allowed <==> cfg.templateJson != source
  {
    GatewayTemplateEnds(cfg);
    var suffix := "/.openclaw/openclaw.json";
    assert target[|target| - 1] == 'e' && suffix[|suffix| - 1] == 'n';
  }

  lemma InstallUnitAccepted(cfg: Settings)
    ensures AllAccepted(cfg, [InstallUnitStep(cfg)]) <==> cfg.templateJson != GatewayTemplate(cfg)
  {
    UnitAllowed(cfg, GatewayTemplate(cfg), GATEWAY_UNIT);
    CpStep(cfg, InstallUnitStep(cfg), "-n", GatewayTemplate(cfg), GATEWAY_UNIT);
  }

  lemma EnvFileMatches(user: string)
    requires SafeUser(user)
    ensures UserBetween(EnvFile(user), TENANTS_DIR + "/", ".env")
  {
    assert EnvFile(user) == (TENANTS_DIR + "/") + user + ".env";
    UserBetweenIff(EnvFile(user), TENANTS_DIR + "/", ".env");
  }

  lemma EnvSourceMatches(cfg: Settings, slug: string)
    requires ValidSlug(slug)
    ensures SlugBetween(EnvArtifact(cfg, slug), Join([cfg.dataDir, "provisioner"]) + "/", "/openclaw-gateway.env")
    ensures EnvArtifact(cfg, slug) != GatewayTemplate(cfg)
  {
    EnvArtifactShape(cfg, slug);
    SlugIsPlain(slug);
    var dir, suffix := Join([cfg.dataDir, "provisioner"]) + "/", "/openclaw-gateway.env";
    SlugBetweenIntro(dir, slug, suffix);
    var source := EnvArtifact(cfg, slug);
    assert source == dir + slug + suffix;
    assert source[|source| - 1] == 'v';
    GatewayTemplateEnds(cfg);
  }

  lemma EnvCopyAllowed(cfg: Settings, source: string, target: string)
    requires source != GatewayTemplate(cfg)
    requires SlugBetween(source, Join([cfg.dataDir, "provisioner"]) + "/", "/openclaw-gateway.env")
    requires UserBetween(target, TENANTS_DIR + "/", ".env")
    ensures source != "" && (CheckCp(cfg, ["-f", source, target]) == Allowed <==> cfg.templateJson != source)
  {
    var args := ["-f", source, target];
    assert args[0] != "-n" by { assert args[0][1] == 'f'; }
  }

  lemma InstallEnvAccepted(cfg: Settings, t: Tenant)
    requires ValidSlug(t.slug) && SafeUser(t.linuxUser)
    ensures AllAccepted(cfg, [InstallEnvStep(cfg, t)]) <==> cfg.templateJson != EnvArtifact(cfg, t.slug)
  {
    EnvSourceMatches(cfg, t.slug);
    EnvFileMatches(t.linuxUser);
    EnvCopyAllowed(cfg, EnvArtifact(cfg, t.slug), EnvFile(t.linuxUser));
    CpStep(cfg, InstallEnvStep(cfg, t), "-f", EnvArtifact(cfg, t.slug), EnvFile(t.linuxUser));
  }

  lemma ServiceAllowed(verb: string, user: string)
    requires SafeUser(user) && (verb == "enable" || verb == "disable")
    ensures CheckSystemctl([verb, "--now", GatewayService(user)]) == Allowed
  {
    UserBetweenIff(GatewayService(user), "openclaw-gateway@", ".service");
  }

  lemma EnableGatewayAccepted(cfg: Settings, t: Tenant)
    requires SafeUser(t.linuxUser)
    ensures AllAccepted(cfg, [EnableGatewayStep(t)])
  {
    ServiceAllowed("enable", t.linuxUser);
    StepVerdict(cfg, EnableGatewayStep(t), Systemctl);
    AllOne(cfg, EnableGatewayStep(t));
  }

  lemma DisableGatewayAccepted(cfg: Settings, t: Tenant)
    requires SafeUser(t.linuxUser)
    ensures AllAccepted(cfg, [DisableGatewayStep(t)])
  {
    ServiceAllowed("disable", t.linuxUser);
    StepVerdict(cfg, DisableGatewayStep(t), Systemctl);
    AllOne(cfg, DisableGatewayStep(t));
  }

  lemma ReloadAllowed(verb: string)
    requires verb == "daemon-reload"
    ensures CheckSystemctl([verb]) == Allowed
  {
  }

  lemma ReloadAccepted(cfg: Settings)
    ensures AllAccepted(cfg, [ReloadStep()])
  {
    ReloadAllowed("daemon-reload");
    StepVerdict(cfg, ReloadStep(), Systemctl);
    AllOne(cfg, ReloadStep());
  }

  lemma RemoveEnvAllowed(cfg: Settings, user: string)
    requires SafeUser(user)
    ensures CheckRm(cfg, ["-f", EnvFile(user)]) == Allowed
  {
    EnvFileMatches(user);
  }

  lemma RmStep(cfg: Settings, step: PlanStep, flag: string, target: string)
    requires step.command == "/usr/bin/rm" && step.args == [flag, target]
    ensures AllAccepted(cfg, [step]) <==> CheckRm(cfg, [flag, target]) == Allowed
  {
    StepVerdict(cfg, step, Rm);
    AllOne(cfg, step);
  }

  lemma RemoveEnvAccepted(cfg: Settings, t: Tenant)
    requires SafeUser(t.linuxUser)
    ensures AllAccepted(cfg, [RemoveEnvStep(t)])
  {
    RemoveEnvAllowed(cfg, t.linuxUser);
    RmStep(cfg, RemoveEnvStep(t), "-f", EnvFile(t.linuxUser));
  }

  lemma RemoveStateAllowed(cfg: Settings, user: string, home: string)
    requires SafeUser(user) && home == JoinPosix([cfg.homeRoot, user, ".openclaw"])
    ensures CheckRm(cfg, ["-rf", home]) == Allowed <==> UsableHomeRoot(cfg)
  {
    UsableIff(cfg);
    var root := JoinPosix([cfg.homeRoot]);
    if Base(cfg) != [] {
      OpenclawHomeText(cfg, user);
      assert home == (root + "/") + user + "/.openclaw";
      UserBetweenIff(home, root + "/", "/.openclaw");
    } else {
      UnusablePrefix(cfg, user, home, root, "", "/.openclaw");
      UnusablePrefix(cfg, user, home, root, "", "/" + cfg.workspaceDir);
      assert home + "" == home;
    }
  }

  lemma RemoveStateAccepted(cfg: Settings, t: Tenant)
    requires SafeUser(t.linuxUser) && t.openclawHome == JoinPosix([cfg.homeRoot, t.linuxUser, ".openclaw"])
    ensures AllAccepted(cfg, [RemoveStateStep(t)]) <==> UsableHomeRoot(cfg)
  {
    RemoveStateAllowed(cfg, t.linuxUser, t.openclawHome);
    RmStep(cfg, RemoveStateStep(t), "-rf", t.openclawHome);
  }

  /** The path is the state directory of some tenant. */
  ghost predicate IsSomeState(cfg: Settings, path: string)
  {
    exists u :: SafeUser(u) && path == JoinPosix([cfg.homeRoot, u, ".openclaw"])
  }

  lemma StatePatternExactly(cfg: Settings, path: string)
    requires Base(cfg) != []
    ensures UserBetween(path, JoinPosix([cfg.homeRoot]) + "/", "/.openclaw") <==> IsSomeState(cfg, path)
  {
    var root, state := JoinPosix([cfg.homeRoot]), "/.openclaw";
    UserBetweenIff(path, root + "/", state);
    forall u | SafeUser(u)
      ensures (root + "/") + u + state == JoinPosix([cfg.homeRoot, u, ".openclaw"])
    {
      OpenclawHomeText(cfg, u);
    }
    if u :| SafeUser(u) && path == (root + "/") + u + state {
      assert path == JoinPosix([cfg.homeRoot, u, ".openclaw"]);
    }
    if u :| SafeUser(u) && path == JoinPosix([cfg.homeRoot, u, ".openclaw"]) {
      assert path == (root + "/") + u + state;
    }
  }

  lemma WorkspacePatternExactly(cfg: Settings, user: string, workspace: string)
    requires SafeUser(user) && Base(cfg) != []
    requires workspace == JoinPosix([cfg.homeRoot, user, cfg.workspaceDir])
    ensures UserBetween(workspace, JoinPosix([cfg.homeRoot]) + "/", "/" + cfg.workspaceDir) <==> PlainWorkspace(cfg)
  {
    var root, dir := JoinPosix([cfg.homeRoot]), cfg.workspaceDir;
    UserBetweenIff(workspace, root + "/", "/" + dir);
    if PlainWorkspace(cfg) {
      WorkspaceText(cfg, user);
      assert workspace == (root + "/") + user + ("/" + dir);
    }
    if u :| SafeUser(u) && workspace == (root + "/") + u + ("/" + dir) {
      RootNotEmpty(cfg);
      WorkspaceReads(cfg, user, root, u);
    }
  }

  lemma RootNotEmpty(cfg: Settings)
    requires Base(cfg) != []
    ensures JoinPosix([cfg.homeRoot]) != ""
  {
    BaseIsResolved(cfg);
    assert Glue(Base(cfg), '/') != "" by { assert Base(cfg)[0] != ""; }
  }

  lemma WorkspaceReads(cfg: Settings, user: string, root: string, u: string)
    requires SafeUser(user) && SafeUser(u) && root != ""
    requires JoinPosix([cfg.homeRoot, user, cfg.workspaceDir]) == (root + "/") + u + ("/" + cfg.workspaceDir)
    ensures PlainWorkspace(cfg)
  {
    var parts := [cfg.homeRoot, user, cfg.workspaceDir];
    SafeUserIsPlain(user);
    SafeUserIsPlain(u);
    var absolute, segments := JoinIsResolved(parts, 1);
    Regroup(root, u, cfg.workspaceDir);
    RestIsPlain(absolute, segments, root, u, cfg.workspaceDir);
  }

  lemma RemoveWorkspaceAllowed(cfg: Settings, user: string, workspace: string)
    requires SafeUser(user) && UsableHomeRoot(cfg)
    requires workspace == JoinPosix([cfg.homeRoot, user, cfg.workspaceDir])
    ensures CheckRm(cfg, ["-rf", workspace]) == Allowed <==> PlainWorkspace(cfg) || IsSomeState(cfg, workspace)
  {
    UsableIff(cfg);
    StatePatternExactly(cfg, workspace);
    WorkspacePatternExactly(cfg, user, workspace);
  }

  lemma RemoveWorkspaceAccepted(cfg: Settings, t: Tenant)
    requires SafeUser(t.linuxUser) && UsableHomeRoot(cfg)
    requires t.workspaceRoot == JoinPosix([cfg.homeRoot, t.linuxUser, cfg.workspaceDir])
    ensures AllAccepted(cfg, [RemoveWorkspaceStep(t)]) <==> PlainWorkspace(cfg) || IsSomeState(cfg, t.workspaceRoot)
  {
    RemoveWorkspaceAllowed(cfg, t.linuxUser, t.workspaceRoot);
    RmStep(cfg, RemoveWorkspaceStep(t), "-rf", t.workspaceRoot);
  }

  lemma UserdelAllowed(user: string)
    requires SafeUser(user)
    ensures CheckUserdel(["-r", user]) == Allowed
  {
  }

  lemma RemoveUserAccepted(cfg: Settings, t: Tenant)
    requires SafeUser(t.linuxUser)
    ensures AllAccepted(cfg, [RemoveUserStep(t)])
  {
    UserdelAllowed(t.linuxUser);
    StepVerdict(cfg, RemoveUserStep(t), Userdel);
    AllOne(cfg, RemoveUserStep(t));
  }

  /******* Main results *******/

  lemma AccountSteps(cfg: Settings, t: Tenant)
    requires TenantOf(cfg, t)
    ensures AllAccepted(cfg, [CreateUserStep(t), CreateStateStep(t), CreateWorkspaceStep(t)])
  {
    CreateUserAccepted(cfg, t);
    CreateStateAccepted(cfg, t);
    CreateWorkspaceAccepted(cfg, t);
    AllThree(cfg, CreateUserStep(t), CreateStateStep(t), CreateWorkspaceStep(t));
  }

  lemma OwnershipSteps(cfg: Settings, t: Tenant)
    requires TenantOf(cfg, t) && UsableHomeRoot(cfg)
    ensures AllAccepted(cfg, [SeedTemplateStep(cfg, t), SetOwnerStep(cfg, t), TenantsDirStep()])
  {
    SeedTemplateAccepted(cfg, t);
    SetOwnerAccepted(cfg, t);
    TenantsDirAccepted(cfg);
    AllThree(cfg, SeedTemplateStep(cfg, t), SetOwnerStep(cfg, t), TenantsDirStep());
  }

  lemma GatewaySteps(cfg: Settings, t: Tenant)
    requires TenantOf(cfg, t) && cfg.templateJson != GatewayTemplate(cfg)
      && cfg.templateJson != EnvArtifact(cfg, t.slug)
    ensures AllAccepted(cfg, [InstallUnitStep(cfg), InstallEnvStep(cfg, t), ReloadStep()] + [EnableGatewayStep(t)])
  {
    InstallUnitAccepted(cfg);
    InstallEnvAccepted(cfg, t);
    ReloadAccepted(cfg);
    EnableGatewayAccepted(cfg, t);
    AllThree(cfg, InstallUnitStep(cfg), InstallEnvStep(cfg, t), ReloadStep());
    AllAppend(cfg, [InstallUnitStep(cfg), InstallEnvStep(cfg, t), ReloadStep()], [EnableGatewayStep(t)]);
  }

  lemma PlanParts(cfg: Settings, t: Tenant)
    ensures BootstrapPlan(cfg, t) ==
      [CreateUserStep(t), CreateStateStep(t), CreateWorkspaceStep(t)]
      + [SeedTemplateStep(cfg, t), SetOwnerStep(cfg, t), TenantsDirStep()]
      + ([InstallUnitStep(cfg), InstallEnvStep(cfg, t), ReloadStep()] + [EnableGatewayStep(t)])
    ensures SeedTemplateStep(cfg, t) in BootstrapPlan(cfg, t)
    ensures InstallUnitStep(cfg) in BootstrapPlan(cfg, t) && InstallEnvStep(cfg, t) in BootstrapPlan(cfg, t)
  {
    var plan := BootstrapPlan(cfg, t);
    assert plan[3] == SeedTemplateStep(cfg, t) && plan[6] == InstallUnitStep(cfg) && plan[7] == InstallEnvStep(cfg, t);
  }

  lemma BootstrapAcceptedIf(cfg: Settings, t: Tenant)
    requires TenantOf(cfg, t)
    requires UsableHomeRoot(cfg) && cfg.templateJson != GatewayTemplate(cfg)
      && cfg.templateJson != EnvArtifact(cfg, t.slug)
    ensures AllAccepted(cfg, BootstrapPlan(cfg, t))
  {
    AccountSteps(cfg, t);
    OwnershipSteps(cfg, t);
    GatewaySteps(cfg, t);
    var a := [CreateUserStep(t), CreateStateStep(t), CreateWorkspaceStep(t)];
    var b := [SeedTemplateStep(cfg, t), SetOwnerStep(cfg, t), TenantsDirStep()];
    var c := [InstallUnitStep(cfg), InstallEnvStep(cfg, t), ReloadStep()] + [EnableGatewayStep(t)];
    AllAppend(cfg, a, b);
    AllAppend(cfg, a + b, c);
    PlanParts(cfg, t);
  }

  lemma UnusableRootRefused(cfg: Settings, t: Tenant)
    requires TenantOf(cfg, t) && !UsableHomeRoot(cfg)
    ensures !AllAccepted(cfg, BootstrapPlan(cfg, t))
  {
    PlanParts(cfg, t);
    SeedTemplateAccepted(cfg, t);
    RefusedInPlan(cfg, BootstrapPlan(cfg, t), SeedTemplateStep(cfg, t));
  }

  lemma SharedUnitSourceRefused(cfg: Settings, t: Tenant)
    requires cfg.templateJson == GatewayTemplate(cfg)
    ensures !AllAccepted(cfg, BootstrapPlan(cfg, t))
  {
    PlanParts(cfg, t);
    InstallUnitAccepted(cfg);
    RefusedInPlan(cfg, BootstrapPlan(cfg, t), InstallUnitStep(cfg));
  }

  lemma SharedEnvSourceRefused(cfg: Settings, t: Tenant)
    requires TenantOf(cfg, t) && cfg.templateJson == EnvArtifact(cfg, t.slug)
    ensures !AllAccepted(cfg, BootstrapPlan(cfg, t))
  {
    PlanParts(cfg, t);
    InstallEnvAccepted(cfg, t);
    RefusedInPlan(cfg, BootstrapPlan(cfg, t), InstallEnvStep(cfg, t));
  }

  /** The daemon accepts every step of a tenant's bootstrap plan if and only if the home root normalises to a directory
      of its own (not `/`, not the working directory) and the seed template is neither of the other two copy sources. */
  lemma BootstrapPlanAccepted(cfg: Settings, t: Tenant)
    requires TenantOf(cfg, t)
    ensures AllAccepted(cfg, BootstrapPlan(cfg, t))
      <==> (UsableHomeRoot(cfg) && cfg.templateJson != GatewayTemplate(cfg)
        && cfg.templateJson != EnvArtifact(cfg, t.slug))
  {
    if !UsableHomeRoot(cfg) {
      UnusableRootRefused(cfg, t);
    } else if cfg.templateJson == GatewayTemplate(cfg) {
      SharedUnitSourceRefused(cfg, t);
    } else if cfg.templateJson == EnvArtifact(cfg, t.slug) {
      SharedEnvSourceRefused(cfg, t);
    } else {
      BootstrapAcceptedIf(cfg, t);
    }
  }

  lemma RemovalSteps(cfg: Settings, t: Tenant)
    requires TenantOf(cfg, t)
    ensures AllAccepted(cfg, [RemoveStateStep(t)] + [RemoveWorkspaceStep(t)])
      <==> UsableHomeRoot(cfg) && (PlainWorkspace(cfg) || IsSomeState(cfg, t.workspaceRoot))
  {
    AllAppend(cfg, [RemoveStateStep(t)], [RemoveWorkspaceStep(t)]);
    RemoveStateAccepted(cfg, t);
    if UsableHomeRoot(cfg) { RemoveWorkspaceAccepted(cfg, t); }
  }

  lemma AlwaysSteps(cfg: Settings, t: Tenant)
    requires TenantOf(cfg, t)
    ensures AllAccepted(cfg, [DisableGatewayStep(t)] + [RemoveEnvStep(t)])
  {
    DisableGatewayAccepted(cfg, t);
    RemoveEnvAccepted(cfg, t);
    AllAppend(cfg, [DisableGatewayStep(t)], [RemoveEnvStep(t)]);
  }

  lemma DecommissionParts(t: Tenant, options: RemovalOptions)
    ensures DecommissionPlan(t, options) ==
      var always := [DisableGatewayStep(t)] + [RemoveEnvStep(t)];
      if options.removeLinuxUser then always + [RemoveUserStep(t)]
      else if options.removeStateDirs then always + ([RemoveStateStep(t)] + [RemoveWorkspaceStep(t)])
      else always
  {
  }

  /** The daemon accepts every step of a decommission plan if and only if the plan does not remove the directories
      itself, or the home root is usable and the workspace name is plain or leads to some tenant's state directory. */
  lemma DecommissionPlanAccepted(cfg: Settings, t: Tenant, options: RemovalOptions)
    requires TenantOf(cfg, t)
    ensures AllAccepted(cfg, DecommissionPlan(t, options))
      <==> (options.removeStateDirs && !options.removeLinuxUser ==>
              UsableHomeRoot(cfg) && (PlainWorkspace(cfg) || IsSomeState(cfg, t.workspaceRoot)))
  {
    var always := [DisableGatewayStep(t)] + [RemoveEnvStep(t)];
    DecommissionParts(t, options);
    AlwaysSteps(cfg, t);
    if options.removeLinuxUser {
      RemoveUserAccepted(cfg, t);
      AllAppend(cfg, always, [RemoveUserStep(t)]);
    } else if options.removeStateDirs {
      RemovalSteps(cfg, t);
      AllAppend(cfg, always, [RemoveStateStep(t)] + [RemoveWorkspaceStep(t)]);
    }
  }

  /** A home root of slashes only is stripped to nothing: the homes are then relative paths, and no bootstrap plan is
      accepted. */
  lemma SlashRootIsRefused(cfg: Settings, t: Tenant)
    requires TenantOf(cfg, t) && StripSlashes(cfg.homeRoot) == ""
    ensures HomeDir(cfg, t.linuxUser) == t.linuxUser && !AllAccepted(cfg, BootstrapPlan(cfg, t))
  {
    HomeDirShape(cfg, t.linuxUser);
    assert Base(cfg) + [t.linuxUser] == [t.linuxUser];
    UsableIff(cfg);
    UnusableRootRefused(cfg, t);
  }
}
