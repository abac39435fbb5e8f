/**
 The bootstrap plan step by step on a host with owners and file contents: every command finds what it needs when its
 turn comes, and what the tenant ends up with.  The effect of a command is that of TenantLifecycle with owners and
 contents added.
 */
module TenantFiles {
  import opened Options
  import opened PosixPaths
  import opened TenantPlans
  import opened PlanAcceptance
  import opened TenantIsolation
  import opened TenantLifecycle

  /** Who owns each path, what each copied file holds (named by its source), the units systemd has read, and the
      accounts and enabled services. */
  datatype Files = Files(users: set<string>, owner: map<string, string>, text: map<string, string>,
                         loaded: map<string, string>, services: set<string>)

  function View(f: Files): Host { Host(f.users, f.owner.Keys, f.services) }

  /** New paths get the owner, paths that are there keep theirs. */
  function WithNew(owner: map<string, string>, paths: set<string>, who: string): (r: map<string, string>)
    ensures r.Keys == owner.Keys + paths
  {
    map p | p in owner.Keys + paths :: if p in owner then owner[p] else who
  }

  ghost function Owned(owner: map<string, string>, tree: string, who: string): (r: map<string, string>)
    ensures r.Keys == owner.Keys
  {
    map p | p in owner :: if AtOrUnder(p, tree) then who else owner[p]
  }

  ghost function Kept(m: map<string, string>, tree: string): (r: map<string, string>)
    ensures r.Keys == Without(m.Keys, tree)
  {
    map p | p in m && !AtOrUnder(p, tree) :: m[p]
  }

  function ArgOf(step: PlanStep, k: nat): string { if k < |step.args| then step.args[k] else "" }

  /** `install -d` gives the directory to its `-o` user and those above it to root. */
  function Installed(f: Files, p: string, who: string): Files
  {
    f.(owner := WithNew(f.owner, Above(p), "root")[p := who])
  }

  /** `cp -n` leaves a file that is there alone. */
  function Copied(f: Files, flag: string, source: string, p: string): Files
  {
    if flag == "-n" && p in f.owner then f
    else f.(owner := WithNew(f.owner, {p}, "root"), text := f.text[p := source])
  }

  ghost function Do(accounts: Accounts, f: Files, step: PlanStep): Files
  {
    match EffectOf(step)
    case AddUser(u) =>
      var home := AccountHome(accounts, u);
      f.(users := f.users + {u}, owner := WithNew(WithNew(f.owner, {home}, u), Above(home), "root"))
    case RemoveUser(u) =>
      f.(users := f.users - {u}, owner := Kept(f.owner, AccountHome(accounts, u)),
         text := Kept(f.text, AccountHome(accounts, u)))
    case MakeDirectories(p) => Installed(f, p, ArgOf(step, 4))
    case AddFile(p) => Copied(f, ArgOf(step, 0), ArgOf(step, 1), p)
    case RemoveFile(p) => f.(owner := f.owner - {p}, text := f.text - {p})
    case RemoveTree(p) => f.(owner := Kept(f.owner, p), text := Kept(f.text, p))
    case Enable(service) => f.(services := f.services + {service})
    case Disable(service) => f.(services := f.services - {service})
    case Nothing =>
      if step.command == "/usr/bin/chown"
      then f.(owner := Owned(f.owner, ArgOf(step, 2), Split(ArgOf(step, 1), ':')[0]))
      else if step.command == "/usr/bin/systemctl" then f.(loaded := f.text)
      else f
  }

  ghost function DoAll(accounts: Accounts, f: Files, plan: seq<PlanStep>): Files
    decreases |plan|
  {
    if plan == [] then f else DoAll(accounts, Do(accounts, f, plan[0]), plan[1..])
  }

  /** Owners and contents aside this is the host of TenantLifecycle. */
  lemma DoIsPerform(accounts: Accounts, f: Files, step: PlanStep)
    ensures View(Do(accounts, f, step)) == Perform(accounts, View(f), EffectOf(step))
  {
    var h, h' := View(f), View(Do(accounts, f, step));
    match EffectOf(step)
    case AddFile(p) => assert f.owner.Keys + {p} == if p in f.owner then f.owner.Keys else f.owner.Keys + {p};
    case _ => assert h'.paths == Perform(accounts, h, EffectOf(step)).paths;
  }

  lemma {:induction false} DoAllIsPerform(accounts: Accounts, f: Files, plan: seq<PlanStep>)
    ensures View(DoAll(accounts, f, plan)) == HostAfter(accounts, View(f), Effects(plan))
    decreases |plan|
  {
    if plan != [] {
      DoIsPerform(accounts, f, plan[0]);
      DoAllIsPerform(accounts, Do(accounts, f, plan[0]), plan[1..]);
      assert Effects(plan)[1..] == Effects(plan[1..]);
    }
  }

  /******* What the commands need *******/

  predicate Known(f: Files, user: string) { user == "root" || user in f.users }

  /** The directory of the path is there. */
  ghost predicate HasDirectory(f: Files, p: string)
  {
    exists dir, name :: dir in f.owner && '/' !in name && p == dir + "/" + name
  }

  ghost predicate Ready(f: Files, step: PlanStep)
  {
    match EffectOf(step)
    case AddUser(u) => u !in f.users
    case MakeDirectories(_) => Known(f, ArgOf(step, 4))
    case AddFile(p) => HasDirectory(f, p)
    case Enable(_) =>
      GATEWAY_UNIT in f.text && GATEWAY_UNIT in f.loaded && f.loaded[GATEWAY_UNIT] == f.text[GATEWAY_UNIT]
    case Nothing =>
      step.command == "/usr/bin/chown" ==> Known(f, Split(ArgOf(step, 1), ':')[0]) && ArgOf(step, 2) in f.owner
    case _ => true
  }

  ghost predicate AllReady(accounts: Accounts, f: Files, plan: seq<PlanStep>)
    decreases |plan|
  {
    plan == [] || (Ready(f, plan[0]) && AllReady(accounts, Do(accounts, f, plan[0]), plan[1..]))
  }

  lemma {:induction false} DoAppend(accounts: Accounts, f: Files, a: seq<PlanStep>, b: seq<PlanStep>)
    ensures DoAll(accounts, f, a + b) == DoAll(accounts, DoAll(accounts, f, a), b)
    ensures AllReady(accounts, f, a + b) <==> AllReady(accounts, f, a) && AllReady(accounts, DoAll(accounts, f, a), b)
    decreases |a|
  {
    if a == [] {
      assert a + b == b;
    } else {
      assert (a + b)[1..] == a[1..] + b;
      DoAppend(accounts, Do(accounts, f, a[0]), a[1..], b);
    }
  }

  lemma DoOne(accounts: Accounts, f: Files, step: PlanStep)
    ensures DoAll(accounts, f, [step]) == Do(accounts, f, step)
    ensures AllReady(accounts, f, [step]) <==> Ready(f, step)
  {
    assert [step][1..] == [];
  }

  lemma DoFive(accounts: Accounts, f: Files, a: PlanStep, b: PlanStep, c: PlanStep, d: PlanStep, e: PlanStep)
    ensures var f1 := Do(accounts, f, a);
      var f2 := Do(accounts, f1, b);
      var f3 := Do(accounts, f2, c);
      var f4 := Do(accounts, f3, d);
      && DoAll(accounts, f, [a, b, c, d, e]) == Do(accounts, f4, e)
      && (AllReady(accounts, f, [a, b, c, d, e]) <==>
            Ready(f, a) && Ready(f1, b) && Ready(f2, c) && Ready(f3, d) && Ready(f4, e))
  {
    assert [a, b, c, d, e] == [a] + ([b] + ([c] + ([d] + [e])));
    var f1 := Do(accounts, f, a);
    var f2 := Do(accounts, f1, b);
    var f3 := Do(accounts, f2, c);
    DoOne(accounts, f, a);
    DoAppend(accounts, f, [a], [b] + ([c] + ([d] + [e])));
    DoOne(accounts, f1, b);
    DoAppend(accounts, f1, [b], [c] + ([d] + [e]));
    DoOne(accounts, f2, c);
    DoAppend(accounts, f2, [c], [d] + [e]);
    DoOne(accounts, f3, d);
    DoAppend(accounts, f3, [d], [e]);
    DoOne(accounts, Do(accounts, f3, d), e);
  }

  /******* The tenant's own steps *******/

  lemma OwnerArguments(cfg: Settings, t: Tenant)
    ensures ArgOf(CreateStateStep(t), 4) == t.linuxUser && ArgOf(CreateWorkspaceStep(t), 4) == t.linuxUser
    ensures ArgOf(TenantsDirStep(), 4) == "root"
    ensures SetOwnerStep(cfg, t).command == "/usr/bin/chown"
    ensures ArgOf(SetOwnerStep(cfg, t), 1) == t.linuxUser + [':'] + t.linuxUser
    ensures ArgOf(SetOwnerStep(cfg, t), 2) == HomeDir(cfg, t.linuxUser)
  {
  }

  lemma CopyArguments(cfg: Settings, t: Tenant)
    ensures ArgOf(SeedTemplateStep(cfg, t), 0) == "-n" && ArgOf(SeedTemplateStep(cfg, t), 1) == cfg.templateJson
    ensures ArgOf(InstallUnitStep(cfg), 0) == "-n" && ArgOf(InstallUnitStep(cfg), 1) == GatewayTemplate(cfg)
    ensures ArgOf(InstallEnvStep(cfg, t), 0) == "-f" && ArgOf(InstallEnvStep(cfg, t), 1) == EnvArtifact(cfg, t.slug)
    ensures ReloadStep().command == "/usr/bin/systemctl"
  {
  }

  lemma OwnerOf(user: string)
    requires SafeUser(user)
    ensures Split(user + [':'] + user, ':')[0] == user
  {
    SplitAppend(user, user, ':');
    SplitWithout(user, ':');
  }

  ghost function MadeUser(accounts: Accounts, f: Files, u: string): Files
  {
    var home := AccountHome(accounts, u);
    f.(users := f.users + {u}, owner := WithNew(WithNew(f.owner, {home}, u), Above(home), "root"))
  }

  ghost function Chowned(f: Files, tree: string, u: string): Files { f.(owner := Owned(f.owner, tree, u)) }

  lemma DoCreateUser(accounts: Accounts, f: Files, t: Tenant)
    ensures Do(accounts, f, CreateUserStep(t)) == MadeUser(accounts, f, t.linuxUser)
    ensures Ready(f, CreateUserStep(t)) <==> t.linuxUser !in f.users
  {
    AccountEffects(t);
  }

  lemma DoDirectories(cfg: Settings, accounts: Accounts, f: Files, t: Tenant)
    ensures Do(accounts, f, CreateStateStep(t)) == Installed(f, t.openclawHome, t.linuxUser)
    ensures Ready(f, CreateStateStep(t)) <==> Known(f, t.linuxUser)
    ensures Do(accounts, f, CreateWorkspaceStep(t)) == Installed(f, t.workspaceRoot, t.linuxUser)
    ensures Ready(f, CreateWorkspaceStep(t)) <==> Known(f, t.linuxUser)
    ensures Do(accounts, f, TenantsDirStep()) == Installed(f, TENANTS_DIR, "root") && Ready(f, TenantsDirStep())
  {
    InstallEffects(t);
    OwnerArguments(cfg, t);
  }

  lemma InDirectory(f: Files, dir: string, name: string)
    requires dir in f.owner && name != "" && name[0] == '/' && '/' !in name[1..]
    ensures HasDirectory(f, dir + name)
  {
    assert dir + name == dir + "/" + name[1..];
  }

  lemma DoSeed(cfg: Settings, accounts: Accounts, f: Files, t: Tenant)
    ensures Do(accounts, f, SeedTemplateStep(cfg, t))
      == Copied(f, "-n", cfg.templateJson, t.openclawHome + "/openclaw.json")
    ensures t.openclawHome in f.owner ==> Ready(f, SeedTemplateStep(cfg, t))
  {
    CopyEffects(cfg, t);
    CopyArguments(cfg, t);
    if t.openclawHome in f.owner { InDirectory(f, t.openclawHome, "/openclaw.json"); }
  }

  lemma DoChown(cfg: Settings, accounts: Accounts, f: Files, t: Tenant)
    requires SafeUser(t.linuxUser)
    ensures Do(accounts, f, SetOwnerStep(cfg, t)) == Chowned(f, HomeDir(cfg, t.linuxUser), t.linuxUser)
    ensures Ready(f, SetOwnerStep(cfg, t)) <==> Known(f, t.linuxUser) && HomeDir(cfg, t.linuxUser) in f.owner
  {
    CopyEffects(cfg, t);
    OwnerArguments(cfg, t);
    OwnerOf(t.linuxUser);
  }

  /** What the first five steps make of the host. */
  ghost function Own(cfg: Settings, accounts: Accounts, t: Tenant, f: Files): Files
  {
    var u := t.linuxUser;
    var f3 := Installed(Installed(MadeUser(accounts, f, u), t.openclawHome, u), t.workspaceRoot, u);
    Chowned(Copied(f3, "-n", cfg.templateJson, t.openclawHome + "/openclaw.json"), HomeDir(cfg, u), u)
  }

  function OwnSteps(cfg: Settings, t: Tenant): seq<PlanStep>
  {
    [CreateUserStep(t), CreateStateStep(t), CreateWorkspaceStep(t), SeedTemplateStep(cfg, t), SetOwnerStep(cfg, t)]
  }

  lemma OwnStepsDo(cfg: Settings, accounts: Accounts, t: Tenant, f: Files)
    requires TenantOf(cfg, t) && Absolute(cfg)
    ensures DoAll(accounts, f, OwnSteps(cfg, t)) == Own(cfg, accounts, t, f)
    ensures AllReady(accounts, f, OwnSteps(cfg, t)) <==> t.linuxUser !in f.users
  {
    var u := t.linuxUser;
    var f1 := MadeUser(accounts, f, u);
    var f2 := Installed(f1, t.openclawHome, u);
    var f3 := Installed(f2, t.workspaceRoot, u);
    var f4 := Copied(f3, "-n", cfg.templateJson, t.openclawHome + "/openclaw.json");
    DoFive(accounts, f, CreateUserStep(t), CreateStateStep(t), CreateWorkspaceStep(t), SeedTemplateStep(cfg, t),
      SetOwnerStep(cfg, t));
    DoCreateUser(accounts, f, t);
    DoDirectories(cfg, accounts, f1, t);
    DoDirectories(cfg, accounts, f2, t);
    DoSeed(cfg, accounts, f3, t);
    DoChown(cfg, accounts, f4, t);
    StateUnderHome(cfg, t);
    AboveMeansUnder(t.openclawHome, HomeDir(cfg, u));
    assert HomeDir(cfg, u) in f2.owner by { HomeIsNamed(cfg, u); }
  }

  lemma HomeIsNamed(cfg: Settings, user: string)
    requires SafeUser(user) && Absolute(cfg)
    ensures HomeDir(cfg, user) != ""
  {
    HomeDirShape(cfg, user);
  }

  /** The paths there are when the template is copied. */
  function Made(accounts: Accounts, t: Tenant, f: Files): set<string>
  {
    f.owner.Keys + WithParents(AccountHome(accounts, t.linuxUser)) + WithParents(t.openclawHome)
    + WithParents(t.workspaceRoot)
  }

  lemma InstalledKeys(f: Files, p: string, who: string)
    ensures Installed(f, p, who).owner.Keys == f.owner.Keys + WithParents(p)
    ensures Installed(f, p, who) == f.(owner := Installed(f, p, who).owner)
  {
  }

  lemma MadeUserKeys(accounts: Accounts, f: Files, u: string)
    ensures MadeUser(accounts, f, u).owner.Keys == f.owner.Keys + WithParents(AccountHome(accounts, u))
  {
  }

  lemma CopiedFacts(f: Files, flag: string, source: string, p: string)
    ensures var g := Copied(f, flag, source, p);
      && g.owner.Keys == f.owner.Keys + {p}
      && g.text == (if flag == "-n" && p in f.owner then f.text else f.text[p := source])
      && g.users == f.users && g.services == f.services && g.loaded == f.loaded
      && forall q | q in f.owner :: g.owner[q] == f.owner[q]
  {
  }

  /** After them the tenant owns everything in its home, and its settings hold the template unless something was in
      their place. */
  lemma OwnResult(cfg: Settings, accounts: Accounts, t: Tenant, f: Files)
    ensures var g, json := Own(cfg, accounts, t, f), t.openclawHome + "/openclaw.json";
      && g.users == f.users + {t.linuxUser} && g.services == f.services && g.loaded == f.loaded
      && g.owner.Keys == Made(accounts, t, f) + {json}
      && (forall p | p in g.owner && AtOrUnder(p, HomeDir(cfg, t.linuxUser)) :: g.owner[p] == t.linuxUser)
      && g.text == if json in Made(accounts, t, f) then f.text else f.text[json := cfg.templateJson]
  {
    var u := t.linuxUser;
    var f1 := MadeUser(accounts, f, u);
    var f2 := Installed(f1, t.openclawHome, u);
    var f3 := Installed(f2, t.workspaceRoot, u);
    MadeUserKeys(accounts, f, u);
    InstalledKeys(f1, t.openclawHome, u);
    InstalledKeys(f2, t.workspaceRoot, u);
    assert f3.owner.Keys == Made(accounts, t, f);
    CopiedFacts(f3, "-n", cfg.templateJson, t.openclawHome + "/openclaw.json");
  }

  /******* The shared steps and the service *******/

  /** /etc/systemd/system */
  const UNIT_DIR: string := GATEWAY_UNIT[..19]

  function SharedSteps(cfg: Settings, t: Tenant): seq<PlanStep>
  {
    [TenantsDirStep(), InstallUnitStep(cfg), InstallEnvStep(cfg, t), ReloadStep(), EnableGatewayStep(t)]
  }

  lemma DoUnit(cfg: Settings, accounts: Accounts, f: Files, t: Tenant)
    ensures Do(accounts, f, InstallUnitStep(cfg)) == Copied(f, "-n", GatewayTemplate(cfg), GATEWAY_UNIT)
    ensures UNIT_DIR in f.owner ==> Ready(f, InstallUnitStep(cfg))
  {
    CopyEffects(cfg, t);
    CopyArguments(cfg, t);
    if UNIT_DIR in f.owner {
      UnitText(GATEWAY_UNIT, "openclaw-gateway@.service");
      UnitInDirectory(f, GATEWAY_UNIT, "openclaw-gateway@.service");
    }
  }

  lemma UnitText(unit: string, name: string)
    requires unit == "/etc/systemd/system/openclaw-gateway@.service" && name == "openclaw-gateway@.service"
    ensures |unit| == 20 + |name| && unit[19] == '/' && '/' !in name
    ensures forall k | 0 <= k < |name| :: unit[20 + k] == name[k]
  {
  }

  lemma UnitInDirectory(f: Files, unit: string, name: string)
    requires |unit| == 20 + |name| && unit[19] == '/' && '/' !in name
    requires unit[..19] in f.owner && forall k | 0 <= k < |name| :: unit[20 + k] == name[k]
    ensures HasDirectory(f, unit)
  {
    assert unit == unit[..19] + "/" + name;
  }

  lemma DoEnv(cfg: Settings, accounts: Accounts, f: Files, t: Tenant)
    requires SafeUser(t.linuxUser)
    ensures Do(accounts, f, InstallEnvStep(cfg, t)) == Copied(f, "-f", EnvArtifact(cfg, t.slug), EnvFile(t.linuxUser))
    ensures TENANTS_DIR in f.owner ==> Ready(f, InstallEnvStep(cfg, t))
  {
    CopyEffects(cfg, t);
    CopyArguments(cfg, t);
    if TENANTS_DIR in f.owner { EnvFileInDirectory(f, t.linuxUser); }
  }

  lemma EnvFileInDirectory(f: Files, user: string)
    requires SafeUser(user) && TENANTS_DIR in f.owner
    ensures HasDirectory(f, EnvFile(user))
  {
    SafeUserIsPlain(user);
    assert '/' !in user + ".env";
  }

  lemma DoReload(accounts: Accounts, f: Files, t: Tenant)
    ensures Do(accounts, f, ReloadStep()) == f.(loaded := f.text) && Ready(f, ReloadStep())
  {
    ServiceEffects(t);
    assert ReloadStep().command == "/usr/bin/systemctl";
    assert "/usr/bin/systemctl"[9] == 's' && "/usr/bin/chown"[9] == 'c';
  }

  lemma DoEnable(accounts: Accounts, f: Files, t: Tenant)
    ensures Do(accounts, f, EnableGatewayStep(t)) == f.(services := f.services + {GatewayService(t.linuxUser)})
    ensures Ready(f, EnableGatewayStep(t)) <==>
      GATEWAY_UNIT in f.text && GATEWAY_UNIT in f.loaded && f.loaded[GATEWAY_UNIT] == f.text[GATEWAY_UNIT]
  {
    ServiceEffects(t);
  }

  ghost function WithShared(cfg: Settings, t: Tenant, f: Files): Files
  {
    var g := Copied(Installed(f, TENANTS_DIR, "root"), "-n", GatewayTemplate(cfg), GATEWAY_UNIT);
    var h := Copied(g, "-f", EnvArtifact(cfg, t.slug), EnvFile(t.linuxUser));
    h.(loaded := h.text, services := h.services + {GatewayService(t.linuxUser)})
  }

  /** The unit is a file or missing. */
  predicate UnitIsFile(f: Files) { GATEWAY_UNIT in f.owner ==> GATEWAY_UNIT in f.text }

  lemma DistinctTargets(user: string)
    requires SafeUser(user)
    ensures EnvFile(user) !in WithParents(TENANTS_DIR) && GATEWAY_UNIT !in WithParents(TENANTS_DIR)
    ensures EnvFile(user) != GATEWAY_UNIT
  {
    SharedIsNotEnvFile(user);
    assert |GATEWAY_UNIT| > |TENANTS_DIR|;
  }

  lemma SharedStepsDo(cfg: Settings, accounts: Accounts, t: Tenant, f: Files)
    requires SafeUser(t.linuxUser) && UNIT_DIR in f.owner && UnitIsFile(f)
    ensures DoAll(accounts, f, SharedSteps(cfg, t)) == WithShared(cfg, t, f)
    ensures AllReady(accounts, f, SharedSteps(cfg, t))
  {
    var f1 := Installed(f, TENANTS_DIR, "root");
    var f2 := Copied(f1, "-n", GatewayTemplate(cfg), GATEWAY_UNIT);
    var f3 := Copied(f2, "-f", EnvArtifact(cfg, t.slug), EnvFile(t.linuxUser));
    var f4 := f3.(loaded := f3.text);
    DoFive(accounts, f, TenantsDirStep(), InstallUnitStep(cfg), InstallEnvStep(cfg, t), ReloadStep(),
      EnableGatewayStep(t));
    DoDirectories(cfg, accounts, f, t);
    DoUnit(cfg, accounts, f1, t);
    DoEnv(cfg, accounts, f2, t);
    DoReload(accounts, f3, t);
    DoEnable(accounts, f4, t);
    InstalledKeys(f, TENANTS_DIR, "root");
    CopiedFacts(f1, "-n", GatewayTemplate(cfg), GATEWAY_UNIT);
    CopiedFacts(f2, "-f", EnvArtifact(cfg, t.slug), EnvFile(t.linuxUser));
    DistinctTargets(t.linuxUser);
  }

  lemma SharedResult(cfg: Settings, t: Tenant, f: Files)
    requires SafeUser(t.linuxUser)
    ensures var g, env := WithShared(cfg, t, f), EnvFile(t.linuxUser);
      && g.users == f.users && g.services == f.services + {GatewayService(t.linuxUser)} && g.loaded == g.text
      && g.owner.Keys == f.owner.Keys + SharedPaths() + {env}
      && TENANTS_DIR in g.owner && g.owner[TENANTS_DIR] == "root"
      && (forall p | p in f.owner && p != TENANTS_DIR :: g.owner[p] == f.owner[p])
      && g.text == (if GATEWAY_UNIT in f.owner then f.text else f.text[GATEWAY_UNIT := GatewayTemplate(cfg)])
                     [env := EnvArtifact(cfg, t.slug)]
  {
    var f1 := Installed(f, TENANTS_DIR, "root");
    var f2 := Copied(f1, "-n", GatewayTemplate(cfg), GATEWAY_UNIT);
    InstalledKeys(f, TENANTS_DIR, "root");
    CopiedFacts(f1, "-n", GatewayTemplate(cfg), GATEWAY_UNIT);
    CopiedFacts(f2, "-f", EnvArtifact(cfg, t.slug), EnvFile(t.linuxUser));
    DistinctTargets(t.linuxUser);
  }

  /******* Main results *******/

  lemma PlanInTwo(cfg: Settings, t: Tenant)
    ensures BootstrapPlan(cfg, t) == OwnSteps(cfg, t) + SharedSteps(cfg, t)
  {
  }

  lemma ConfigIsApart(state: string, name: string, user: string)
    requires name == "/openclaw.json"
    ensures state + name != EnvFile(user) && state + name != GATEWAY_UNIT
  {
    EndsWith(state, name);
    EndsWith(TENANTS_DIR + "/" + user, ".env");
    assert TENANTS_DIR + "/" + user + ".env" == EnvFile(user);
    assert GATEWAY_UNIT[|GATEWAY_UNIT| - 1] == 'e';
  }

  /** The unit's place is not taken by a directory, and none of the tenant's directories is made there. */
  predicate UnitIsFree(accounts: Accounts, t: Tenant, f: Files)
  {
    UnitIsFile(f) && (GATEWAY_UNIT in Made(accounts, t, f) ==> GATEWAY_UNIT in f.owner)
  }

  lemma UnitStaysFile(cfg: Settings, accounts: Accounts, t: Tenant, f: Files)
    requires UnitIsFree(accounts, t, f)
    ensures UnitIsFile(Own(cfg, accounts, t, f))
    ensures GATEWAY_UNIT in Own(cfg, accounts, t, f).owner <==> GATEWAY_UNIT in f.owner
  {
    OwnResult(cfg, accounts, t, f);
    ConfigIsApart(t.openclawHome, "/openclaw.json", t.linuxUser);
  }

  lemma BootstrapDo(cfg: Settings, accounts: Accounts, t: Tenant, f: Files)
    requires Usual(cfg, t) && UNIT_DIR in f.owner && UnitIsFree(accounts, t, f)
    ensures DoAll(accounts, f, BootstrapPlan(cfg, t)) == WithShared(cfg, t, Own(cfg, accounts, t, f))
    ensures AllReady(accounts, f, BootstrapPlan(cfg, t)) <==> t.linuxUser !in f.users
  {
    PlanInTwo(cfg, t);
    OwnStepsDo(cfg, accounts, t, f);
    OwnResult(cfg, accounts, t, f);
    UnitStaysFile(cfg, accounts, t, f);
    DoAppend(accounts, f, OwnSteps(cfg, t), SharedSteps(cfg, t));
    SharedStepsDo(cfg, accounts, t, Own(cfg, accounts, t, f));
  }

  /** On a host with a directory for units in which the unit's place is free, every command of a bootstrap plan finds
      what it needs when its turn comes, exactly if there is no such account yet: accounts come before what they own,
      directories before what is copied into them, and the service is started once systemd has read its unit. */
  lemma BootstrapRunsThrough(cfg: Settings, accounts: Accounts, t: Tenant, f: Files)
    requires Usual(cfg, t) && UNIT_DIR in f.owner && UnitIsFree(accounts, t, f)
    ensures AllReady(accounts, f, BootstrapPlan(cfg, t)) <==> t.linuxUser !in f.users
  {
    BootstrapDo(cfg, accounts, t, f);
  }

  lemma FinalOwners(cfg: Settings, t: Tenant, h: Files, home: string)
    requires SafeUser(t.linuxUser)
    requires forall p | p in h.owner && AtOrUnder(p, home) :: h.owner[p] == t.linuxUser
    ensures var g := WithShared(cfg, t, h);
      && g.users == h.users && GatewayService(t.linuxUser) in g.services
      && (forall p | p in g.owner && AtOrUnder(p, home) && p !in SharedPaths() && p != EnvFile(t.linuxUser) ::
            g.owner[p] == t.linuxUser)
      && TENANTS_DIR in g.owner && g.owner[TENANTS_DIR] == "root"
  {
    SharedResult(cfg, t, h);
    assert TENANTS_DIR in SharedPaths();
  }

  /** The tenant then owns everything in its home, and root the directory of the environment files. */
  lemma BootstrapOwners(cfg: Settings, accounts: Accounts, t: Tenant, f: Files)
    requires Usual(cfg, t) && UNIT_DIR in f.owner && UnitIsFree(accounts, t, f)
    ensures var g, u := DoAll(accounts, f, BootstrapPlan(cfg, t)), t.linuxUser;
      && u in g.users && GatewayService(u) in g.services
      && (forall p | p in g.owner && AtOrUnder(p, HomeDir(cfg, u)) && p !in SharedPaths() && p != EnvFile(u) ::
            g.owner[p] == u)
      && TENANTS_DIR in g.owner && g.owner[TENANTS_DIR] == "root"
  {
    BootstrapDo(cfg, accounts, t, f);
    OwnResult(cfg, accounts, t, f);
    FinalOwners(cfg, t, Own(cfg, accounts, t, f), HomeDir(cfg, t.linuxUser));
  }

  lemma FinalTexts(cfg: Settings, t: Tenant, h: Files)
    requires SafeUser(t.linuxUser) && UnitIsFile(h)
    ensures var g, env, json := WithShared(cfg, t, h), EnvFile(t.linuxUser), t.openclawHome + "/openclaw.json";
      && env in g.text && g.text[env] == EnvArtifact(cfg, t.slug)
      && GATEWAY_UNIT in g.text
      && g.text[GATEWAY_UNIT] == (if GATEWAY_UNIT in h.owner then h.text[GATEWAY_UNIT] else GatewayTemplate(cfg))
      && (json in h.text ==> json in g.text && g.text[json] == h.text[json])
  {
    SharedResult(cfg, t, h);
    ConfigIsApart(t.openclawHome, "/openclaw.json", t.linuxUser);
    DistinctTargets(t.linuxUser);
  }

  /** Its settings are the template unless something was in their place, its environment file is the one prepared for
      its slug, and the unit, an older one if there was one, is what systemd has read. */
  lemma BootstrapTexts(cfg: Settings, accounts: Accounts, t: Tenant, f: Files)
    requires Usual(cfg, t) && UNIT_DIR in f.owner && UnitIsFree(accounts, t, f)
    ensures var g, env, json :=
        DoAll(accounts, f, BootstrapPlan(cfg, t)), EnvFile(t.linuxUser), t.openclawHome + "/openclaw.json";
      && (json !in Made(accounts, t, f) ==> json in g.text && g.text[json] == cfg.templateJson)
      && (json in f.owner && json in f.text ==> json in g.text && g.text[json] == f.text[json])
      && env in g.text && g.text[env] == EnvArtifact(cfg, t.slug)
      && GATEWAY_UNIT in g.text && g.loaded == g.text
      && g.text[GATEWAY_UNIT] == (if GATEWAY_UNIT in f.owner then f.text[GATEWAY_UNIT] else GatewayTemplate(cfg))
  {
    var h := Own(cfg, accounts, t, f);
    BootstrapDo(cfg, accounts, t, f);
    UnitStaysFile(cfg, accounts, t, f);
    FinalTexts(cfg, t, h);
    OwnTexts(cfg, accounts, t, f);
  }

  lemma OwnTexts(cfg: Settings, accounts: Accounts, t: Tenant, f: Files)
    ensures var h, json := Own(cfg, accounts, t, f), t.openclawHome + "/openclaw.json";
      && (json !in Made(accounts, t, f) ==> json in h.text && h.text[json] == cfg.templateJson)
      && (json in f.owner && json in f.text ==> json in h.text && h.text[json] == f.text[json])
      && (GATEWAY_UNIT in f.text ==> GATEWAY_UNIT in h.text && h.text[GATEWAY_UNIT] == f.text[GATEWAY_UNIT])
  {
    OwnResult(cfg, accounts, t, f);
    ConfigIsApart(t.openclawHome, "/openclaw.json", t.linuxUser);
  }
}
