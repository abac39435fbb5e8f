/**
 What the plans do to the host: setting a tenant up and decommissioning it again.  The effect of a command is that
 of the tool it names when it succeeds; accounts, paths and enabled services are tracked, contents and owners are
 not. `useradd` creates the account's home in its own base directory, `install -d` also the missing directories
 above.
 */
module TenantLifecycle {
  import opened Options
  import opened PosixPaths
  import opened TenantPlans
  import opened PlanAcceptance
  import opened TenantIsolation

  datatype Host = Host(users: set<string>, paths: set<string>, services: set<string>)

  datatype Effect =
    | AddUser(user: string)
    | RemoveUser(user: string)
    | MakeDirectories(path: string)
    | AddFile(path: string)
    | RemoveFile(path: string)
    | RemoveTree(path: string)
    | Enable(service: string)
    | Disable(service: string)
    | Nothing

  function EffectOf(step: PlanStep): Effect
  {
    if step.args == [] then Nothing
    else
      var last := step.args[|step.args| - 1];
      if step.command == "/usr/sbin/useradd" then AddUser(last)
      else if step.command == "/usr/sbin/userdel" then RemoveUser(last)
      else if step.command == "/usr/bin/install" then MakeDirectories(last)
      else if step.command == "/usr/bin/cp" then AddFile(last)
      else if step.command == "/usr/bin/rm" then if step.args[0] == "-rf" then RemoveTree(last) else RemoveFile(last)
      else if step.command == "/usr/bin/systemctl" then
        if step.args[0] == "enable" then Enable(last) else if step.args[0] == "disable" then Disable(last) else Nothing
      else Nothing
  }

  /** The directories above a path. */
  function Above(p: string): set<string> { set k | 0 < k < |p| && p[k] == '/' :: p[..k] }

  function WithParents(p: string): set<string> { {p} + Above(p) }

  ghost function Without(paths: set<string>, tree: string): set<string>
  {
    set p | p in paths && !AtOrUnder(p, tree)
  }

  ghost function Perform(accounts: Accounts, host: Host, effect: Effect): Host
  {
    match effect
    case AddUser(u) => host.(users := host.users + {u}, paths := host.paths + WithParents(AccountHome(accounts, u)))
    case RemoveUser(u) => host.(users := host.users - {u}, paths := Without(host.paths, AccountHome(accounts, u)))
    case MakeDirectories(p) => host.(paths := host.paths + WithParents(p))
    case AddFile(p) => host.(paths := host.paths + {p})
    case RemoveFile(p) => host.(paths := host.paths - {p})
    case RemoveTree(p) => host.(paths := Without(host.paths, p))
    case Enable(service) => host.(services := host.services + {service})
    case Disable(service) => host.(services := host.services - {service})
    case Nothing => host
  }

  function Effects(plan: seq<PlanStep>): (r: seq<Effect>)
    ensures |r| == |plan| && forall i | 0 <= i < |plan| :: r[i] == EffectOf(plan[i])
  {
    seq(|plan|, i requires 0 <= i < |plan| => EffectOf(plan[i]))
  }

  ghost function HostAfter(accounts: Accounts, host: Host, effects: seq<Effect>): Host
    decreases |effects|
  {
    if effects == [] then host else HostAfter(accounts, Perform(accounts, host, effects[0]), effects[1..])
  }

  /******* Effects of the steps *******/

  lemma AccountEffects(t: Tenant)
    ensures EffectOf(CreateUserStep(t)) == AddUser(t.linuxUser)
      && EffectOf(RemoveUserStep(t)) == RemoveUser(t.linuxUser)
  {
    assert CreateUserStep(t).command == "/usr/sbin/useradd";
    assert RemoveUserStep(t).command == "/usr/sbin/userdel";
  }

  lemma InstallEffects(t: Tenant)
    ensures EffectOf(CreateStateStep(t)) == MakeDirectories(t.openclawHome)
    ensures EffectOf(CreateWorkspaceStep(t)) == MakeDirectories(t.workspaceRoot)
    ensures EffectOf(TenantsDirStep()) == MakeDirectories(TENANTS_DIR)
  {
  }

  lemma CopyEffects(cfg: Settings, t: Tenant)
    ensures EffectOf(SeedTemplateStep(cfg, t)) == AddFile(t.openclawHome + "/openclaw.json")
    ensures EffectOf(InstallUnitStep(cfg)) == AddFile(GATEWAY_UNIT)
    ensures EffectOf(InstallEnvStep(cfg, t)) == AddFile(EnvFile(t.linuxUser))
    ensures EffectOf(SetOwnerStep(cfg, t)) == Nothing
  {
  }

  lemma RemovalEffects(t: Tenant)
    ensures EffectOf(RemoveEnvStep(t)) == RemoveFile(EnvFile(t.linuxUser))
    ensures EffectOf(RemoveStateStep(t)) == RemoveTree(t.openclawHome)
    ensures EffectOf(RemoveWorkspaceStep(t)) == RemoveTree(t.workspaceRoot)
  {
  }

  lemma ServiceEffects(t: Tenant)
    ensures EffectOf(ReloadStep()) == Nothing
    ensures EffectOf(EnableGatewayStep(t)) == Enable(GatewayService(t.linuxUser))
    ensures EffectOf(DisableGatewayStep(t)) == Disable(GatewayService(t.linuxUser))
  {
  }

  function Setup(t: Tenant): seq<Effect>
  {
    [ MakeDirectories(t.openclawHome), MakeDirectories(t.workspaceRoot), AddFile(t.openclawHome + "/openclaw.json"),
      Nothing,
      MakeDirectories(TENANTS_DIR), AddFile(GATEWAY_UNIT), AddFile(EnvFile(t.linuxUser)), Nothing ]
  }

  lemma BootstrapEffects(cfg: Settings, t: Tenant)
    ensures Effects(BootstrapPlan(cfg, t)) == [AddUser(t.linuxUser)] + Setup(t) + [Enable(GatewayService(t.linuxUser))]
  {
    AccountEffects(t);
    InstallEffects(t);
    CopyEffects(cfg, t);
    ServiceEffects(t);
  }

  lemma DecommissionEffects(t: Tenant, options: RemovalOptions)
    ensures Effects(DecommissionPlan(t, options)) ==
      [Disable(GatewayService(t.linuxUser)), RemoveFile(EnvFile(t.linuxUser))] +
      (if options.removeLinuxUser then [RemoveUser(t.linuxUser)]
       else if options.removeStateDirs then [RemoveTree(t.openclawHome), RemoveTree(t.workspaceRoot)] else [])
  {
    AccountEffects(t);
    RemovalEffects(t);
    ServiceEffects(t);
  }

  /******* Running them *******/

  lemma {:induction false} HostAppend(accounts: Accounts, host: Host, a: seq<Effect>, b: seq<Effect>)
    ensures HostAfter(accounts, host, a + b) == HostAfter(accounts, HostAfter(accounts, host, a), b)
    decreases |a|
  {
    if a == [] {
      assert a + b == b;
    } else {
      assert (a + b)[1..] == a[1..] + b;
      HostAppend(accounts, Perform(accounts, host, a[0]), a[1..], b);
    }
  }

  lemma OneEffect(accounts: Accounts, host: Host, e: Effect)
    ensures HostAfter(accounts, host, [e]) == Perform(accounts, host, e)
  {
    assert [e][1..] == [];
  }

  lemma TwoEffects(accounts: Accounts, host: Host, e: Effect, f: Effect)
    ensures HostAfter(accounts, host, [e, f]) == Perform(accounts, Perform(accounts, host, e), f)
  {
    assert [e, f] == [e] + [f];
    HostAppend(accounts, host, [e], [f]);
    OneEffect(accounts, host, e);
    OneEffect(accounts, Perform(accounts, host, e), f);
  }

  predicate OnlyAdds(e: Effect) { e.MakeDirectories? || e.AddFile? || e.Nothing? }

  function AddedBy(e: Effect): set<string>
  {
    match e
    case MakeDirectories(p) => WithParents(p)
    case AddFile(p) => {p}
    case _ => {}
  }

  function Added(effects: seq<Effect>): set<string>
  {
    if effects == [] then {} else Added(effects[..|effects| - 1]) + AddedBy(effects[|effects| - 1])
  }

  lemma {:induction false} HostAfterAdding(accounts: Accounts, host: Host, effects: seq<Effect>)
    requires forall i | 0 <= i < |effects| :: OnlyAdds(effects[i])
    ensures HostAfter(accounts, host, effects) == host.(paths := host.paths + Added(effects))
    decreases |effects|
  {
    if effects == [] {
      assert host.paths + Added(effects) == host.paths;
    } else {
      var before, last := effects[..|effects| - 1], effects[|effects| - 1];
      HostAfterAdding(accounts, host, before);
      assert effects == before + [last];
      HostAppend(accounts, host, before, [last]);
      OneEffect(accounts, HostAfter(accounts, host, before), last);
      assert host.paths + Added(effects) == host.paths + Added(before) + AddedBy(last);
    }
  }

  lemma AddedAppend(effects: seq<Effect>, e: Effect)
    ensures Added(effects + [e]) == Added(effects) + AddedBy(e)
  {
    assert (effects + [e])[..|effects|] == effects;
  }

  lemma AddedByTwo(e: Effect, f: Effect)
    ensures Added([e, f]) == AddedBy(e) + AddedBy(f)
  {
    AddedAppend([], e);
    AddedAppend([e], f);
    assert [] + [e] == [e] && [e] + [f] == [e, f];
  }

  lemma AddedByFour(e: Effect, f: Effect, g: Effect, h: Effect)
    ensures Added([e, f, g, h]) == AddedBy(e) + AddedBy(f) + AddedBy(g) + AddedBy(h)
  {
    AddedByTwo(e, f);
    AddedAppend([e, f], g);
    AddedAppend([e, f, g], h);
    assert [e, f] + [g] == [e, f, g] && [e, f, g] + [h] == [e, f, g, h];
  }

  lemma FourMore(first: seq<Effect>, e: Effect, f: Effect, g: Effect, h: Effect)
    ensures (((first + [e]) + [f]) + [g]) + [h] == first + [e, f, g, h]
  {
  }

  lemma AddedByEight(first: seq<Effect>, e: Effect, f: Effect, g: Effect, h: Effect)
    ensures Added(first + [e, f, g, h]) == (((Added(first) + AddedBy(e)) + AddedBy(f)) + AddedBy(g)) + AddedBy(h)
  {
    AddedAppend(first, e);
    AddedAppend(first + [e], f);
    AddedAppend((first + [e]) + [f], g);
    AddedAppend(((first + [e]) + [f]) + [g], h);
    FourMore(first, e, f, g, h);
  }

  /** What is made for the tenant alone, but for the directories above the account's home. */
  function OwnPaths(accounts: Accounts, t: Tenant): set<string>
  {
    WithParents(AccountHome(accounts, t.linuxUser)) + WithParents(t.openclawHome) + WithParents(t.workspaceRoot)
    + {t.openclawHome + "/openclaw.json"} + {EnvFile(t.linuxUser)}
  }

  function SharedPaths(): set<string> { WithParents(TENANTS_DIR) + {GATEWAY_UNIT} }

  lemma AddedBySetup(t: Tenant)
    ensures Added(Setup(t)) ==
      WithParents(t.openclawHome) + WithParents(t.workspaceRoot) + {t.openclawHome + "/openclaw.json"}
      + WithParents(TENANTS_DIR) + {GATEWAY_UNIT} + {EnvFile(t.linuxUser)}
  {
    var s := Setup(t);
    assert s == [s[0], s[1], s[2], s[3]] + [s[4], s[5], s[6], s[7]];
    AddedByFour(s[0], s[1], s[2], s[3]);
    AddedByEight([s[0], s[1], s[2], s[3]], s[4], s[5], s[6], s[7]);
  }

  lemma Unions(h: set<string>, a: set<string>, b: set<string>, c: set<string>, d: set<string>, e: set<string>,
      f: set<string>, g: set<string>)
    ensures (h + a) + (b + c + d + e + f + g) == h + ((a + b + c + d + g) + (e + f))
  {
  }

  lemma PathsMade(accounts: Accounts, t: Tenant, paths: set<string>)
    ensures (paths + WithParents(AccountHome(accounts, t.linuxUser))) + Added(Setup(t)) ==
      paths + (OwnPaths(accounts, t) + SharedPaths())
  {
    AddedBySetup(t);
    Unions(paths, WithParents(AccountHome(accounts, t.linuxUser)), WithParents(t.openclawHome),
      WithParents(t.workspaceRoot),
           {t.openclawHome + "/openclaw.json"}, WithParents(TENANTS_DIR), {GATEWAY_UNIT}, {EnvFile(t.linuxUser)});
  }

  ghost function SetUp(accounts: Accounts, t: Tenant, host: Host): Host
  {
    Host(host.users + {t.linuxUser},
         host.paths + (OwnPaths(accounts, t) + SharedPaths()),
         host.services + {GatewayService(t.linuxUser)})
  }

  lemma SetupRun(accounts: Accounts, t: Tenant, host: Host, first: Effect, middle: seq<Effect>, last: Effect)
    requires first == AddUser(t.linuxUser) && middle == Setup(t) && last == Enable(GatewayService(t.linuxUser))
    ensures HostAfter(accounts, host, [first] + middle + [last]) == SetUp(accounts, t, host)
  {
    var a := Perform(accounts, host, first);
    var b := a.(paths := a.paths + Added(middle));
    HostAppend(accounts, host, [first] + middle, [last]);
    HostAppend(accounts, host, [first], middle);
    OneEffect(accounts, host, first);
    HostAfterAdding(accounts, a, middle);
    OneEffect(accounts, b, last);
    PathsMade(accounts, t, host.paths);
  }

  /** A bootstrap plan adds the account, the tenant's paths, the shared paths and the running service, and nothing else,
      whatever was there before. */
  lemma BootstrapSetsUp(cfg: Settings, accounts: Accounts, t: Tenant, host: Host)
    ensures HostAfter(accounts, host, Effects(BootstrapPlan(cfg, t))) == SetUp(accounts, t, host)
  {
    BootstrapEffects(cfg, t);
    SetupRun(accounts, t, host, AddUser(t.linuxUser), Setup(t), Enable(GatewayService(t.linuxUser)));
  }

  lemma DecommissionWithUser(accounts: Accounts, t: Tenant, host: Host, options: RemovalOptions)
    requires options.removeLinuxUser
    ensures HostAfter(accounts, host, Effects(DecommissionPlan(t, options))) ==
      Host(host.users - {t.linuxUser},
           Without(host.paths - {EnvFile(t.linuxUser)}, AccountHome(accounts, t.linuxUser)),
           host.services - {GatewayService(t.linuxUser)})
  {
    var a, b, c := Disable(GatewayService(t.linuxUser)), RemoveFile(EnvFile(t.linuxUser)), RemoveUser(t.linuxUser);
    DecommissionEffects(t, options);
    HostAppend(accounts, host, [a, b], [c]);
    TwoEffects(accounts, host, a, b);
    OneEffect(accounts, Perform(accounts, Perform(accounts, host, a), b), c);
  }

  /** Without removal of the account the service and the environment file go, and the two trees if the options say
      so. */
  lemma DecommissionState(accounts: Accounts, t: Tenant, host: Host, options: RemovalOptions)
    requires !options.removeLinuxUser
    ensures HostAfter(accounts, host, Effects(DecommissionPlan(t, options))) ==
      Host(host.users,
           if options.removeStateDirs
           then Without(Without(host.paths - {EnvFile(t.linuxUser)}, t.openclawHome), t.workspaceRoot)
           else host.paths - {EnvFile(t.linuxUser)},
           host.services - {GatewayService(t.linuxUser)})
  {
    var a, b := Disable(GatewayService(t.linuxUser)), RemoveFile(EnvFile(t.linuxUser));
    var c, d := RemoveTree(t.openclawHome), RemoveTree(t.workspaceRoot);
    DecommissionEffects(t, options);
    TwoEffects(accounts, host, a, b);
    var h := Perform(accounts, Perform(accounts, host, a), b);
    if options.removeStateDirs {
      HostAppend(accounts, host, [a, b], [c, d]);
      TwoEffects(accounts, h, c, d);
    } else {
      assert [a, b] + [] == [a, b];
    }
  }

  /******* Paths above and below *******/

  lemma UnderTransitive(p: string, q: string, r: string)
    requires AtOrUnder(q, r) && AtOrUnder(p, q)
    ensures AtOrUnder(p, r)
  {
    if p != q && q != r {
      assert p[..|r|] == q[..|r|] by {
        assert p[..|q|] == q;
      }
      assert p[|r|] == q[|r|] by {
        assert p[..|q|] == q;
      }
    }
  }

  lemma AboveMeansUnder(p: string, x: string)
    ensures x in Above(p) ==> AtOrUnder(p, x) && |x| < |p|
    ensures AtOrUnder(p, x) && p != x && x != "" ==> x in Above(p)
  {
    if AtOrUnder(p, x) && p != x && x != "" {
      assert p[..|x|] == x;
    }
  }

  /** A directory above a path in a tree is in the tree or above it. */
  lemma AboveOrUnder(x: string, p: string, tree: string)
    requires x in Above(p) && AtOrUnder(p, tree)
    ensures AtOrUnder(x, tree) || x in Above(tree)
  {
    var k :| 0 < k < |p| && p[k] == '/' && p[..k] == x;
    assert p[..|tree|] == tree;
    if k < |tree| {
      assert x == tree[..k];
    } else {
      assert x[..|tree|] == tree;
    }
  }

  /******* Where the tenant's paths are *******/

  ghost predicate Usual(cfg: Settings, t: Tenant)
  {
    TenantOf(cfg, t) && IsAbsolute(StripSlashes(cfg.homeRoot))
  }

  lemma InHomeIsUnder(cfg: Settings, user: string, p: string)
    requires SafeUser(user) && Absolute(cfg) && InHome(cfg, user, p)
    ensures AtOrUnder(p, HomeDir(cfg, user))
  {
    HomeDirSegments(cfg, user);
    PrefixIsUnder(p, HomeDir(cfg, user));
  }

  lemma StateUnderHome(cfg: Settings, t: Tenant)
    requires TenantOf(cfg, t) && Absolute(cfg)
    ensures AtOrUnder(t.openclawHome, HomeDir(cfg, t.linuxUser))
  {
    StateInHome(cfg, t.linuxUser, t.openclawHome);
    InHomeIsUnder(cfg, t.linuxUser, t.openclawHome);
  }

  lemma ConfigUnderHome(cfg: Settings, t: Tenant)
    requires TenantOf(cfg, t) && Absolute(cfg)
    ensures AtOrUnder(t.openclawHome + "/openclaw.json", HomeDir(cfg, t.linuxUser))
  {
    StateInHome(cfg, t.linuxUser, t.openclawHome);
    SeedInHome(cfg, t.linuxUser, t.openclawHome);
    InHomeIsUnder(cfg, t.linuxUser, t.openclawHome + "/openclaw.json");
  }

  lemma SegmentsOf(base: seq<string>, u: string)
    requires Segments(base) && SafeUser(u)
    ensures Segments(base + [u]) && Segments(base + [u, ".openclaw"]) && '.' !in u
  {
    SafeUserIsPlain(u);
  }

  lemma StateOrder(base: seq<string>, accounts: Accounts, u: string)
    requires Segments(base) && SafeUser(u)
    ensures AtOrUnder(Render(true, base + [u, ".openclaw"]), AccountHome(accounts, u))
      <==> AtOrUnder(Render(true, base + [u]), AccountHome(accounts, u))
  {
    SegmentsOf(base, u);
    SegmentsOf(accounts, u);
    PathOrder(base + [u, ".openclaw"], accounts + [u]);
    PathOrder(base + [u], accounts + [u]);
    DotSegment(base, u, accounts);
  }

  /** The state directory lies in the account's home only if the tenant's whole home does. */
  lemma StateInAccount(cfg: Settings, accounts: Accounts, t: Tenant)
    requires Usual(cfg, t)
    ensures AtOrUnder(t.openclawHome, AccountHome(accounts, t.linuxUser))
      <==> AtOrUnder(HomeDir(cfg, t.linuxUser), AccountHome(accounts, t.linuxUser))
  {
    OpenclawHomeShape(cfg, t.linuxUser);
    HomeDirShape(cfg, t.linuxUser);
    BaseSegmentsOk(cfg);
    StateOrder(Base(cfg), accounts, t.linuxUser);
  }

  lemma DotSegment(base: seq<string>, u: string, accounts: seq<string>)
    requires '.' !in u
    ensures accounts + [u] <= base + [u, ".openclaw"] <==> accounts + [u] <= base + [u]
  {
    var account, home, state := accounts + [u], base + [u], base + [u, ".openclaw"];
    assert state == home + [".openclaw"];
    assert u != ".openclaw" by { assert ".openclaw"[0] == '.'; }
    if account <= state {
      assert account[|accounts|] == u;
      assert |account| <= |home|;
      assert forall k | 0 <= k < |account| :: account[k] == state[k] == home[k];
    }
  }

  lemma AccountIsNotEnvFile(accounts: Accounts, user: string)
    requires SafeUser(user)
    ensures AccountHome(accounts, user) != EnvFile(user)
  {
    var account, env := accounts + [user], EnvSegments(user);
    SafeUserIsPlain(user);
    EnvFileRendered(user);
    assert account[|account| - 1] == user && env[2] == user + ".env" && user != user + ".env";
    if AccountHome(accounts, user) == EnvFile(user) { RenderedAlike(account, env); }
  }

  lemma StateText(cfg: Settings, t: Tenant)
    requires TenantOf(cfg, t) && Absolute(cfg)
    ensures |t.openclawHome| > 0 && t.openclawHome[|t.openclawHome| - 1] == 'w' && '.' in t.openclawHome
  {
    var u, base := t.linuxUser, Base(cfg);
    OpenclawHomeShape(cfg, u);
    assert base + [u, ".openclaw"] == (base + [u]) + [".openclaw"];
    RenderUnder(true, base + [u], [".openclaw"]);
    EndsWith(Render(true, base + [u]) + "/", ".openclaw");
  }

  lemma EndsWith(front: string, end: string)
    requires end != ""
    ensures (front + end)[|front + end| - 1] == end[|end| - 1] && forall c | c in end :: c in front + end
  {
  }

  lemma NoDots(dir: string)
    requires dir == TENANTS_DIR
    ensures '.' !in dir
  {
  }

  lemma NotAState(state: string, user: string)
    requires |state| > 0 && state[|state| - 1] == 'w' && '.' in state
    ensures state !in SharedPaths() && state != EnvFile(user)
  {
    NoDots(TENANTS_DIR);
    forall x | x in WithParents(TENANTS_DIR) ensures x != state {
      assert forall c | c in x :: c in TENANTS_DIR;
    }
    EndsWith(TENANTS_DIR + "/" + user, ".env");
    assert TENANTS_DIR + "/" + user + ".env" == EnvFile(user);
  }

  /******* Main results *******/

  /** Nothing on the host belongs to the tenant yet. */
  ghost predicate Unused(cfg: Settings, accounts: Accounts, host: Host, t: Tenant)
  {
    && t.linuxUser !in host.users && GatewayService(t.linuxUser) !in host.services
      && EnvFile(t.linuxUser) !in host.paths
    && forall p | p in host.paths ::
         !AtOrUnder(p, HomeDir(cfg, t.linuxUser)) && !AtOrUnder(p, AccountHome(accounts, t.linuxUser))
  }

  /** What may stay: the shared paths, and the directories above the account's home unless they are the tenant's. */
  ghost function MayStay(cfg: Settings, accounts: Accounts, t: Tenant): set<string>
  {
    SharedPaths() + Without(Above(AccountHome(accounts, t.linuxUser)), HomeDir(cfg, t.linuxUser))
  }

  /** No directory made for the workspace stays that was not there before: each is removed or may stay. */
  ghost predicate WorkspaceGoes(cfg: Settings, accounts: Accounts, t: Tenant, host: Host)
  {
    forall x | x in WithParents(t.workspaceRoot) && x !in host.paths && x !in MayStay(cfg, accounts, t) ::
      AtOrUnder(x, AccountHome(accounts, t.linuxUser)) || x == EnvFile(t.linuxUser)
  }

  /** Removing the account removes what was made for the tenant and nothing that is shared: the tenant's home is in the
      account's home, the shared paths are not, the account's home is not below the environment file, and the workspace
      goes. */
  ghost predicate RemovalFits(cfg: Settings, accounts: Accounts, t: Tenant, host: Host)
  {
    var account := AccountHome(accounts, t.linuxUser);
    && AtOrUnder(HomeDir(cfg, t.linuxUser), account)
    && !AtOrUnder(TENANTS_DIR, account) && !AtOrUnder(GATEWAY_UNIT, account)
    && !AtOrUnder(account, EnvFile(t.linuxUser))
    && WorkspaceGoes(cfg, accounts, t, host)
  }

  /** What stays of what was made. */
  ghost function Stays(accounts: Accounts, t: Tenant): set<string>
  {
    Without(OwnPaths(accounts, t) + SharedPaths() - {EnvFile(t.linuxUser)}, AccountHome(accounts, t.linuxUser))
  }

  ghost function Final(cfg: Settings, accounts: Accounts, t: Tenant, host: Host, options: RemovalOptions): Host
  {
    HostAfter(accounts, HostAfter(accounts, host, Effects(BootstrapPlan(cfg, t))),
      Effects(DecommissionPlan(t, options)))
  }

  lemma FinalHost(cfg: Settings, accounts: Accounts, t: Tenant, host: Host, options: RemovalOptions)
    requires Unused(cfg, accounts, host, t) && options.removeLinuxUser
    ensures Final(cfg, accounts, t, host, options) == host.(paths := host.paths + Stays(accounts, t))
  {
    var u, made := t.linuxUser, OwnPaths(accounts, t) + SharedPaths();
    BootstrapSetsUp(cfg, accounts, t, host);
    DecommissionWithUser(accounts, t, SetUp(accounts, t, host), options);
    assert host.users + {u} - {u} == host.users;
    assert host.services + {GatewayService(u)} - {GatewayService(u)} == host.services;
    assert Without(host.paths + made - {EnvFile(u)}, AccountHome(accounts, u)) == host.paths + Stays(accounts, t);
  }

  /** A directory above a path in the tenant's home is the account's or above it. */
  lemma AboveOwn(home: string, account: string, p: string, x: string)
    requires AtOrUnder(home, account) && AtOrUnder(p, home) && x in Above(p)
    ensures AtOrUnder(x, account) || x in Above(account)
  {
    UnderTransitive(p, home, account);
    AboveOrUnder(x, p, account);
  }

  lemma OwnGoes(home: string, account: string, x: string)
    requires AtOrUnder(home, account)
    ensures AtOrUnder(x, home) ==> AtOrUnder(x, account)
  {
    if AtOrUnder(x, home) { UnderTransitive(x, home, account); }
  }

  lemma OwnPathGoes(account: string, home: string, state: string, json: string, x: string)
    requires AtOrUnder(home, account) && AtOrUnder(state, home) && AtOrUnder(json, home)
    requires x in WithParents(account) + WithParents(state) + {json}
    ensures AtOrUnder(x, account) || x in Without(Above(account), home)
  {
    OwnGoes(home, account, x);
    if x in Above(state) { AboveOwn(home, account, state, x); }
  }

  lemma StaysFits(cfg: Settings, accounts: Accounts, t: Tenant, host: Host)
    requires TenantOf(cfg, t) && Absolute(cfg)
    ensures RemovalFits(cfg, accounts, t, host) ==> Stays(accounts, t) <= host.paths + MayStay(cfg, accounts, t)
  {
    if RemovalFits(cfg, accounts, t, host) {
      var account, home := AccountHome(accounts, t.linuxUser), HomeDir(cfg, t.linuxUser);
      var state, json := t.openclawHome, t.openclawHome + "/openclaw.json";
      StateUnderHome(cfg, t);
      ConfigUnderHome(cfg, t);
      forall x | x in Stays(accounts, t) ensures x in host.paths + MayStay(cfg, accounts, t) {
        if x in WithParents(account) + WithParents(state) + {json} { OwnPathGoes(account, home, state, json, x); }
      }
    }
  }

  /** A workspace in the tenant's home goes with it. */
  lemma WorkspaceInHomeGoes(cfg: Settings, accounts: Accounts, t: Tenant, host: Host)
    requires AtOrUnder(t.workspaceRoot, HomeDir(cfg, t.linuxUser))
    requires AtOrUnder(HomeDir(cfg, t.linuxUser), AccountHome(accounts, t.linuxUser))
    ensures WorkspaceGoes(cfg, accounts, t, host)
  {
    var account, home := AccountHome(accounts, t.linuxUser), HomeDir(cfg, t.linuxUser);
    forall x | x in WithParents(t.workspaceRoot) && x !in MayStay(cfg, accounts, t) ensures AtOrUnder(x, account) {
      OwnGoes(home, account, x);
      if x in Above(t.workspaceRoot) { AboveOwn(home, account, t.workspaceRoot, x); }
    }
  }

  lemma SharedStays(accounts: Accounts, t: Tenant, x: string)
    requires x in SharedPaths() && SafeUser(t.linuxUser)
    requires !AtOrUnder(TENANTS_DIR, AccountHome(accounts, t.linuxUser))
    requires !AtOrUnder(GATEWAY_UNIT, AccountHome(accounts, t.linuxUser))
    ensures x in Stays(accounts, t)
  {
    var account := AccountHome(accounts, t.linuxUser);
    SharedIsNotEnvFile(t.linuxUser);
    AboveMeansUnder(TENANTS_DIR, x);
    if x in Above(TENANTS_DIR) && AtOrUnder(x, account) { UnderTransitive(TENANTS_DIR, x, account); }
  }

  lemma SharedIsNotEnvFile(user: string)
    ensures EnvFile(user) !in SharedPaths()
  {
    assert EnvFile(user)[5] == 'o' && GATEWAY_UNIT[5] == 's';
    assert |EnvFile(user)| > |TENANTS_DIR|;
  }

  lemma MayStayFits(cfg: Settings, accounts: Accounts, t: Tenant, host: Host)
    requires SafeUser(t.linuxUser)
    ensures RemovalFits(cfg, accounts, t, host) ==> MayStay(cfg, accounts, t) <= Stays(accounts, t)
  {
    if RemovalFits(cfg, accounts, t, host) {
      forall x | x in MayStay(cfg, accounts, t) ensures x in Stays(accounts, t) {
        if x in SharedPaths() {
          SharedStays(accounts, t, x);
        } else {
          AboveMeansUnder(AccountHome(accounts, t.linuxUser), x);
        }
      }
    }
  }

  /** If the tenant's home is elsewhere, its state directory stays. */
  lemma StateStays(cfg: Settings, accounts: Accounts, t: Tenant)
    requires Usual(cfg, t)
    ensures t.openclawHome in Stays(accounts, t) <==>
            !AtOrUnder(HomeDir(cfg, t.linuxUser), AccountHome(accounts, t.linuxUser))
    ensures t.openclawHome !in MayStay(cfg, accounts, t)
  {
    var state, env, account := t.openclawHome, EnvFile(t.linuxUser), AccountHome(accounts, t.linuxUser);
    assert state !in SharedPaths() && state != env by {
      StateText(cfg, t);
      NotAState(state, t.linuxUser);
    }
    assert state in Stays(accounts, t) <==> !AtOrUnder(state, account) by {
      assert state in OwnPaths(accounts, t) by { assert state in WithParents(state); }
    }
    StateInAccount(cfg, accounts, t);
    StateUnderHome(cfg, t);
  }

  lemma EnvFileMissing(cfg: Settings, accounts: Accounts, t: Tenant)
    requires Usual(cfg, t)
    requires AtOrUnder(HomeDir(cfg, t.linuxUser), AccountHome(accounts, t.linuxUser))
    requires AtOrUnder(AccountHome(accounts, t.linuxUser), EnvFile(t.linuxUser))
    ensures EnvFile(t.linuxUser) in MayStay(cfg, accounts, t)
  {
    var account, home, env := AccountHome(accounts, t.linuxUser), HomeDir(cfg, t.linuxUser), EnvFile(t.linuxUser);
    AccountIsNotEnvFile(accounts, t.linuxUser);
    AboveMeansUnder(account, env);
    if AtOrUnder(env, home) { UnderTransitive(env, home, account); }
  }

  /** A path that is in one of the two and was not on the host before. */
  lemma Misfit(cfg: Settings, accounts: Accounts, t: Tenant, host: Host) returns (x: string)
    requires Usual(cfg, t) && Unused(cfg, accounts, host, t) && !RemovalFits(cfg, accounts, t, host)
    ensures x !in host.paths && (x in Stays(accounts, t) <==> x !in MayStay(cfg, accounts, t))
  {
    var account := AccountHome(accounts, t.linuxUser);
    if !AtOrUnder(HomeDir(cfg, t.linuxUser), account) {
      x := t.openclawHome;
      StateStays(cfg, accounts, t);
      StateUnderHome(cfg, t);
    } else if AtOrUnder(TENANTS_DIR, account) {
      x := TENANTS_DIR;
    } else if AtOrUnder(GATEWAY_UNIT, account) {
      x := GATEWAY_UNIT;
    } else if AtOrUnder(account, EnvFile(t.linuxUser)) {
      x := EnvFile(t.linuxUser);
      EnvFileMissing(cfg, accounts, t);
    } else {
      x :| x in WithParents(t.workspaceRoot) && x !in host.paths && x !in MayStay(cfg, accounts, t)
           && !AtOrUnder(x, account) && x != EnvFile(t.linuxUser);
    }
  }

  /** Set up and decommissioned with its account, a new tenant leaves the host as it was but for the shared paths
      and the directories above the account's home, exactly when the tenant's home is in the account's home, the
      shared paths are not, the account's home is not below the environment file, and the workspace goes. */
  lemma DecommissionUndoesBootstrap(cfg: Settings, accounts: Accounts, t: Tenant, host: Host, options: RemovalOptions)
    requires Usual(cfg, t) && Unused(cfg, accounts, host, t) && options.removeLinuxUser
    ensures Final(cfg, accounts, t, host, options) == host.(paths := host.paths + MayStay(cfg, accounts, t))
            <==> RemovalFits(cfg, accounts, t, host)
  {
    FinalHost(cfg, accounts, t, host, options);
    var stays, mayStay := Stays(accounts, t), MayStay(cfg, accounts, t);
    if RemovalFits(cfg, accounts, t, host) {
      StaysFits(cfg, accounts, t, host);
      MayStayFits(cfg, accounts, t, host);
      assert host.paths + stays == host.paths + mayStay;
    } else {
      var x := Misfit(cfg, accounts, t, host);
      assert x in host.paths + stays <==> x !in host.paths + mayStay;
    }
  }

  /** Decommissioned with its account, a tenant leaves its state directory behind exactly when its home is not in the
      account's home: the plan then leaves out the steps that would remove it. */
  lemma StateLeftBehindExactly(cfg: Settings, accounts: Accounts, t: Tenant, host: Host, options: RemovalOptions)
    requires Usual(cfg, t) && Unused(cfg, accounts, host, t) && options.removeLinuxUser
    ensures t.openclawHome in Final(cfg, accounts, t, host, options).paths
      <==> !AtOrUnder(HomeDir(cfg, t.linuxUser), AccountHome(accounts, t.linuxUser))
  {
    FinalHost(cfg, accounts, t, host, options);
    StateStays(cfg, accounts, t);
    StateUnderHome(cfg, t);
  }

  /** So it is for every tenant under `/srv/tenants` on a host that puts accounts in `/home`. */
  lemma CustomRootLeavesState(cfg: Settings, accounts: Accounts, t: Tenant, host: Host, options: RemovalOptions)
    requires Usual(cfg, t) && Unused(cfg, accounts, host, t) && options.removeLinuxUser
    requires Base(cfg) == ["srv", "tenants"] && accounts == ["home"]
    ensures t.openclawHome in Final(cfg, accounts, t, host, options).paths
  {
    var u := t.linuxUser;
    HomeDirShape(cfg, u);
    BaseSegmentsOk(cfg);
    SegmentsOf(Base(cfg), u);
    SegmentsOf(accounts, u);
    PathOrder(Base(cfg) + [u], accounts + [u]);
    assert (accounts + [u])[0] == "home" && (Base(cfg) + [u])[0] == "srv" && "home"[0] != "srv"[0];
    StateLeftBehindExactly(cfg, accounts, t, host, options);
  }
}
