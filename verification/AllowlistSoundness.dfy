/**
 Exactly what the daemon's allowlist lets through: the argument lists below, each of which acts for one tenant or on
 what all tenants share.  It judges a command by the name of its program alone.
 */
module AllowlistSoundness {
  import opened PosixPaths
  import opened TenantPlans
  import opened Allowlist
  import opened PlanAcceptance

  /******* The argument lists *******/

  /** The arguments make the program act for this user, or on what all tenants share. */
  ghost predicate ActsFor(cfg: Settings, tool: Tool, args: seq<string>, u: string)
  {
    match tool
    case Useradd => args == ["-m", "-s", "/bin/bash", u]
    case Userdel => args == ["-r", u]
    case Install => InstallArgs(cfg, args, u)
    case Cp => |args| == 3 && (SeedArgs(cfg, args, u) || UnitArgs(cfg, args) || EnvArgs(cfg, args, u))
    case Chown => |args| == 3 && args == ["-R", args[1], HomeDir(cfg, u)] && Owner(args[1], u)
    case Rm => RmArgs(cfg, args, u)
    case NoOp => args == []
    case Systemctl => args == ["daemon-reload"] || args == ["enable", "--now", GatewayService(u)]
                      || args == ["disable", "--now", GatewayService(u)]
    case Unlisted => false
  }

  /** A directory for the user and its group, or the shared one for root. */
  predicate InstallArgs(cfg: Settings, args: seq<string>, u: string)
  {
    && |args| == 8 && args == ["-d", "-m", args[2], "-o", args[4], "-g", args[4], args[7]]
    && (args[2] == "0750" || args[2] == "0700")
    && if args[4] == "root" && args[7] == TENANTS_DIR then true
       else args[4] == u && (args[7] == JoinPosix([cfg.homeRoot, u, ".openclaw"])
                             || args[7] == JoinPosix([cfg.homeRoot, u, cfg.workspaceDir]))
  }

  /** The seed template to the user's settings. */
  predicate SeedArgs(cfg: Settings, args: seq<string>, u: string)
    requires |args| == 3
  {
    cfg.templateJson != "" && args == ["-n", cfg.templateJson, Below(cfg, u, "/.openclaw/openclaw.json")]
  }

  /** The unit template to the shared unit. */
  predicate UnitArgs(cfg: Settings, args: seq<string>)
    requires |args| == 3
  {
    args == ["-n", GatewayTemplate(cfg), GATEWAY_UNIT] && cfg.templateJson != GatewayTemplate(cfg)
  }

  /** A tenant's prepared environment file to the one of the user. */
  ghost predicate EnvArgs(cfg: Settings, args: seq<string>, u: string)
    requires |args| == 3
  {
    && args == ["-f", args[1], EnvFile(u)] && args[1] != cfg.templateJson && args[1] != GatewayTemplate(cfg)
    && exists slug :: SlugClass(slug) && args[1] == EnvDirectory(cfg) + slug + "/openclaw-gateway.env"
  }

  function EnvDirectory(cfg: Settings): string { Join([cfg.dataDir, "provisioner"]) + "/" }

  /** `u:u`, and what a further colon brings is ignored. */
  predicate Owner(text: string, u: string)
  {
    var own := u + [':'] + u;
    text == own || (|text| > |own| && text[..|own|] == own && text[|own|] == ':')
  }

  predicate RmArgs(cfg: Settings, args: seq<string>, u: string)
  {
    || args == ["-f", EnvFile(u)]
    || args == ["-rf", Below(cfg, u, "/.openclaw")] || args == ["-rf", Below(cfg, u, "/" + cfg.workspaceDir)]
  }

  /** A text after the user's directory in the home root. */
  function Below(cfg: Settings, u: string, rest: string): string { (JoinPosix([cfg.homeRoot]) + "/") + u + rest }

  /** Some safe user. */
  function AnyUser(): (u: string)
    ensures SafeUser(u)
  {
    "aa"
  }

  /******* What is let through is on the list *******/

  lemma FourArgs(args: seq<string>, a: string, b: string, c: string)
    requires |args| == 4 && args[0] == a && args[1] == b && args[2] == c
    ensures args == [a, b, c, args[3]]
  {
  }

  lemma AccountSound(cfg: Settings, tool: Tool, args: seq<string>) returns (u: string)
    requires tool == Useradd || tool == Userdel
    ensures CheckArgs(cfg, tool, "", args) == Allowed ==> SafeUser(u) && ActsFor(cfg, tool, args, u)
  {
    u := if args == [] then "" else args[|args| - 1];
    if CheckArgs(cfg, tool, "", args) == Allowed {
      if tool == Useradd {
        FourArgs(args, "-m", "-s", "/bin/bash");
      } else {
        assert args == ["-r", args[1]];
      }
    }
  }

  lemma EightArgs(args: seq<string>)
    requires |args| == 8
    ensures args == [args[0], args[1], args[2], args[3], args[4], args[5], args[6], args[7]]
  {
  }

  lemma InstallSound(cfg: Settings, args: seq<string>) returns (u: string)
    ensures CheckInstall(cfg, args) == Allowed ==> SafeUser(u) && InstallArgs(cfg, args, u)
  {
    u := if |args| == 8 && SafeUser(args[4]) then args[4] else AnyUser();
    if CheckInstall(cfg, args) == Allowed {
      EightArgs(args);
      assert args[0] == "-d" && args[1] == "-m" && args[3] == "-o" && args[5] == "-g" && args[6] == args[4];
    }
  }

  /** The user between prefix and suffix. */
  lemma UserOf(text: string, prefix: string, suffix: string) returns (u: string)
    ensures UserBetween(text, prefix, suffix) ==> SafeUser(u) && text == prefix + u + suffix
  {
    u := "";
    if UserBetween(text, prefix, suffix) {
      UserBetweenIff(text, prefix, suffix);
      u :| SafeUser(u) && text == prefix + u + suffix;
    }
  }

  lemma SlugBetweenIff(text: string, prefix: string, suffix: string)
    ensures SlugBetween(text, prefix, suffix) <==> exists slug :: SlugClass(slug) && text == prefix + slug + suffix
  {
    if SlugBetween(text, prefix, suffix) {
      var slug := text[|prefix|..|text| - |suffix|];
      assert text == prefix + slug + suffix;
    }
    forall slug | SlugClass(slug) && text == prefix + slug + suffix ensures SlugBetween(text, prefix, suffix) {
      SlugBetweenIntro(prefix, slug, suffix);
    }
  }

  lemma EnvFileText(user: string)
    ensures (TENANTS_DIR + "/") + user + ".env" == EnvFile(user)
  {
  }

  lemma SeedSound(cfg: Settings, args: seq<string>) returns (u: string)
    requires CheckCp(cfg, args) == Allowed && cfg.templateJson != "" && args[1] == cfg.templateJson
    ensures SafeUser(u) && SeedArgs(cfg, args, u)
  {
    u := UserOf(args[2], JoinPosix([cfg.homeRoot]) + "/", "/.openclaw/openclaw.json");
    assert args == [args[0], args[1], args[2]];
  }

  lemma UnitSound(cfg: Settings, args: seq<string>)
    requires CheckCp(cfg, args) == Allowed && args[1] == GatewayTemplate(cfg)
    requires !(cfg.templateJson != "" && args[1] == cfg.templateJson)
    ensures UnitArgs(cfg, args)
  {
    GatewayTemplateEnds(cfg);
    assert args == [args[0], args[1], args[2]];
  }

  lemma EnvSource(cfg: Settings, source: string)
    requires SlugBetween(source, EnvDirectory(cfg), "/openclaw-gateway.env")
    ensures source != ""
    ensures exists slug :: SlugClass(slug) && source == EnvDirectory(cfg) + slug + "/openclaw-gateway.env"
  {
    SlugBetweenIff(source, EnvDirectory(cfg), "/openclaw-gateway.env");
  }

  lemma EnvTarget(target: string) returns (u: string)
    requires UserBetween(target, TENANTS_DIR + "/", ".env")
    ensures SafeUser(u) && target == EnvFile(u)
  {
    u := UserOf(target, TENANTS_DIR + "/", ".env");
    EnvFileText(u);
  }

  lemma EnvCheck(cfg: Settings, args: seq<string>)
    requires CheckCp(cfg, args) == Allowed && args[1] != GatewayTemplate(cfg)
    requires !(cfg.templateJson != "" && args[1] == cfg.templateJson)
    ensures |args| == 3 && args[0] == "-f" && UserBetween(args[2], TENANTS_DIR + "/", ".env")
    ensures SlugBetween(args[1], EnvDirectory(cfg), "/openclaw-gateway.env")
  {
  }

  lemma EnvSound(cfg: Settings, args: seq<string>) returns (u: string)
    requires CheckCp(cfg, args) == Allowed && args[1] != GatewayTemplate(cfg)
    requires !(cfg.templateJson != "" && args[1] == cfg.templateJson)
    ensures SafeUser(u) && EnvArgs(cfg, args, u)
  {
    EnvCheck(cfg, args);
    u := EnvTarget(args[2]);
    EnvSource(cfg, args[1]);
    assert args == [args[0], args[1], args[2]];
  }

  lemma CpSound(cfg: Settings, args: seq<string>) returns (u: string)
    ensures CheckCp(cfg, args) == Allowed ==> SafeUser(u) && ActsFor(cfg, Cp, args, u)
  {
    u := AnyUser();
    if CheckCp(cfg, args) == Allowed {
      if cfg.templateJson != "" && args[1] == cfg.templateJson {
        u := SeedSound(cfg, args);
      } else if args[1] == GatewayTemplate(cfg) {
        UnitSound(cfg, args);
      } else {
        u := EnvSound(cfg, args);
      }
    }
  }

  /** Which texts split at a colon into twice the same colon-free text, and perhaps more. */
  lemma OwnerIff(text: string, u: string)
    requires ':' !in u
    ensures Owner(text, u) <==> |Split(text, ':')| >= 2 && Split(text, ':')[0] == u && Split(text, ':')[1] == u
  {
    var parts, own := Split(text, ':'), u + [':'] + u;
    SplitAppend(u, u, ':');
    SplitWithout(u, ':');
    if Owner(text, u) && text != own {
      var rest := text[|own| + 1..];
      assert text == own + [':'] + rest;
      SplitAppend(own, rest, ':');
    }
    if |parts| >= 2 && parts[0] == u && parts[1] == u { GluedOwner(text, u); }
  }

  lemma GluedOwner(text: string, u: string)
    requires var parts := Split(text, ':'); |parts| >= 2 && parts[0] == u && parts[1] == u
    ensures Owner(text, u)
  {
    var parts := Split(text, ':');
    GlueSplit(text, ':');
    assert Glue([u, u], ':') == u + [':'] + u;
    if |parts| == 2 {
      assert parts == [u, u];
    } else {
      assert parts == [u, u] + parts[2..];
      GlueAppend([u, u], parts[2..], ':');
    }
  }

  lemma ChownExactly(cfg: Settings, args: seq<string>, u: string)
    requires SafeUser(u)
    ensures ActsFor(cfg, Chown, args, u) <==>
      CheckChown(cfg, args) == Allowed && Split(args[1], ':')[0] == u
  {
    if |args| == 3 {
      OwnerIff(args[1], u);
      assert args[0] == "-R" && args[2] == HomeDir(cfg, u) ==> args == ["-R", args[1], HomeDir(cfg, u)];
    }
  }

  lemma ChownSound(cfg: Settings, args: seq<string>) returns (u: string)
    ensures CheckChown(cfg, args) == Allowed ==> SafeUser(u) && ActsFor(cfg, Chown, args, u)
  {
    u := if |args| == 3 then Split(args[1], ':')[0] else "";
    if SafeUser(u) { ChownExactly(cfg, args, u); }
  }

  lemma RmSound(cfg: Settings, args: seq<string>) returns (u: string)
    ensures CheckRm(cfg, args) == Allowed ==> SafeUser(u) && RmArgs(cfg, args, u)
  {
    u := "";
    if CheckRm(cfg, args) == Allowed {
      assert args == [args[0], args[1]];
      var home := JoinPosix([cfg.homeRoot]) + "/";
      if args[0] == "-f" {
        u := UserOf(args[1], TENANTS_DIR + "/", ".env");
        EnvFileText(u);
      } else if UserBetween(args[1], home, "/.openclaw") {
        u := UserOf(args[1], home, "/.openclaw");
      } else {
        u := UserOf(args[1], home, "/" + cfg.workspaceDir);
      }
    }
  }

  lemma SystemctlSound(cfg: Settings, args: seq<string>) returns (u: string)
    ensures CheckSystemctl(args) == Allowed ==> SafeUser(u) && ActsFor(cfg, Systemctl, args, u)
  {
    u := AnyUser();
    if CheckSystemctl(args) == Allowed {
      if |args| == 1 {
        assert args == ["daemon-reload"];
      } else {
        u := UserOf(args[2], "openclaw-gateway@", ".service");
        assert args == [args[0], "--now", GatewayService(u)];
      }
    }
  }

  /******* What is on the list is let through *******/

  lemma InstallListed(cfg: Settings, args: seq<string>, u: string)
    requires SafeUser(u) && InstallArgs(cfg, args, u)
    ensures CheckInstall(cfg, args) == Allowed
  {
    assert args[0] == "-d" && args[1] == "-m" && args[3] == "-o" && args[5] == "-g" && args[6] == args[4];
  }

  lemma SeedListed(cfg: Settings, args: seq<string>, u: string)
    requires SafeUser(u) && |args| == 3 && SeedArgs(cfg, args, u)
    ensures CheckCp(cfg, args) == Allowed
  {
    UserBetweenIff(args[2], JoinPosix([cfg.homeRoot]) + "/", "/.openclaw/openclaw.json");
  }

  lemma EnvListed(cfg: Settings, args: seq<string>, u: string)
    requires SafeUser(u) && |args| == 3 && EnvArgs(cfg, args, u)
    ensures CheckCp(cfg, args) == Allowed
  {
    EnvFileText(u);
    UserBetweenIff(args[2], TENANTS_DIR + "/", ".env");
    SlugBetweenIff(args[1], EnvDirectory(cfg), "/openclaw-gateway.env");
  }

  lemma UnitListed(cfg: Settings, args: seq<string>)
    requires |args| == 3 && UnitArgs(cfg, args)
    ensures CheckCp(cfg, args) == Allowed
  {
    UnitAllowed(cfg, GatewayTemplate(cfg), GATEWAY_UNIT);
  }

  lemma RmListed(cfg: Settings, args: seq<string>, u: string)
    requires SafeUser(u) && RmArgs(cfg, args, u)
    ensures CheckRm(cfg, args) == Allowed
  {
    var home := JoinPosix([cfg.homeRoot]) + "/";
    EnvFileText(u);
    UserBetweenIff(args[1], TENANTS_DIR + "/", ".env");
    UserBetweenIff(args[1], home, "/.openclaw");
    UserBetweenIff(args[1], home, "/" + cfg.workspaceDir);
  }

  lemma AccountListed(cfg: Settings, tool: Tool, args: seq<string>, u: string)
    requires SafeUser(u) && (tool == Useradd || tool == Userdel) && ActsFor(cfg, tool, args, u)
    ensures CheckArgs(cfg, tool, "", args) == Allowed
  {
    if tool == Useradd { UseraddAllowed(u); }
  }

  lemma SystemctlListed(cfg: Settings, args: seq<string>, u: string)
    requires SafeUser(u) && ActsFor(cfg, Systemctl, args, u)
    ensures CheckSystemctl(args) == Allowed
  {
    ReloadAllowed("daemon-reload");
    ServiceAllowed("enable", u);
    ServiceAllowed("disable", u);
  }

  lemma ListedIsAccepted(cfg: Settings, tool: Tool, command: string, args: seq<string>, u: string)
    requires SafeUser(u) && ActsFor(cfg, tool, args, u)
    ensures CheckArgs(cfg, tool, command, args) == Allowed
  {
    match tool
    case Useradd => AccountListed(cfg, tool, args, u);
    case Userdel => AccountListed(cfg, tool, args, u);
    case Install => InstallListed(cfg, args, u);
    case Cp =>
      if SeedArgs(cfg, args, u) {
        SeedListed(cfg, args, u);
      } else if UnitArgs(cfg, args) {
        UnitListed(cfg, args);
      } else {
        EnvListed(cfg, args, u);
      }
    case Chown => ChownExactly(cfg, args, u);
    case Rm => RmListed(cfg, args, u);
    case Systemctl => SystemctlListed(cfg, args, u);
    case _ =>
  }

  /******* Main results *******/

  /** Every accepted command is one of the listed programs, with arguments that make it act for some safe user or on the
      directory or unit that all tenants share. */
  lemma AcceptedActsForATenant(cfg: Settings, command: string, args: seq<string>) returns (u: string)
    requires ValidateCommand(cfg, command, args) == Allowed
    ensures SafeUser(u) && ActsFor(cfg, ToolOf(Program(command)), args, u)
  {
    match ToolOf(Program(command))
    case Useradd => u := AccountSound(cfg, Useradd, args);
    case Userdel => u := AccountSound(cfg, Userdel, args);
    case Install => u := InstallSound(cfg, args);
    case Cp => u := CpSound(cfg, args);
    case Chown => u := ChownSound(cfg, args);
    case Rm => u := RmSound(cfg, args);
    case Systemctl => u := SystemctlSound(cfg, args);
    case _ => u := AnyUser();
  }

  /** The allowlist is exactly the list of argument lists above: a command is accepted if and only if, for some safe
      user, it is one of them for a program of that name. */
  lemma AcceptedExactly(cfg: Settings, command: string, args: seq<string>)
    ensures ValidateCommand(cfg, command, args) == Allowed
      <==> exists u :: SafeUser(u) && ActsFor(cfg, ToolOf(Program(command)), args, u)
  {
    if ValidateCommand(cfg, command, args) == Allowed {
      var u := AcceptedActsForATenant(cfg, command, args);
    } else {
      forall u | SafeUser(u) ensures !ActsFor(cfg, ToolOf(Program(command)), args, u) {
        if ActsFor(cfg, ToolOf(Program(command)), args, u) {
          NamedProgram(command);
          ListedIsAccepted(cfg, ToolOf(Program(command)), command, args, u);
        }
      }
    }
  }

  /** Without a command there is no program. */
  lemma NamedProgram(command: string)
    ensures command == "" ==> ToolOf(Program(command)) == Unlisted
  {
    if command == "" { SplitWithout(command, '/'); }
  }

  /** The directory of the program is not judged: what is accepted for one path is accepted for every path that ends in
      the same name.  So an accepted command runs the program of the plans exactly if it is given by that path. */
  lemma OnlyTheNameIsJudged(cfg: Settings, dir: string, name: string, args: seq<string>)
    requires '/' !in name && ToolOf(name) != Unlisted
    ensures ValidateCommand(cfg, dir + "/" + name, args) == Allowed
      <==> ValidateCommand(cfg, Path(ToolOf(name)), args) == Allowed
  {
    var tool := ToolOf(name);
    ProgramOf(dir, name);
    PathInDirectory(tool);
    ToolOfName(tool);
    ProgramOf(Directory(tool), Name(tool));
  }

  /** Such a command that is not of the plans: any other program called `userdel`. */
  lemma OtherProgramIsAccepted(cfg: Settings, dir: string, user: string)
    requires SafeUser(user)
    ensures ValidateCommand(cfg, dir + "/" + Name(Userdel), ["-r", user]) == Allowed
  {
    ToolOfName(Userdel);
    ProgramOf(dir, Name(Userdel));
    UserdelAllowed(user);
  }
}
