/**
 The command allowlist of the provisioner daemon (ops/mc-provisioner-daemon.js).
 It is written independently of the plan builder and must agree with it.
 */
module Allowlist {
  import opened PosixPaths
  import opened TenantPlans

  datatype Verdict = Allowed | Refused(reason: string)

  /** ^prefix([a-z_][a-z0-9_-]{1,30})suffix$ with prefix and suffix taken literally. */
  predicate UserBetween(text: string, prefix: string, suffix: string)
  {
    && |prefix| + |suffix| <= |text|
    && text[..|prefix|] == prefix
    && text[|text| - |suffix|..] == suffix
    && SafeUser(text[|prefix|..|text| - |suffix|])
  }

  /** [a-z0-9-]{3,32} */
  predicate SlugClass(s: string)
  {
    3 <= |s| <= 32 && forall k | 0 <= k < |s| :: LowerOrDigit(s[k]) || s[k] == '-'
  }

  predicate SlugBetween(text: string, prefix: string, suffix: string)
  {
    && |prefix| + |suffix| <= |text|
    && text[..|prefix|] == prefix
    && text[|text| - |suffix|..] == suffix
    && SlugClass(text[|prefix|..|text| - |suffix|])
  }

  lemma UserBetweenIff(text: string, prefix: string, suffix: string)
    ensures UserBetween(text, prefix, suffix) <==> exists u :: SafeUser(u) && text == prefix + u + suffix
  {
    if UserBetween(text, prefix, suffix) {
      var u := text[|prefix|..|text| - |suffix|];
      assert text == prefix + u + suffix;
    }
    forall u | SafeUser(u) && text == prefix + u + suffix ensures UserBetween(text, prefix, suffix) {
      assert text[|prefix|..|text| - |suffix|] == u;
    }
  }

  lemma SlugBetweenIntro(prefix: string, slug: string, suffix: string)
    requires SlugClass(slug)
    ensures SlugBetween(prefix + slug + suffix, prefix, suffix)
  {
    var text := prefix + slug + suffix;
    assert text[|prefix|..|text| - |suffix|] == slug;
  }

  /** The program name: the command after its last slash. */
  function Program(command: string): string
  {
    var parts := Split(command, '/');
    parts[|parts| - 1]
  }

  function CheckUseradd(args: seq<string>): Verdict
  {
    if |args| != 4 then Refused("useradd argument mismatch")
    else if args[0] != "-m" || args[1] != "-s" || args[2] != "/bin/bash" then Refused("useradd args not allowed")
    else if !SafeUser(args[3]) then Refused("Invalid username")
    else Allowed
  }

  function CheckInstall(cfg: Settings, args: seq<string>): Verdict
  {
    if |args| != 8 then Refused("install argument mismatch")
    else if args[0] != "-d" || args[1] != "-m" || args[3] != "-o"
      || args[5] != "-g" then Refused("install args not allowed")
    else if args[2] != "0750" && args[2] != "0700" then Refused("install mode not allowed")
    else
      var userA, userB, target := args[4], args[6], args[7];
      var rootOwned := userA == "root" && userB == "root";
      var tenantOwned := SafeUser(userA) && SafeUser(userB) && userA == userB;
      if !rootOwned && !tenantOwned then Refused("install ownership not allowed")
      else if rootOwned && target == TENANTS_DIR then Allowed
      else if target != JoinPosix([cfg.homeRoot, userA, ".openclaw"])
        && target != JoinPosix([cfg.homeRoot, userA, cfg.workspaceDir])
        then Refused("install path not allowed")
      else Allowed
  }

  function CheckCp(cfg: Settings, args: seq<string>): Verdict
  {
    if |args| != 3 then Refused("cp argument mismatch")
    else
      var flag, source, target := args[0], args[1], args[2];
      if flag != "-n" && flag != "-f" then Refused("cp flag not allowed")
      else if cfg.templateJson != "" && source == cfg.templateJson then
        if flag != "-n" then Refused("openclaw config copy must use -n")
        else if !UserBetween(target, JoinPosix([cfg.homeRoot]) + "/", "/.openclaw/openclaw.json")
          then Refused("cp target not allowed")
        else Allowed
      else if source == GatewayTemplate(cfg) then
        if flag != "-n" then Refused("template copy must use -n")
        else if target != GATEWAY_UNIT then Refused("gateway template target not allowed")
        else Allowed
      else if SlugBetween(source, Join([cfg.dataDir, "provisioner"]) + "/", "/openclaw-gateway.env") then
        if flag != "-f" then Refused("tenant env copy must use -f")
        else if !UserBetween(target, TENANTS_DIR + "/", ".env") then Refused("tenant env target not allowed")
        else Allowed
      else Refused("cp source not allowed")
  }

  function CheckChown(cfg: Settings, args: seq<string>): Verdict
  {
    if |args| != 3 then Refused("chown argument mismatch")
    else if args[0] != "-R" then Refused("chown must use -R")
    else
      var owner := Split(args[1], ':');
      if !SafeUser(owner[0]) || |owner| < 2 || owner[0] != owner[1] then Refused("chown owner not allowed")
      else if args[2] != JoinPosix([cfg.homeRoot, owner[0]]) then Refused("chown target not allowed")
      else Allowed
  }

  function CheckRm(cfg: Settings, args: seq<string>): Verdict
  {
    if |args| != 2 then Refused("rm argument mismatch")
    else if args[0] == "-f" then
      if UserBetween(args[1], TENANTS_DIR + "/", ".env") then Allowed else Refused("rm -f target not allowed")
    else if args[0] == "-rf" then
      var home := JoinPosix([cfg.homeRoot]) + "/";
      if UserBetween(args[1], home, "/.openclaw") || UserBetween(args[1], home, "/" + cfg.workspaceDir) then Allowed
      else Refused("rm -rf target not allowed")
    else Refused("rm flag not allowed")
  }

  function CheckUserdel(args: seq<string>): Verdict
  {
    if |args| != 2 then Refused("userdel argument mismatch")
    else if args[0] != "-r" then Refused("userdel must use -r")
    else if !SafeUser(args[1]) then Refused("Invalid username")
    else Allowed
  }

  function CheckSystemctl(args: seq<string>): Verdict
  {
    if |args| == 1 && args[0] == "daemon-reload" then Allowed
    else if |args| == 3 && (args[0] == "enable" || args[0] == "disable") && args[1] == "--now" then
      if UserBetween(args[2], "openclaw-gateway@", ".service") then Allowed
        else Refused("systemctl service name not allowed")
    else Refused("systemctl args not allowed")
  }

  datatype Tool = Useradd | Install | Cp | Chown | Rm | Userdel | NoOp | Systemctl | Unlisted

  function ToolOf(program: string): Tool
  {
    if program == "useradd" then Useradd
    else if program == "install" then Install
    else if program == "cp" then Cp
    else if program == "chown" then Chown
    else if program == "rm" then Rm
    else if program == "userdel" then Userdel
    else if program == "true" then NoOp
    else if program == "systemctl" then Systemctl
    else Unlisted
  }

  function CheckArgs(cfg: Settings, tool: Tool, command: string, args: seq<string>): Verdict
  {
    match tool
    case Useradd => CheckUseradd(args)
    case Install => CheckInstall(cfg, args)
    case Cp => CheckCp(cfg, args)
    case Chown => CheckChown(cfg, args)
    case Rm => CheckRm(cfg, args)
    case Userdel => CheckUserdel(args)
    case NoOp => if args == [] then Allowed else Refused("true takes no args")
    case Systemctl => CheckSystemctl(args)
    case Unlisted => Refused("Command not allowlisted: " + command)
  }

  /** validateCommand; `Allowed` is its null. */
  function ValidateCommand(cfg: Settings, command: string, args: seq<string>): Verdict
  {
    if command == "" then Refused("Invalid command payload")
    else CheckArgs(cfg, ToolOf(Program(command)), command, args)
  }

  /** What the daemon decides about a plan step. */
  predicate Accepts(cfg: Settings, step: PlanStep)
  {
    ValidateCommand(cfg, step.command, step.args) == Allowed
  }
}
