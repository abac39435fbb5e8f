/**
 How one plan step is run: `runProvisionStep` (src/lib/super-admin.ts), the client `runProvisionerCommand`
 (src/lib/provisioner-client.ts), the socket handler and `runWithRetry` of the daemon
 (ops/mc-provisioner-daemon.js), and `runCommand` (src/lib/command.ts).

 The network and the spawned processes are arbitrary inputs, gathered in `World`.
 */
module Provisioner {
  import opened Options
  import opened TenantPlans
  import opened Allowlist
  import SocketFraming

  datatype Command = Command(program: string, args: seq<string>)

  /** How a child process ends; `lockMessage` tells whether its stderr says that /etc/passwd cannot be locked. */
  datatype Exit = Code(code: int) | Killed | TimedOut | NotStarted
  datatype Child = Child(exit: Exit, lockMessage: bool)

  datatype RunResult = RunResult(ok: bool, code: Option<int>)

  datatype Request = Request(token: string, command: string, args: seq<string>, dryRun: bool)
  datatype Response = Response(ok: bool, code: Option<int>, skipped: bool)

  /** What the caller of a step sees: an exception, a result with its exit code, or a promise that never settles. */
  datatype StepOutcome = Threw | Returned(code: int, skipped: bool) | NeverEnds

  datatype Reply = Came | Missed | NeverComes

  /** The outcome of a step and every process spawned for it, in order. */
  datatype StepRun = StepRun(outcome: StepOutcome, spawned: seq<Command>)

  /** Settings, tokens, what happens on the client's socket, whether the daemon has handled the request, and how the
      k-th spawned process ends. */
  datatype World = World(cfg: Settings, daemonMode: bool, clientToken: string, daemonToken: string,
                         events: seq<SocketFraming.Event>, handled: bool, child: nat -> Child)

  /******* Daemon *******/

  /** `run` of the daemon. */
  function ResultOf(child: Child): RunResult
  {
    match child.exit
    case Code(n) => RunResult(n == 0, Some(n))
    case Killed => RunResult(false, None)
    case TimedOut => RunResult(false, Some(124))
    case NotStarted => RunResult(false, Some(1))
  }

  function MaxAttempts(program: string): nat { if program == "useradd" then 6 else 1 }

  /** A failed attempt that is worth repeating. */
  predicate Transient(program: string, child: Child)
  {
    !ResultOf(child).ok && program == "useradd" && child.lockMessage
  }

  /** Number of attempts made: up to the first that is not a transient failure, at most `MaxAttempts`. */
  function AttemptsFrom(program: string, child: nat -> Child, k: nat): (n: nat)
    requires k < MaxAttempts(program)
    ensures k < n <= MaxAttempts(program)
    ensures forall j | k <= j < n - 1 :: Transient(program, child(j))
    ensures n == MaxAttempts(program) || !Transient(program, child(n - 1))
    decreases MaxAttempts(program) - k
  {
    if !Transient(program, child(k)) || k + 1 == MaxAttempts(program) then k + 1
    else AttemptsFrom(program, child, k + 1)
  }

  /** runWithRetry, as the loop it is. */
  method RunWithRetry(program: string, child: nat -> Child) returns (result: RunResult, spawned: nat)
    ensures spawned == AttemptsFrom(program, child, 0)
    ensures result == ResultOf(child(spawned - 1))
  {
    var maxAttempts := MaxAttempts(program);
    result := ResultOf(child(0));
    spawned := 1;
    while !result.ok && program == "useradd" && child(spawned - 1).lockMessage && spawned < maxAttempts
      invariant 1 <= spawned <= maxAttempts
      invariant result == ResultOf(child(spawned - 1))
      invariant AttemptsFrom(program, child, 0) == AttemptsFrom(program, child, spawned - 1)
      decreases maxAttempts - spawned
    {
      result := ResultOf(child(spawned));
      spawned := spawned + 1;
    }
  }

  function Repeated(c: Command, n: nat): (r: seq<Command>)
    ensures |r| == n && forall k | 0 <= k < n :: r[k] == c
  {
    seq(n, _ => c)
  }

  /** The socket handler on one request. */
  function Handle(w: World, req: Request): (Response, seq<Command>)
  {
    if req.token != w.daemonToken then (Response(false, None, false), [])
    else if ValidateCommand(w.cfg, req.command, req.args) != Allowed then (Response(false, None, false), [])
    else if req.dryRun then (Response(true, Some(0), true), [])
    else
      var attempts := AttemptsFrom(Program(req.command), w.child, 0);
      var result := ResultOf(w.child(attempts - 1));
      (Response(result.ok, result.code, false), Repeated(Command(req.command, req.args), attempts))
  }

  /******* Application *******/

  /** How the promise of `callProvisioner` ends after the events on its socket; one that is still pending then with its
      timer armed is rejected by the timeout. */
  function ReplyIn(w: World): Reply
  {
    var c := SocketFraming.After(SocketFraming.NEW_CLIENT, w.events);
    if c.promise.Line? then Came else if c.promise.Pending? && !c.armed then NeverComes else Missed
  }

  /** runProvisionerCommand: a missing token, a rejected promise or a refusal becomes an exception.  A line that comes
      back is the daemon's reply to this request, so the daemon has handled it. */
  function CallDaemon(w: World, command: string, args: seq<string>, dryRun: bool): StepRun
  {
    if w.clientToken == "" then StepRun(Threw, [])
    else
      var (response, spawned) := Handle(w, Request(w.clientToken, command, args, dryRun));
      var reply := ReplyIn(w);
      if !reply.Came? then StepRun(if reply.Missed? then Threw else NeverEnds, if w.handled then spawned else [])
      else if !response.ok then StepRun(Threw, spawned)
      else StepRun(Returned(if response.code.Some? then response.code.value else 1, response.skipped), spawned)
  }

  /** runCommand: resolves on exit code 0 and rejects on everything else. */
  function SpawnDirectly(w: World, c: Command): StepRun
  {
    if w.child(0).exit == Code(0) then StepRun(Returned(0, false), [c]) else StepRun(Threw, [c])
  }

  function RunProvisionStep(w: World, step: PlanStep, dryRun: bool): StepRun
  {
    if step.command == "" then StepRun(Threw, [])
    else if step.requiresRoot && w.daemonMode then CallDaemon(w, step.command, step.args, dryRun)
    else if dryRun then StepRun(Returned(0, true), [])
    else if step.requiresRoot then SpawnDirectly(w, Command("sudo", ["-n", step.command] + step.args))
    else SpawnDirectly(w, Command(step.command, step.args))
  }

  /******* Results *******/

  /** A dry run spawns no process in any mode, whatever the network and the daemon do. */
  lemma DryRunSpawnsNothing(w: World, step: PlanStep)
    ensures RunProvisionStep(w, step, true).spawned == []
  {
  }

  /** A step that does not throw has exit code 0 and is marked skipped exactly in a dry run; a live one really ran:
      the last process spawned for it is its command and exited with code 0, and no more than six were spawned. */
  lemma ReturnedStepSucceeded(w: World, step: PlanStep, dryRun: bool)
    requires RunProvisionStep(w, step, dryRun).outcome.Returned?
    ensures var run := RunProvisionStep(w, step, dryRun);
      && run.outcome == Returned(0, dryRun)
      && (dryRun <==> run.spawned == [])
      && |run.spawned| <= 6
      && (!dryRun ==>
            && w.child(|run.spawned| - 1).exit == Code(0)
            && (var last := run.spawned[|run.spawned| - 1];
                last == Command(step.command, step.args) || last == Command("sudo", ["-n", step.command] + step.args)))
  {
  }

  /** What every step run satisfies: a result has exit code 0 and is skipped exactly in a dry run, which spawns
      nothing. */
  predicate SoundEnd(dryRun: bool, run: StepRun)
  {
    (run.outcome.Returned? ==> run.outcome == Returned(0, dryRun)) && (dryRun ==> run.spawned == [])
  }

  lemma StepEndsSoundly(w: World, step: PlanStep, dryRun: bool)
    ensures SoundEnd(dryRun, RunProvisionStep(w, step, dryRun))
  {
    if RunProvisionStep(w, step, dryRun).outcome.Returned? {
      ReturnedStepSucceeded(w, step, dryRun);
    }
    DryRunSpawnsNothing(w, step);
  }

  /** A step never ends exactly if it goes to the daemon, with a token to send, and its socket is closed before an
      error, the timeout or any data: then no further event can settle the promise. */
  lemma NeverEndsExactly(w: World, step: PlanStep, dryRun: bool)
    ensures RunProvisionStep(w, step, dryRun).outcome == NeverEnds
      <==> step.command != "" && step.requiresRoot && w.daemonMode && w.clientToken != ""
           && SocketFraming.ClosedSilently(w.events)
    ensures RunProvisionStep(w, step, dryRun).outcome == NeverEnds ==>
      SocketFraming.NeverSettles(SocketFraming.After(SocketFraming.NEW_CLIENT, w.events))
  {
    SocketFraming.NeverSettlesByEvents(w.events);
    SocketFraming.StuckExactly(w.events);
  }

  /** The daemon spawns only commands its allowlist accepts. */
  lemma DaemonSpawnsOnlyAllowed(w: World, step: PlanStep, dryRun: bool)
    requires w.daemonMode && step.requiresRoot
    ensures RunProvisionStep(w, step, dryRun).spawned != [] ==> Accepts(w.cfg, step)
    ensures forall c | c in RunProvisionStep(w, step, dryRun).spawned :: c == Command(step.command, step.args)
  {
  }

  /** The daemon's attempts end well: the one of number k exits with 0, and all before it failed on the lock of the
      password file, which only `useradd` is given more attempts for, five at most. */
  predicate SucceedsAt(program: string, child: nat -> Child, k: nat)
  {
    && child(k).exit == Code(0)
    && (forall i | 0 <= i < k :: child(i).exit != Code(0) && child(i).lockMessage)
    && (k > 0 ==> program == "useradd" && k <= 5)
  }

  lemma {:induction false} AttemptsReach(program: string, child: nat -> Child, i: nat, k: nat)
    requires i <= k && SucceedsAt(program, child, k)
    ensures AttemptsFrom(program, child, i) == k + 1
    decreases k - i
  {
    if i < k { AttemptsReach(program, child, i + 1, k); }
  }

  lemma AttemptsSucceedExactly(program: string, child: nat -> Child)
    ensures ResultOf(child(AttemptsFrom(program, child, 0) - 1)).ok <==> exists k: nat :: SucceedsAt(program, child, k)
    ensures forall k: nat | SucceedsAt(program, child, k) :: AttemptsFrom(program, child, 0) == k + 1
  {
    var n := AttemptsFrom(program, child, 0);
    if ResultOf(child(n - 1)).ok { assert SucceedsAt(program, child, n - 1); }
    forall k: nat | SucceedsAt(program, child, k) ensures n == k + 1 { AttemptsReach(program, child, 0, k); }
  }

  /** A step returns exactly if it has a command and, where the daemon runs it, the tokens are set and agree, the
      allowlist accepts the step, a reply comes back and its attempts end well unless it is a dry run; elsewhere
      if it is a dry run or its one process exits with 0. */
  lemma ReturnsExactly(w: World, step: PlanStep, dryRun: bool)
    ensures RunProvisionStep(w, step, dryRun).outcome.Returned? <==>
      && step.command != ""
      && if step.requiresRoot && w.daemonMode
         then && w.clientToken != "" && w.clientToken == w.daemonToken && Accepts(w.cfg, step) && ReplyIn(w).Came?
              && (dryRun || exists k: nat :: SucceedsAt(Program(step.command), w.child, k))
         else dryRun || w.child(0).exit == Code(0)
  {
    AttemptsSucceedExactly(Program(step.command), w.child);
  }

  /** The processes of a live step: the command itself through `sudo` if it needs root and there is no daemon, the
      command alone if it needs no root; a daemon that handles an accepted request spawns it once for each attempt. */
  lemma SpawnedExactly(w: World, step: PlanStep)
    requires step.command != ""
    ensures var spawned, own := RunProvisionStep(w, step, false).spawned, Command(step.command, step.args);
      if !step.requiresRoot then spawned == [own]
      else if !w.daemonMode then spawned == [Command("sudo", ["-n", step.command] + step.args)]
      else if w.clientToken != "" && w.clientToken == w.daemonToken && Accepts(w.cfg, step)
              && (ReplyIn(w).Came? || w.handled)
      then && 1 <= |spawned| <= (if Program(step.command) == "useradd" then 6 else 1)
           && (forall k | 0 <= k < |spawned| :: spawned[k] == own)
           && forall k | 0 <= k < |spawned| - 1 :: w.child(k).exit != Code(0) && w.child(k).lockMessage
      else spawned == []
  {
  }
}
