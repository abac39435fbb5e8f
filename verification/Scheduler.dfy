/**
 The background scheduler (src/lib/scheduler.ts).  An interval timer starts a new tick every minute, whether or not
 earlier ticks are still awaiting a task.  A tick reads the clock once, when it starts, and judges every task by
 that stamp.

 A step of the machine is one tick looking at its next task (Visit) or one awaited task ending (Settle); ticks take
 their steps in any interleaving.  `starts` and `owner` are history: no step reads them to decide anything.
 */
module Scheduler {
  import opened Options

  /******* Time of day *******/

  const HOUR_MS: int := 60 * 60 * 1000
  const DAY_MS: int := 24 * HOUR_MS
  const MINUTE_MS: int := 60 * 1000

  /** `setUTCHours(hour, 0, 0, 0)` on a time in milliseconds since the epoch. */
  function AtUtcHour(t: int, hour: int): int { t / DAY_MS * DAY_MS + hour * HOUR_MS }

  /** The next moment strictly after `now` at which the UTC clock shows the full hour: it is in the coming 24 hours, and
      no earlier moment after `now` shows it. */
  method GetNextDailyMs(now: int, hour: int) returns (ms: int)
    requires 0 <= hour < 24
    ensures 0 < ms <= DAY_MS
    ensures (now + ms) % DAY_MS == hour * HOUR_MS
    ensures forall t | now < t && t % DAY_MS == hour * HOUR_MS :: now + ms <= t
    ensures ms == NextDailyMs(now, hour)
  {
    var next := AtUtcHour(now, hour);
    if next <= now {
      next := next + DAY_MS;
    }
    ms := next - now;
    NextDailyIsLeast(now, hour);
  }

  function NextDailyMs(now: int, hour: int): int
  {
    var next := AtUtcHour(now, hour);
    if next <= now then next + DAY_MS - now else next - now
  }

  /** A time by its day and the milliseconds in it. */
  lemma DayAndTime(t: int, day: int, r: int)
    requires 0 <= r < DAY_MS && t == day * DAY_MS + r
    ensures t % DAY_MS == r && t / DAY_MS == day
  {
  }

  lemma LaterTime(t: int, now: int, r: int)
    requires 0 <= r < DAY_MS && t % DAY_MS == r && now < t
    ensures var today := now / DAY_MS * DAY_MS + r; t >= (if today <= now then today + DAY_MS else today)
  {
    assert t == t / DAY_MS * DAY_MS + r;
  }

  lemma NextDailyIsLeast(now: int, hour: int)
    requires 0 <= hour < 24
    ensures var ms := NextDailyMs(now, hour);
      && 0 < ms <= DAY_MS
      && (now + ms) % DAY_MS == hour * HOUR_MS
      && forall t | now < t && t % DAY_MS == hour * HOUR_MS :: now + ms <= t
  {
    var ms, q, r := NextDailyMs(now, hour), now / DAY_MS, hour * HOUR_MS;
    var day := if q * DAY_MS + r <= now then q + 1 else q;
    DayAndTime(now + ms, day, r);
    forall t | now < t && t % DAY_MS == r ensures now + ms <= t {
      LaterTime(t, now, r);
    }
  }

  /******* Tasks and ticks *******/

  datatype Task = Task(intervalMs: nat, lastRun: Option<int>, nextRun: int, running: bool)

  /** A tick that has passed the tasks before `position`, and awaits that one if `executing`. */
  datatype Tick = Tick(stamp: int, position: nat, executing: bool)

  predicate Due(task: Task, stamp: int) { !task.running && stamp >= task.nextRun }

  function Settled(task: Task, stamp: int): Task
  {
    task.(running := false, lastRun := Some(stamp), nextRun := stamp + task.intervalMs)
  }

  /** The tasks after a tick that no other tick interrupts. */
  function AfterTick(tasks: seq<Task>, stamp: int, enabled: seq<bool>): (r: seq<Task>)
    requires |enabled| == |tasks|
    ensures |r| == |tasks|
    ensures forall i | 0 <= i < |tasks| ::
      r[i] == if Due(tasks[i], stamp) && enabled[i] then Settled(tasks[i], stamp) else tasks[i]
  {
    seq(|tasks|, i requires 0 <= i < |tasks| => if Due(tasks[i], stamp) && enabled[i] then Settled(tasks[i], stamp)
      else tasks[i])
  }

  class TaskTable {
    var tasks: seq<Task>

    /** auto_backup, auto_cleanup, agent_heartbeat, webhook_retry, claude_session_scan.  The two daily tasks read
        the clock for themselves. */
    constructor (now: int, backupClock: int, cleanupClock: int)
      ensures tasks == InitialTasks(now, backupClock, cleanupClock)
    {
      var untilBackup := GetNextDailyMs(backupClock, 3);
      var untilCleanup := GetNextDailyMs(cleanupClock, 4);
      tasks := [
        Task(DAY_MS, None, now + untilBackup, false),
        Task(DAY_MS, None, now + untilCleanup, false),
        Task(5 * MINUTE_MS, None, now + 5 * MINUTE_MS, false),
        Task(MINUTE_MS, None, now + MINUTE_MS, false),
        Task(MINUTE_MS, None, now + 5_000, false)];
    }

    /** The body of the loop in `tick` up to the await. */
    method Visit(id: nat, stamp: int, enabled: bool) returns (started: bool)
      requires id < |tasks|
      modifies this
      ensures started <==> Due(old(tasks)[id], stamp) && enabled
      ensures tasks == if started then old(tasks)[id := old(tasks)[id].(running := true)] else old(tasks)
    {
      if tasks[id].running || stamp < tasks[id].nextRun {
        return false;
      }
      if !enabled {
        return false;
      }
      tasks := tasks[id := tasks[id].(running := true)];
      started := true;
    }

    /** The `finally` block. */
    method Settle(id: nat, stamp: int)
      requires id < |tasks|
      modifies this
      ensures tasks == old(tasks)[id := Settled(old(tasks)[id], stamp)]
    {
      tasks := tasks[id := tasks[id].(running := false)];
      tasks := tasks[id := tasks[id].(lastRun := Some(stamp))];
      tasks := tasks[id := tasks[id].(nextRun := stamp + tasks[id].intervalMs)];
    }

    /** A tick that no other tick interrupts runs exactly the enabled tasks that were due at its stamp. */
    method UninterruptedTick(stamp: int, enabled: seq<bool>)
      requires |enabled| == |tasks|
      modifies this
      ensures tasks == AfterTick(old(tasks), stamp, enabled)
    {
      for id := 0 to |tasks|
        invariant |tasks| == |old(tasks)|
        invariant forall i | 0 <= i < id :: tasks[i] == AfterTick(old(tasks), stamp, enabled)[i]
        invariant forall i | id <= i < |tasks| :: tasks[i] == old(tasks)[i]
      {
        var started := Visit(id, stamp, enabled[id]);
        if started {
          Settle(id, stamp);
        }
      }
    }
  }

  function InitialTasks(now: int, backupClock: int, cleanupClock: int): (tasks: seq<Task>)
    ensures |tasks| == 5 && forall i | 0 <= i < 5 :: Untouched(tasks[i]) && tasks[i].nextRun > now
    ensures tasks[0].intervalMs == 86_400_000 && (tasks[0].nextRun - now + backupClock) % 86_400_000 == 10_800_000
    ensures tasks[1].intervalMs == 86_400_000 && (tasks[1].nextRun - now + cleanupClock) % 86_400_000 == 14_400_000
    ensures tasks[0].nextRun <= now + 86_400_000 && tasks[1].nextRun <= now + 86_400_000
    ensures tasks[2].intervalMs == 300_000 == tasks[2].nextRun - now
    ensures tasks[3].intervalMs == 60_000 == tasks[3].nextRun - now
    ensures tasks[4].intervalMs == 60_000 && tasks[4].nextRun == now + 5000
  {
    NextDailyIsLeast(backupClock, 3);
    NextDailyIsLeast(cleanupClock, 4);
    [Task(DAY_MS, None, now + NextDailyMs(backupClock, 3), false),
     Task(DAY_MS, None, now + NextDailyMs(cleanupClock, 4), false),
     Task(5 * MINUTE_MS, None, now + 5 * MINUTE_MS, false),
     Task(MINUTE_MS, None, now + MINUTE_MS, false),
     Task(MINUTE_MS, None, now + 5_000, false)]
  }

  predicate Untouched(task: Task) { !task.running && task.lastRun == None }

  /******* The machine *******/

  datatype Start = Start(tick: nat, stamp: int)

  datatype State = State(
    tasks: seq<Task>,
    ticks: map<nat, Tick>,
    starts: seq<seq<Start>>,
    owner: seq<Option<nat>>)

  datatype Step =
    | Spawn(tick: nat, now: int)
    | Visit(tick: nat, enabled: bool)
    | Settle(tick: nat)

  predicate Shaped(s: State) { |s.starts| == |s.tasks| && |s.owner| == |s.tasks| }

  predicate Enabled(s: State, step: Step)
  {
    && Shaped(s)
    && match step
       case Spawn(k, _) => k !in s.ticks
       case Visit(k, _) => k in s.ticks && !s.ticks[k].executing && s.ticks[k].position < |s.tasks|
       case Settle(k) => k in s.ticks && s.ticks[k].executing && s.ticks[k].position < |s.tasks|
  }

  function Apply(s: State, step: Step): State
    requires Enabled(s, step)
  {
    match step
    case Spawn(k, now) => s.(ticks := s.ticks[k := Tick(now, 0, false)])
    case Visit(k, enabled) =>
      var t := s.ticks[k];
      var id := t.position;
      if Due(s.tasks[id], t.stamp) && enabled then
        s.(tasks := s.tasks[id := s.tasks[id].(running := true)],
           ticks := s.ticks[k := t.(executing := true)],
           starts := s.starts[id := s.starts[id] + [Start(k, t.stamp)]],
           owner := s.owner[id := Some(k)])
      else s.(ticks := s.ticks[k := t.(position := id + 1)])
    case Settle(k) =>
      var t := s.ticks[k];
      var id := t.position;
      s.(tasks := s.tasks[id := Settled(s.tasks[id], t.stamp)],
         ticks := s.ticks[k := Tick(t.stamp, id + 1, false)],
         owner := s.owner[id := None])
  }

  predicate IsRun(s: State, steps: seq<Step>)
    decreases |steps|
  {
    steps == [] || (Enabled(s, steps[0]) && IsRun(Apply(s, steps[0]), steps[1..]))
  }

  function After(s: State, steps: seq<Step>): State
    requires IsRun(s, steps)
    decreases |steps|
  {
    if steps == [] then s else After(Apply(s, steps[0]), steps[1..])
  }

  function Initial(tasks: seq<Task>): State
  {
    State(tasks, map[], seq(|tasks|, _ => []), seq(|tasks|, _ => None))
  }

  ghost predicate Reachable(tasks: seq<Task>, s: State)
  {
    exists steps :: IsRun(Initial(tasks), steps) && After(Initial(tasks), steps) == s
  }

  /******* A tick that nothing interrupts *******/

  function TickSteps(tasks: seq<Task>, k: nat, stamp: int, enabled: seq<bool>, i: nat): seq<Step>
    requires |enabled| == |tasks| && i <= |tasks|
    decreases |tasks| - i
  {
    if i == |tasks| then []
    else
      (if Due(tasks[i], stamp) && enabled[i] then [Visit(k, true), Settle(k)] else [Visit(k, enabled[i])])
      + TickSteps(tasks, k, stamp, enabled, i + 1)
  }

  lemma RunCons(s: State, step: Step, rest: seq<Step>)
    requires Enabled(s, step) && IsRun(Apply(s, step), rest)
    ensures IsRun(s, [step] + rest) && After(s, [step] + rest) == After(Apply(s, step), rest)
  {
    assert ([step] + rest)[1..] == rest;
  }

  /** Tick k has done the first i tasks. */
  ghost predicate Halfway(s: State, tasks: seq<Task>, k: nat, stamp: int, enabled: seq<bool>, i: nat)
  {
    && Shaped(s) && |s.tasks| == |tasks| == |enabled| && i <= |tasks|
    && k in s.ticks && s.ticks[k] == Tick(stamp, i, false)
    && (forall j | 0 <= j < i :: s.tasks[j] == AfterTick(tasks, stamp, enabled)[j])
    && (forall j | i <= j < |tasks| :: s.tasks[j] == tasks[j])
  }

  lemma {:induction false} TickStepsRun(s: State, tasks: seq<Task>, k: nat, stamp: int, enabled: seq<bool>, i: nat)
    requires Halfway(s, tasks, k, stamp, enabled, i)
    ensures var steps := TickSteps(tasks, k, stamp, enabled, i);
      IsRun(s, steps) && After(s, steps).tasks == AfterTick(tasks, stamp, enabled)
    decreases |tasks| - i
  {
    if i < |tasks| {
      var rest := TickSteps(tasks, k, stamp, enabled, i + 1);
      if Due(tasks[i], stamp) && enabled[i] {
        var s1 := Apply(s, Visit(k, true));
        TickStepsRun(Apply(s1, Settle(k)), tasks, k, stamp, enabled, i + 1);
        RunCons(s1, Settle(k), rest);
        RunCons(s, Visit(k, true), [Settle(k)] + rest);
        assert [Visit(k, true), Settle(k)] + rest == [Visit(k, true)] + ([Settle(k)] + rest);
      } else {
        TickStepsRun(Apply(s, Visit(k, enabled[i])), tasks, k, stamp, enabled, i + 1);
        RunCons(s, Visit(k, enabled[i]), rest);
      }
    }
  }

  /** What `TaskTable.UninterruptedTick` makes of the tasks is what the machine makes of them in the run that spawns a
      tick and lets it visit and settle its tasks one after the other. */
  lemma TickIsARun(s: State, k: nat, stamp: int, enabled: seq<bool>)
    requires Shaped(s) && |enabled| == |s.tasks| && k !in s.ticks
    ensures var steps := [Spawn(k, stamp)] + TickSteps(s.tasks, k, stamp, enabled, 0);
      IsRun(s, steps) && After(s, steps).tasks == AfterTick(s.tasks, stamp, enabled)
  {
    TickStepsRun(Apply(s, Spawn(k, stamp)), s.tasks, k, stamp, enabled, 0);
    RunCons(s, Spawn(k, stamp), TickSteps(s.tasks, k, stamp, enabled, 0));
  }

  /******* Invariant *******/

  /** A running task is executing in its owner and in no other tick. */
  ghost predicate OwnerInv(s: State)
  {
    && Shaped(s)
    && (forall i | 0 <= i < |s.tasks| :: s.tasks[i].running <==> s.owner[i].Some?)
    && (forall i | 0 <= i < |s.tasks| && s.owner[i].Some? ::
          && s.owner[i].value in s.ticks
          && s.ticks[s.owner[i].value].executing
          && s.ticks[s.owner[i].value].position == i)
    && (forall k | k in s.ticks && s.ticks[k].executing ::
          s.ticks[k].position < |s.tasks| && s.owner[s.ticks[k].position] == Some(k))
  }

  function LastStart(starts: seq<Start>): Start
    requires starts != []
  {
    starts[|starts| - 1]
  }

  /** What is known of task i: `first` is its first nextRun, `interval` its interval. */
  ghost predicate TaskInv(s: State, i: nat, first: Task)
    requires Shaped(s) && i < |s.tasks|
  {
    var task, starts := s.tasks[i], s.starts[i];
    && task.intervalMs == first.intervalMs
    && (forall a | 0 <= a < |starts| - 1 :: starts[a].stamp + first.intervalMs <= starts[a + 1].stamp)
    && (starts != [] ==> first.nextRun <= starts[0].stamp)
    && (task.running ==> starts != [] && s.owner[i] == Some(LastStart(starts).tick))
    && (!task.running && starts == [] ==> task == first)
    && (!task.running && starts != [] ==>
          task.lastRun == Some(LastStart(starts).stamp) && task.nextRun == LastStart(starts).stamp + first.intervalMs)
  }

  ghost predicate TasksInv(s: State, tasks: seq<Task>)
  {
    Shaped(s) && |s.tasks| == |tasks| && forall i | 0 <= i < |tasks| :: TaskInv(s, i, tasks[i])
  }

  /** Starts carry the stamp of their tick, and a tick that started a task has passed it or is executing it. */
  ghost predicate StartsInv(s: State)
  {
    && Shaped(s)
    && (forall i, a | 0 <= i < |s.starts| && 0 <= a < |s.starts[i]| ::
          && s.starts[i][a].tick in s.ticks
          && s.ticks[s.starts[i][a].tick].stamp == s.starts[i][a].stamp
          && (s.ticks[s.starts[i][a].tick].position > i
              || (s.ticks[s.starts[i][a].tick].position == i && s.ticks[s.starts[i][a].tick].executing)))
    && (forall i, a, b | 0 <= i < |s.starts| && 0 <= a < b < |s.starts[i]| ::
      s.starts[i][a].tick != s.starts[i][b].tick)
  }

  ghost predicate Inv(s: State, tasks: seq<Task>) { OwnerInv(s) && TasksInv(s, tasks) && StartsInv(s) }

  lemma StepKeepsOwner(s: State, step: Step)
    requires OwnerInv(s) && Enabled(s, step)
    ensures OwnerInv(Apply(s, step))
  {
  }

  lemma StepKeepsTasks(s: State, tasks: seq<Task>, step: Step)
    requires OwnerInv(s) && TasksInv(s, tasks) && StartsInv(s) && Enabled(s, step)
    ensures TasksInv(Apply(s, step), tasks)
  {
    var s' := Apply(s, step);
    forall i | 0 <= i < |tasks| ensures TaskInv(s', i, tasks[i]) {
      assert TaskInv(s, i, tasks[i]);
    }
  }

  lemma StepKeepsStarts(s: State, step: Step)
    requires StartsInv(s) && Enabled(s, step)
    ensures StartsInv(Apply(s, step))
  {
  }

  lemma {:induction false} RunKeepsInv(s: State, tasks: seq<Task>, steps: seq<Step>)
    requires Inv(s, tasks) && IsRun(s, steps)
    ensures Inv(After(s, steps), tasks)
    decreases |steps|
  {
    if steps != [] {
      StepKeepsOwner(s, steps[0]);
      StepKeepsTasks(s, tasks, steps[0]);
      StepKeepsStarts(s, steps[0]);
      RunKeepsInv(Apply(s, steps[0]), tasks, steps[1..]);
    }
  }

  predicate AllUntouched(tasks: seq<Task>) { forall i | 0 <= i < |tasks| :: Untouched(tasks[i]) }

  lemma ReachableInv(tasks: seq<Task>, s: State)
    requires AllUntouched(tasks) && Reachable(tasks, s)
    ensures Inv(s, tasks)
  {
    var steps :| IsRun(Initial(tasks), steps) && After(Initial(tasks), steps) == s;
    RunKeepsInv(Initial(tasks), tasks, steps);
  }

  /******* Main results *******/

  /** In every interleaving a task is executing in at most one tick, and its flag says whether it is. */
  lemma MutualExclusion(tasks: seq<Task>, s: State, j: nat, k: nat)
    requires AllUntouched(tasks) && Reachable(tasks, s)
    requires j in s.ticks && s.ticks[j].executing
    ensures s.ticks[j].position < |s.tasks| && s.tasks[s.ticks[j].position].running
    ensures k in s.ticks && s.ticks[k].executing && s.ticks[k].position == s.ticks[j].position ==> j == k
  {
    ReachableInv(tasks, s);
  }

  lemma RunningTaskIsExecuted(tasks: seq<Task>, s: State, i: nat)
    requires AllUntouched(tasks) && Reachable(tasks, s)
    requires i < |s.tasks| && s.tasks[i].running
    ensures exists k :: k in s.ticks && s.ticks[k].executing && s.ticks[k].position == i
  {
    ReachableInv(tasks, s);
    assert s.owner[i].value in s.ticks;
  }

  lemma {:induction false} SpacedFrom(s: State, i: nat, first: Task, a: nat, b: nat)
    requires Shaped(s) && i < |s.tasks| && TaskInv(s, i, first) && a <= b < |s.starts[i]|
    ensures s.starts[i][a].stamp + (b - a) * first.intervalMs <= s.starts[i][b].stamp
    decreases b - a
  {
    if a < b {
      SpacedFrom(s, i, first, a, b - 1);
      assert (b - a) * first.intervalMs == (b - 1 - a) * first.intervalMs + first.intervalMs;
    }
  }

  /** However late a stale tick resumes, the stamps of a task's starts are its interval apart, so n starts need n - 1
      intervals; none comes before its first due time. */
  lemma StartsAreSpaced(tasks: seq<Task>, s: State, i: nat, a: nat, b: nat)
    requires AllUntouched(tasks) && Reachable(tasks, s)
    requires i < |s.starts| && a <= b < |s.starts[i]|
    ensures i < |tasks|
    ensures s.starts[i][a].stamp + (b - a) * tasks[i].intervalMs <= s.starts[i][b].stamp
    ensures tasks[i].nextRun + b * tasks[i].intervalMs <= s.starts[i][b].stamp
  {
    ReachableInv(tasks, s);
    assert TaskInv(s, i, tasks[i]);
    SpacedFrom(s, i, tasks[i], a, b);
    SpacedFrom(s, i, tasks[i], 0, b);
  }

  /** A tick starts a task at most once, with its own stamp. */
  lemma TickStartsOnce(tasks: seq<Task>, s: State, i: nat, a: nat, b: nat)
    requires AllUntouched(tasks) && Reachable(tasks, s)
    requires i < |s.starts| && a < |s.starts[i]| && b < |s.starts[i]|
    ensures s.starts[i][a].tick == s.starts[i][b].tick ==> a == b
    ensures s.starts[i][a].tick in s.ticks && s.ticks[s.starts[i][a].tick].stamp == s.starts[i][a].stamp
  {
    ReachableInv(tasks, s);
    assert a < b || b < a || a == b;
  }

  /** What the status page shows of an idle task: the stamp of its last start, and the next run one interval later. */
  lemma IdleTaskShowsItsLastStart(tasks: seq<Task>, s: State, i: nat)
    requires AllUntouched(tasks) && Reachable(tasks, s)
    requires i < |s.tasks| && !s.tasks[i].running
    ensures i < |tasks| && i < |s.starts|
    ensures if s.starts[i] == [] then s.tasks[i] == tasks[i]
            else s.tasks[i].lastRun == Some(LastStart(s.starts[i]).stamp)
                 && s.tasks[i].nextRun == LastStart(s.starts[i]).stamp + tasks[i].intervalMs
  {
    ReachableInv(tasks, s);
    assert TaskInv(s, i, tasks[i]);
  }

  /******* That due tasks are started *******/

  /** When task i is due next: at its first due time, or one interval after its last start. */
  function DueAt(s: State, i: nat, first: Task): int
    requires Shaped(s) && i < |s.tasks|
  {
    if s.starts[i] == [] then first.nextRun else LastStart(s.starts[i]).stamp + first.intervalMs
  }

  predicate Executing(s: State, i: nat) { exists k :: k in s.ticks && s.ticks[k].executing && s.ticks[k].position == i }

  /** A tick that comes to a task starts it exactly if it is enabled, no tick is executing it, and the tick's stamp has
      reached its due time; else it passes by and no task changes. */
  lemma VisitStartsExactly(tasks: seq<Task>, s: State, k: nat, enabled: bool)
    requires AllUntouched(tasks) && Reachable(tasks, s) && Enabled(s, Visit(k, enabled))
    ensures |s.tasks| == |tasks| && |s.starts| == |tasks|
    ensures var s', id, stamp := Apply(s, Visit(k, enabled)), s.ticks[k].position, s.ticks[k].stamp;
      if enabled && !Executing(s, id) && DueAt(s, id, tasks[id]) <= stamp
      then s'.starts == s.starts[id := s.starts[id] + [Start(k, stamp)]] && Executing(s', id)
      else s'.starts == s.starts && s'.tasks == s.tasks
  {
    var id := s.ticks[k].position;
    ReachableInv(tasks, s);
    assert TaskInv(s, id, tasks[id]);
    if s.tasks[id].running { RunningTaskIsExecuted(tasks, s, id); }
    var s' := Apply(s, Visit(k, enabled));
    assert k in s'.ticks && s'.ticks[k].position >= id;
  }

  lemma {:induction false} RunConcat(s: State, a: seq<Step>, b: seq<Step>)
    requires IsRun(s, a) && IsRun(After(s, a), b)
    ensures IsRun(s, a + b) && After(s, a + b) == After(After(s, a), b)
    decreases |a|
  {
    if a == [] {
      assert a + b == b;
    } else {
      RunConcat(Apply(s, a[0]), a[1..], b);
      assert (a + b)[1..] == a[1..] + b;
    }
  }

  /** A tick that no other tick interrupts leaves no task due that is enabled and was idle: it was started at this
      tick's stamp, or its time has not come. */
  lemma NothingDueIsLeft(tasks: seq<Task>, s: State, k: nat, stamp: int, enabled: seq<bool>, i: nat)
    requires AllUntouched(tasks) && Reachable(tasks, s) && |enabled| == |s.tasks| && k !in s.ticks
    requires i < |s.tasks| && enabled[i] && !Executing(s, i)
    ensures |s.tasks| == |tasks| && Shaped(s)
    ensures var steps := [Spawn(k, stamp)] + TickSteps(s.tasks, k, stamp, enabled, 0);
      && IsRun(s, steps) && Shaped(After(s, steps)) && |After(s, steps).tasks| == |tasks|
      && (stamp < DueAt(After(s, steps), i, tasks[i])
          || (After(s, steps).starts[i] != [] && LastStart(After(s, steps).starts[i]).stamp == stamp))
  {
    ReachableInv(tasks, s);
    if s.tasks[i].running { RunningTaskIsExecuted(tasks, s, i); }
    var steps := [Spawn(k, stamp)] + TickSteps(s.tasks, k, stamp, enabled, 0);
    TickIsARun(s, k, stamp, enabled);
    assert Reachable(tasks, After(s, steps)) by {
      var before :| IsRun(Initial(tasks), before) && After(Initial(tasks), before) == s;
      RunConcat(Initial(tasks), before, steps);
    }
    ReachableInv(tasks, After(s, steps));
    IdleTaskShowsItsLastStart(tasks, After(s, steps), i);
  }
}
