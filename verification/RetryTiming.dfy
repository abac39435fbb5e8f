/**
 When the retries of src/lib/webhooks.ts take place: how long a failed delivery waits before it is sent again, and that
 none is forgotten.  Everything is read off the steps of a run and the delivery rows, in seconds as the database holds
 them.
 */
module RetryTiming {
  import opened Options
  import opened Numbers
  import opened Webhooks

  /** The shortest and the longest delay a failed attempt may be given, in seconds. */
  function Shortest(attempt: nat): int
  {
    if attempt == 0 then 24 else if attempt == 1 then 240 else if attempt == 2 then 1440
    else if attempt == 3 then 5760 else 23040
  }

  function Longest(attempt: nat): int
  {
    if attempt == 0 then 36 else if attempt == 1 then 360 else if attempt == 2 then 2160
    else if attempt == 3 then 8640 else 34560
  }

  predicate IsBackoff(attempt: nat, delay: int) { Shortest(attempt) <= delay <= Longest(attempt) }

  lemma DelayIsBackoff(attempt: nat, delay: int)
    requires 4 * BaseDelay(attempt) <= 5 * delay <= 6 * BaseDelay(attempt)
    ensures IsBackoff(attempt, delay)
  {
    assert BACKOFF_SECONDS == [30, 300, 1800, 7200, 28800];
  }

  /** The jitter uses its whole range: every number of seconds from the shortest delay up to the longest, but for the
      longest itself, is the delay for some random number. */
  lemma DelaysCoverTheRange(attempt: nat, delay: int) returns (random: real)
    requires Shortest(attempt) <= delay < Longest(attempt)
    ensures 0.0 <= random < 1.0 && NextRetryDelay(attempt, random) == delay
  {
    var base := BaseDelay(attempt);
    DelayBase(attempt);
    random := Share((delay - base) as real, base as real);
    assert base as real + base as real * 0.2 * (2.0 * random - 1.0) == delay as real;
    assert Round(delay as real) == delay;
  }

  lemma DelayBase(attempt: nat)
    ensures 5 * Shortest(attempt) == 4 * BaseDelay(attempt) && 5 * Longest(attempt) == 6 * BaseDelay(attempt)
  {
    assert BACKOFF_SECONDS == [30, 300, 1800, 7200, 28800];
  }

  lemma Share(part: real, b: real) returns (share: real)
    requires b > 0.0 && -b <= 5.0 * part < b
    ensures 0.0 <= share < 1.0 && b * 0.2 * (2.0 * share - 1.0) == part
  {
    share := (5.0 * part / b + 1.0) / 2.0;
    assert (2.0 * share - 1.0) == 5.0 * part / b;
    assert b * (5.0 * part / b) == 5.0 * part;
  }

  /** A failed delivery is to be retried unless it was the last attempt or not to be retried at all. */
  predicate ToBeRetried(maxRetries: int, e: Entry) { e.send.allowRetry && !e.ok && e.send.attempt < maxRetries - 1 }

  /******* What the rows say *******/

  /** A row that waits for its retry was logged one backoff before it is due. */
  ghost predicate RowsWait(s: State)
  {
    forall r | r in s.db.deliveries && s.db.deliveries[r].nextRetryAt.Some? ::
      var row := s.db.deliveries[r];
      IsBackoff(row.attempt, row.nextRetryAt.value - row.createdAt)
  }

  /** A row was taken up by a pass exactly if it is to be retried and does not wait. */
  ghost predicate RowsAreTaken(maxRetries: int, s: State)
  {
    forall r | r in s.db.deliveries && r < |s.log| ::
      ToBeRetried(maxRetries, s.log[r]) <==> s.db.deliveries[r].nextRetryAt.Some? || r in s.claimed
  }

  ghost predicate SentAgain(s: State, r: nat) { exists i :: 0 <= i < |s.sends| && IsRetryOf(s.sends[i], r) }

  ghost predicate WaitsInPass(s: State, r: nat)
  {
    exists p, k :: p in s.passes && 0 <= k < |s.passes[p]| && s.passes[p][k].id == r
  }

  ghost predicate TakenAreSent(s: State) { forall r | r in s.claimed :: SentAgain(s, r) || WaitsInPass(s, r) }

  /** Rows belong to webhooks there are. */
  ghost predicate RowsHaveHooks(s: State) { forall r | r in s.db.deliveries :: s.db.deliveries[r].hook in s.db.hooks }

  lemma StepKeepsHooks(maxRetries: int, s: State, step: Step)
    requires RowsHaveHooks(s) && Enabled(maxRetries, s, step)
    ensures RowsHaveHooks(Apply(maxRetries, s, step))
  {
  }

  lemma StepKeepsWaits(maxRetries: int, s: State, step: Step)
    requires RowsWait(s) && Enabled(maxRetries, s, step)
    ensures RowsWait(Apply(maxRetries, s, step))
  {
    if step.Land? && Schedules(maxRetries, s.sends[step.send], step.ok) {
      var attempt := s.sends[step.send].attempt;
      DelayIsBackoff(attempt, NextRetryDelay(attempt, step.random));
    }
  }

  lemma StepKeepsTaken(maxRetries: int, s: State, step: Step)
    requires RowsInv(maxRetries, s) && RowsAreTaken(maxRetries, s) && Enabled(maxRetries, s, step)
    ensures RowsAreTaken(maxRetries, Apply(maxRetries, s, step))
  {
  }

  lemma StaysTaken(maxRetries: int, s: State, step: Step, r: nat)
    requires Enabled(maxRetries, s, step)
    requires SentAgain(s, r) || WaitsInPass(s, r)
    ensures SentAgain(Apply(maxRetries, s, step), r) || WaitsInPass(Apply(maxRetries, s, step), r)
  {
    var s' := Apply(maxRetries, s, step);
    if SentAgain(s, r) {
      var i :| 0 <= i < |s.sends| && IsRetryOf(s.sends[i], r);
      assert s'.sends[i] == s.sends[i];
    } else {
      var p, k :| p in s.passes && 0 <= k < |s.passes[p]| && s.passes[p][k].id == r;
      if step.PassSends? && step.pass == p {
        if k == 0 {
          assert IsRetryOf(s'.sends[|s.sends|], r);
        } else {
          assert s'.passes[p][k - 1].id == r;
        }
      } else {
        assert s'.passes[p][k].id == r;
      }
    }
  }

  lemma StepKeepsSent(maxRetries: int, s: State, step: Step)
    requires TakenAreSent(s) && Enabled(maxRetries, s, step)
    ensures TakenAreSent(Apply(maxRetries, s, step))
  {
    var s' := Apply(maxRetries, s, step);
    forall r | r in s'.claimed ensures SentAgain(s', r) || WaitsInPass(s', r) {
      if r in s.claimed {
        StaysTaken(maxRetries, s, step, r);
      } else {
        var k :| 0 <= k < |step.chosen| && step.chosen[k] == r;
        assert s'.passes[step.pass][k].id == r;
      }
    }
  }

  lemma {:induction false} RunKeepsRows(maxRetries: int, s: State, steps: seq<Step>)
    requires Inv(maxRetries, s) && IsRun(maxRetries, s, steps)
    requires RowsWait(s) && RowsAreTaken(maxRetries, s) && TakenAreSent(s) && RowsHaveHooks(s)
    ensures var s' := After(maxRetries, s, steps);
      RowsWait(s') && RowsAreTaken(maxRetries, s') && TakenAreSent(s') && RowsHaveHooks(s')
    decreases |steps|
  {
    if steps != [] {
      StepKeepsInv(maxRetries, s, steps[0]);
      StepKeepsWaits(maxRetries, s, steps[0]);
      StepKeepsTaken(maxRetries, s, steps[0]);
      StepKeepsSent(maxRetries, s, steps[0]);
      StepKeepsHooks(maxRetries, s, steps[0]);
      RunKeepsRows(maxRetries, Apply(maxRetries, s, steps[0]), steps[1..]);
    }
  }

  /** In every reachable state a row that waits for its retry is due one backoff after it was logged. */
  lemma WaitingRowsAreDue(maxRetries: int, s: State, r: nat)
    requires Reachable(maxRetries, s) && r in s.db.deliveries && s.db.deliveries[r].nextRetryAt.Some?
    ensures IsBackoff(s.db.deliveries[r].attempt, s.db.deliveries[r].nextRetryAt.value - s.db.deliveries[r].createdAt)
  {
    var steps :| IsRun(maxRetries, EMPTY, steps) && After(maxRetries, EMPTY, steps) == s;
    RunKeepsRows(maxRetries, EMPTY, steps);
  }

  /** No failure is forgotten: of the rows that are kept, all of webhooks that are kept, exactly those of failed
      deliveries that are to be retried wait or were taken up by a pass, never both; and what was taken up has been sent
      again or is still in its pass. */
  lemma NoFailureIsForgotten(maxRetries: int, s: State, r: nat)
    requires Reachable(maxRetries, s) && r in s.db.deliveries
    ensures r < |s.log| && s.db.deliveries[r].hook in s.db.hooks
    ensures ToBeRetried(maxRetries, s.log[r]) <==> s.db.deliveries[r].nextRetryAt.Some? || r in s.claimed
    ensures !(s.db.deliveries[r].nextRetryAt.Some? && r in s.claimed)
    ensures r in s.claimed ==> SentAgain(s, r) || WaitsInPass(s, r)
  {
    var steps :| IsRun(maxRetries, EMPTY, steps) && After(maxRetries, EMPTY, steps) == s;
    RunKeepsRows(maxRetries, EMPTY, steps);
    ReachableInv(maxRetries, s);
  }

  /** A pass that takes up fewer than 50 rows leaves no row of an enabled webhook whose time has come. */
  lemma PassLeavesNothingDue(maxRetries: int, s: State, pass: nat, now: int, chosen: seq<nat>, r: nat)
    requires Reachable(maxRetries, s) && Enabled(maxRetries, s, BeginPass(pass, now, chosen)) && |chosen| < 50
    requires var db := Apply(maxRetries, s, BeginPass(pass, now, chosen)).db;
      r in db.deliveries && db.deliveries[r].nextRetryAt.Some?
      && db.deliveries[r].hook in db.hooks && db.hooks[db.deliveries[r].hook].enabled
    ensures var row := Apply(maxRetries, s, BeginPass(pass, now, chosen)).db.deliveries[r];
      now < row.nextRetryAt.value && now < row.createdAt + Longest(row.attempt)
  {
    assert !Due(s.db, r, now);
    WaitingRowsAreDue(maxRetries, s, r);
  }

  /******* What a retry waited for *******/

  lemma {:induction false} RunSplit(maxRetries: int, s: State, steps: seq<Step>, n: nat)
    requires IsRun(maxRetries, s, steps) && n <= |steps|
    ensures IsRun(maxRetries, s, steps[..n])
    ensures n < |steps| ==> Enabled(maxRetries, After(maxRetries, s, steps[..n]), steps[n])
    ensures n < |steps| ==>
      && IsRun(maxRetries, s, steps[..n + 1])
      && After(maxRetries, s, steps[..n + 1]) == Apply(maxRetries, After(maxRetries, s, steps[..n]), steps[n])
    decreases n
  {
    if n == 0 {
      if steps != [] {
        assert steps[..1][0] == steps[0] && steps[..1][1..] == [];
      }
    } else {
      RunSplit(maxRetries, Apply(maxRetries, s, steps[0]), steps[1..], n - 1);
      assert steps[..n][1..] == steps[1..][..n - 1];
      if n < |steps| { assert steps[..n + 1][1..] == steps[1..][..n]; }
    }
  }

  /** The state before step n of a run from the empty database. */
  ghost function At(maxRetries: int, steps: seq<Step>, n: nat): State
    requires IsRun(maxRetries, EMPTY, steps) && n <= |steps|
  {
    RunSplit(maxRetries, EMPTY, steps, n);
    After(maxRetries, EMPTY, steps[..n])
  }

  lemma AtNext(maxRetries: int, steps: seq<Step>, n: nat)
    requires IsRun(maxRetries, EMPTY, steps) && n < |steps|
    ensures Enabled(maxRetries, At(maxRetries, steps, n), steps[n])
    ensures At(maxRetries, steps, n + 1) == Apply(maxRetries, At(maxRetries, steps, n), steps[n])
  {
    RunSplit(maxRetries, EMPTY, steps, n);
  }

  lemma AtIsReachable(maxRetries: int, steps: seq<Step>, n: nat)
    requires IsRun(maxRetries, EMPTY, steps) && n <= |steps|
    ensures Reachable(maxRetries, At(maxRetries, steps, n)) && Inv(maxRetries, At(maxRetries, steps, n))
  {
    RunSplit(maxRetries, EMPTY, steps, n);
    assert Reachable(maxRetries, After(maxRetries, EMPTY, steps[..n]));
    ReachableInv(maxRetries, At(maxRetries, steps, n));
  }

  lemma StepKeepsRow(maxRetries: int, s: State, step: Step, r: nat)
    requires Inv(maxRetries, s) && Enabled(maxRetries, s, step) && r < |s.log|
    ensures var s' := Apply(maxRetries, s, step);
      && r < |s'.log| && s'.log[r] == s.log[r]
      && (r in s'.db.deliveries ==>
            r in s.db.deliveries && s'.db.deliveries[r].createdAt == s.db.deliveries[r].createdAt)
  {
  }

  lemma TakenIsLogged(maxRetries: int, s: State, step: Step, r: nat)
    requires Inv(maxRetries, s) && Enabled(maxRetries, s, step) && r in Apply(maxRetries, s, step).claimed
    ensures r < |s.log| && (r !in s.claimed ==> step.BeginPass? && r in step.chosen)
  {
  }

  /** Taken in state s, the step logged what is row r in the later state. */
  predicate Logs(s: State, step: Step, later: State, r: nat)
    requires r < |later.log|
  {
    && step.Land? && step.send < |s.sends|
    && later.log[r].send == s.sends[step.send] && later.log[r].ok == step.ok
    && (r in later.db.deliveries ==> later.db.deliveries[r].createdAt == step.now)
  }

  lemma StepLogsRow(maxRetries: int, s: State, step: Step, r: nat)
    requires Inv(maxRetries, s) && Enabled(maxRetries, s, step)
    requires |s.log| <= r < |Apply(maxRetries, s, step).log|
    ensures Logs(s, step, Apply(maxRetries, s, step), r)
  {
  }

  /** Which step logged row r. */
  lemma {:induction false} LandingOf(maxRetries: int, steps: seq<Step>, n: nat, r: nat) returns (m: nat)
    requires IsRun(maxRetries, EMPTY, steps) && n <= |steps| && r < |At(maxRetries, steps, n).log|
    ensures m < n && Logs(At(maxRetries, steps, m), steps[m], At(maxRetries, steps, n), r)
    decreases n
  {
    AtNext(maxRetries, steps, n - 1);
    AtIsReachable(maxRetries, steps, n - 1);
    var s := At(maxRetries, steps, n - 1);
    if r < |s.log| {
      StepKeepsRow(maxRetries, s, steps[n - 1], r);
      m := LandingOf(maxRetries, steps, n - 1, r);
    } else {
      StepLogsRow(maxRetries, s, steps[n - 1], r);
      m := n - 1;
    }
  }

  /** Which step took up row r. */
  lemma {:induction false} PassOf(maxRetries: int, steps: seq<Step>, n: nat, r: nat) returns (m: nat)
    requires IsRun(maxRetries, EMPTY, steps) && n <= |steps| && r in At(maxRetries, steps, n).claimed
    ensures m < n && steps[m].BeginPass? && r in steps[m].chosen
    ensures r < |At(maxRetries, steps, m).log| && r < |At(maxRetries, steps, n).log|
    ensures At(maxRetries, steps, m).log[r] == At(maxRetries, steps, n).log[r]
    decreases n
  {
    AtNext(maxRetries, steps, n - 1);
    AtIsReachable(maxRetries, steps, n - 1);
    var s := At(maxRetries, steps, n - 1);
    TakenIsLogged(maxRetries, s, steps[n - 1], r);
    StepKeepsRow(maxRetries, s, steps[n - 1], r);
    if r in s.claimed {
      m := PassOf(maxRetries, steps, n - 1, r);
    } else {
      m := n - 1;
    }
  }

  /** Over whole runs: every automatic retry of a row r follows the failure that was logged as row r and a pass that
      found it, one backoff after that failure at the earliest, while its webhook was enabled. */
  lemma RetryWaited(maxRetries: int, steps: seq<Step>, i: nat, r: nat) returns (failure: nat, pass: nat)
    requires IsRun(maxRetries, EMPTY, steps)
    requires i < |At(maxRetries, steps, |steps|).sends| && IsRetryOf(At(maxRetries, steps, |steps|).sends[i], r)
    ensures failure < pass < |steps|
    ensures steps[failure].Land? && !steps[failure].ok && steps[pass].BeginPass? && r in steps[pass].chosen
    ensures steps[failure].send < |At(maxRetries, steps, failure).sends|
    ensures var retry := At(maxRetries, steps, |steps|).sends[i];
      var failed := At(maxRetries, steps, failure).sends[steps[failure].send];
      var hooks := At(maxRetries, steps, pass).db.hooks;
      && retry.hook == failed.hook && retry.attempt == failed.attempt + 1
      && retry.hook in hooks && hooks[retry.hook].enabled
      && steps[failure].now + Shortest(failed.attempt) <= steps[pass].now
  {
    var s := At(maxRetries, steps, |steps|);
    AtIsReachable(maxRetries, steps, |steps|);
    assert WellSent(maxRetries, s, s.sends[i]);
    pass := PassOf(maxRetries, steps, |steps|, r);
    AtNext(maxRetries, steps, pass);
    AtIsReachable(maxRetries, steps, pass);
    var s0 := At(maxRetries, steps, pass);
    assert Due(s0.db, r, steps[pass].now);
    failure := LandingOf(maxRetries, steps, pass, r);
    WaitingRowsAreDue(maxRetries, s0, r);
  }

  /******* Which webhooks are enabled *******/

  /** The landing that trips the breaker: a failed last attempt with which the webhook's failures in a row reach
      MAX_RETRIES. */
  ghost predicate Trips(maxRetries: int, s: State, step: Step, h: HookId)
  {
    && step.Land? && step.send < |s.sends| && s.sends[step.send].hook == h
    && s.sends[step.send].allowRetry && !step.ok && s.sends[step.send].attempt >= maxRetries - 1
    && h in s.outcomes && TrailingFailures(s.outcomes[h]) + 1 >= maxRetries
  }

  /** What the last step of the run that switches the webhook says. */
  ghost predicate SwitchedOn(maxRetries: int, steps: seq<Step>, n: nat, h: HookId)
    requires IsRun(maxRetries, EMPTY, steps) && n <= |steps|
  {
    n > 0 &&
    var step := steps[n - 1];
    if step == CreateHook(h) || step == ResetCircuit(h) then true
    else if step.SetEnabled? && step.hook == h then step.enabled
    else !Trips(maxRetries, At(maxRetries, steps, n - 1), step, h) && SwitchedOn(maxRetries, steps, n - 1, h)
  }

  lemma StepSwitches(maxRetries: int, s: State, step: Step, h: HookId)
    requires OutcomesInv(s) && Enabled(maxRetries, s, step) && h in Apply(maxRetries, s, step).db.hooks
    ensures var on := Apply(maxRetries, s, step).db.hooks[h].enabled;
      if step == CreateHook(h) || step == ResetCircuit(h) then on
      else if step.SetEnabled? && step.hook == h then on == step.enabled
      else h in s.db.hooks && on == (s.db.hooks[h].enabled && !Trips(maxRetries, s, step, h))
  {
  }

  /** In every run a webhook is enabled exactly if what last switched it was its creation, a reset, or an administrator
      who switched it on, and not the breaker. */
  lemma {:induction false} EnabledExactly(maxRetries: int, steps: seq<Step>, n: nat, h: HookId)
    requires IsRun(maxRetries, EMPTY, steps) && n <= |steps| && h in At(maxRetries, steps, n).db.hooks
    ensures At(maxRetries, steps, n).db.hooks[h].enabled <==> SwitchedOn(maxRetries, steps, n, h)
  {
    if n > 0 {
      AtNext(maxRetries, steps, n - 1);
      AtIsReachable(maxRetries, steps, n - 1);
      StepSwitches(maxRetries, At(maxRetries, steps, n - 1), steps[n - 1], h);
      if h in At(maxRetries, steps, n - 1).db.hooks { EnabledExactly(maxRetries, steps, n - 1, h); }
    }
  }
}
