# Mission Control: verified models

Dafny models of the state machines behind Mission Control and proofs of what they guarantee over every input, every
interleaving and every run. `dafny verify dfyconfig.toml` checks everything.

| file | what it models |
|---|---|
| `Webhooks.dfy`, `RetryTiming.dfy` | webhook delivery: retries, overlapping retry passes, circuit breaker, pruning; when retries take place |
| `ProvisionJobs.dfy`, `JobTables.dfy` | provisioning jobs: requests, approvals, interleaved executions; the table they work on |
| `JobRuns.dfy`, `JobCompletion.dfy` | what has come before an execution starts, and which jobs can still be completed |
| `Provisioner.dfy` | one plan step: client, daemon, retry loop, dry runs |
| `SocketFraming.dfy` | the provisioner socket: the client's four event handlers, lines cut into arbitrary chunks |
| `TenantPlans.dfy`, `PosixPaths.dfy` | tenant names, POSIX path joining, bootstrap and decommission plans |
| `Allowlist.dfy`, `PlanAcceptance.dfy`, `AllowlistSoundness.dfy` | the daemon's command allowlist, when it accepts the plans, and what else it accepts |
| `TenantIsolation.dfy`, `TenantLifecycle.dfy`, `TenantFiles.dfy` | what plans touch, what they do to the host, and whether each command finds what it needs |
| `PlanExecution.dfy` | generator, allowlist, daemon and executor together |
| `Scheduler.dfy` | overlapping scheduler ticks, daily start times |
| `RateLimit.dfy` | the fixed-window request limiter and its sweep |
| `Gateway.dfy`, `GatewayProgress.dfy` | heartbeat and reconnects of the gateway connection |
| `Base64Url.dfy` | the base64url codec of device identities |
| `ConfigMerge.dfy`, `AgentSync.dfy` | deep merge into openclaw.json, agent sync and its preview |
| `Sessions.dfy` | login sessions read off their history |
| `Migrations.dfy` | the restartable migration runner |
| `Options.dfy`, `Numbers.dfy` | the option type; powers of two and rounding |

How the models are built:

- Asynchronous code is cut at its `await`s. Each piece is one step of a machine, and a run is any sequence of enabled
  steps, so any number of calls may overlap in any order. One process runs; statements and transactions of the database
  are atomic.
- Network results, exit codes, random numbers, clock readings and file contents are arbitrary inputs. A monotone clock
  is assumed only where a statement requires it, and then a counterexample shows that it is needed.
- History kept beside the state (sends, logs, events) is never read by a step.
- Code that updates fields or loops is a class or a method with a loop, proved equal to a function; the theorems are
  about the runs of that function.
- Jitter is computed over the reals.

Where the code does not do what one might expect:

- The dry-run mismatch error of provisioning jobs is reachable: a job queued through the API route takes its column and
  its stored request from different fields (`ProvisionJobs.MismatchIsReachable`); it is reachable in no other way.
- A connection that the provisioner closes before sending anything leaves the step, and with it the job, running for
  good: the close handler clears the timer and settles nothing (`SocketFraming.StuckExactly`,
  `Provisioner.NeverEndsExactly`, `ProvisionJobs.HungJobStaysRunning`).
- A workspace name with `..` that leads out of the homes leads every tenant to one directory, which each tenant's plans
  create, re-own and delete (`TenantIsolation.SharedWorkspaceIsNotIsolated`, `TenantIsolation.WorkspaceAboveTheHome`).
- The allowlist judges a program by its last path component, while the whole path is spawned
  (`AllowlistSoundness.OnlyTheNameIsJudged`).
- `useradd` is not told the tenants' home root. Where the host keeps accounts elsewhere, decommissioning with the account
  leaves the tenant's tree behind, because the steps that would remove it are left out
  (`TenantLifecycle.StateLeftBehindExactly`); a home root inside an account's home is removed with that account
  (`TenantIsolation.RootInAnAccountHome`).
- The allowlist refuses a bootstrap plan if the seed template path equals one of the other two copy sources, or if the
  home root normalises to `/` or `.`; the setting `/` itself is stripped to nothing and makes the homes relative paths.
- A valid slug of 29 to 32 characters is refused when the request names no user.
- The daemon handles one line per data event, so a second request in the same chunk waits for further data; the client
  sends one line per connection.
- A sync reports an agent with an empty soul file as updated every time.
- Writing an agent whose id is an array or object appends it again every time; a file whose `agents` is an array is
  written back as it was.
- A pong for a ping of an earlier socket can reset the missed-pong counter if, and only if, `connect` is called while that
  socket is still closing.
- The limiter admits the first request of every window even if `maxRequests` is 0.

## Model

| member | source | states |
|---|---|---|
| `Webhooks.NextRetryDelay` | src/lib/webhooks.ts:51-55 | the jittered delay lies between 4/5 and 6/5 of the base delay of the attempt, the last base serving all later attempts |
| `RetryTiming.DelaysCoverTheRange` | src/lib/webhooks.ts:51-55 | the jitter uses its whole range: every number of seconds from the shortest delay up to the longest is the delay for some random number |
| `RetryTiming.WaitingRowsAreDue` | src/lib/webhooks.ts:268-272 | in every reachable state a waiting row is due between 4/5 and 6/5 of 30, 300, 1800, 7200 or 28800 seconds after it was logged, by its attempt |
| `RetryTiming.RetryWaited` | src/lib/webhooks.ts:268-362 | over whole runs every automatic retry follows the landing of the failure it retries and a pass that took it up, at least 4/5 of that base delay later and while its webhook was enabled |
| `RetryTiming.PassLeavesNothingDue` | src/lib/webhooks.ts:309-332 | a pass that takes up fewer than 50 rows leaves no row of an enabled webhook whose time has come |
| `RetryTiming.NoFailureIsForgotten` | src/lib/webhooks.ts:260-362 | of the rows kept, exactly those of failures to be retried wait or were taken up, never both, and what was taken up has been sent again or is in its pass |
| `Webhooks.RunKeepsInv` | src/lib/webhooks.ts:174-372 | every run of deliveries, overlapping retry passes, manual sends, resets and deletions keeps the invariant tying rows, sends, claims, log, counters and row limits |
| `Webhooks.RetriedAtMostOnce` | src/lib/webhooks.ts:309-362 | in every interleaving a delivery row is re-sent automatically at most once, only after a failure, to the same webhook with the attempt one higher and below MAX_RETRIES |
| `Webhooks.ChainIsProper` | src/lib/webhooks.ts:268-272 | along the parents of an automatic delivery attempts count up from 0, all for one webhook, and all but the last failed and were scheduled |
| `Webhooks.ChainIsBounded` | src/lib/webhooks.ts:268-272 | every chain of automatic deliveries holds at most MAX_RETRIES deliveries (one if MAX_RETRIES is below 1) |
| `Webhooks.ChainDelays` | src/lib/webhooks.ts:32-55 | the delays scheduled along a chain sum to between 4/5 and 6/5 of the sum of their base delays, for every MAX_RETRIES |
| `Webhooks.TrailingIsSuffix` | src/lib/webhooks.ts:260-267 | the reference count is the exact length of the failing suffix |
| `Webhooks.CounterIsFailingSuffix` | src/lib/webhooks.ts:260-267 | in every reachable state consecutive_failures is the length of the failing suffix of the webhook's retry-enabled outcomes since its last success or circuit reset |
| `Webhooks.BreakerNeedsFailuresInARow` | src/lib/webhooks.ts:273-281 | besides an administrator only the landing of a failed last attempt disables a webhook, and then its last MAX_RETRIES outcomes are failures |
| `Webhooks.ExhaustedChainDisables` | src/lib/webhooks.ts:260-282 | a chain that exhausts its attempts with no success or reset of its webhook since it began always disables the webhook |
| `RetryTiming.EnabledExactly` | src/lib/webhooks.ts:260-282 | in every run a webhook is enabled if and only if what last switched it was its creation, a reset or an administrator switching it on, and not the breaker |
| `Webhooks.AtMost200Rows` | src/lib/webhooks.ts:284-290 | at every await point of every run from an empty database each webhook has at most 200 delivery rows |
| `Webhooks.PruningKeepsTheNewest` | src/lib/webhooks.ts:284-290 | a landing keeps all rows up to 200 and else exactly 200, drops none strictly newer than one it keeps, and leaves other webhooks' rows |
| `Webhooks.DeliveryStore.constructor` | src/lib/migrations.ts:176-178 | the store begins empty |
| `Webhooks.DeliveryStore.PruneDeliveries` | src/lib/webhooks.ts:284-290 | the rows kept are a newest-200 choice and exactly the other rows of that webhook go |
| `Webhooks.DeliveryStore.LogDelivery` | src/lib/webhooks.ts:230-295 | the segment after the network call inserts the row, sets counter, retry time or breaker and prunes, as the machine's landing does; nothing is written for a deleted webhook |
| `Webhooks.DeliveryStore.SelectDue` | src/lib/webhooks.ts:309-318 | due rows of enabled webhooks without repetition, at most 50, and all of them if fewer than 50 |
| `Webhooks.DeliveryStore.ClaimDue` | src/lib/webhooks.ts:309-332 | selecting and clearing happen at once: exactly the chosen rows lose next_retry_at and are handed out |
| `Provisioner.AttemptsFrom` | ops/mc-provisioner-daemon.js:189-210 | attempts go on exactly through the transient failures, at most six for useradd and one otherwise |
| `Provisioner.RunWithRetry` | ops/mc-provisioner-daemon.js:189-210 | the retry loop spawns that many processes and returns the result of the last |
| `Provisioner.DryRunSpawnsNothing` | src/lib/super-admin.ts:653-693 | a dry run spawns no process in any provision mode, whatever network and daemon do |
| `Provisioner.ReturnedStepSucceeded` | src/lib/provisioner-client.ts:23-56 | a step that does not throw has code 0, is skipped exactly in a dry run, and when live its last spawned process is its command and exited with 0 |
| `Provisioner.ReturnsExactly` | src/lib/super-admin.ts:653-693 | a step returns if and only if it has a command and, at the daemon, the tokens are set and agree, the allowlist accepts it, a reply comes back and unless dry its attempts end well; elsewhere if it is dry or its one process exits with 0 |
| `Provisioner.AttemptsSucceedExactly` | ops/mc-provisioner-daemon.js:189-210 | the attempts end well if and only if one exits with 0 and all before it failed on the password lock, for useradd at most five, for others none |
| `Provisioner.SpawnedExactly` | src/lib/super-admin.ts:653-693 | a live step spawns its command, through sudo if it needs root and there is no daemon, and at the daemon once for each attempt if tokens and allowlist let it |
| `Provisioner.StepEndsSoundly` | src/lib/super-admin.ts:653-693 | every way a step can end is one the job machine allows |
| `Provisioner.NeverEndsExactly` | src/lib/provisioner-client.ts:58-98 | whatever the order of data, errors, timeout and close, a step never ends if and only if it goes to the daemon with a token and the socket is closed before an error, the timeout or any data; then no further event can settle its promise |
| `Provisioner.DaemonSpawnsOnlyAllowed` | ops/mc-provisioner-daemon.js:231-278 | the daemon spawns only the command it was sent, and only if its allowlist accepts it |
| `ProvisionJobs.DecisionsExactly` | src/lib/super-admin.ts:566-629 | an action succeeds if and only if the job is neither running, completed nor cancelled and has not got the action's status already; it sets that status, an approval also the approver, and nothing else |
| `ProvisionJobs.StartsExactly` | src/lib/super-admin.ts:701-735 | an execution starts if and only if the job is approved, has a plan, agreeing dry-run flags, a named approver and its artifacts, and if live the approver is neither its requester nor its runner |
| `JobRuns.StartTakesTwo` | src/lib/super-admin.ts:440-741 | over whole runs an execution that starts follows the call that queued the job with that plan and those flags, and an approval since which the row has not changed; for a live job the approving caller is neither the one who queued nor the one who starts it |
| `ProvisionJobs.RunKeepsInv` | src/lib/super-admin.ts:553-881 | every run of requests, decisions and interleaved executions keeps the invariant on executors, results, histories and spawned processes |
| `ProvisionJobs.StartUsesItsOwnApproval` | src/lib/super-admin.ts:701-741 | each entry into running directly follows an approval of its own, by a non-empty approver who for a live job is neither requester nor runner |
| `ProvisionJobs.OnlyTheExecutorChangesARunningJob` | src/lib/super-admin.ts:807-854 | a running job has exactly one execution and no step but that execution's changes its row, although final writes are unconditional |
| `ProvisionJobs.FinalRowsAreFrozen` | src/lib/super-admin.ts:566-629 | from any state of the invariant no continuation changes the row of a completed or cancelled job |
| `ProvisionJobs.FinalStatusIsNeverLeft` | src/lib/super-admin.ts:566-629 | over whole runs completed and cancelled are never left |
| `ProvisionJobs.TwoPersonRule` | src/lib/super-admin.ts:708-731 | in every reachable state a running, completed or failed job has a non-empty approver and agreeing dry-run flags, and a live one was approved neither by its requester nor by who started it |
| `ProvisionJobs.RecordedStepsAreThePlan` | src/lib/super-admin.ts:761-818 | the recorded steps of a completed job are its plan in order with code 0, those of a failed job a strict prefix, and nothing was spawned for a dry run or before an execution |
| `ProvisionJobs.RequestNeverChanges` | src/lib/super-admin.ts:440-450 | request, plan and dry-run flags of a job never change in any run |
| `ProvisionJobs.MismatchOnlyFromRoute` | src/lib/super-admin.ts:510-530 | the dry-run mismatch is never raised for a job queued by the two library functions |
| `ProvisionJobs.MismatchExactly` | src/app/api/super/provision-jobs/route.ts:36-65 | for a job queued through the route the mismatch is raised exactly if the two flags it was queued with differ |
| `ProvisionJobs.MismatchIsReachable` | src/app/api/super/provision-jobs/route.ts:36-65 | a run that reaches the mismatch error |
| `JobTables.JobTable.constructor` | src/lib/super-admin.ts:440-450 | the table begins empty |
| `JobTables.JobTable.TransitionStatus` | src/lib/super-admin.ts:553-651 | a decision changes exactly the row as the machine's decision does, or nothing if it throws |
| `ProvisionJobs.HungJobStaysRunning` | src/lib/super-admin.ts:566-629 | a job whose execution awaits a step that never ends stays running, its row unchanged, in every continuation |
| `ProvisionJobs.HungIsReachable` | src/lib/super-admin.ts:807-818 | a run that reaches such a job |
| `ProvisionJobs.RunningJobCanEndExactly` | src/lib/super-admin.ts:807-854 | a running job can still leave running if and only if its execution does not await such a step |
| `JobCompletion.CanCompleteExactly` | src/lib/super-admin.ts:566-854 | in every reachable state some continuation completes a job if and only if it is not cancelled, does not await a step that never ends, has a plan, and its dry-run flags agree |
| `JobCompletion.LiveJobCanComplete` | src/lib/super-admin.ts:695-881 | every live job with a plan that a library function queues can be completed |
| `JobTables.JobTable.Execute` | src/lib/super-admin.ts:695-881 | an execution starts under exactly the conditions of `StartsExactly` and else changes nothing; it records the steps up to the first that does not return and completes if and only if all do, fails if one throws and stays running if one never ends |
| `JobTables.ExecuteIsARun` | src/lib/super-admin.ts:695-881 | the rows such an execution leaves are those of the machine's run that begins it and takes its steps one after the other |
| `JobTables.ExecuteSpawns` | src/lib/super-admin.ts:761-818 | the processes it adds to those of its job are those of its steps in order, up to and with the first that does not return |
| `PosixPaths.SplitGlue` | src/lib/super-admin.ts:48-51 | splitting glued segments gives the segments back |
| `PosixPaths.GlueSplit` | src/lib/super-admin.ts:48-51 | gluing the segments of a path gives the path back |
| `PosixPaths.JoinUnder` | src/lib/super-admin.ts:48-51 | joining plain parts below a base extends the base's resolved segments by them |
| `PosixPaths.JoinWalks` | src/lib/super-admin.ts:48-51 | joining any text below an absolute base and a plain name walks on from that directory, empty, `.` and `..` segments included |
| `PosixPaths.RelativeMeaning` | src/lib/super-admin.ts:48-51 | normalising a relative path keeps where it leads from every directory |
| `TenantPlans.NewTenant` | src/lib/super-admin.ts:365-394 | a request with a user of its own passes if and only if slug and user match their patterns and a template is set, and the tenant has them |
| `TenantPlans.AnyTenant` | src/lib/super-admin.ts:365-394 | every tenant a request creates is one of those the theorems about tenants speak of |
| `TenantPlans.DefaultUserFits` | src/lib/super-admin.ts:365-378 | without one it passes if and only if the slug is valid and at most 28 characters long |
| `TenantPlans.BuildDecommissionPlan` | src/lib/super-admin.ts:168-227 | the list that is pushed together is the decommission plan the theorems are about |
| `Allowlist.UserBetweenIff` | ops/mc-provisioner-daemon.js:27-39 | the allowlist's user patterns match exactly a safe user between the literal prefix and suffix |
| `PlanAcceptance.BootstrapPlanAccepted` | ops/mc-provisioner-daemon.js:41-151 | the daemon accepts every step of a bootstrap plan if and only if the home root normalises to neither `/` nor `.` and the seed template differs from the other two copy sources |
| `PlanAcceptance.DecommissionPlanAccepted` | ops/mc-provisioner-daemon.js:41-151 | the daemon accepts every step of a decommission plan if and only if the plan does not remove directories itself, or the home root is usable and the workspace name is plain or leads to a tenant's state directory |
| `PlanAcceptance.SlashRootIsRefused` | src/lib/super-admin.ts:48-51 | a home root of slashes only makes the homes relative paths and every bootstrap plan refused |
| `AllowlistSoundness.AcceptedExactly` | ops/mc-provisioner-daemon.js:41-151 | the allowlist accepts a command if and only if for some safe user its whole argument list is one of those listed for the program of that name |
| `AllowlistSoundness.AcceptedActsForATenant` | ops/mc-provisioner-daemon.js:41-151 | every accepted command acts only for one safe user (account, home, state, workspace, environment file, service) or on the shared directory and unit file |
| `AllowlistSoundness.OnlyTheNameIsJudged` | ops/mc-provisioner-daemon.js:41-46 | whatever the directory, a listed program's name is accepted with exactly the arguments with which the plans' own path is accepted |
| `AllowlistSoundness.OtherProgramIsAccepted` | ops/mc-provisioner-daemon.js:41-52 | an input: a program named `userdel` in any directory is accepted |
| `TenantIsolation.TouchedIsOwn` | src/lib/super-admin.ts:80-227 | every path a plan deletes, re-owns or writes for a tenant whose workspace is in its home lies in that home, or is the account's home or the tenant's environment file |
| `TenantIsolation.TenantsAreIsolated` | src/lib/super-admin.ts:91-226 | for any workspace name and any base directory of the host's accounts, no such path lies at or under one of another tenant with a different user, if and only if neither the home root nor that base is `/`, `/etc` or at or under an environment file, neither lies in a user's directory of the other, and every workspace is in its user's home |
| `TenantIsolation.SharedWorkspaceIsNotIsolated` | src/lib/super-admin.ts:392-394 | a workspace name that leads out of the homes leads all tenants to one directory, and isolation fails |
| `TenantIsolation.WorkspaceAboveTheHome` | src/lib/super-admin.ts:392-394 | such an input: with the name `..` every tenant's workspace is the home root itself |
| `TenantIsolation.RootInAnAccountHome` | src/lib/super-admin.ts:91-226 | an input where it fails: the home root is the home of an account |
| `TenantLifecycle.BootstrapSetsUp` | src/lib/super-admin.ts:80-166 | a bootstrap plan adds the account with its home in the host's own base, the tenant's paths, the shared paths and the enabled service, and nothing else |
| `TenantLifecycle.DecommissionState` | src/lib/super-admin.ts:168-227 | without account removal exactly the service and the trees the options name go |
| `TenantLifecycle.DecommissionUndoesBootstrap` | src/lib/super-admin.ts:80-227 | for any workspace name, bootstrap and then decommission with the account leave the host as it was but for the shared paths and the directories above the account's home, if and only if the tenant's home is in the account's home, the shared paths are not, the account's home is not below the environment file, and what is made for the workspace goes or was there |
| `TenantLifecycle.WorkspaceInHomeGoes` | src/lib/super-admin.ts:80-227 | the last condition holds for every workspace in a tenant's home that is in the account's home |
| `TenantLifecycle.StateLeftBehindExactly` | src/lib/super-admin.ts:195-224 | the tenant's state directory is left behind if and only if its home is not in the account's home |
| `TenantLifecycle.CustomRootLeavesState` | src/lib/super-admin.ts:195-224 | an input where it is: tenants in `/srv/tenants`, accounts in `/home` |
| `TenantFiles.DoAllIsPerform` | src/lib/super-admin.ts:80-227 | owners and contents aside, the plans do to the host what the two theorems above say |
| `TenantFiles.BootstrapRunsThrough` | src/lib/super-admin.ts:91-165 | every command of a bootstrap plan finds the account, directory, file or loaded unit it needs when its turn comes, if and only if there is no such account yet |
| `TenantFiles.BootstrapOwners` | src/lib/super-admin.ts:91-165 | then the tenant owns everything in its home but shared paths, and root the directory of environment files |
| `TenantFiles.BootstrapTexts` | src/lib/super-admin.ts:91-165 | then the settings are the template unless something was in their place, the environment file is that of the slug, and systemd has read the unit, an older one if there was one |
| `SocketFraming.FindNewline` | ops/mc-provisioner-daemon.js:236-237 | the position of the first newline |
| `SocketFraming.ResponseReader.constructor` | src/lib/provisioner-client.ts:58-61 | the client begins with nothing read and nothing settled |
| `SocketFraming.ResponseReader.OnData` | src/lib/provisioner-client.ts:72-87 | a chunk is appended; the first line found clears the timer and settles the promise, once |
| `SocketFraming.ResponseReader.OnError` | src/lib/provisioner-client.ts:88-91 | an error clears the timer and rejects a promise that is still pending |
| `SocketFraming.ResponseReader.OnTimeout` | src/lib/provisioner-client.ts:63-66 | the timer rejects a promise that is still pending and does not fire again |
| `SocketFraming.ResponseReader.OnClose` | src/lib/provisioner-client.ts:93-97 | a close settles nothing and clears the timer exactly if nothing has been read |
| `SocketFraming.SettledStays` | src/lib/provisioner-client.ts:58-98 | the promise settles at most once, in every sequence of events |
| `SocketFraming.NeverSettlesExactly` | src/lib/provisioner-client.ts:58-98 | from any state no sequence of events settles the promise if and only if it is pending, the socket closed and the timer not armed |
| `SocketFraming.StuckExactly` | src/lib/provisioner-client.ts:58-98 | after any events the promise can never settle if and only if the socket was closed before an error, the timeout or a non-empty chunk; any other pending promise has its timer armed |
| `SocketFraming.ChunksDoNotMatter` | src/lib/provisioner-client.ts:72-87 | however a text is cut into chunks, the client settles exactly if it holds a newline, and on what comes before it; until then the timer stays armed |
| `SocketFraming.RequestHandler.constructor` | ops/mc-provisioner-daemon.js:231-232 | the daemon begins with an empty buffer |
| `SocketFraming.RequestHandler.OnData` | ops/mc-provisioner-daemon.js:234-240 | a chunk is appended and at most one line cut off and handled |
| `SocketFraming.Conserved` | ops/mc-provisioner-daemon.js:234-240 | the handled lines with their newlines and the buffer are exactly what was received, and an event handles at most one line |
| `SocketFraming.OneRequestIsHandledOnce` | ops/mc-provisioner-daemon.js:234-240 | one request line is handled exactly once and whole, in whatever chunks it arrives |
| `SocketFraming.ExchangeArrivesWhole` | src/lib/provisioner-client.ts:58-98 | the daemon handles the client's line once and the client settles on the daemon's line, however both are cut up |
| `SocketFraming.WaitingExactly` | ops/mc-provisioner-daemon.js:234-240 | at most w complete lines wait in the buffer if and only if from every chunk on no more lines end than chunks come, but for w |
| `SocketFraming.AllLinesHandledExactly` | ops/mc-provisioner-daemon.js:234-240 | no complete line is left unhandled if and only if from every chunk on no more lines end than chunks come |
| `SocketFraming.SecondLineWaits` | ops/mc-provisioner-daemon.js:234-240 | an input where this fails: of two lines in one chunk the second stays in the buffer |
| `PlanExecution.DryRunFollowsAllowlist` | src/lib/super-admin.ts:761-805 | with the daemon reachable every step of a dry run returns if and only if the allowlist accepts the whole plan |
| `PlanExecution.BootstrapDryRunCompletes` | src/lib/super-admin.ts:653-693 | a bootstrap dry run goes through if and only if the home root is usable and the seed template is none of the other copy sources |
| `PlanExecution.DecommissionDryRunCompletes` | src/lib/super-admin.ts:653-693 | a decommission dry run goes through if and only if the allowlist's condition on decommission plans holds |
| `PlanExecution.DryRunBootstrap` | src/lib/super-admin.ts:695-881 | executing an approved bootstrap dry run ends completed with every plan step recorded as skipped under exactly that condition, and failed otherwise |
| `PlanExecution.LiveRunFollows` | src/lib/super-admin.ts:761-805 | with the daemon reachable every step of a live run returns if and only if the allowlist accepts the whole plan and the attempts of every step end well |
| `PlanExecution.LiveRunNeedsLeave` | src/lib/super-admin.ts:770-772 | a live run without leave to execute ends at its first step, which runs nothing |
| `PlanExecution.LiveRunSpawnsItsPlan` | src/lib/super-admin.ts:653-693 | a live step that returns spawned its own command, once for each attempt, and the last exited with 0 |
| `Scheduler.GetNextDailyMs` | src/lib/scheduler.ts:275-283 | the result leads to the least later moment at that UTC hour, in the coming 24 hours |
| `Scheduler.InitialTasks` | src/lib/scheduler.ts:211-272 | five idle tasks: backup and cleanup daily, first at 3 and 4 o'clock UTC of the clock they read, heartbeat every five minutes, retry and session scan every minute, the scan first after five seconds |
| `Scheduler.TaskTable.constructor` | src/lib/scheduler.ts:211-272 | initialisation registers exactly those tasks |
| `Scheduler.TaskTable.Visit` | src/lib/scheduler.ts:290-303 | a task is started exactly if it is idle, due at the tick's stamp and enabled, and only its flag changes |
| `Scheduler.TaskTable.Settle` | src/lib/scheduler.ts:312-316 | the end of a task clears the flag and dates last and next run from the stamp |
| `Scheduler.TaskTable.UninterruptedTick` | src/lib/scheduler.ts:286-317 | a tick alone runs exactly the enabled tasks due at its stamp and leaves the others |
| `Scheduler.VisitStartsExactly` | src/lib/scheduler.ts:286-303 | in every reachable state a tick that comes to a task starts it if and only if it is enabled, no tick is executing it, and the stamp has reached its first due time or one interval after its last start |
| `Scheduler.NothingDueIsLeft` | src/lib/scheduler.ts:286-317 | from every reachable state a tick that nothing interrupts leaves no enabled idle task due that it did not start |
| `Scheduler.TickIsARun` | src/lib/scheduler.ts:286-317 | the tasks it leaves are those of the machine's run that spawns a tick and lets it visit and settle its tasks |
| `Scheduler.RunKeepsInv` | src/lib/scheduler.ts:286-317 | every interleaving of overlapping ticks keeps the invariant on owners, spacing and starts |
| `Scheduler.MutualExclusion` | src/lib/scheduler.ts:286-317 | a task is executing in at most one tick at a time, and then its flag is set |
| `Scheduler.RunningTaskIsExecuted` | src/lib/scheduler.ts:303-316 | a set flag means some tick is executing the task |
| `Scheduler.StartsAreSpaced` | src/lib/scheduler.ts:286-317 | starts of a task carry stamps at least its interval apart, n starts n-1 intervals, none before its first due time, however late a stale tick resumes |
| `Scheduler.TickStartsOnce` | src/lib/scheduler.ts:286-303 | a tick starts a task at most once and with its own stamp |
| `Scheduler.IdleTaskShowsItsLastStart` | src/lib/scheduler.ts:312-316 | an idle task's last and next run are the stamp of its last start and one interval later |
| `RateLimit.RateLimiter.constructor` | src/lib/rate-limit.ts:41-42 | the limiter begins with an empty table |
| `RateLimit.RateLimiter.Check` | src/lib/rate-limit.ts:54-75 | a request changes the table and is answered as one step of the runs below, bypass switch included |
| `RateLimit.RateLimiter.Cleanup` | src/lib/rate-limit.ts:44-50 | the sweep deletes exactly the entries whose window is over |
| `RateLimit.DecidesLikeReference` | src/lib/rate-limit.ts:41-75 | with a monotone clock every counted request is answered as by a counter of that client's requests alone that is never swept |
| `RateLimit.BypassedDoNotCount` | src/lib/rate-limit.ts:54-57 | a bypassed request is always admitted and changes no other answer |
| `RateLimit.SweepShowsWhenTheClockGoesBack` | src/lib/rate-limit.ts:45-50 | a run with a clock set back in which the sweep changes an answer |
| `RateLimit.SlidingWindowBound` | src/lib/rate-limit.ts:58-75 | no closed interval of windowMs admits more than 2m-1 counted requests of one client, m the larger of 1 and maxRequests |
| `RateLimit.SlidingWindowBoundIsReached` | src/lib/rate-limit.ts:58-75 | for every limiter with a window of at least a millisecond a burst admits exactly 2m-1 |
| `Gateway.DelayBounds` | src/lib/websocket.ts:549-550 | a reconnect waits its capped exponential base delay and at most half as much again |
| `GatewayProgress.DelaysCoverTheRange` | src/lib/websocket.ts:549-550 | the jitter uses its whole range |
| `Gateway.RunKeepsInv` | src/lib/websocket.ts:110-620 | every run of handler calls of any number of sockets keeps the invariant on sockets, counters, outstanding pings and log |
| `Gateway.MissedPongs` | src/lib/websocket.ts:110-168 | the missed-pong count is the number of pings since the last accepted pong or heartbeat stop, at most 3 |
| `Gateway.FramesComeFromTheCurrentSocket` | src/lib/websocket.ts:487-535 | frames reach the handlers only from the current socket |
| `Gateway.OutstandingPingsExactly` | src/lib/websocket.ts:110-168 | while frames come in on a socket, an outstanding ping was sent on it if and only if connect was not called since |
| `Gateway.AcceptedExactly` | src/lib/websocket.ts:335-357 | a response is accepted as the pong of a ping if and only if the ping is outstanding, its stamp is not zero, and the response is not taken for the handshake's |
| `Gateway.AcceptedPongAnswersItsPing` | src/lib/websocket.ts:160-168 | an accepted pong answers a ping sent since the last heartbeat stop and not answered before; it was sent on the same socket if and only if connect was not called in between |
| `Gateway.LatePongCanCount` | src/lib/websocket.ts:487-505 | a run in which connect during closing lets a pong for the old socket's ping reset the counter |
| `Gateway.AtMostTenReconnects` | src/lib/websocket.ts:537-573 | between handshakes and manual disconnects at most ten reconnects are scheduled, each and their sum within the delay bounds |
| `Gateway.TenReconnectsWait` | src/lib/websocket.ts:547-559 | ten reconnects in a row wait between 181 and 271.5 seconds together |
| `Gateway.NothingScheduledWhileHalted` | src/lib/websocket.ts:542-546 | after a manual disconnect or a non-retryable error nothing is scheduled until connect is called |
| `GatewayProgress.ReconnectsExactly` | src/lib/websocket.ts:537-559 | in every reachable state a close event schedules a reconnect if and only if nothing halts the connection and fewer than ten were scheduled since the last handshake or manual disconnect |
| `GatewayProgress.ConnectsExactly` | src/lib/websocket.ts:487-506 | connect does something if and only if no socket is connecting or open, and then nothing halts the connection and a new current socket is made if one can be |
| `GatewayProgress.HandshakesExactly` | src/lib/websocket.ts:335-351 | a successful response completes the handshake if and only if none was completed since the last call of connect or heartbeat stop |
| `GatewayProgress.TimerRunsExactly` | src/lib/websocket.ts:110-157 | the ping timer runs exactly from a handshake to the next heartbeat stop |
| `GatewayProgress.PingsExactly` | src/lib/websocket.ts:113-147 | when the timer fires a ping with a new number goes out if and only if the current socket is open, had its handshake and left fewer than three unanswered; with three the socket is closed |
| `Gateway.GatewayClient.constructor` | src/lib/websocket.ts:41-58 | the refs begin with their initial values |
| `Gateway.GatewayClient.StopHeartbeat` | src/lib/websocket.ts:150-157 | stopping clears timer, count and outstanding pings and nothing else |
| `Gateway.GatewayClient.PingDue` | src/lib/websocket.ts:113-147 | the timer callback sends a ping, closes the socket after three missed pongs or does nothing, as the machine's step |
| `Gateway.GatewayClient.HandlePong` | src/lib/websocket.ts:160-168 | a recorded ping is removed and the count reset; any other id changes nothing |
| `Gateway.GatewayClient.HandleGatewayFrame` | src/lib/websocket.ts:325-394 | handshake before pong before error, as the machine's step |
| `Gateway.GatewayClient.Connect` | src/lib/websocket.ts:487-506 | no effect while the current socket is connecting or open; else flags reset and a new current socket |
| `Gateway.GatewayClient.OnClose` | src/lib/websocket.ts:537-573 | a close event stops the heartbeat and schedules a reconnect exactly if neither manual, blocked nor out of attempts |
| `Gateway.GatewayClient.Disconnect` | src/lib/websocket.ts:597-620 | a manual disconnect closes and forgets the socket and resets attempts and heartbeat |
| `Base64Url.ToBase64Url` | src/lib/device-identity.ts:27-34 | the encoding loop computes the encoding the theorems are about |
| `Base64Url.FromBase64Url` | src/lib/device-identity.ts:36-45 | the decoding loop fills a new array with the decoding, and fails exactly where that does |
| `Base64Url.RoundTrip` | src/lib/device-identity.ts:27-45 | decoding the encoding of any bytes gives the bytes back |
| `Base64Url.EncodesBits` | src/lib/device-identity.ts:27-34 | the encoding uses only the alphabet of section 5 of RFC 4648, has no padding, and its six-bit groups are the bits of the input followed by fewer than six zeros |
| `Base64Url.DecodesExactly` | src/lib/device-identity.ts:36-45 | which texts are decoded, white space and padding included, and to which bytes |
| `Base64Url.CanonicalTexts` | src/lib/device-identity.ts:27-45 | a text is given back by encoding what it decodes to if and only if it is over that alphabet, has no lone last character and has zero unused bits |
| `ConfigMerge.MergeDeeply` | src/lib/agent-sync.ts:359-376 | the recursive loop over the source's keys computes the merge |
| `ConfigMerge.MergeByPath` | src/lib/agent-sync.ts:359-376 | for all JSON values and paths, what the merge holds at the path, from what target and source hold there and whether the source cuts it off |
| `ConfigMerge.LeavesOfSourceArrive` | src/lib/agent-sync.ts:359-376 | every leaf of the source is in the merge |
| `ConfigMerge.OtherPathsStay` | src/lib/agent-sync.ts:359-376 | a target path the source neither sets nor cuts off is kept |
| `ConfigMerge.MergeTwice` | src/lib/agent-sync.ts:359-376 | merging the same source again changes nothing |
| `ConfigMerge.FindIs` | src/lib/agent-sync.ts:343-343 | the first entry that is null or has a strictly equal id decides the search: it throws or finds |
| `ConfigMerge.WriteAgentToConfig` | src/lib/agent-sync.ts:335-356 | for every JSON file and list, objects or not, the search loop and update compute the written file, or throw |
| `ConfigMerge.WrittenExactly` | src/lib/agent-sync.ts:335-356 | for every JSON value, when the file is left as it is, when it is written, and when the call throws |
| `ConfigMerge.IndexedExactly` | src/lib/agent-sync.ts:359-361 | copying a list gives each item under the decimal number of its place, and nothing else |
| `ConfigMerge.OthersStay` | src/lib/agent-sync.ts:339-353 | other settings and other fields of agents stay, and the list becomes the written list |
| `ConfigMerge.EntriesStay` | src/lib/agent-sync.ts:343-353 | other entries stay in place; the first with the id is merged, or the agent is appended |
| `ConfigMerge.WritingTwice` | src/lib/agent-sync.ts:343-353 | writing twice is writing once, for every file that can be written, if and only if the file ignores agents or the id is not an array or object |
| `AgentSync.AgentTable.constructor` | src/lib/agent-sync.ts:226-227 | the table holds the given rows |
| `AgentSync.AgentTable.SyncAgents` | src/lib/agent-sync.ts:241-272 | the loop's rows, actions and counts are those of agent after agent |
| `AgentSync.AgentTable.PreviewSyncDiff` | src/lib/agent-sync.ts:290-331 | the loop computes the preview from the rows without changing them |
| `AgentSync.SecondSync` | src/lib/agent-sync.ts:241-269 | whatever was in the table, a second sync creates and updates nothing if and only if no soul file is empty and agents of one name agree; then no row changes |
| `AgentSync.PreviewIsAccurate` | src/lib/agent-sync.ts:306-323 | with distinct names the preview lists, in order, exactly the names the sync creates and exactly those it updates for config or role |
| `AgentSync.NewAgentsExactly` | src/lib/agent-sync.ts:306-315 | for any names the list of new agents is what the sync creates if and only if agents of the file that share a name have a row already |
| `AgentSync.UpdatedExactly` | src/lib/agent-sync.ts:306-323 | for any names the preview marks exactly the agents the sync updates for config or role if and only if every agent that repeats a name is marked exactly if it differs from the one before it of that name |
| `AgentSync.RowAfterSync` | src/lib/agent-sync.ts:241-269 | for any table and agents, a name's row after the sync has role and config of its last agent and the soul of its last agent with a soul file, or else the stored one |
| `AgentSync.EmptySoulExactly` | src/lib/agent-sync.ts:250-258 | a soul is left empty, and not null, if and only if the last soul file is empty, or none is given and the stored one is, and nothing was rewritten since |
| `AgentSync.OnlyInTableStays` | src/lib/agent-sync.ts:325-331 | a name listed as only in the database is in no agent of the file and its row survives the sync |
| `Sessions.AuthStore.constructor` | src/lib/auth.ts:80-80 | the store begins empty |
| `Sessions.AuthStore.CreateUser` | src/lib/auth.ts:200-232 | throws if and only if the password is shorter than 12 or the name is taken, and else adds a user under a new id |
| `Sessions.AuthStore.CreateSession` | src/lib/auth.ts:97-121 | the row is inserted and expired rows removed, or the call throws for an unknown user or used token |
| `Sessions.AuthStore.ValidateSession` | src/lib/auth.ts:123-153 | the answer is that of the joined, unexpired row |
| `Sessions.AuthStore.DestroySession` | src/lib/auth.ts:155-158 | exactly the token's row goes |
| `Sessions.AuthStore.DestroyAllUserSessions` | src/lib/auth.ts:160-163 | exactly the user's rows go |
| `Sessions.AuthStore.DeleteUser` | src/lib/auth.ts:255-260 | the user and its rows go, and the result says whether there was one |
| `Sessions.RowsAreLiving` | src/lib/auth.ts:97-163 | the table holds exactly the sessions that no later call of the history removed |
| `Sessions.AcceptedExactly` | src/lib/auth.ts:97-163 | for every history, clock and tokens, a token is accepted as a user exactly when some call created that unexpired session and no later call removed it |
| `Sessions.AcceptedWithinSevenDays` | src/lib/auth.ts:97-163 | with monotone time and fresh tokens, exactly when it was created for the registered user less than 7 days ago with no later destroy of token, sessions or user |
| `Sessions.ExpiryShowsWhenTheClockGoesBack` | src/lib/auth.ts:117-118 | a history with a clock set back in which the clean-up changes an answer |
| `Migrations.RunMigrations` | src/lib/migrations.ts:682-701 | the loop, interrupted anywhere or stopped by a throwing migration, computes the run the theorems are about |
| `Migrations.RunIsApplyAll` | src/lib/migrations.ts:694-700 | a run applies, in list order, what is missing up to the point where it stops |
| `Migrations.RestartsDoNotMatter` | src/lib/migrations.ts:682-701 | any number of interrupted runs and then a full one end as one full run, from any database and whether or not a migration throws |
| `Migrations.FurtherRunChangesNothing` | src/lib/migrations.ts:682-701 | a further full run changes nothing |
| `Migrations.UpgradeFromOlderList` | src/lib/migrations.ts:682-701 | a full run of an older list and then of the same list grown at its end equals one run of the newer list |
| `Migrations.EachOnceInOrder` | src/lib/migrations.ts:682-701 | if none throws, every migration was applied exactly once and in list order, whatever the interruptions |
| `Migrations.AlwaysAtAPrefix` | src/lib/migrations.ts:682-701 | after any runs, interrupted or failing, the database is that of a prefix of the list, and the prefix never shrinks |
| `Migrations.RepeatedIdsBreakRestarts` | src/lib/migrations.ts:690-695 | with a repeated id an interrupted run ends differently |
| `Migrations.ListSurvivesRestarts` | src/lib/migrations.ts:10-680 | the 23 ids of the list are distinct, so restarts do not matter for it whatever its migrations do |

## Left out

- React components, pages, stores and the log, audit and event texts.
- Signing, hashing and password checks, host and CSRF checks, `requireRole` and cookie parsing.
- `extractClientIp`: reading request headers; the limiter is modelled on the key it yields.
- Titles and timeouts of plan steps, ports, display names and plan tiers; trimming and lower-casing of request fields
  come before `TenantPlans.NewTenant`.
- TenantIsolation.TenantsAreIsolated: the home root is required to be absolute after its trailing slashes are stripped, which leaves out the setting `/`, because a relative root has no fixed place. Every account is taken to be made by `useradd` below one base: names such as `root`, `bin` and `backup` also pass as users, and `userdel -r` then acts on a home elsewhere.
- TenantLifecycle.DecommissionUndoesBootstrap: under the same conditions; commands are taken to succeed, and file contents and owners are not tracked there; `TenantFiles.dfy` adds both for bootstrap plans, without file modes.
- Tenant status under concurrent jobs of one tenant, and a process that dies during an execution.
- ProvisionJobs.RunKeepsInv: the end of a step is any end that `Provisioner.StepEndsSoundly` allows, not the end computed from a particular network.
- Characters split between two chunks of a socket, and the parsing of a response line.
- Provisioner.NeverEndsExactly: every spawned process is taken to end. Under `sudo` a timeout kills only sudo, and `close` waits until the command itself has closed its pipes.
- RetryTiming.WaitingRowsAreDue: the clock is read once for a landing; the code reads it twice, and the two may differ by a second.
- Webhooks.RetriedAtMostOnce: a manual resend through the retry route is not an automatic one and may repeat; that a failed delivery is eventually retried does not hold, since pruning or disabling may prevent it.
- Within one retry pass the code sends a row only after the previous one has landed; the machine also allows it earlier.
- `triggerTask` and re-initialisation of the scheduler, and the work its tasks do.
- Scheduler.RunKeepsInv: a tick may be interrupted between any two tasks, not only at an await.
- `isConnected`, latency and the token handling of the gateway connection; frames are classified by type, id and outcome, not parsed.
- Order of keys in JSON objects and keys that JavaScript objects inherit.
- AgentSync.SecondSync: agents come as mapped from openclaw.json and their workspace files, whose JSON text is never empty or `{}`; reading and mapping them is not modelled.
- Migrations.RestartsDoNotMatter: a migration is a function of the database; a failure that depends on anything else is an interruption.
- What the single migrations do, and the schema.
- Session columns other than token, user and expiry.
