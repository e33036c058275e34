# Hysteria2MX: a verified model of the panel and the node agent

Hysteria2MX is a control panel and an agent on every node that cooperate over HTTP. This project
models their state machines in Dafny and proves what they keep over whole runs: with crashes, lost
messages, torn files, failed database calls and every interleaving of the parties involved.

| file | what it models |
|---|---|
| `CpuController.dfy` | the hysteresis controller of the CPU guard and its configuration |
| `CpuGuard.dfy` | the guard around it: state file, systemd, restart, reboot, configuration updates |
| `MonitorPipeline.dfy` | collector, drop-oldest channel, upload worker and the panel's sample table |
| `MonitorRetry.dfy` | the retry loop for one sample and the panel's age check |
| `MonitorHistory.dfy` | the bucketed history query and the chart's grid |
| `TaskQueue.dfy` | the task table, the agent's task loop, and the sync-then-kick refresh |
| `AgentUsers.dfy` | the users the agent works with: what syncs and config deploys bring, in every run |
| `LocalAuth.dfy` | the panel's credential scan and the agent's credential map |
| `KickSafety.dfy` | both together: what a kicked client meets when it returns |
| `LoginProtection.dfy` | the login throttle and its pruning |
| `TrafficHistory.dfy`, `TrafficQuota.dfy` | traffic deltas; per-user accounting and suspension |
| `NodeAlerts.dfy` | outage mails |
| `Watchdog.dfy` | the service watchdog and the operator's intent file |
| `ShellQuote.dfy`, `ShellWords.dfy` | both quoting functions under a POSIX tokenizer, and the words of nested commands |
| `EnvFile.dfy`, `EnvConfig.dfy`, `EnvRoundTrip.dfy` | the env file, the configuration stored in it, and both together |
| `Version.dfy` | the version order |
| `Basics.dfy`, `Text.dfy`, `Strconv.dfy` | options, trimming, decimal integers |

How the models are built. Code that changes state is a class whose methods are proved against a
function of the old state; what interleaves with other parties is a step function over a state, and
the lemmas are about every sequence of steps. Outcomes the program does not control (does a write
succeed, does it take effect, does the process die, is a message lost, how long does an upload take)
are inputs, quantified over. Percentages and gigabytes are exact reals or integers; clocks are
integers in the unit the code compares.

Where the code does not do what one would expect, the model keeps the code and a lemma says exactly
when it does:

- A user is suspended by a sync up to one reported amount early, because the row is read again after
  the UPDATE and the amount is added once more (`TrafficQuota.SyncSuspends`).
- Close to the quota the agent rejects a user the panel still accepts, because used gigabytes travel
  rounded to hundredths (`LocalAuth.AcceptedExactly`).
- A refresh whose two inserts are more than 120 s apart can kick before it syncs
  (`TaskQueue.SlowRefreshCanKickFirst`).
- A config deploy replaces the agent's users too, and building a payload and inserting the task are
  separate steps. So a refresh or a deploy that overlaps another can bring older users back, even
  between a sync and its kick (`AgentUsers.DeployBringsOlderUsersBack`). The newest users are kept in
  every run exactly when none were queued after newer ones (`AgentUsers.NewestIsKeptExactly`), and a
  kicked client stays out exactly when the users of the sync and of every task queued after it reject
  it (`KickSafety.KickIsSafeExactly`).
- A kick is queued even when the users for the sync before it cannot be read
  (`TaskQueue.TaskTable.QueueLocalAuthRefresh`).
- After a refused CPU guard update whose rollback cannot resume, the agent holds an enabled
  configuration and runs no guard, and a later update to that configuration finishes without starting
  one; with the rollback write failed as well, the refused configuration is what the next boot reads
  (`CpuGuard.Node.UpdateConfig`, `CpuGuard.GuardCanStayOff`).
- Snapshots are taken at the end of a sync, which clears the counter, and a delta is the difference of
  two totals unless the new one is smaller. So a sync's row misses the whole of the last total unless
  its own is smaller: a node that moves the same amount between syncs records nothing, for ever
  (`TrafficHistory.SyncsAddUp`, `TrafficHistory.SyncsMissNothingExactly`,
  `TrafficHistory.SteadyTrafficRecordsNothing`).
- On a node with an agent a traffic snapshot stores the last heartbeat's totals. With heartbeats that
  are read and stored in order, the deltas are bounded by the bytes moved since the reading behind the
  first row, and by those since the first snapshot exactly when that snapshot was current
  (`TrafficHistory.BoundSinceFirstSnapshot`). A heartbeat that could not read the counter reports zero;
  it, or an earlier one stored late, makes the next deltas count the whole counter again
  (`TrafficHistory.NextDelta`, `TrafficHistory.StrayReadingCountsTwice`).
- Enough failures within one window lock a key only where pruning is harmless: otherwise the first
  failures can be forgotten within the window (`LoginProtection.EnoughFailuresLock`).
- Pruning the login store can be noticed when the counting window is not shorter than the time
  records are kept and more than one attempt is allowed (`LoginProtection.PruningIsInvisible`).
- If no check of a recovery can read and save the state, the next outage is not announced
  (`NodeAlerts.UnsavedRecoverySilencesTheNextOutage`).
- The env reader never unescapes what the writer escapes (`EnvFile.RereadIsExact`), and a blank
  field that has a default comes back as the default (`EnvRoundTrip.ReloadIsExact`); normalising on load
  never repairs a changed value (`EnvRoundTrip.SavedConfigReloads`).
- The monitoring data change note says a network failure drops samples; the code retains and retries
  them for 45 s (`docs/node-monitor-data-change.md`, `cmd/mxinhy-agent/monitor.go:240-277`). The model
  follows the code.

## Model

| member | source | states |
|---|---|---|
| CpuController.Normalize | internal/cpuprotection/config.go:13-30 | zero fields become 90, 70, 80 and 20; the result is accepted exactly when 0 < low < high <= 100 and 0 < min <= max <= 100; an accepted result normalises to itself |
| CpuController.CpuPercent | cmd/mxinhy-agent/cpu_protection.go:66-75 | defined exactly between comparable samples; busy and idle share make up the whole, so the result lies in 0 to 100 |
| CpuController.Controller.Next | cmd/mxinhy-agent/cpu_protection.go:83-115 | the counters and the decision for one usage, leaving the stored quota alone; what the decisions amount to is in the rows below |
| CpuController.AskingIsChanging | cmd/mxinhy-agent/cpu_protection.go:91-115 | a change is asked for exactly when the quota asked for is another one, and it lies in the band |
| CpuController.CountersAreStreaks | cmd/mxinhy-agent/cpu_protection.go:83-115 | for every history of readings and failed adjustments: the quota is 0 or in the configured band, and the counters are the lengths of the unbroken streaks modulo 3 and 12 |
| CpuController.QuotaChangesOnlyOnFullStreaks | cmd/mxinhy-agent/cpu_protection.go:257-292 | the quota changes at a reading if and only if it completes a third hot or a twelfth cool reading in a row and the change was applied |
| CpuController.FullStreaksMoveTheQuota | cmd/mxinhy-agent/cpu_protection.go:84-112 | an applied full hot streak puts the ceiling on a service without a quota and takes a fifth off a quota, down to the floor; a full cool one adds five points or, past the ceiling, restores the original |
| CpuController.SustainedLoadLowers | cmd/mxinhy-agent/cpu_protection.go:84-98 | under sustained load the exact quota after every number of samples: a fifth off in each round of three, beginning with the ceiling, never below the floor, so the floor is not reached a round earlier |
| CpuController.SustainedLoadReachesFloor | cmd/mxinhy-agent/cpu_protection.go:84-98 | sustained load above the trigger brings the quota to the floor within an explicit number of rounds of three samples and keeps it there |
| CpuController.SustainedCalmRestores | cmd/mxinhy-agent/cpu_protection.go:101-112 | sustained load below the recovery threshold raises the quota by 5 every twelve samples and restores the original one after exactly 12 (floor((max - q) / 5) + 1) samples, not one earlier |
| CpuGuard.TornWritesStayBeside | cmd/mxinhy-agent/cpu_protection.go:150-162 | a write cut off in the middle tears the temporary file only, and a rename moves a whole one over the state file |
| CpuGuard.LawfulCallIsSafe | cmd/mxinhy-agent/cpu_protection.go:150-178 | one I/O call within the guard's discipline keeps the host safe even if it fails or is cut off half way |
| CpuGuard.LawfulRunIsSafe | cmd/mxinhy-agent/cpu_protection.go:164-241 | cutting a disciplined run at any point leaves the original quota recoverable: in the state file, or in force |
| CpuGuard.LimitNotLooser | cmd/mxinhy-agent/cpu_protection.go:164-175 | the quota asked of systemd is never looser than the original one, for any share and number of cores |
| CpuGuard.LimitIsGreatest | cmd/mxinhy-agent/cpu_protection.go:164-175 | the quota asked of systemd is the greatest that is neither above the given share of every core nor looser than the original one |
| CpuGuard.RebootRestores | cmd/mxinhy-agent/cpu_protection.go:188-196 | a reboot clears the state file and every run-time quota, so each service has its original one |
| CpuGuard.Node.SaveState | cmd/mxinhy-agent/cpu_protection.go:150-162 | the state file is replaced whole or not at all, whatever happens to the write or the rename |
| CpuGuard.Node.ApplyQuota | cmd/mxinhy-agent/cpu_protection.go:164-178 | only the service's run-time quota changes, to its limit, and only if the call took effect |
| CpuGuard.Node.Establish | cmd/mxinhy-agent/cpu_protection.go:216-224 | the baseline saved first is the quota in force |
| CpuGuard.Node.Undo | cmd/mxinhy-agent/cpu_protection.go:206-213 | a finished undo has put the baseline in force and removed the state file |
| CpuGuard.Node.Resume | cmd/mxinhy-agent/cpu_protection.go:225-250 | the saved quota is kept inside the band, moved to the nearer edge outside it, and 0 stays 0; it is applied before sampling starts with fresh counters against the sample just read |
| CpuGuard.Node.Start | cmd/mxinhy-agent/cpu_protection.go:180-298 | started: the guard runs and the limit of the remembered state is in force; switched off: no state file and exactly the original quota; a failed first read refuses and changes nothing; a start that fails never limits a service that was not limited |
| CpuGuard.Node.Adjust | cmd/mxinhy-agent/cpu_protection.go:280-290 | a finished adjustment is saved and in force; any other keeps a state file with the same service and baseline |
| CpuGuard.Node.Measure | cmd/mxinhy-agent/cpu_protection.go:258-278 | one read: a good sample replaces the previous one and the usage is that between the two, where they are comparable |
| CpuGuard.Node.Sample | cmd/mxinhy-agent/cpu_protection.go:251-294 | one turn feeds the controller exactly the usage between the previous and the new sample, or nothing usable; a changed quota is the one saved and in force; with all calls working every change is made |
| CpuGuard.Node.Watch | cmd/mxinhy-agent/cpu_protection.go:244-294 | the loop has fed the controller exactly the readings taken, and while every change was made the quota in force is the one wanted |
| CpuGuard.Node.HoldFloor | cmd/mxinhy-agent/cpu_protection.go:244-294 | on a host with sustained load whose calls succeed, the running guard brings the quota in force to the limit of the floor within an explicit number of samples and keeps it there |
| CpuGuard.Node.GiveBack | cmd/mxinhy-agent/cpu_protection.go:244-294 | on a calm host whose calls succeed, the running guard gives the service exactly its original quota back within an explicit number of samples |
| CpuGuard.Node.RollBack | cmd/mxinhy-agent/cpu_protection.go:343-351 | the previous configuration is back in memory whatever fails on the way, and on disk exactly when the write took effect; the guard runs again only if the resumption finished |
| CpuGuard.Node.Replace | cmd/mxinhy-agent/cpu_protection.go:334-353 | the old guard is stopped; finished, the new configuration is held and its guard runs if it is enabled; refused, the old configuration is held, with no guard when resuming it failed too |
| CpuGuard.Node.Install | cmd/mxinhy-agent/cpu_protection.go:313-353 | finished: the new configuration is in memory and on disk and the guard runs if and only if it is enabled; refused: the old one is in memory, either of the two on disk |
| CpuGuard.Node.UpdateConfig | cmd/mxinhy-agent/cpu_protection.go:300-354 | after a finished update the agent holds the requested configuration; if that is enabled its guard runs if and only if the configuration changed or the guard ran before; switched off, exactly the original quota is in force; an equal configuration finishes and changes nothing |
| CpuGuard.Node.LoseGuard | cmd/mxinhy-agent/cpu_protection.go:309-311 | from any running guard: an update whose start and resumption fail, then the update back, which finishes and leaves an enabled configuration without a guard |
| CpuGuard.GuardCanStayOff | cmd/mxinhy-agent/cpu_protection.go:343-351 | for every two different accepted configurations such a run from the first boot, with the refused one left on disk |
| CpuGuard.Node.BootAgent | cmd/mxinhy-agent/main.go:226-228 | the agent is up only after a successful start, with the configuration on disk and the guard running if and only if that enables it; with all calls working and no other service's state file it does start |
| CpuGuard.Node.DieAndBoot | cmd/mxinhy-agent/cpu_protection.go:186-241 | the agent dies and boots again with the same configuration and cores and all calls working: the guard goes on with the quota it had and the same quota is in force |
| CpuGuard.Node.BootAndHoldFloor | cmd/mxinhy-agent/cpu_protection.go:180-298 | from any boot with the guard on, on a host with sustained load whose calls succeed, the quota in force ends at the limit for the floor within an explicit number of samples |
| CpuGuard.Node.BootAndGiveBack | cmd/mxinhy-agent/cpu_protection.go:180-298 | from any boot with the guard on, on a calm host whose calls succeed, the service has exactly its original quota after the rounds needed from the floor |
| CpuGuard.Node.Live | cmd/mxinhy-agent/cpu_protection.go:164-351 | over every run of boots, samples, updates, kills, reboots and edits with every fault at every call: at each instant the state file holds the original quota, without one the original is in force, and no service is looser than its original; at rest a configuration with the guard off means the original quota |
| MonitorPipeline.Channel.TrySend | cmd/mxinhy-agent/monitor.go:196-198 | a send succeeds exactly when there is room |
| MonitorPipeline.Channel.TryReceive | cmd/mxinhy-agent/monitor.go:200-203 | the oldest sample comes out, or the channel was empty |
| MonitorPipeline.Channel.Publish | cmd/mxinhy-agent/monitor.go:196-208 | whatever the worker takes in between, nothing is reordered, only the oldest remaining sample can be discarded and only after the channel was full, and the new sample is always enqueued |
| MonitorPipeline.StoreKeepsTable | internal/panel/monitor.go:88-91 | storing a sample again leaves one row per timestamp |
| MonitorPipeline.StepIsSound | cmd/mxinhy-agent/monitor.go:175-278 | every step of collector, worker or panel keeps bounds, order, accounting and the table |
| MonitorPipeline.EveryRunIsSound | cmd/mxinhy-agent/monitor.go:175-278 | in every interleaving: at most 12 queued, attempts in collection order, every sample on its way or with exactly one fate, one row per timestamp |
| MonitorPipeline.AtMostTwelve | cmd/mxinhy-agent/monitor.go:175-208 | in every run at most twelve samples wait, and the first offer succeeds exactly with fewer |
| MonitorPipeline.SecondOfferSucceeds | cmd/mxinhy-agent/monitor.go:200-207 | the last default branch is unreachable: after a discard the newest sample is always enqueued |
| MonitorPipeline.DiscardTakesTheOldest | cmd/mxinhy-agent/monitor.go:198-203 | the discarded sample is older than all others queued and never the one being uploaded |
| MonitorPipeline.CleanedRows | internal/panel/monitor.go:176-183 | the hourly cleanup leaves only rows that were there, one per timestamp, and every row not older than its cutoff, whatever its limit |
| MonitorPipeline.CleanupIsSound | internal/panel/monitor.go:176-183 | the hourly cleanup keeps every invariant of the pipeline |
| MonitorPipeline.CleanupDeletesOldRows | internal/panel/monitor.go:176-183 | the cleanup touches the table alone and, with room in its limit, leaves no row older than its cutoff |
| MonitorPipeline.UploadsAreStored | cmd/mxinhy-agent/monitor.go:247-277 | in every run an upload acknowledged or with its acknowledgement lost leaves a row, and only an acknowledgement makes the worker let go |
| MonitorPipeline.ArrivalsAreStored | internal/panel/monitor.go:88-91 | in every run a late request leaves a row when it arrives and changes no other row |
| MonitorPipeline.WorkerTakesTheOldest | cmd/mxinhy-agent/monitor.go:233-255 | the worker takes the oldest waiting sample and lets go of it unacknowledged only by expiry |
| MonitorPipeline.SettledRunsAccountForEverySample | cmd/mxinhy-agent/monitor.go:221-278 | when nothing is on its way each collected sample was acknowledged and is stored unless older than a cleanup's cutoff, or was evicted, or expired |
| MonitorRetry.UploadUntilSettled | cmd/mxinhy-agent/monitor.go:240-277 | for any sample, also one dated ahead of the clock, the loop ends with the first acknowledged upload or the first expired check, after delays 1, 2, 4, 5, 5, ... s; it tries only while age plus delays stay below 45 s, so at most 11 times for a sample not dated ahead |
| MonitorRetry.RoundsTakeTime | cmd/mxinhy-agent/monitor.go:264-276 | each round starts no earlier than the sum of the delays before it |
| MonitorRetry.ElevenUploadsHappen | cmd/mxinhy-agent/monitor.go:21 | the bound of 11 uploads is reached |
| MonitorRetry.TimelyRequestsPassTheAgeCheck | internal/nodemonitor/metrics.go:33 | requests processed within their timeout pass the one-minute check if and only if the panel's clock is at most 11 s ahead and at most 60 s behind the agent's |
| MonitorHistory.WindowsOfRanges | internal/panel/monitor.go:54-65 | the ranges are 1, 6 and 24 hours in 720 buckets and seven days in 672 |
| MonitorHistory.Series | web/src/components/NodeMonitor.vue:74-83 | one value per grid step from the first bucket to the end, a point exactly where the answer has one |
| MonitorHistory.PointOnGrid | internal/panel/monitor.go:119-121 | every group's timestamp is a bucket boundary inside the window |
| MonitorHistory.EveryPointIsOnTheGrid | web/src/components/NodeMonitor.vue:79-82 | every group is visited at exactly one step of the grid |
| MonitorHistory.GridSize | internal/panel/monitor.go:54-65 | at most 721 steps for every range and time |
| MonitorHistory.BucketQuery | internal/panel/monitor.go:116-121 | every table, time and bucket has an answer to the query, and this computes it |
| MonitorHistory.QueryIsNeverTruncated | internal/panel/monitor.go:116-121 | the query yields at most 721 groups, so LIMIT 1500 cuts nothing off |
| MonitorHistory.AnswerHoldsEverySample | internal/panel/monitor.go:119-121 | the groups hold every sample of the window exactly once |
| TaskQueue.TaskTable.Enqueue | internal/panel/agent.go:343-370 | a pending task is appended; a lifetime under 10 s becomes 120 s |
| TaskQueue.TaskTable.Pull | internal/panel/agent.go:372-400 | the first pending, unexpired task is marked running and handed out; otherwise nothing changes |
| TaskQueue.TaskTable.Complete | internal/panel/agent.go:402-437 | the result is recorded whatever the status was |
| TaskQueue.TaskTable.QueueLocalAuthRefresh | internal/panel/hysteria.go:2034-2047 | a sync with 300 s unless the users cannot be read, and behind it, if anyone is to be disconnected, a kick with 180 s |
| TaskQueue.TaskTable.QueueConfigDeploy | internal/panel/hysteria.go:2691-2713 | a deploy with the users read for it and 300 s; none when they cannot be read |
| TaskQueue.EveryRunIsSound | internal/panel/agent.go:343-437 | in every run expired tasks stay behind for good and results are recorded only for executed, running tasks |
| TaskQueue.TasksRunOnceAndInOrder | cmd/mxinhy-agent/main.go:603-642 | dispatched, executed and applied ids are strictly increasing: each task runs at most once, and users never overwrite those queued later |
| TaskQueue.StatusOnlyMovesForward | internal/panel/agent.go:372-437 | a status only moves pending, running, then done or error |
| TaskQueue.ResultsAreTrue | internal/panel/agent.go:402-437 | in every run a task is done only if the agent executed it without an error, and in error only if it executed it with one |
| TaskQueue.ResultsArrive | cmd/mxinhy-agent/main.go:603-632 | the result of an execution, once it arrives, makes the task done or in error accordingly |
| TaskQueue.DeathsLeaveNoResult | cmd/mxinhy-agent/main.go:603-642 | a death in the middle of a task leaves no result; users stored by then stay |
| TaskQueue.QueuedTaskWaits | internal/panel/agent.go:343-370 | a task queued in a run waits with the lifetime asked for, one below 10 s being 120 s |
| TaskQueue.PullHandsOutTheFirst | internal/panel/agent.go:372-400 | a pull in a run hands out the first task that waits and has not expired, whether or not the answer arrives |
| TaskQueue.LongerLivedGoFirst | internal/panel/agent.go:373-386 | when a task has been handed out, every earlier one that expires no sooner was handed out before it |
| TaskQueue.SyncIsDispatchedBeforeItsKick | internal/panel/hysteria.go:2034-2047 | with the inserts at most 120 s apart, the sync of a refresh is handed out before its kick |
| TaskQueue.SlowRefreshCanKickFirst | internal/panel/hysteria.go:2038-2046 | for every longer gap some run hands out the kick and never the sync |
| AgentUsers.HeldComesFrom | cmd/mxinhy-agent/main.go:1076-1088 | in every run the users held after a sync or a deploy was applied are its own or those of a task queued after it |
| AgentUsers.SerialUsersStayNewest | cmd/mxinhy-agent/main.go:1164-1179 | with payloads queued in the order their users were read, the agent holds the newest users it was ever given |
| AgentUsers.KickFollowsItsUsers | cmd/mxinhy-agent/main.go:603-642 | from such a kick on, for the rest of the run, the agent holds the users of its refresh or newer ones, if the sync arrived and succeeded and no task after it carries older users |
| AgentUsers.GoodExactly | internal/panel/hysteria.go:2034-2047 | for every list of waiting tasks and every property of users: from the kick on the users held have it in every run if and only if those of the sync and of every task after it have it |
| AgentUsers.DeployBringsOlderUsersBack | internal/panel/hysteria.go:2672-2701 | the run in which a deploy queued between a sync and its kick puts older users back before the kick |
| KickSafety.KickedUsersAreRejected | cmd/mxinhy-agent/main.go:1295-1319 | from such a kick on, for the rest of the run, the agent rejects every credential the panel rejects in the users of the sync and of every task after it, so a disconnected client is refused when it returns |
| KickSafety.KickIsSafeExactly | cmd/mxinhy-agent/main.go:1295-1319 | for every list of waiting tasks: the agent rejects the credential from the kick on in every run if and only if it does so with the users of the sync and of every task after it |
| AgentUsers.NewestIsKeptExactly | internal/panel/hysteria.go:2034-2047 | for every list of waiting tasks, syncs and deploys included: in every run the agent keeps the newest users it was given if and only if none were queued after newer ones |
| LocalAuth.AuthorizeClient | internal/panel/hysteria.go:2182-2203 | the panel's decision by a scan of the table |
| LocalAuth.AuthCache.SyncFrom | cmd/mxinhy-agent/main.go:1223-1235 | the map after a sync: blank credentials skipped, later entries win |
| LocalAuth.AuthCache.Authorize | cmd/mxinhy-agent/main.go:1295-1319 | the agent's decision by a lookup |
| LocalAuth.RoundingMovesTheQuota | internal/panel/hysteria.go:3057-3062 | rounded and truncated gigabytes reach the quota exactly half a hundredth of a gigabyte early |
| LocalAuth.AgentAgreesWithPanel | cmd/mxinhy-agent/main.go:1295-1343 | for every user list with unique, clean credentials, every credential and time the agent decides as the panel, except just below the quota |
| LocalAuth.AcceptedExactly | internal/panel/hysteria.go:2182-2228 | who is accepted by the panel and, with the guard on or off, by the agent, in terms of the table alone |
| LocalAuth.RejectedExactly | internal/panel/hysteria.go:2182-2228 | why each side rejects: suspension before expiry before quota, and an unknown credential |
| LocalAuth.GuardRejectsEveryone | cmd/mxinhy-agent/main.go:1296-1298 | an engaged heartbeat guard turns every credential away |
| LocalAuth.DuplicateCredentialsDisagree | cmd/mxinhy-agent/main.go:1225-1231 | without unique credentials the two sides follow different rows |
| LocalAuth.AssertUniqueCredential | internal/panel/hysteria.go:1763-1788 | passes exactly when no other row has the credential |
| LocalAuth.CheckedRowsStayUnique | internal/panel/hysteria.go:1763-1788 | storing a checked row keeps credentials unique |
| LoginProtection.LoginProtection.AssertAllowed | internal/panel/login_protection.go:31-47 | refused exactly while locked |
| LoginProtection.LoginProtection.RecordFailure | internal/panel/login_protection.go:49-78 | the store after one more failure, pruned |
| LoginProtection.LoginProtection.Prune | internal/panel/login_protection.go:120-130 | exactly the live records stay |
| LoginProtection.StepIsBisimilar | internal/panel/login_protection.go:49-130 | a failure or success keeps the pruned and the never-pruned store indistinguishable |
| LoginProtection.RunsAreBisimilar | internal/panel/login_protection.go:31-130 | so does every sequence of them under a clock that never runs backwards |
| LoginProtection.PruningIsInvisible | internal/panel/login_protection.go:31-130 | for every configuration: all queries after all runs are answered alike if and only if the throttle is off, the window is shorter than the time records are kept, or one failure locks |
| LoginProtection.FewFailuresNeverLock | internal/panel/login_protection.go:65-77 | under every configuration and clock, fewer failures than the threshold since the last success never lock a key |
| LoginProtection.EnoughFailuresLock | internal/panel/login_protection.go:65-77 | with the throttle on: every burst of at least the threshold within one window, by a key the service holds nothing of, locks until exactly the lock time after its last failure, if and only if pruning is harmless |
| LoginProtection.LocksNeedABurst | internal/panel/login_protection.go:55-77 | a key is refused only if as many failures as the threshold since its last success fell within one window |
| LoginProtection.HarmlessInMinutes | internal/panel/login_protection.go:120-130 | the harmless configurations in the settings' own minutes |
| TrafficHistory.TrafficTable.InsertSnapshot | internal/panel/hysteria.go:2569-2594 | a row with the total and its delta against the latest row |
| TrafficHistory.ReadingsOfHeartbeats | cmd/mxinhy-agent/main.go:678-686 | a stored heartbeat gives the counter, or zero when it could not be read; a negative total counts as zero |
| TrafficHistory.DeltaOfReadings | internal/panel/hysteria.go:3300-3311 | between two true readings a delta never exceeds the bytes moved, and equals them exactly when the counter went on or all of them moved after a reset that shows |
| TrafficHistory.NextDelta | internal/panel/hysteria.go:2530-2542 | after a good heartbeat the next delta never exceeds the bytes moved since it; after a blank one it does exactly when the counter was running then and was not reset since |
| TrafficHistory.DeltasAddUp | internal/panel/hysteria.go:2569-2594 | for every interleaving of transfers, resets, heartbeats, blank or late ones included, and snapshots: the deltas are exactly the bytes moved between the readings of the first and the last row, plus those counted twice, less those missed; and exactly last total minus first plus the total before each visible reset |
| TrafficHistory.OrderlyDeltasNeverExceedTraffic | internal/panel/hysteria.go:2530-2542 | when no heartbeat is blank or stored after a later one nothing is counted twice: the sum never exceeds the bytes moved since the reading behind the first row |
| TrafficHistory.NothingMissedExactly | internal/panel/hysteria.go:3300-3311 | over every orderly run, syncs and resets included: no byte is missed if and only if each snapshot's reading goes on from the last total or shows a reset after which everything moved |
| TrafficHistory.SyncsAddUp | internal/panel/hysteria.go:2500-2523 | for every sequence of syncs: exactly what is recorded and what is missed, nothing being counted twice |
| TrafficHistory.SyncsMissNothingExactly | internal/panel/hysteria.go:3300-3311 | a sequence of syncs misses nothing if and only if its heartbeats saw everything and each total is smaller than the one before or follows a zero |
| TrafficHistory.SteadyTrafficRecordsNothing | internal/panel/hysteria.go:3300-3311 | a node that moves the same amount between syncs records nothing and misses all of it |
| TrafficHistory.StrayReadingCountsTwice | cmd/mxinhy-agent/main.go:678-686 | a blank heartbeat, or a smaller earlier one stored late, recorded between two snapshots of one reading adds that whole reading again although nothing moves |
| TrafficHistory.BlankRowIsBooked | cmd/mxinhy-agent/main.go:678-686 | the ledger after a recorded blank heartbeat: the whole counter will be counted twice, nothing is missed |
| TrafficHistory.BoundSinceFirstSnapshot | internal/panel/hysteria.go:2530-2542 | the sum stays within the bytes moved since the first snapshot in every orderly continuation if and only if, at that snapshot, the counter and every heartbeat still to be stored repeat the reading stored or are zero from some point on |
| TrafficHistory.StaleSnapshotFails | internal/panel/hysteria.go:2530-2542 | otherwise two more snapshots exceed the bound with nothing moved |
| TrafficHistory.DirectSnapshotsAreBounded | internal/panel/hysteria.go:2545-2565 | on a node without an agent, read for its snapshots, the bound since the first one holds |
| TrafficQuota.Accounting.ApplyTrafficUsage | internal/panel/hysteria.go:2970-3017 | in any order of the entries: every entry counted, those the database answers for checked, and the newly suspended users returned; or, on a refused UPDATE, a proper part counted and nobody kicked |
| TrafficQuota.Accounting.EnforceRealtimeQuota | internal/panel/hysteria.go:2049-2082 | exactly the active users whose live traffic reaches their quota and for whom the database answers are suspended |
| TrafficQuota.SyncSuspends | internal/panel/hysteria.go:2977-2994 | at or over the quota a user ends suspended; a suspension is new exactly when the bytes are within one reported amount of the quota; nobody is reactivated |
| TrafficQuota.HeartbeatSuspends | internal/panel/hysteria.go:2066-2076 | a heartbeat counts nothing and suspends exactly the users whose counted and live bytes together reach the quota |
| TrafficQuota.HeartbeatEnforces | internal/panel/hysteria.go:2049-2082 | so does a heartbeat handled at any point of any run, for the users it reports and for whom the database answers; nobody else changes |
| TrafficQuota.BeatsAndCounts | internal/panel/hysteria.go:2970-3020 | a heartbeat carries the counters of its moment; after a count a reported user is overdue exactly when the database failed |
| TrafficQuota.StepIsBalanced | internal/panel/hysteria.go:2970-3020 | every step keeps the ledger of each known user and never reactivates one |
| TrafficQuota.TrafficIsConserved | internal/panel/hysteria.go:2970-3020 | over every run, with clears, counts and heartbeats interleaved in any way: the bytes counted, in reports, live and lost are those started with plus those moved; users grown over their quota are suspended unless the database failed when last asked about them; none is suspended before the quota is reached with every moved byte taken twice |
| TrafficQuota.DeliveredSyncPreservesBytes | cmd/mxinhy-agent/main.go:1011-1024 | a delivered clearing sync moves the live bytes into the table, none lost, and suspends every reported user at or over the quota for whom the database answers |
| TrafficQuota.DeliveredRunsLoseNothing | internal/panel/hysteria.go:2500-2523 | without restarts and with every report delivered no byte is lost |
| NodeAlerts.AlertService.CheckNode | internal/panel/node_alerts.go:87-109 | one check changes only its node's state, to what was wanted if it could be read and saved |
| NodeAlerts.AlertService.Advance | internal/panel/node_alerts.go:111-125 | the wanted state, whether a mail was tried and whether it was accepted |
| NodeAlerts.AnnouncedFrom | internal/panel/node_alerts.go:25-30 | an outage is announced exactly from the timeout's seconds after the newest sample, or after the creation of a node that never sent one |
| NodeAlerts.EveryMailIsAccountedFor | internal/panel/node_alerts.go:87-125 | over every run each accepted mail was forgotten by a failed save, is the one remembered, or was followed by a stored recovery |
| NodeAlerts.OneMailPerOutage | internal/panel/node_alerts.go:111-125 | in one unbroken outage at most one mail plus the failed saves, none if already notified |
| NodeAlerts.RetriesAreSpaced | internal/panel/node_alerts.go:116-123 | after a saved failure the next attempt is made by the first enabled check at least 300 s later |
| NodeAlerts.OnlyRecoveryRearms | internal/panel/node_alerts.go:112-115 | the alert is re-armed exactly by a saved check that is not stale |
| NodeAlerts.UnsavedRecoverySilencesTheNextOutage | internal/panel/node_alerts.go:101-108 | a recovery re-arms the alert if one of its checks can read and save; otherwise the next outage sends no mail |
| Watchdog.Service.Act | cmd/mxinhy-agent/main.go:752-782 | the intent is recorded before anything runs; a failed write may leave part of it or the old one |
| Watchdog.Service.Recover | cmd/mxinhy-agent/watchdog.go:47-70 | a start is issued exactly when nothing speaks against it |
| Watchdog.TornIntentsAreRefused | cmd/mxinhy-agent/watchdog.go:15-21 | no part of a stop and no short part of a start reads as permission |
| Watchdog.StepIsSound | cmd/mxinhy-agent/watchdog.go:47-70 | every step under the mutex or beside it keeps a stop in force |
| Watchdog.StopsAreRespected | cmd/mxinhy-agent/watchdog.go:47-70 | in every interleaving no watchdog start while a stop is in force, nor when an upgrade or uninstall was set at the check |
| Watchdog.UndisturbedTick | cmd/mxinhy-agent/watchdog.go:47-70 | an undisturbed tick does start a stopped service when nothing forbids it |
| Watchdog.UndisturbedAction | cmd/mxinhy-agent/watchdog.go:15-21 | an undisturbed action leaves its whole word in the intent file |
| Watchdog.StopsEndWithAStart | cmd/mxinhy-agent/main.go:752-760 | a stop is in force from the step that begins to record it until the file reads as running for a start or a restart |
| Watchdog.FlagsAreChecked | cmd/mxinhy-agent/watchdog.go:50-55 | the watchdog goes on exactly when neither an upgrade nor an uninstall is set |
| ShellQuote.QuotingIsUndone | cmd/mxinhy-agent/main.go:1674-1679 | both quoted forms add exactly the value's characters, all literal, to the word being read |
| ShellQuote.QuotedValueIsOneWord | internal/panel/remote_executor.go:196-198 | in any surrounding text between words a quoted value is exactly one word equal to it |
| ShellQuote.WrappedCommandIsUnchanged | internal/panel/remote_executor.go:133 | the remote shell hands the command on as one unchanged word |
| ShellQuote.TemplateIsExact | internal/panel/hysteria.go:2370-2385 | in a template of such pieces each value is one word in its place and the pieces read as on their own |
| ShellQuote.NestedValuesAreUnchanged | internal/panel/hysteria.go:2363-2386 | through both levels of quoting script, password and hint arrive unchanged |
| ShellWords.WordsWithPassword | internal/panel/hysteria.go:2363-2378 | with a stored password: the script behind each bash -lc, the password behind the printf format, the hint behind each echo, over the literal text of the template |
| ShellWords.WordsWithoutPassword | internal/panel/hysteria.go:2379-2385 | without one: the script behind each bash -lc and the hint behind each echo, over the literal text of the template |
| EnvFile.SaveConfigFile | internal/panel/config.go:182-199 | the text of the file for any order of the keys |
| EnvFile.LoadEnvFile | internal/panel/config.go:386-426 | the map read from a text, or the number of the first bad line |
| EnvFile.LineIsRead | internal/panel/config.go:405-418 | a written line with a plain key is read as that key and the value's reread form |
| EnvFile.WrittenForm | internal/panel/config.go:463-475 | which values are written in double quotes |
| EnvFile.LineKinds | internal/panel/config.go:405-413 | exactly which lines are skipped and which are refused |
| EnvFile.EntryAtFirstEquals | internal/panel/config.go:410-418 | any other line is an entry, split at its first equals sign |
| EnvFile.ExportIsDropped | internal/panel/config.go:409 | an export word in front of an entry makes no difference |
| EnvFile.RereadIsExact | internal/panel/config.go:463-475 | a value comes back if and only if it is representable |
| EnvFile.LoadOfSaved | internal/panel/config.go:182-199 | loading a saved file never fails, and returns the same map if and only if every value is representable |
| EnvRoundTrip.ReloadIsExact | internal/panel/config.go:201-240 | with defaults left out a configuration reloads to itself if and only if it is trimmed and in normal form with a positive port and no field with a default is blank |
| EnvConfig.FieldsByKey | internal/panel/config.go:67-122 | which key each field is read from, with its default |
| EnvConfig.LevelsByWord | internal/panel/logging.go:43-54 | which spellings mean which log level |
| EnvConfig.NormalUrlIsFixed | internal/panel/config.go:119-121 | the normal form of the base address is a fixed point |
| EnvRoundTrip.SavedConfigReloads | internal/panel/config.go:67-122 | saved to a file in any order of lines and loaded again, a configuration is the same if and only if it is settled, no field with a default is blank and the file can hold every value written |
| Strconv.AtoiOfItoa | internal/panel/config.go:438-449 | a written port is read back |
| Strconv.AtoiOfSigned | internal/panel/version.go:412-417 | numbers with a sign are read as such |
| Strconv.AtoiOutOfRange | internal/panel/version.go:412-417 | out of range the nearest bound is used |
| Strconv.AtoiOfText | internal/panel/version.go:412-417 | text that is no number counts as zero |
| Version.CompareVersion | internal/panel/version.go:402-426 | the sign of lexicographic order on the components continued with zeros, 0 exactly when those agree |
| Version.SplitIsJoined | internal/panel/version.go:403 | the components contain no dots and joined by dots are the string again |
| Version.ComponentsOfNumbers | internal/panel/version.go:403-417 | a version written as numbers with dots has exactly those components |
| Version.Trichotomy | internal/panel/version.go:402-426 | exactly one of before, after, equal |
| Version.Transitive | internal/panel/version.go:402-426 | transitive and compatible with equality for lists of any lengths |
| Version.TrailingZerosAreIgnored | internal/panel/version.go:411-417 | missing components count as zero |

## Left out

- HTTP routing, authentication headers, JSON decoding, SMTP and SSH transport: only their outcomes (delivered, lost, late, failed) are inputs of the models.
- HMAC, AES-GCM, bcrypt, signatures and tokens: calls into code without a functional core here.
- SQL text, transactions and time zones: tables are sequences and maps with the unique keys of the schema; the SELECT and UPDATE of a pull are one step because the agent pulls sequentially.
- The used_gb column written by the accounting UPDATE: its value depends on the database's assignment order; the byte column carries the property.
- Two-decimal formatting of the quota passed to systemd, float rounding noise and 64-bit overflow of byte counts: exact reals and unbounded integers are used, except in Strconv.
- Reading /proc and systemctl text: the guard and the pipeline take the parsed samples; an unreadable or incomplete one is an outcome.
- The agent's configuration file is replaced in one step in CpuGuard; its own temporary file is not modelled.
- Metrics.Validate beyond the age limit, sampleRates and the averages of the history query: independent range checks and sums.
- Cancelling the workers when the agent stops: a run that ends is a prefix of the runs considered.
- waitForTask: a polling loop over a status that is already proved to move only forward.
- A task table shared by several agents, and rows removed with their node.
- A death in the middle of writing the agent's user file, or a write that fails half way (cmd/mxinhy-agent/main.go:1216-1218) followed by a restart: with the file torn the agent does not start, with it empty it knows no users until the next sync or deploy. Self-uninstall, which drops all users.
- A clock set back while a sample is being retried: it prolongs the retries.
- Operator edits of user rows during accounting, and agents that bypass the clearing sync.
- The heartbeat guard's timing: it enters LocalAuth as a flag.
- Command substitution, backquotes and here-documents in the tokenizer: their text is read like any other; multi-character operators are separate tokens. The tokenizer is the POSIX one only: bash, which runs the wrapped command, also reads a quote after an unquoted dollar sign as its own form, which no template here produces.
- The line length limit of the env reader, operating system overrides of its keys, lower-casing outside ASCII, and the resolved static directory.
- Pagination, role tables, mock data, subscription and YAML rendering, systemd units, upgrades and the rest of the front end.
