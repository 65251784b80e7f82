# Deploy orchestrator: a verified model

A self-hosted deploy orchestrator clones a repository, patches and runs its install and run scripts, starts
the application, checks its health, rolls back to the last good commit when a deploy fails, restarts crashed
services, and serves the project's files over an API. This project models the parts of it that have state,
order or exact text rules, and proves what they keep.

| file | models |
|---|---|
| `History.dfy` | the commit history table and deploy status: `gosrc/database/registry.go` |
| `Pipeline.dfy` | one deploy, its health check and its rollback, from start to end: `gosrc/actions/executor.go` |
| `HistoryRuns.dfy` | any number of deploys, checks and rollbacks of any number of projects, interleaved |
| `HistoryChecks.dfy` | which application a health check in such a run is about |
| `PipelineAlone.dfy` | a deploy or a manual rollback of the interleaved model, left undisturbed, does what the sequential one does |
| `DeployQueue.dfy` | the per-project queue, as interleaved steps and as the code: `gosrc/actions/queue.go` |
| `Watchdog.dfy` | starting, stopping and restarting processes, as interleaved steps: `gosrc/actions/pm.go`, with what every step keeps |
| `WatchdogMoves.dfy` | what each stretch of a goroutine or a call does, over every reachable state |
| `WatchdogRestarts.dfy`, `WatchdogRaces.dfy` | theorems over all its runs: restarts, stops, races and kills |
| `WatchdogSignals.dfy`, `WatchdogReach.dfy` | which process a stop can still reach, told from the state and from the log |
| `WatchdogRuns.dfy`, `WatchdogFailures.dfy` | single runs, and those in which the supervisor fails its service |
| `Supervisor.dfy` | the registry, the process records and the PID files as the code keeps them, tied to the steps |
| `ScriptPatch.dfy` | the two script patches: `gosrc/actions/patchInstallScript.go` |
| `ProjectPath.dfy`, `DeployPath.dfy`, `Slug.dfy`, `Paths.dfy` | the file API's path check, the choice of a deployment directory |
| `ProcStat.dfy` | finding the processes of a group: `gosrc/actions/executor_linux.go` |
| `LogRotation.dfy`, `ChangeStream.dfy` | log rotation, and the duplicate guard of the change stream |
| `Text.dfy`, `Wrappers.dfy` | the string functions the text and path layers share |

Git, bash, the operating system and the clock answer through parameters (`Oracles`, `Answer`, `Run`, action
arguments). Each database call is one atomic update of the row sequence. In the interleaved models a state is
a value, `Apply` takes one step, and `Exec` runs a list of steps. A step that is not possible leaves the
state as it is. A theorem about `Exec(Initial, acts)` for every `acts` is a theorem about every reachable
state. In `Watchdog.dfy` a process is its number in order of launch, standing for the pointer that
`isCurrentProcess` compares. A check of `isCurrentProcess` and what directly follows it are one step; taking
an entry out of the registry, killing its process and removing app.pid are three, and the check of the health
watcher and the delete after its script are two. The file app.pid of a directory is part of the state: it names
the bash, a child or an application of one of its processes. Every event is logged with what it found in the
registry, so the theorems about races read the log.

## What the proofs found

The model follows the code. Where the code does not do what it or its documentation says, the model shows
that with a run or an input, and states exactly when the promise does hold.

- **Restart limit and backoff.** `pm.go` has a schedule of growing delays and a limit of ten restarts, and
  `docs/index.html:311` promises a limit of five. A restart makes a fresh record with a count of zero, so only
  the first delay is ever used and the give-up branch is never reached (`WatchdogRestarts.BackoffNeverGrows`);
  a service can restart any number of times (`WatchdogRestarts.RestartsAreUnlimited`).
- **Background, delegating and health-checked services.** Their watchers take the registry entry out before
  asking for a restart that needs it, so the restart never comes (`WatchdogRestarts.WatchersNeverRestart`).
- **Deploy against restart.** The comments at `pm.go:247` and `pm.go:418` say that a watchdog which finds itself
  superseded does not touch a newer deploy. That holds when the restart begins
  (`WatchdogRestarts.RestartIsNeverStale`), but not for the seconds that the restart's own StartAppProcess
  takes: a deploy launched in that time is taken out, killed and replaced
  (`WatchdogFailures.RestartKillsNewerDeploy`), exactly if its entry stands when the restart gets to its
  delete, take-out or launch (`WatchdogRaces.RestartHitsNewerExactly`). If run.sh is gone by then, the newer deploy
  is left running and unregistered (`WatchdogFailures.RestartUnregistersNewerDeploy`).
- **Processes nobody can reach.** A process whose bash runs is registered exactly as long as nothing has touched
  its entry. If the first event to touch it was no take-out, the process was dropped: by a start that finds no
  run.sh (`pm.go:83`, `WatchdogFailures.DeployWithoutRunScript`), by a launch over it in an overlapping start
  (`WatchdogRaces.OverlapExactly`, `WatchdogFailures.OverlappingStartsLeaveTwo`), or by one of the unchecked
  changes below. From then on only the number in app.pid leads to it: a stop that finds no entry kills that
  (`pm.go:205-216`, `WatchdogRaces.FileKillExactly`, `WatchdogFailures.StopKillsByFile`). Nothing will ever kill
  the process exactly if it was dropped, something has rewritten or removed the file since, and no stop has
  killed it so already (`WatchdogReach.RunningExactly`). The overwriting launch and the delete after a clean exit
  (`pm.go:312`) touch the file at once: three deploys, none overlapping, can leave two processes running
  (`WatchdogFailures.ThreeDeploysLeaveTwo`).
- **Stop against restart.** A stop holds exactly if no start of that service was already under way
  (`WatchdogRestarts.StopHoldsExactly`).
- **Stops that kill nothing.** StopAppProcess kills a process it took out exactly if bash is still there or a
  process number was noted (`WatchdogRaces.KillHitsExactly`). A health-checked service has no number
  (`pm.go:184-191`), and for a background service the process group of a bash that has ended is looked up in
  vain (`executor_linux.go:36-55`): no stop or deploy that takes such a record out kills anything
  (`WatchdogRaces.WatchedRecordsAreNeverHit`, `WatchdogFailures.HealthCheckedSurvivesItsStop`,
  `WatchdogFailures.BackgroundSurvivesItsStop`), and it removes app.pid. The first child of a background service
  can be killed exactly while app.pid names it (`WatchdogSignals.BackgroundExactly`), by a stop that finds no
  entry, as after a start that finds no run.sh (`WatchdogFailures.StopKillsBackgroundByFile`).
- **Unchecked changes of the registry.** At `pm.go:298`, `313` and `363` a watchdog changes the entry without
  looking whose it is, and so do the three steps of a restart's own call at `83`, `181` and `162`. Over all runs
  these six are the places where it hits another process, and the first one also registers a dead record again
  after a stop (`WatchdogFailures.InterferesExactly`, `WatchdogFailures.NewerDeployLosesItsWatchdog`).
- **A health check of somebody else.** The check waits fifteen seconds outside the queue and looks at whatever then
  runs in the directory. It is about its own build exactly if that found a run.sh and no other application has
  been started there since (`HistoryChecks.PassIsOwnExactly`); otherwise an older commit can become current while
  a newer one runs (`HistoryChecks.OlderCommitTakesOver`).
- **A short hash.** RollbackToCommit slices the first eight characters of its target. A bad deploy panics
  exactly if the commit to go back to is shorter (`Pipeline.Deployer.DeployRegistered`); in the queue's worker
  that wedges the queue, and in a health check it ends the daemon.
- **A panicking deploy wedges its queue.** The recovered panic leaves `isRunning` set (`DeployQueue.WedgedExactly`).
- **`IsSubpath` is blind to a first segment that starts with two dots** (`DeployPath.IsSubpathExactly`), so a
  deployment comes to lie inside another exactly if it is registered in that blind spot
  (`DeployPath.RegistrationNestsExactly`, and on a disk `DeployPath.BlindSpotExists`).
- **A relative service directory** lets the file endpoints report "" for everything
  (`ProjectPath.ReportedRoundTrip`).
- **A project in `/`** can reach nothing but the directory itself (`ProjectPath.RootProjectRefusesEverythingBelow`),
  so none of its listed entries (`ProjectPath.ListedEntryRoundTrip`).
- **File names with a backslash** are listed but cannot be asked for again (`ProjectPath.ListedEntryRoundTrip`).
- **A duplicate event with a hash shorter than eight characters** crashes the change-stream loop
  (`ChangeStream.SurvivesExactly`, and as a stream `ChangeStream.ShortHashCrashes`).
- **Some sudo calls are missed.** `patchInstallScript.go:18` and `108` promise every sudo invocation. `sudo`
  followed by a tab, as in `sudo<TAB>apt update`, and `sudo` that is not the first word, as in `cd /x && sudo make`,
  are left alone (`ScriptPatch.SudoTabIsMissed`, `ScriptPatch.LaterSudoIsMissed`); what counts as a sudo line is
  exact in `ScriptPatch.SudoLineExactly`.
- **Script flags.** Comments speak of `set -e` and `set -o pipefail`; only `set -e` is injected
  (`patchInstallScript.go:69-86`), and that is what the model does.
- **Log rotation.** The comment at `log.go:90` has `.4` deleted; the code keeps five files and deletes `.5`.

## Model

| member | source | states |
|---|---|---|
| Pipeline.Deployer.DeployRegistered | gosrc/actions/executor.go:713-761 | end to end, for every outcome: the current commit ends as the deployed one if its own health check passed and otherwise as it was, and every row is given; the status is running, externally managed, installed or failed exactly as the last health check or a failed build says; at most one rollback and two builds; a panic comes exactly if the deploy is bad and the current commit is another one with a hash of less than eight characters |
| Pipeline.Deployer.FullDeployPipeline | gosrc/actions/executor.go:713-761 | the exact rows, status, panic and number of rollbacks for every outcome, for unregistered directories too |
| Pipeline.Deployer.DeployRecorded | gosrc/actions/executor.go:739-760 | a recorded commit is built and checked, and a failure of either leads to at most one rollback, to the commit current before, or to a panic if that has a short hash |
| Pipeline.Deployer.BuildFailed | gosrc/actions/executor.go:739-755 | what a failed build leads to: status failed, and a rollback to the current commit if it is another one, with its exact outcome |
| Pipeline.Deployer.PostDeployHealthCheck | gosrc/actions/executor.go:579-655 | for every mode, probe and depth: the rows, the number of builds and rollbacks, and which of the four statuses exactly; at depth 1 nothing is rolled back, which ends the mutual recursion |
| Pipeline.Deployer.RollbackToCommit | gosrc/actions/executor.go:505-571 | a rollback always runs install.sh, restores cfg.ServiceDir, and either leaves the history alone with status failed or rolls it back exactly, whatever the health check after it says; it panics exactly on a hash of less than eight characters, and then the history stays |
| Pipeline.Deployer.RunDeployment | gosrc/actions/executor.go:347-499 | succeeds exactly if the log opens, the application starts, and install.sh succeeds unless there is none or it has the cached hash and may be skipped; the install cache only ever holds the hash of the script that last completed |
| Pipeline.EndToEnd | gosrc/actions/executor.go:713-761 | on values: recording a commit keeps the current one, and the final rows have the deployed commit current exactly if it is healthy |
| Pipeline.RollbackSettles | gosrc/actions/executor.go:559-568 | the health check after a rollback can no longer move the history; a rollback target that is recorded becomes current |
| Pipeline.PipelineKeepsTable | gosrc/actions/executor.go:713-761 | a deploy keeps ids and order and one current row a project, and touches no other project |
| PipelineAlone.AloneIsPipeline | gosrc/actions/executor.go:713-761 | a deploy that is asked for in the interleaved model and that nobody disturbs finishes within twelve steps with the rows of the sequential pipeline |
| PipelineAlone.RollBackAlone | gosrc/actions/executor.go:505-571 | a rollback by hand that nobody disturbs finishes within seven steps; if the build succeeds and the hash has eight characters, the newest row of the commit is current, its others rolled back, the previous current row intermediate and all else as before, and otherwise nothing has changed |
| HistoryRuns.OneCurrentEach | gosrc/database/registry.go:711-746 | in every interleaving of any number of projects, each has at most one current row |
| HistoryRuns.MarkedWasVouched | gosrc/actions/executor.go:625-652 | every commit ever marked current had before passed a health check or been chosen for a manual rollback, for the same directory unless a project was edited away from it or to it; so is every commit that is current |
| HistoryRuns.AutoRollbackTarget | gosrc/actions/executor.go:642-652 | an automatic rollback never goes to the commit that failed, to an empty hash, or to a commit that was neither checked nor chosen |
| HistoryRuns.HistoryIsKept | gosrc/database/registry.go:698-752 | while a project is registered its rows keep id, hash, trigger and order; a run adds rows at the end and changes statuses |
| HistoryRuns.LogIsComplete | gosrc/actions/executor.go:625-652 | no promotion and no automatic rollback is missing from the log that the theorems speak of |
| HistoryRuns.ProjectSteps | gosrc/database/registry.go:359-432 | registering, editing and deleting a project (lines 647-653) and recording a commit by hand: what becomes of the projects and of each one's history |
| HistoryChecks.PassIsOwnExactly | gosrc/actions/executor.go:579-640 | over every run, a job whose check passes has built its commit; the pass is about the application last started in the directory, and that is its own exactly if its build found a run.sh and no other application has been started there since |
| HistoryChecks.OlderCommitTakesOver | gosrc/actions/executor.go:586-640 | a run in which the check of an older deploy looks at the newer one's application, passes, and makes the older commit current |
| HistoryRuns.JobsEnd | gosrc/actions/executor.go:739-760 | however jobs interleave, each makes at most two builds and one automatic rollback, and finishes within twelve steps |
| History.WithCurrentExactly | gosrc/database/registry.go:711-746 | SetCurrentCommit row by row: the newest row of the hash that is not rolled back, else the newest of all, becomes current; other current rows become intermediate |
| History.WithCurrentAtMostOne | gosrc/database/registry.go:711-746 | afterwards the project has at most one current row, and no other project gains one |
| History.WithCurrentIdempotent | gosrc/database/registry.go:711-746 | setting the same commit current twice leaves the statuses of once |
| History.CurrentAfterSet | gosrc/database/registry.go:786-796 | GetPreviousCurrentCommit then answers that commit, or nothing if it has no row; other projects keep their answer |
| History.RollbackExactly | gosrc/actions/executor.go:559-563 | marking and then setting current leaves the newest row of the hash current, its others rolled back, the previous current intermediate, all else unchanged |
| History.CurrentHashNone | gosrc/database/registry.go:786-796 | there is an answer exactly if there is a current row, and it is such a row's hash |
| History.Registry.SetCurrentCommit | gosrc/database/registry.go:711-746 | the two updates with their fallback, row by row: the newest row of the hash that is not rolled back, else the newest, becomes current, other current rows of the project intermediate, all else stays |
| History.Registry.AddCommitToHistory | gosrc/database/registry.go:698-708 | a new intermediate row at the end with a fresh id, refused for an unknown project |
| History.MarkExactly | gosrc/database/registry.go:749-752 | marking a commit rolled back leaves the project without a current commit if it was the current one, and otherwise with the one it had |
| History.LastWriteShows | gosrc/database/registry.go:681-684 | over any run of writes a registered directory shows the status last written for it, and every other directory keeps its own |
| DeployQueue.QueueIsSafe | gosrc/actions/queue.go:41-95 | in every interleaving, panics included: one worker at most, deploys start in request order, the latest request is pending or the last taken up, only overwritten requests are dropped |
| DeployQueue.RunningExactlyWhenAtWork | gosrc/actions/queue.go:78-94 | without panics isRunning holds exactly while a worker is live, and a pending deploy implies it |
| DeployQueue.Drains | gosrc/actions/queue.go:78-94 | after the last request at most six worker steps and one further deploy follow; the queue can be stuck only when idle, and then the latest request ran last |
| DeployQueue.WedgedExactly | gosrc/actions/queue.go:68-76 | no deploy of the project can ever start again exactly if one has panicked |
| DeployQueue.PanicWedges | gosrc/actions/queue.go:69-73 | after a panic isRunning stays set with no live worker, whatever follows |
| DeployQueue.QueuesAreIndependent | gosrc/actions/queue.go:30-35 | a project's queue is where its own requests and workers brought it |
| DeployQueue.ProjectQueue.EnqueueDeployment | gosrc/actions/queue.go:41-65 | the code's fields take the model's step, and the answer is whether the deploy starts at once |
| DeployQueue.ProjectQueue.Pop | gosrc/actions/queue.go:80-90 | the locked section hands over the pending deploy or puts the queue to rest with the latest request run last |
| DeployQueue.ProjectQueue.RunQueuedDeploy | gosrc/actions/queue.go:68-95 | the worker loop only takes steps of the model and returns either from a panic with isRunning set, or idle with the latest request run last |
| WatchdogRestarts.RestartIsNeverStale | gosrc/actions/pm.go:400-429 | over every run, a watchdog begins a restart only if no start, stop or other watchdog touched the registry entry since its own launch and no stop tried to kill its process, by its record or by its bash's number in app.pid |
| WatchdogRestarts.WatchersNeverRestart | gosrc/actions/pm.go:317-398 | the backoff of a background, delegating or health-checked service ends without a restart |
| WatchdogRestarts.BackoffNeverGrows | gosrc/actions/pm.go:401-416 | a process counts at most one restart, the limit is never reached, every delay is the first of the schedule |
| WatchdogRestarts.RestartsAreUnlimited | gosrc/actions/pm.go:156-162 | for every n a state can be reached by one deploy's start and n automatic restarts |
| WatchdogRestarts.RevivedExactly | gosrc/actions/pm.go:401-429 | without a new start a service gets a new process exactly if a start is under way or its registered process can still be restarted |
| WatchdogRestarts.StopHoldsExactly | gosrc/actions/pm.go:174-204 | after a stop has taken the entry out, the service comes back without a new start exactly if a start was under way |
| WatchdogMoves.BashEnds | gosrc/actions/pm.go:245-259 | over every reachable state: a crash of the registered process begins a backoff of two seconds, of another ends its goroutine; a clean exit leads to the pause |
| WatchdogMoves.RunScriptWrites | gosrc/actions/pm.go:140 | while bash runs, run.sh may write the number of an application into app.pid |
| WatchdogMoves.CleanExitIsSorted | gosrc/actions/pm.go:261-314 | the four tiers with their exact conditions, and what each leaves in the registry, in app.pid and in the record |
| WatchdogMoves.WatcherRound | gosrc/actions/pm.go:317-398 | a watcher whose process has died deletes the entry and begins a backoff; one whose process is no longer registered ends; otherwise nothing happens, or health.sh is run |
| WatchdogMoves.HealthVerdict | gosrc/actions/pm.go:356-370 | a failed health.sh deletes the entry, whoever's it is, and begins a backoff; a passed one changes nothing |
| WatchdogMoves.BackoffEnds | gosrc/actions/pm.go:418-429 | after the backoff a start call begins exactly if the process is still registered |
| WatchdogMoves.StartLooksFirst | gosrc/actions/pm.go:67-88 | what a start does without a codebase, without a run.sh, and otherwise |
| WatchdogMoves.StartLaunchesLast | gosrc/actions/pm.go:150-171 | a launch registers a fresh record over whatever is there and writes app.pid; a failed one changes nothing |
| WatchdogMoves.StopTakesFirst | gosrc/actions/pm.go:174-216 | a stop takes out the entry, or without one signals the number in app.pid if that is alive |
| WatchdogMoves.StopKillsThen | gosrc/actions/pm.go:183-219 | which kill hits, by mode, and that app.pid is removed afterwards |
| WatchdogRaces.RestartHitsNewerExactly | gosrc/actions/pm.go:67-171 | over every run, the call of a restart deletes, takes out or launches over an entry newer than the process it restarts exactly if another process was launched there since the restart began and its entry still stands |
| WatchdogRaces.OverlapExactly | gosrc/actions/pm.go:86-165 | a launch overwrites another process exactly if that one was stored between the call's own take-out and launch; no later kill of its record or of its bash's number in app.pid hits it, and no earlier one did if its bash was still running |
| WatchdogReach.RunningExactly | gosrc/actions/pm.go:67-219 | for every run and every process whose bash runs or that has a number noted: it is registered exactly if nothing has touched its entry since its launch or that note; no continuation ever hits it exactly if the first event that touched its entry was no take-out, app.pid does not name it and cannot any more, and no stop has hit it by that file; that event was a start without run.sh, a launch over it, an unchecked change by another process or its own watcher's delete, and no kill of its record was tried |
| WatchdogSignals.ReachedExactly | gosrc/actions/pm.go:174-219 | the same by the state alone, for every process that runs or is watched: some continuation hits it, or an earlier kill has, exactly if it is registered or a call's victim and its record has something to kill, or app.pid names it or a run.sh may still write its number there |
| WatchdogSignals.BackgroundExactly | gosrc/actions/pm.go:205-216 | the child of a background service is hit, in some continuation or already, exactly if app.pid names it or a stop has hit it by that file |
| WatchdogRaces.KillHitsExactly | gosrc/actions/pm.go:183-204 | a call's kill reaches the process it took out exactly if bash had not ended by then or a process number was noted before the take-out |
| WatchdogRaces.FileKillExactly | gosrc/actions/pm.go:205-216 | a kill by app.pid comes only from a call that has just found no entry, and goes to the number last written there; a bash is hit exactly if it still runs |
| WatchdogRaces.EntryShows | gosrc/actions/pm.go:183-204 | both can be seen in the record: its mode and ExtPID, and whether bash runs |
| WatchdogRaces.WatchedRecordsAreNeverHit | gosrc/actions/pm.go:183-216 | once a process is stored as a background or health-checked service, no kill of its record hits, and none of its bash's number in app.pid |
| WatchdogRaces.TakenOutIsTried | gosrc/actions/pm.go:177-203 | whatever happens meanwhile, a call that took a process out of the registry does not get past its kill without trying it |
| WatchdogFailures.InterferesExactly | gosrc/actions/pm.go:67-429 | over all runs, the places where a watchdog changes an entry that is not its process's own are exactly lines 298, 313, 363 and, in the call of its restart, 83, 181 and 162; after a stop it stores a record only at line 298 |
| WatchdogFailures.OwnEntryExactly | gosrc/actions/pm.go:245-398 | a goroutine that changes an entry finds its own record there exactly if what it or its launch stored still stands |
| WatchdogFailures.NewerDeployLosesItsWatchdog | gosrc/actions/pm.go:290-372 | for each of the three places, a run with two deploys and no stop after which the newer process runs unregistered |
| WatchdogFailures.RestartKillsNewerDeploy | gosrc/actions/pm.go:418-428 | a run in which a restart takes out, kills and replaces a deploy that was launched after the restart's check |
| WatchdogFailures.RestartUnregistersNewerDeploy | gosrc/actions/pm.go:80-85 | a run in which a restart that finds no run.sh deletes the entry of a newer deploy, which runs on |
| WatchdogFailures.DeployWithoutRunScript | gosrc/actions/pm.go:80-85 | a run in which a deploy that finds no run.sh leaves the old process running, unregistered and unkilled, its number in app.pid |
| WatchdogFailures.StopKillsByFile | gosrc/actions/pm.go:205-216 | and in which the next stop kills it by that number |
| WatchdogFailures.ThreeDeploysLeaveTwo | gosrc/actions/pm.go:300-314 | a run of three deploys, each begun after the one before had returned, that leaves two processes running, with no kill of the second tried |
| WatchdogFailures.OverlappingStartsLeaveTwo | gosrc/actions/pm.go:86-162 | a run in which two starts leave two running processes and no kill was tried |
| WatchdogFailures.HealthCheckedSurvivesItsStop | gosrc/actions/pm.go:183-191 | a run in which the stop of a health-checked service returns and has killed nothing |
| WatchdogFailures.BackgroundSurvivesItsStop | gosrc/actions/pm.go:192-196 | a run in which the stop of a background service returns, has killed nothing and has removed app.pid |
| WatchdogFailures.StopKillsBackgroundByFile | gosrc/actions/pm.go:205-216 | a run in which a start without run.sh and then a stop kill the child of a background service |
| WatchdogRuns.FinishingLaunches | gosrc/actions/pm.go:67-171 | an unfinished start call, left alone, launches and registers one fresh process |
| Supervisor.Supervisor.IsCurrentProcess | gosrc/actions/pm.go:531-537 | pointer equality on the records is the model's test |
| Supervisor.Supervisor.LookForScripts | gosrc/actions/pm.go:67-88 | the first stretch of StartAppProcess takes the model's step, and deletes the entry, whoever is there, exactly if there is no run.sh |
| Supervisor.Supervisor.TakeOut | gosrc/actions/pm.go:174-216 | the entry is removed before anything is killed, and the victim is what was registered; without an entry the number in app.pid is signalled, if it is alive |
| Supervisor.Supervisor.Launch | gosrc/actions/pm.go:156-165 | a fresh record with count zero is registered under the directory, and its bash's number written into app.pid |
| Supervisor.Supervisor.RestartWithBackoff | gosrc/actions/pm.go:401-416 | the counting code computes the delay of the schedule for every count, or gives up from the tenth on |
| Supervisor.Supervisor.BashEnded | gosrc/actions/pm.go:245-259 | there is a delay exactly after a crash of the registered record that has not given up |
| Supervisor.Supervisor.Settle | gosrc/actions/pm.go:262-314 | the tier decision after a clean exit, from the number in app.pid down to the two unchecked branches, takes the model's step |
| Supervisor.Supervisor.PidFileWritten | gosrc/actions/pm.go:140 | the file holds what run.sh wrote, and the model takes its step |
| Supervisor.Supervisor.KillVictim | gosrc/actions/pm.go:183-204 | the switch on the record's mode tries the kill the model says, and reports whether it hit |
| Supervisor.Supervisor.CleanUp | gosrc/actions/pm.go:218 | app.pid is removed, whatever it names |
| Supervisor.Supervisor.Watch | gosrc/actions/pm.go:317-398 | one round of watchSinglePID or watchProcessGroup takes the model's step; the entry is deleted exactly if the registered process has died, and then there is a delay unless it gives up |
| Supervisor.Supervisor.WatchHealth | gosrc/actions/pm.go:341-356 | a round of watchHealthScript up to its script takes the model's step, and runs the script only for the registered record |
| Supervisor.Supervisor.HealthAnswered | gosrc/actions/pm.go:356-370 | when the script has failed, the entry is deleted (line 363) whoever is there |
| Supervisor.Supervisor.BackoffEnded | gosrc/actions/pm.go:420-428 | a restart begins exactly if the record is still registered |
| ScriptPatch.PatchIdempotent | gosrc/actions/patchInstallScript.go:23-63 | patching a patched script changes nothing |
| ScriptPatch.PatchedHasSetE | gosrc/actions/patchInstallScript.go:40-53 | a patched install script has `set -e` in one of the forms that are looked for |
| ScriptPatch.PatchShellScript | gosrc/actions/patchInstallScript.go:23-63 | which script is to be executed, and that its text is the patched one whenever a patch was needed and could be written |
| ScriptPatch.InjectSafetyFlags | gosrc/actions/patchInstallScript.go:72-102 | injects exactly if the text has none of the three forms of the flag; the block then stands right behind the shebang line, or in front of a text without one |
| ScriptPatch.NothingRunsBeforeSetE | gosrc/actions/patchInstallScript.go:40-53 | in a patched install script to which the flag had to be added, a line sets it and above it there are only comments and blank lines |
| ScriptPatch.PatchedSudoLines | gosrc/actions/patchInstallScript.go:40-53 | every sudo line of a patched script has `-A` as its first argument, and nothing else is changed but for the injected block |
| ScriptPatch.InjectionIsUndoable | gosrc/actions/patchInstallScript.go:96-101 | cutting the block out of the result gives the input back |
| ScriptPatch.ShebangStaysFirst | gosrc/actions/patchInstallScript.go:90-94 | a shebang line stays the first line, unchanged |
| ScriptPatch.NormalizationKeepsSetE | gosrc/actions/patchInstallScript.go:118-137 | rewriting sudo lines never destroys an occurrence of `set -e` or `set -xe` |
| ScriptPatch.NormalizationMeetsRule | gosrc/actions/patchInstallScript.go:108-137 | same line count, other lines unchanged, every rewritten line has exactly the tokens of the rule |
| ScriptPatch.RewrittenTokens | gosrc/actions/patchInstallScript.go:168-190 | the tokens of a rewritten line are `sudo`, `-A`, then the others in order without `-A`, one blank apart behind the line's indentation |
| ScriptPatch.WithoutExactly | gosrc/actions/patchInstallScript.go:178-185 | removing `-A` keeps every other token, in order |
| ScriptPatch.SudoLineExactly | gosrc/actions/patchInstallScript.go:141-148 | a sudo line is one whose first field is `sudo`, followed by a blank or by nothing |
| ScriptPatch.SudoTabIsMissed | gosrc/actions/patchInstallScript.go:147 | `sudo` followed by a tab is left as it is |
| ScriptPatch.LaterSudoIsMissed | gosrc/actions/patchInstallScript.go:147 | a line whose first word is not `sudo` is left as it is, whatever follows |
| ScriptPatch.EverySudoLineHasA | gosrc/actions/patchInstallScript.go:108-117 | afterwards every line that counts as a sudo line has `-A` as its first argument |
| ScriptPatch.ChangesExactlyWhenLacking | gosrc/actions/patchInstallScript.go:118-137 | the text changes exactly if some sudo line lacks an immediate `-A` |
| ScriptPatch.NormalizeSudoAFlags | gosrc/actions/patchInstallScript.go:118-137 | the loop computes the normalised text, and its flag says exactly whether the text changed |
| ScriptPatch.MoveSudoAToFront | gosrc/actions/patchInstallScript.go:168-190 | builds the rule's tokens behind the line's own indentation |
| ScriptPatch.NormalizedIdempotent | gosrc/actions/patchInstallScript.go:118-137 | normalising twice is normalising once |
| ProjectPath.AcceptedExactly | gosrc/api/server.go:1235-1269 | without a null byte a request is accepted exactly if its lexical resolution, and the link's target if there is one, lies inside the project; the answer is that resolution |
| ProjectPath.TraversalExactly | gosrc/api/server.go:1245-1258 | a request that goes k directories up and then down by names is refused exactly if the names do not begin with those of the directories it left, or the project lies in `/` and there is a name; an accepted one is answered by the path it leads to |
| Paths.StepUp | gosrc/api/server.go:1240-1250 | cleaning a path with `..` at its end drops the last name; the root directory stays, and a relative path without a name grows |
| Paths.StepDown | gosrc/api/server.go:1240-1250 | a name at the end is added, an empty part or a dot is not |
| Paths.DownAndUp | gosrc/api/server.go:1240-1250 | a name followed by `..` is as if neither was there, at the end and in the middle |
| Paths.FirstStep | gosrc/api/server.go:1240-1250 | what the first part of an absolute and of a relative path leads to |
| ProjectPath.AcceptedWithoutLinks | gosrc/api/server.go:1255-1266 | without symbolic links the second test changes nothing |
| ProjectPath.RootProjectRefusesEverythingBelow | gosrc/api/server.go:1255-1258 | a project in `/` accepts only the directory itself |
| ProjectPath.ReportedRoundTrip | gosrc/api/server.go:777-783 | asking again for the path an endpoint reported leads to the same file exactly if the service directory is an absolute path or the file is that directory |
| ProjectPath.ListedEntryRoundTrip | gosrc/api/server.go:744-757 | the endpoint answers the request for a listed entry's path with that entry exactly if the service directory is an absolute path other than the root directory and the name has no backslash |
| Paths.PrefixIsWithin | gosrc/api/server.go:1255-1256 | the string prefix test is containment by segments, for any parent but the root |
| DeployPath.IsSubpathExactly | gosrc/deploypath/path.go:177-191 | for absolute and relative paths: containment by whole segments, except for a first segment below the parent that starts with two dots |
| DeployPath.ResolveDeploymentPath | gosrc/deploypath/path.go:56-136 | what an accepted request guarantees and how its directory is called, what each error says and in which order they come, and that the escape error cannot occur |
| DeployPath.FinalPathIsOneBelow | gosrc/deploypath/path.go:117-124 | the generated path is exactly one segment below the base and passes the final check |
| DeployPath.RegistrationsStayNonNested | gosrc/deploypath/path.go:100-129 | over every run of registrations, removals and disk changes the registered directories are never nested exactly if no accepted registration lay in the check's blind spot below a registered directory |
| DeployPath.RegistrationNestsExactly | gosrc/deploypath/path.go:100-129 | with any number of registered directories, an attempt at a free place leads to nesting exactly if its base lies below a registered directory and the first segment between them starts with two dots |
| DeployPath.BlindSpotExists | gosrc/deploypath/path.go:177-191 | with /srv/a registered, a project in /srv/a/..b is accepted and lies inside it |
| DeployPath.ResolvedIsAccepted | gosrc/deploypath/path.go:88-129 | whatever ResolveDeploymentPath accepts meets the guards of a registration step |
| Slug.SlugIsSlug | gosrc/deploypath/path.go:139-164 | a slug is never empty, is over a-z, 0-9 and dash, with no leading, trailing or doubled dash |
| Slug.SlugIdempotent | gosrc/deploypath/path.go:139-164 | a slug is its own slug |
| Slug.SlugWords | gosrc/deploypath/path.go:139-164 | a slug is the words of the name in lower case joined by dashes, where everything outside a-z and 0-9 separates words; a name without any is called app |
| Slug.LowerExactly | gosrc/deploypath/path.go:140 | which characters lower-casing takes into a slug's alphabet, and what A-Z become |
| Slug.HexEncodeExactly | gosrc/deploypath/path.go:173 | two digits for every byte, with its value |
| Slug.HexInjective | gosrc/deploypath/path.go:173 | different bytes give different texts |
| Slug.Slugify | gosrc/deploypath/path.go:139-164 | the builder loop with its lastDash flag computes the runs joined by single dashes |
| Slug.RandomHex | gosrc/deploypath/path.go:167-174 | length/2 + 1 bytes always hold enough digits, odd lengths included |
| ProcStat.GroupRecovered | gosrc/actions/executor_linux.go:101-116 | the parser recovers the printed process group for every command name, if no later field has a closing parenthesis |
| ProcStat.LaterParenHidesGroup | gosrc/actions/executor_linux.go:105-113 | that condition is needed |
| ProcStat.ScanFindsGroup | gosrc/actions/executor_linux.go:85-118 | over any process table, and whatever else lies in /proc, the scan finds exactly the group's members other than its leader, in order |
| ProcStat.GetChildrenInGroup | gosrc/actions/executor_linux.go:72-119 | the loop returns the selected entries |
| LogRotation.RotationKeepsASuffix | gosrc/logger/log.go:91-116 | over every run of appends and rotations the files concatenate to a suffix of what was written, numbers have no gap, and once anything is given up five full logs remain |
| LogRotation.LogDirectory.RotateLogIfNeeded | gosrc/logger/log.go:91-116 | a live log of 50 MiB or more becomes the first file, every other moves up by one and the fifth goes, file by file; afterwards the live log is shorter than that; everything kept before is the dropped fifth file followed by everything kept after |
| LogRotation.LogDirectory.Append | gosrc/logger/log.go:67-71 | opening by path, also when the live log is gone, puts the text behind everything kept, and the numbered files stay |
| ChangeStream.ProcessedAreApart | gosrc/database/mongo.go:246-260 | two processed events with the same repository and commit are at least sixty seconds apart |
| ChangeStream.SkippedIsCovered | gosrc/database/mongo.go:249-258 | a skipped event follows a processed one with its key by less than that; under an injective digest, and without colons in the commits, it is the same commit of the same repository |
| ChangeStream.SameKeyExactly | gosrc/database/mongo.go:248 | under an injective digest two events have the same key exactly if repository, colon and commit make up the same text |
| ChangeStream.ColonsCollide | gosrc/database/mongo.go:248 | a colon in a commit can make two different events share a key under every digest |
| ChangeStream.NoCommitNoGuard | gosrc/database/mongo.go:247 | an event without a commit is always processed and leaves no trace |
| ChangeStream.MemoryIsLastStored | gosrc/database/mongo.go:251-259 | the map holds for each key the time of the last processed event with it |
| ChangeStream.SurvivesExactly | gosrc/database/mongo.go:254-256 | the loop survives a stream exactly if every duplicate within the window has a hash of at least eight characters |
| ChangeStream.ShortHashCrashes | gosrc/database/mongo.go:254-256 | the same three-character hash twice within a second ends the loop |
| ChangeStream.WatchLoop.Watch | gosrc/database/mongo.go:230-260 | the loop gives every event its verdict |
| Text.JoinSplit | gosrc/actions/patchInstallScript.go:119-136 | joining what was split gives the text back |
| Text.SplitJoin | gosrc/actions/patchInstallScript.go:119-136 | splitting joined lines gives the lines back |
| Text.FieldsJoin | gosrc/actions/patchInstallScript.go:177-189 | words joined by single blanks are read as the same words |
| Text.ItoaExactly | gosrc/actions/executor_linux.go:83 | a number is printed by its decimal digits without leading zeros |

## Left out

- Pipeline.Deployer.DeployRegistered: one deploy at a time; a concurrent health check or manual rollback can move the current commit in between, and what then still holds is in HistoryRuns.
- Pipeline.Deployer.RollbackToCommit: its own attempt to open the log and that of the build it starts have one answer; a panic stops the job, and that it ends the whole daemon outside the queue's worker is not modelled.
- Pipeline.Deployer.RunDeployment: fetching, disk-space and timeout handling, environment and sudo set-up are inside the oracle answers; a timeout is a failed install.
- WatchdogRestarts.RestartIsNeverStale: the check of isCurrentProcess and the entry into StartAppProcess are one step, as are the registry's load and delete in a stop; a step of another goroutine between them is not modelled. Everything StartAppProcess itself does comes in later steps.
- WatchdogRaces.KillHitsExactly: a hit means that the signals are sent to the noted process or to bash's group; whether a process heeds them and reuse of process numbers are not modelled.
- WatchdogSignals.ReachedExactly: a hit by app.pid means that a live process has the number; whether an application or child is alive is an answer of the operating system. Only a run.sh whose bash runs writes to app.pid besides the supervisor, and one application per process; an application that writes there later on is not modelled. The registry's miss, the reading of the file and the signals are one step, the writes at lines 165 and 285 one with the stores beside them, and the removals at lines 218 and 91 one.
- Supervisor.Supervisor.Launch: directories, ports, and a PID file that cannot be read or written.
- HistoryRuns.MarkedWasVouched: database calls succeed; git checkouts in a rollback may fail unnoticed, so this is about the history and not about the work tree.
- HistoryRuns.MarkedWasVouched: directories can be edited and shared; for a directory that a project was edited away from or to, the earlier check or choice may have been for another one.
- ProjectPath.AcceptedExactly: symbolic links appear only as the one answer of EvalSymlinks, and Windows paths not at all.
- DeployPath.ResolveDeploymentPath: no symbolic links; errors of Abs, Stat and the random source other than a missing path.
- DeployPath.RegistrationsStayNonNested: a registration and the creation of its directory are one step.
- Slug.Slugify: lower-casing outside ASCII beyond the two characters that fold into a-z; invalid UTF-8.
- ScriptPatch.NormalizationMeetsRule: the shell meaning of a script; the token rewrite collapses quoted blanks and moves any `-A`, as in the code.
- LogRotation.RotationKeepsASuffix: writers that keep an open file after a rotation.
- ChangeStream.ProcessedAreApart: needs a clock that does not run backwards; distinct commits may share a digest, and then SkippedIsCovered speaks of equal keys only.
- DeployQueue.ProjectQueue.RunQueuedDeploy: requests reach a worker through a finite list, so a worker that is kept busy for ever is covered by the step model only.
- HTTP routing, login, webhook signatures, streams, terminal sessions and the dashboard: input and output.
- Notifications, mail and timestamps of the history, and in the interleaved model commit messages and triggers: they decide nothing.
- Settings, setup tokens, uptime formatting and the command line: they would only add easy members.
