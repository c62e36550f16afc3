# SatL node agent: verification project

SatL runs containers on FreeBSD nodes. On every node an agent drives each
assigned task through the states ACCEPTED, PREPARING, READY, STARTING and
RUNNING to a terminal state, keeps the local status in a small database that
survives crashes, and reports it. This project models that agent and proves what
holds of it over every run, together with the algorithms it rests on.

Check everything with `dafny verify dfyconfig.toml` (Dafny 4.11).

## How the model is built

- `TaskStates`, `DoStep`, `StatusStep`: the states, the decision table of one
  step, and the same step with the whole status it edits.
- `Controller`: the per-task controller against an abstract runtime (a jail,
  a rootfs, payload files, rctl rules, and a log of the runtime commands that took
  effect). `prepare`, `start`, `wait`, `shutdown` and `remove` are cut at every
  await; one step yields the resources and the controller's memory afterwards and
  either the next await or an answer. Payload files are written by writers that
  open, truncate and write byte by byte. Neither such a writer nor an external
  command (`ocijail`, `rctl`, `zfs`) ends with the step that awaits it: the runners
  do not kill their child when the step is dropped, and a child outlives the daemon.
- `PayloadWriters`: what any number of such writers leave of the files.
- `Protocol`: one task on one node as a step system. Events are assignment,
  removal, close, crash, startup, a command that drops the step in flight, the end
  of the awaited operation with any outcome, a container exit, a probe result, a
  step or failure of a writer that a dropped step left behind, and the late effect or
  failure of a command that one left behind. The task's history (log, reports, calls,
  advances) is part of the state.
- `ProtocolControl`, `ProtocolJail`, `ProtocolRules`, `ProtocolFiles`: the
  invariants and their preservation by every event, put together in
  `ProtocolSafety`. `ProtocolTheorems`: what follows for every run.
  `ProtocolProgress`, `ProtocolPrepare`, `ProtocolResume` and `ProtocolRun`: what the
  operations come to, outcome by outcome: how each await ends its call, what is tried
  again, what an undisturbed call and a whole undisturbed task leave behind, and what
  startup, removal, closing and updates make of a task. `Leftovers`, `ProtocolHistory`:
  which commands a dropped step leaves running, and that each mark in the history says
  what has happened.
  `ProtocolLimits` and, for commands that come late, `ProtocolLate`: for each failure
  that those theorems exclude, a run in which it happens and the conclusion does not
  hold.
- `TaskSet` (with `Lifting`): the worker with all its tasks, its calls as methods
  that keep every task's invariant, and the startup pass with its report.
- `TaskDb`, `TaskDbRaces`: the database file by file, with crashes between any two
  file operations, and concurrent calls interleaved at that grain.
- `Health`, `ProbeOutput`: the health tracker, its closed form, the prober loop,
  and UTF-8-safe truncation.
- `Environment`, `Paths`, `Bundle`, `Payloads`: environment merging, path
  components, mount and payload planning, payload writing, and the theorem that
  carries references through plan and protocol to the bytes a container sees.
- `Rctl`, `Orders`, `Decimal`: rule printing, parsing, applying and purging.
- `Teardown`: the timed loop that destroys a rootfs.
- `Framing` (with `ByteStrings`): multiplexed stream frames and a client's decoder.
- `Calendar`: the calendar arithmetic of the build stamp.

## What the code does not promise

Some properties hold only under a condition. In each case the model keeps the
code's behaviour, a run or input shows the failure, and the condition is proved.

- Create is one-shot per record while no removal of the record has begun. A removal
  cut after `ocijail delete` leaves a record that creates again; a create repeats if
  and only if a delete took effect in the same life. A repeated start needs a failed
  status write as well, or a create that a dropped `prepare` left running and that
  takes effect after the delete. A start left running by an earlier record of the task
  can take effect on the container of the next one before its payloads are written.
- Dropping a step is called safe in `task_manager.rs` because every step is re-entrant.
  A create that a dropped `prepare` left running and that takes effect after the next
  one has looked for the container makes that one fail, and the task is REJECTED.
- Reports are monotone, calls come in phase order, and REJECTED excludes an earlier
  `start` if status writes succeed: `publish` reports even when persisting failed.
  The condition goes one way, since a failed write makes a regression possible and
  does not force one.
- Limit rules never stack as long as no `rctl -r` of a removal has failed and no
  overtaken `rctl -a` takes effect: one that a dropped step left running and that an
  `rctl -r` issued later, or a new record, has come before. Two resizes in a row
  can leave two memory rules without any failure, and so can any resize that clears
  while an `rctl -a` is outstanding. That a new rule is the only one of its
  kind holds if and only if none was inherited.
- Payloads are in place at start unless the bundle was deleted under the created
  jail, the container was adopted without its rootfs, a command of the runtime came
  late as above, or a writer of a dropped step came in between: `write_payload`
  truncates before it writes, and dropping the step that launched it does not stop
  it. Any file such a writer has still to open can be empty when the container starts,
  and stays so if the daemon dies then.
- An unhealthy container's stop that is dropped after an exit was harvested is
  answered from that exit: the task becomes COMPLETE if and only if the exit code
  was 0, where an undropped stop makes it FAILED.
- The CPU percentage is the least sufficient one if and only if adding 9,999,999 to
  the request fits an i64.
- `put_task` and `put_status` read and then write without a lock, and `apply` calls
  the first while a manager may be in the second. They are atomic if calls on one
  task do not overlap; a single rename is atomic if and only if what its call read
  is still current and its staging file is still there. An overlap can move the disk
  backwards or bring a removed record back. `list` deletes every staging file it
  meets, although the daemon lists while it runs: a put whose file is swept before
  its rename loses its write.
- Mount targets are compared as spelled, although the error text and the comment in
  `plan_bundle` speak of paths. If all spellings are canonical, an accepted bundle
  mounts every place once. Any accepted caller mount with another spelling shares its
  place with a mount at the canonical one, which is there already or is accepted as
  well: `/run/secrets/`, `//run/secrets` and `/run/../run/secrets` all go beside the
  secrets tmpfs, and two configs at `/etc` and `//etc` go together.
- The comment on secret targets excludes "." components; the code drops inner ones,
  so `a/./b` is accepted as `a/b`. The model follows the code.

## Hypotheses

- Tasks are assigned at or below ASSIGNED. Worker calls are serialized, and startup
  runs once before them.
- Only the daemon dies. A reboot of the node, which removes jails without a delete, is
  not modelled. A deletion (`ocijail delete`, `zfs destroy`, the bundle directory) that
  is in flight when the daemon dies has ended, with or without effect, when the daemon
  is up again; every other command may end later.
- In `Protocol` each database call is one step; `TaskDbRaces` says when that is so.
- External commands take effect or fail as a whole, awaited or left running. `ocijail`
  creates only what does not exist and starts only what is created. A signal acts
  through the container's later exit. A file that is removed or hidden by a mount
  while a writer has it open is out of that writer's reach.
- Places are compared without symbolic links.
- The payload of an object id and the references of a task do not change.
- A step the code skips (a usage query without a memory limit, an rctl call with
  nothing to add) is taken in the model and may fail there, which only adds runs.

## Model

| member | source | states |
|---|---|---|
| `ProtocolTheorems.EveryRunIsSafe` | crates/satl-agent/src/worker.rs:160-330 | Every state that any run reaches from a node that never heard of the task satisfies the control, jail, start, gate, exit, rctl and payload invariants, whatever the interleaving of assignments, updates, removals, dropped steps, writers and commands left running by them, exits, probes, crashes and restarts |
| `ProtocolTheorems.SafeRun` | crates/satl-agent/src/task_manager.rs:158-238 | The same from any state that satisfies the invariants |
| `ProtocolSafety.SafeKept` | crates/satl-agent/src/task_manager.rs:158-284 | One step, of any kind, keeps all of these invariants |
| `ProtocolControl.ControlKept` | crates/satl-agent/src/task_manager.rs:158-284 | Each step keeps the loop position tied to its call, the chain of desired states, the ledger of disk, loop and reports, and the order of calls |
| `ProtocolControl.AppliedKept` | crates/satl-agent/src/worker.rs:160-188 | `apply` keeps the control invariants, for new, known and live tasks |
| `ProtocolControl.InitializedKept` | crates/satl-agent/src/worker.rs:222-278 | So does the startup decision for a record, including the FAILED status of a container that died meanwhile |
| `ProtocolControl.CommandedKept` | crates/satl-agent/src/task_manager.rs:171-190 | So does a command that drops the step in flight |
| `ProtocolControl.PersistedKept` | crates/satl-agent/src/task_manager.rs:145-156 | So does a status write, whether it succeeds or not |
| `ProtocolControl.EffectedKept` | crates/satl-agent/src/do_step.rs:66-135 | So does any step of any controller operation that stays in its operation or answers it |
| `ProtocolJail.JailStep` | crates/satl-agent/src/controller.rs:597-773 | A step of an operation keeps the runtime log alternating create, start, delete; create takes effect only without a jail and start only on a created one; a successful prepare or start means there is a jail |
| `ProtocolJail.JailKept` | crates/satl-agent/src/controller.rs:994-1001 | Every step, and every command that comes late, keeps the jail state equal to the end of that log |
| `ProtocolJail.StartKept` | crates/satl-agent/src/controller.rs:994-998 | While status writes succeed and no late command of the runtime overruns the life, every step keeps a start followed by nothing but a delete in the life of its record, and on record |
| `ProtocolJail.StartLanded` | crates/satl-runtime/src/runner.rs:132-143 | A start or create that a dropped step left running keeps that too, unless it overruns the life: a start of an earlier record, or a create once the removal has begun |
| `ProtocolRules.RulesStep` | crates/satl-agent/src/controller.rs:625-674 | A step of an operation adds a rule only where none of its kind can be, those still to be added counted |
| `ProtocolRules.RulesKept` | crates/satl-agent/src/controller.rs:1564-1572 | In a life whose removal has not begun and in which no overtaken `rctl -a` took effect, every step keeps the rules, with those still to be added, at what was inherited plus at most one of each kind |
| `ProtocolRules.LeanKept` | crates/satl-agent/src/controller.rs:1564-1572 | As long as no `rctl -r` of a removal has failed and no overtaken `rctl -a` has taken effect, every step keeps at most one rule of each kind, those still to be added counted, in any life and during any removal |
| `ProtocolRules.RulesAbandoned` | crates/satl-agent/src/runner.rs:57-63 | A step dropped while it waits for `rctl -a` keeps that bound: its rule now counts as still to be added |
| `ProtocolRules.RulesLands` | crates/satl-agent/src/runner.rs:57-63 | An `rctl -a` that takes effect late without being overtaken keeps the bound, and so does a late `rctl -r`, which clears inherited rules too |
| `ProtocolFiles.FilesOfPrepare` | crates/satl-agent/src/controller.rs:805-878 | A step of `prepare` extends the batch it is writing and keeps the other; a successful `prepare` leaves every file there |
| `ProtocolFiles.FilesStray` | crates/satl-agent/src/controller.rs:814 | A step of a leftover writer, or its failure, loses no file; what it spoils is on record |
| `ProtocolFiles.FilesKept` | crates/satl-agent/src/controller.rs:676-878 | Every step keeps all files of a created container there, unless its bundle is deleted under it, it was adopted without its rootfs, or a late command of the runtime overruns its life |
| `ProtocolFiles.CrewKept` | crates/satl-agent/src/materialize.rs:66-98 | Every step keeps each byte of each planned file right, or still to come from a writer that has it open, or lost by one that was cut short |
| `PayloadWriters.StepGood` | crates/satl-agent/src/materialize.rs:76-86 | One step of one of any number of concurrent writers, which truncate on open and write at their own offset, keeps that |
| `PayloadWriters.CutGood` | crates/satl-agent/src/materialize.rs:84-86 | A writer cut short spoils at most the file it has open |
| `PayloadWriters.GoodHolds` | crates/satl-agent/src/materialize.rs:66-98 | A file that no writer is in the middle of, and none was cut short in, holds exactly its payload |
| `ProtocolJail.GateKept` | crates/satl-agent/src/controller.rs:1041-1068 | At the health gate a task with a healthcheck is always being probed, and while `wait` awaits no exit is known yet |
| `ProtocolJail.ExitKept` | crates/satl-agent/src/controller.rs:1204-1237 | Every step keeps the exit watch to containers that are there, a remembered exit to watched containers of tasks past READY or under a stop request, and exit code 0 to containers that are gone |
| `ProtocolTheorems.CompleteMeansItExited` | crates/satl-agent/src/controller.rs:1252-1285 | A task goes from RUNNING to COMPLETE only when exit code 0 was harvested and its container is gone, also when the harvesting step had been dropped |
| `ProtocolTheorems.UnhealthyFails` | crates/satl-agent/src/controller.rs:1148-1172 | The stop of an unhealthy RUNNING container that runs to its end fails the task, whatever exit it harvested |
| `ProtocolTheorems.DroppedStopAnswersFromTheExit` | crates/satl-agent/src/controller.rs:1644-1650 | If an update drops that stop, the next step makes the task COMPLETE if and only if exit code 0 was harvested, FAILED if and only if another exit was, and waits again otherwise |
| `ProtocolLimits.DroppedStopCompletesAnUnhealthyTask` | crates/satl-agent/src/controller.rs:1644-1650 | A run in which an unhealthy task ends COMPLETE that way |
| `ProtocolTheorems.OneShot` | crates/satl-agent/src/controller.rs:597-623 | Over every run and in the life of a record, create takes effect at most once while no removal has begun, start at most once while no removal has begun or if status writes succeeded and no late command overran the life, and each at most once more than delete |
| `ProtocolTheorems.OneStart` | crates/satl-agent/src/controller.rs:994-998 | Where nothing but a delete follows a start, there is at most one start |
| `ProtocolTheorems.StretchCounts` | crates/satl-agent/src/controller.rs:994-1001 | In any stretch of an alternating log creates and starts exceed deletes by at most one |
| `ProtocolTheorems.CreateRepeatsExactlyAfterADelete` | crates/satl-agent/src/controller.rs:676-690 | A create that is awaited takes effect if and only if there is no jail, and the task is REJECTED if and only if there is one; in a life that began without a jail it repeats an earlier create if and only if a delete has taken effect in that life |
| `ProtocolLimits.CutRemovalCreatesTwice` | crates/satl-agent/src/worker.rs:316-330 | A run in which a removal is cut between the deletion of the jail and that of the record, and one record sees two creates |
| `ProtocolLimits.BothFailuresStartTwice` | crates/satl-agent/src/task_manager.rs:151-155 | A run with failed status writes and a cut removal in which one record sees two starts |
| `ProtocolLate.LateCreateStartsTwice` | crates/satl-runtime/src/runner.rs:146-175 | A run in which every status write succeeds, and a create left running by a dropped prepare lets one record see two starts, the second without its secret |
| `ProtocolLate.LateCreateRejectsTheTask` | crates/satl-agent/src/task_manager.rs:15-18 | For any `prepare` about to create while a create of a dropped one is outstanding: a run in which that one is first and the task ends REJECTED |
| `ProtocolLate.OldStartComesBeforeTheSecret` | crates/satl-runtime/src/runner.rs:132-143 | A run in which a start left running by a removed record starts the container of the next one while it is PREPARING, before its secret is written |
| `ProtocolTheorems.DiskNeverRegresses` | crates/satl-agent/src/db.rs:148-175 | No step moves the state on disk backwards, and the disk never runs ahead of its live manager |
| `ProtocolTheorems.DiskClimbs` | crates/satl-agent/src/db.rs:148-175 | Over any stretch of a record's life, crashes included, the state on disk never decreases |
| `ProtocolTheorems.ReportsAreCanonical` | crates/satl-agent/src/task_manager.rs:145-218 | If status writes succeed, the reports of a record's life never decrease across crashes and never exceed the disk |
| `ProtocolTheorems.ReportEqualsDisk` | crates/satl-agent/src/task_manager.rs:145-156 | If status writes succeed, the state handed to the reporter is the one on disk |
| `ProtocolLimits.FailedWritesRegressReports` | crates/satl-agent/src/task_manager.rs:151-155 | A run with failed status writes and a crash in which the reports go backwards |
| `ProtocolTheorems.AtMostSixAdvances` | crates/satl-agent/src/do_step.rs:66-220 | In the life of a record the state on disk changes at most six times, whatever updates, retries and crashes there are |
| `ProtocolTheorems.PhasesInOrder` | crates/satl-agent/src/do_step.rs:92-119 | If status writes succeed, calls come in the order prepare, start, wait, and a REJECTED task never had `start` or `wait` called |
| `ProtocolLimits.FailedWritesRejectAfterStart` | crates/satl-agent/src/task_manager.rs:151-155 | A run with failed status writes in which a task is REJECTED after `start` was called |
| `ProtocolTheorems.NoRegressionIsEverQueued` | crates/satl-agent/src/task_manager.rs:252-268 | A queued update is never behind the loop's desired state: the loop's own regression check never fires |
| `ProtocolTheorems.StopDominates` | crates/satl-agent/src/do_step.rs:75-84 | Once the loop has adopted a stop request it makes no more prepare, start or wait call, only `shutdown` can be in flight, and its only further advance is to a terminal state |
| `ProtocolTheorems.StopStep` | crates/satl-agent/src/do_step.rs:75-84 | The same for a single step |
| `ProtocolTheorems.RunningMeansAProbePassed` | crates/satl-agent/src/controller.rs:994-1138 | A task with a healthcheck goes from STARTING to RUNNING only after one of its prober's probes exited 0 |
| `ProtocolTheorems.PayloadsBeforeStart` | crates/satl-agent/src/controller.rs:676-878 | When start takes effect on a container with its rootfs, not adopted without it, its bundle not deleted under it and its life not overrun, every secret and config file is there and holds exactly its payload, unless a writer left over from a dropped step is in the middle of it or was cut short there; a start left running is included if it belongs to the life it takes effect in and status writes succeeded |
| `ProtocolTheorems.StartsOnlyAtStart` | crates/satl-agent/src/controller.rs:994-998 | Only the start step of `start_container` can make start take effect, while it is awaited or after it was left running |
| `ProtocolLimits.LostBundleStartsWithoutConfigs` | crates/satl-agent/src/controller.rs:1533-1590 | For any READY task with a created container: a run in which a removal deletes only the bundle, and the container then starts with none of its config files |
| `ProtocolLimits.OwedFileMayStartEmpty` | crates/satl-agent/src/materialize.rs:76-83 | For any container about to start and any non-empty file that a leftover writer has still to open: a run in which it starts with that file empty |
| `ProtocolLimits.LeftoverWriterEmptiesASecret` | crates/satl-agent/src/controller.rs:814 | A run from a fresh node in which a dropped prepare is followed by a successful one and the container starts on an empty secret |
| `ProtocolLimits.CutWriterLeavesAnEmptySecret` | crates/satl-agent/src/materialize.rs:76-86 | A run in which a leftover writer truncates the secret of a READY task, the daemon dies, and the restarted one starts the container on the empty file |
| `ProtocolLate.LateStartMeetsTheRewrite` | crates/satl-agent/src/controller.rs:805-878 | A run with failed status writes in which a start left running by a dead daemon takes effect while the next one rewrites the secret |
| `ProtocolLate.BareContainerStartsWithoutItsSecret` | crates/satl-agent/src/controller.rs:597-623 | A run in which a container is adopted without its rootfs and starts without its secret, the rootfs being back by then |
| `ProtocolTheorems.RulesNeverStack` | crates/satl-agent/src/rctl.rs:429-463 | In every reachable state, across removals, crashes and lives, a jail has at most one memory and one CPU rule, those still to be added counted, as long as no `rctl -r` of a removal has failed and no overtaken `rctl -a` has taken effect; and whatever happened before, a life adds at most one of each to what it inherited until its removal begins or an overtaken `rctl -a` takes effect in it |
| `ProtocolTheorems.RulesAreInheritedOnlyIfLeftBehind` | crates/satl-agent/src/controller.rs:1564-1572 | A record inherits rules only after some `rctl -r` of a removal has failed or an overtaken `rctl -a` has taken effect |
| `ProtocolTheorems.NewRuleStacksExactlyOnInherited` | crates/satl-agent/src/controller.rs:625-637 | The rule that a new container gets is its only one if and only if none of its kind was inherited, unless an overtaken `rctl -a` took effect in its life |
| `ProtocolLimits.InheritedRulesStack` | crates/satl-agent/src/controller.rs:1564-1572 | A run in which only `rctl -r` failed during a removal and the task came back: two memory rules name one jail |
| `ProtocolLate.OutstandingAddStacks` | crates/satl-agent/src/controller.rs:652-674 | For any hot resize about to clear the rules while an `rctl -a` of a dropped step is outstanding: a run without a failure in which that rule ends up beside the resize's own, two of a kind if it sets that limit |
| `ProtocolLate.OutstandingAddOutlivesItsRecord` | crates/satl-agent/src/controller.rs:1564-1572 | For any removal about to clear the rules while an `rctl -a` of a dropped step is outstanding: a run without a failure in which the record is gone and that rule is left |
| `ProtocolLate.TwoResizesStackRules` | crates/satl-agent/src/runner.rs:57-63 | A run from a fresh node in which two resizes in a row and no failure leave two memory rules |
| `ProtocolTheorems.ResizeIsExact` | crates/satl-agent/src/controller.rs:652-674 | A hot resize with no other event in between leaves exactly the rules of the current limits, whatever was there, and touches nothing else; what was still to be added is overtaken |
| `ProtocolProgress.ErrorsEndTheCall` | crates/satl-agent/src/do_step.rs:187-220 | At every await whose error is the call's own, an error leaves the task in its state to try again if it is temporary, and REJECTED before STARTING or FAILED from there on otherwise; only a file that was being written is touched |
| `ProtocolProgress.RetriedExactly` | crates/satl-agent/src/do_step.rs:198-205 | A call in flight is made again if and only if such an await meets a temporary error |
| `ProtocolProgress.TemporaryFailureIsRetried` | crates/satl-agent/src/task_manager.rs:197-209 | After a temporary failure the state is kept and reported once more, the record is left alone if status writes succeed, and after the timer the same call is made again |
| `ProtocolProgress.PublishesAndGoesOn` | crates/satl-agent/src/task_manager.rs:145-156 | A status is reported whether or not it could be persisted; an advance goes on at once, a retry waits for its timer |
| `ProtocolProgress.ShutdownExactly` | crates/satl-agent/src/controller.rs:1204-1237 | Whether the container went or was given up, its exit is remembered and the task is SHUTDOWN once the ports are unpublished; an error at either await is retried or fatal |
| `ProtocolProgress.StopSucceeds` | crates/satl-agent/src/controller.rs:1204-1237 | A stop request that nothing goes wrong with, from any state below COMPLETE, stops the prober, calls `shutdown`, and makes the task SHUTDOWN, on disk and as reported |
| `ProtocolProgress.StartLooks` | crates/satl-agent/src/controller.rs:994-1000 | `start` fails without a container, starts a created one, and leaves one that was started before |
| `ProtocolProgress.StartReleases` | crates/satl-agent/src/controller.rs:994-1001 | A created container is released and its start time noted, one that has died since is taken for started, any other is refused |
| `ProtocolProgress.GateExactly` | crates/satl-agent/src/controller.rs:1095-1138 | The health gate, outcome by outcome: RUNNING without a healthcheck or once a probe has passed, a stop once unhealthy, FAILED if the prober or the container is gone, and otherwise more waiting |
| `ProtocolProgress.GateDetachFails` | crates/satl-agent/src/controller.rs:1125-1136 | A container that exits before it is healthy fails the task |
| `ProtocolProgress.GateStops` | crates/satl-agent/src/controller.rs:1148-1165 | An unhealthy container is stopped, and the exit it had on the way is remembered |
| `ProtocolProgress.GateStopFails` | crates/satl-agent/src/controller.rs:1148-1171 | So does one that is stopped as unhealthy, however its stop ends |
| `ProtocolProgress.WaitExactly` | crates/satl-agent/src/controller.rs:1252-1293 | `wait`, outcome by outcome: an exit is remembered, an unhealthy container stopped, a task without watch or prober FAILED, and otherwise it waits on |
| `ProtocolProgress.WaitConcludes` | crates/satl-agent/src/controller.rs:1275-1280 | An exit makes the task COMPLETE if and only if its code was 0, and FAILED otherwise; a container stopped as unhealthy is FAILED |
| `ProtocolProgress.StaysRunning` | crates/satl-agent/src/controller.rs:1252-1293 | Over any run without a command, a crash or an outcome that ends the wait, a task that is waited for stays RUNNING and waited for |
| `ProtocolPrepare.PrepareSucceeds` | crates/satl-agent/src/controller.rs:676-773 | A `prepare` without a container that nothing goes wrong with takes exactly the steps of its work and leaves a READY task, a created jail, every secret and config in place and one rule per limit |
| `ProtocolPrepare.RewriteSucceeds` | crates/satl-agent/src/controller.rs:829-878 | A created container with its rootfs gets all its payloads written again, and nothing else is done to it |
| `ProtocolPrepare.AdoptsAsItIs` | crates/satl-agent/src/controller.rs:597-623 | A container that was started, or that has no payloads, is adopted as it is; pid and exit watch are taken exactly if it has a process |
| `ProtocolRun.UndisturbedTaskRuns` | crates/satl-agent/src/task_manager.rs:158-238 | A task assigned to a node that has nothing of it, and that nothing goes wrong with, is RUNNING after exactly the steps its payloads take and the first probe that passes: on disk and as reported state by state, created and started once, every payload in place, the rules those of its limits |
| `ProtocolRun.BecomesRunning` | crates/satl-agent/src/controller.rs:935-1068 | From READY with a created container to RUNNING, with the first probe that passes if it has a healthcheck |
| `ProtocolResume.ReattachedTaskIsWaitedFor` | crates/satl-agent/src/worker.rs:256-259 | A RUNNING record whose jail has a process is driven at RUNNING with pid and exit watch; nothing is created or started, and its second step waits for the container, probing it anew |
| `ProtocolResume.DeadTaskIsFailed` | crates/satl-agent/src/worker.rs:260-270 | A RUNNING record whose jail has no process, or about which there is no answer, is FAILED, persisted if that write succeeds, reported in any case, and parked |
| `ProtocolResume.OthersAreResumed` | crates/satl-agent/src/worker.rs:271-274 | Any other assigned record is driven from the state on disk with a controller that remembers nothing: it parks, makes its bookkeeping move or the call of its state |
| `ProtocolResume.UnassignedRecordsAreRemoved` | crates/satl-agent/src/worker.rs:252-255 | A record that is no longer assigned is removed; one that cannot be read is left alone |
| `ProtocolResume.RemovalBegins` | crates/satl-agent/src/worker.rs:196-210 | A live manager is told, a record without one is removed at once, and without a record nothing happens |
| `ProtocolResume.CommandsEndTheLoop` | crates/satl-agent/src/task_manager.rs:252-284 | A removal drops the step in flight; a close ends the loop and leaves record, jail, files and rules alone |
| `ProtocolResume.RemovalStops` | crates/satl-agent/src/task_manager.rs:221-229 | A removal first stops probing and remembers the exit that its stop brings about |
| `ProtocolResume.RemovalExactly` | crates/satl-agent/src/controller.rs:1533-1590 | A removal takes its six steps whatever fails, and each one that succeeds takes away exactly what it stands for: rules, jail with secrets, rootfs, bundle with configs, record |
| `ProtocolResume.UpdateIsTakenUp` | crates/satl-agent/src/task_manager.rs:252-284 | An update that does not regress drops the step in flight and is in force from then on; the limits are to be applied again if and only if limits or reservations differ or they were to be already |
| `Leftovers.DroppedCommandsLandAsAwaited` | crates/satl-runtime/src/runner.rs:132-175 | Every step that would change jail, rootfs or rules leaves its command running when it is dropped, and if that takes effect at once they are what the step would have made of them |
| `Leftovers.LandingConserves` | crates/satl-agent/src/rctl.rs:429-463 | An `rctl -a` that takes effect late moves one rule from those to come to those in force: the rules of each kind, counted together, stay the same |
| `Leftovers.LandingCounts` | crates/satl-runtime/src/runner.rs:132-175 | Each other late command that takes effect is one less outstanding |
| `ProtocolHistory.MarksAreTrue` | crates/satl-agent/src/task_manager.rs:145-238 | In every step of any kind, each mark under which a theorem promises less is set only when what it stands for happens: a failed status write, a failed `rctl -r` of a removal, a bundle deleted under a created jail, an adoption without rootfs, a leftover writer, a late rule, a late create or start, a removal; and every change of the state on disk is counted |
| `ProtocolHistory.StepLeavesItsCommand` | crates/satl-agent/src/task_manager.rs:171-190 | A crash and a command leave the awaited command of the step in flight running |
| `ProtocolHistory.RemovalLeavesItsClearing` | crates/satl-agent/src/controller.rs:1564-1572 | So does a crash during a removal with its `rctl -r`, which then clears the rules |
| `DoStep.StepFollowsAnEdge` | crates/satl-agent/src/do_step.rs:66-220 | Whatever is desired and answered, a step that advances follows an edge of the state graph |
| `DoStep.EdgeClimbs` | crates/satl-agent/src/do_step.rs:66-220 | Every edge goes exactly one rung up or to a terminal state |
| `DoStep.EveryEdgeIsTaken` | crates/satl-agent/src/do_step.rs:66-220 | Every edge of the graph is taken by some desired state and answer |
| `DoStep.IdleExactlyWhenParked` | crates/satl-agent/src/do_step.rs:86-124 | A step does nothing if and only if the task is finished, is past what is desired, or is at READY as desired |
| `DoStep.StopWins` | crates/satl-agent/src/do_step.rs:75-84 | Under a stop request the only call is `shutdown` and the only way on is a terminal state |
| `DoStep.StopExactly` | crates/satl-agent/src/do_step.rs:75-84 | `shutdown` is called if and only if SHUTDOWN or REMOVE is desired and the task is not finished |
| `DoStep.RetryExactly` | crates/satl-agent/src/do_step.rs:198-205 | A step is tried again if and only if a call is made and meets a temporary error |
| `DoStep.FailureExactly` | crates/satl-agent/src/do_step.rs:187-220 | A call that meets any other error ends REJECTED before STARTING and FAILED from there on |
| `DoStep.SettlesWithinSixSteps` | crates/satl-agent/src/do_step.rs:469-498 | From any state, six successful steps reach the resting state of the desired state, which no further step leaves |
| `DoStep.ConcludeFollowsAnEdge` | crates/satl-agent/src/do_step.rs:143-220 | The answer of a call made where it belongs leads along an edge |
| `StatusStep.DoStep` | crates/satl-agent/src/do_step.rs:66-137 | The edited status carries the state machine's state, an error exactly if FAILED or REJECTED, runtime status from STARTING on; it is a retry if and only if the call met a temporary error, and then keeps all but error and runtime status |
| `StatusStep.Transition` | crates/satl-agent/src/do_step.rs:143-184 | A regression changes nothing; an advance sets state, message with its note, clears the error unless the state is a failure, and harvests |
| `StatusStep.Fatal` | crates/satl-agent/src/do_step.rs:187-220 | An error retries in place if and only if it is temporary; any other is REJECTED before STARTING and FAILED from there on, with the error in the status |
| `StatusStep.Called` | crates/satl-agent/src/do_step.rs:92-119 | Each call's result becomes its state, message and error |
| `TaskStates.ValueInjective` | crates/satl-core/src/state.rs:31-63 | The numbers order the states totally |
| `TaskSet.AllSafeKept` | crates/satl-agent/src/worker.rs:118-123 | A step of one task keeps the invariants of every task on the node |
| `TaskSet.Worker.constructor` | crates/satl-agent/src/worker.rs:138-145 | A new worker has every task in its initial state |
| `TaskSet.Worker.Apply` | crates/satl-agent/src/worker.rs:160-188 | Only this task changes, a definition that cannot be persisted is not acted on, and every task's invariant is kept |
| `TaskSet.UpdateManager` | crates/satl-agent/src/task_manager.rs:103-115 | An update is forwarded if and only if it does not move the accepted desired state backwards |
| `TaskSet.ApplyCommand` | crates/satl-agent/src/task_manager.rs:252-284 | A regression is dropped, an update adopted with its resize noted if limits or reservations differ, and removal and closing end the loop |
| `TaskSet.Worker.Remove` | crates/satl-agent/src/worker.rs:196-210 | Removal goes through the manager, or from the record, and touches no other task |
| `TaskSet.Worker.Step` | crates/satl-agent/src/task_manager.rs:158-238 | Any other step of one task keeps every task's invariant |
| `TaskSet.Worker.Crash` | crates/satl-agent/src/worker.rs:280-287 | A dying daemon loses every manager and no resource |
| `TaskSet.Worker.InitFromDisk` | crates/satl-agent/src/worker.rs:222-278 | Every listed task is resumed as its record, its assignment and its jail decide, one whose record was skipped is left alone, every task's invariant is kept, and the report is the exact account |
| `TaskSet.Resuming` | crates/satl-agent/src/worker.rs:228-276 | One record: the decision and the manager it gets (what that manager then does: ReattachedTaskIsWaitedFor, DeadTaskIsFailed, OthersAreResumed, UnassignedRecordsAreRemoved); the runtime is asked only about assigned RUNNING tasks |
| `TaskSet.ResumeAll` | crates/satl-agent/src/worker.rs:226-277 | The loop over the listing, against the decision for each record |
| `TaskSet.ReportIsAPartition` | crates/satl-agent/src/worker.rs:62-84 | Startup accounts for each record exactly once: removed iff unassigned, re-attached iff RUNNING with a live jail, failed iff RUNNING without one, resumed otherwise, driven with its persisted definition iff assigned |
| `Health.ClosedForm` | crates/satl-agent/src/health.rs:428-455 | For every probe history the fold has its closed form: streak, verdict and last five results; saturation at u32::MAX never changes the verdict |
| `Health.StreakStep` | crates/satl-agent/src/health.rs:441-452 | How the closed-form streak moves by one more result, before and after a first success |
| `Health.HealthTracker.Record` | crates/satl-agent/src/health.rs:428-455 | The tracker's state is the fold of what was recorded, and the transition reported is the change of status |
| `Health.HealthTracker.NextDelay` | crates/satl-agent/src/health.rs:466-471 | The start interval of five seconds, where it is shorter, is used exactly while starting between the start and the end of the start period |
| `Health.Resolve` | crates/satl-agent/src/health.rs:327-363 | Which healthchecks are enabled, disabled or unknown, with which command, and with which defaults for interval, timeout, retries and start period |
| `Health.StartPeriodForgives` | crates/satl-agent/src/health.rs:474-480 | While every probe fails and began within the start period, the container is starting and its streak is 0 |
| `Health.LateFailuresCount` | crates/satl-agent/src/health.rs:441-452 | A container none of whose probes passed is unhealthy if and only if as many as `retries` of them began before its start or after the start period |
| `Health.RecordedExactly` | crates/satl-agent/src/health.rs:935-985 | A stop that arrives while a probe runs discards its result, and nothing is recorded after the first stop |
| `Health.HealthyMeansAProbePassed` | crates/satl-agent/src/health.rs:441-443 | A healthy verdict means that some probe exited 0 |
| `Health.RunProber` | crates/satl-agent/src/health.rs:910-987 | At each head of the prober loop and at its end the registry entry and the watch value are the fold of the results recorded before the first stop, and no other entry is touched |
| `ProbeOutput.TruncateOutput` | crates/satl-agent/src/health.rs:256-266 | The result is well-formed and is the longest prefix of whole characters within 4096 bytes, the whole text if it fits, at most three bytes short otherwise |
| `ProbeOutput.WellFormedExactly` | crates/satl-agent/src/health.rs:256-266 | Well-formed text is exactly the encodings of sequences of Unicode scalar values (section 3 of RFC 3629) |
| `ProbeOutput.ByteTells` | crates/satl-agent/src/health.rs:261-263 | In well-formed UTF-8 a single byte tells where a character starts |
| `TaskDb.PutIsAtomic` | crates/satl-agent/src/db.rs:111-140 | At every cut of a put the directory stands for the old or the new records |
| `TaskDb.RecordsAreNotStaging` | crates/satl-agent/src/db.rs:119-127 | No record can be named like a staging file |
| `TaskDb.StagingNamesDiffer` | crates/satl-agent/src/db.rs:120-125 | Two puts of one process never share a staging file |
| `TaskDb.Database.Put` | crates/satl-agent/src/db.rs:111-140 | One record is replaced, or none if any file operation fails; a successful put leaves no other file behind |
| `TaskDb.Database.Get` | crates/satl-agent/src/db.rs:183-198 | A record is found, missing, or an error when it cannot be read or decoded |
| `TaskDb.Database.PutTask` | crates/satl-agent/src/db.rs:148-160 | The definition is replaced and a status on disk kept; nothing changes on failure, or over a corrupt or unreadable record |
| `TaskDb.Database.PutStatus` | crates/satl-agent/src/db.rs:168-175 | The status of an existing record is replaced; the set of ids never changes |
| `TaskDb.Database.Remove` | crates/satl-agent/src/db.rs:264-275 | One record goes, a missing one is fine, and a failure changes nothing |
| `TaskDb.Database.List` | crates/satl-agent/src/db.rs:217-258 | Fails exactly on a failed enumeration or an unreadable record; otherwise exactly the decodable records, sorted by id, each once; only staging files are swept, all that can be deleted, and no record is ever lost |
| `TaskDbRaces.RecordsStayWhole` | crates/satl-agent/src/db.rs:111-140 | However calls and the sweeps of a concurrent list interleave, fail or are cut by crashes, every record file is whole and belongs to its own task |
| `TaskDbRaces.StepIsAllOrNothing` | crates/satl-agent/src/db.rs:111-140 | A file operation changes the records only at the rename or the delete, and then by one whole record |
| `TaskDbRaces.RenameIsAtomicExactlyIfFresh` | crates/satl-agent/src/db.rs:148-175 | A read-then-write call that has something to change is one atomic update if and only if what it read is still current and its staging file is still there when it renames; without the file it changes nothing |
| `TaskDbRaces.SerialRunsAreAtomic` | crates/satl-agent/src/db.rs:148-175 | In every run in which calls on one task do not overlap, every call is atomic, or changes nothing if its staging file was swept |
| `TaskDbRaces.SweepLosesTheWrite` | crates/satl-agent/src/db.rs:234-244 | For any call about to rename: a sweep of its staging file loses its write |
| `TaskDbRaces.OverlapRegressesTheDisk` | crates/satl-agent/src/worker.rs:161-162 | For any record: a `put_task` that read before a `put_status` was renamed puts the old state back |
| `TaskDbRaces.OverlapResurrects` | crates/satl-agent/src/db.rs:168-175 | For any record: a `put_status` that read before a delete brings the record back |
| `Teardown.DestroyRootfs` | crates/satl-agent/src/controller.rs:1412-1472 | It ends within 121 turns at the first turn that is not busy or gives up; a busy dataset is deferred and never an error; early deferral needs five seconds of busy turns without a prison |
| `Teardown.TurnsTakeTime` | crates/satl-agent/src/controller.rs:1466-1471 | Turn i starts at least i sleeps after the first |
| `Teardown.EndIsUnique` | crates/satl-agent/src/controller.rs:1417-1471 | What the turns find determines where and how it ends |
| `Teardown.DeferredOnlyInNeed` | crates/satl-agent/src/controller.rs:1438-1465 | It is deferred only if the dataset was busy at every turn, and half a minute has passed or no prison was seen for five seconds |
| `Teardown.DeferredOnlyInTime` | crates/satl-agent/src/controller.rs:1438-1465 | It is never deferred within five seconds of its start |
| `Teardown.DyingJailsAreWaitedFor` | crates/satl-agent/src/controller.rs:1438-1470 | While a prison is seen the whole budget is given: a dataset that comes free in time is destroyed, not deferred |
| `Calendar.CivilFromDaysIsRight` | crates/satld/build.rs:94-107 | Every day number becomes a valid Gregorian date whose independent day count is that number (section 5.7 and Appendix C of RFC 3339) |
| `Calendar.DatesRoundTrip` | crates/satld/build.rs:94-107 | Every valid date is the date of its day number: the conversion is a bijection |
| `Calendar.CivilAscends` | crates/satld/build.rs:94-107 | A larger day number is a later date |
| `Calendar.IntermediatesFit` | crates/satld/build.rs:97-99 | No intermediate value leaves the i64 range if the shifted day number does not |
| `Calendar.YearAtPlace` | crates/satld/build.rs:100-102 | The year formula finds the year and the day of year for every day of an era |
| `Calendar.EraAtPlace` | crates/satld/build.rs:98 | The era is the floor quotient although the division truncates |
| `Calendar.CivilInYearIsRight` | crates/satld/build.rs:103-106 | The month formula finds the month and the day for every day of a year that starts in March |
| `Calendar.UtcIsExact` | crates/satld/build.rs:77-90 | The stamp is a valid time of day and names exactly the second it was given |
| `Framing.Encode` | crates/satl-api/src/framing.rs:36-53 | The bytes are the frames of the payload, one after the other |
| `Framing.EncodeLogFrame` | crates/satl-api/src/framing.rs:60-70 | The timestamp and a space travel inside the payload |
| `Framing.FrameCount` | crates/satl-api/src/framing.rs:40-51 | A payload of n bytes takes max(1, ceil(n / max)) frames of its own stream, all full but the last |
| `Framing.Split` | crates/satl-api/src/framing.rs:40-51 | Every frame length fits a u32 |
| `Framing.StreamsRoundTrip` | crates/satl-api/src/framing.rs:36-70 | For any writes and any cutting into chunks, an incremental client of Docker's stream format gets every frame in order, nothing left over, and each stream's bytes exactly |
| `Framing.ChunksDoNotMatter` | crates/satl-api/src/framing.rs:13-14 | However the stream is cut, the client ends in the same state |
| `Framing.FrameOnTheWire` | crates/satl-api/src/framing.rs:42-48 | A frame on the wire is 1 for stdout or 2 for stderr, three zeros, the length with its most significant byte first, and the data |
| `Framing.LengthRoundTrip` | crates/satl-api/src/framing.rs:42-45 | The header's length is read back |
| `Environment.MergeEnv` | crates/satl-agent/src/bundle.rs:260-274 | The in-place loop computes the fold of the overrides with the default PATH; every entry of the image keeps its place and key |
| `Environment.EffectiveValue` | crates/satl-agent/src/bundle.rs:260-274 | Every key resolves to the spec's last entry for it, else the image's first, else the default PATH, else nothing |
| `Environment.MergeOrder` | crates/satl-agent/src/bundle.rs:259-270 | Image entries keep their places, each changed only if it is its key's first and the spec names the key; new keys follow once each in order of first appearance with the spec's last entry |
| `Environment.KeysStayUnique` | crates/satl-agent/src/bundle.rs:260-274 | An image with unique keys gives an environment with unique keys |
| `Environment.Key` | crates/satl-agent/src/bundle.rs:255-257 | The key has no equals sign and is what precedes the first one, or the whole entry |
| `Environment.KeyOfEntry` | crates/satl-agent/src/bundle.rs:255-257 | A key without an equals sign is what its entry gives back |
| `Bundle.PlanMounts` | crates/satl-agent/src/bundle.rs:357-417 | Accepted if and only if no mount has a fault, and then planned one by one; otherwise refused for the first fault |
| `Bundle.PlanDependencies` | crates/satl-agent/src/bundle.rs:557-632 | Accepted if and only if no reference has a fault; one file per reference in order, one tmpfs if there are secrets, one read-only mount per config; otherwise refused for the first fault |
| `Bundle.PlanSecret` | crates/satl-agent/src/bundle.rs:568-586 | One secret: its file, or the first of its faults |
| `Bundle.PlanConfig` | crates/satl-agent/src/bundle.rs:600-630 | One config: its file and its mount, or the first of its faults |
| `Bundle.CallerMountsAreAsAsked` | crates/satl-agent/src/bundle.rs:373-414 | A caller's mount is at its target, read-only if and only if it asks for that, from its own source, its volume's, or a tmpfs open to all |
| `Bundle.TargetsExactly` | crates/satl-agent/src/bundle.rs:488-542 | A secret target is accepted if and only if it is a relative path without ".." that does not begin with "."; a config target, if it is any path without ".."; the refusal names the reason |
| `Bundle.FaultsExactly` | crates/satl-agent/src/bundle.rs:557-632 | A reference is at fault if and only if its target is refused or taken by an earlier one, or an owner is no number; the fault says which |
| `Bundle.PlainTargetsAreAccepted` | crates/satl-agent/src/bundle.rs:488-542 | Every path of plain names is accepted as a target, and is the place that is planned |
| `Bundle.FilesCarryTheirReferences` | crates/satl-agent/src/bundle.rs:568-630 | The file of each reference carries its object, name, mode and owners, root where none is given |
| `Bundle.SecretsAreWhereTheySay` | crates/satl-agent/src/bundle.rs:568-598 | In the jail, the path of a secret below /run/secrets, the mounted tmpfs, leads to its file |
| `Bundle.ConfigMountsShowTheirFiles` | crates/satl-agent/src/bundle.rs:600-630 | Each config is mounted read-only at its reference's target from the very file that was planned for it |
| `Bundle.SecretsFit` | crates/satl-agent/src/bundle.rs:461-463 | The secrets' tmpfs is mounted with a size that holds all of them and 64 KiB more |
| `Bundle.SecretsTmpfsSize` | crates/satl-agent/src/bundle.rs:461-463 | The payloads plus the slack, and at least the floor |
| `Bundle.SecretPathsDistinct` | crates/satl-agent/src/bundle.rs:571-581 | No two secrets of an accepted plan share a file |
| `Bundle.SecretsStayInside` | crates/satl-agent/src/bundle.rs:488-513 | A secret's file lies strictly below rootfs/run/secrets, one plain name per level |
| `Bundle.ConfigPathsDistinct` | crates/satl-agent/src/bundle.rs:610-620 | No two configs of an accepted plan share a file |
| `Bundle.PlanBundleMounts` | crates/satl-agent/src/bundle.rs:652-667 | Accepted if and only if nothing is faulty and no target is claimed twice; the caller's mounts, then the dependencies', all targets distinct, and all places too if the targets are canonical |
| `Bundle.TargetsAreAbsolute` | crates/satl-agent/src/bundle.rs:517-542 | Every mount of an accepted bundle has an absolute target |
| `Bundle.RenderedTargetsAreCanonical` | crates/satl-agent/src/bundle.rs:517-542 | The path that spells out its names is canonical and reads back as them |
| `Bundle.CanonicalBundlesMountEachPlaceOnce` | crates/satl-agent/src/bundle.rs:652-667 | If the caller's and the configs' targets are canonical, an accepted bundle mounts each place once, /run/secrets included |
| `Bundle.OtherSpellingsMountAPlaceTwice` | crates/satl-agent/src/bundle.rs:357-417 | Any accepted caller mount with another than the canonical spelling shares its place with a mount at the canonical one, which is there already or is accepted as one more |
| `Bundle.CallerMountMayHideTheSecrets` | crates/satl-agent/src/bundle.rs:652-667 | For any task with secrets and any accepted caller mounts: one more caller mount at the secrets directory is accepted under any other spelling |
| `Bundle.EveryTargetHasOtherSpellings` | crates/satl-agent/src/bundle.rs:357-417 | A trailing slash, a doubled slash and a step down and up again each give every target another spelling of its place |
| `Bundle.SpellingHidesADuplicate` | crates/satl-agent/src/bundle.rs:602-609 | Every config that is accepted alone is accepted beside a second one for the same place under another spelling |
| `Paths.ComponentsAreNames` | crates/satl-agent/src/bundle.rs:508-512 | Every normal component is a plain name without a slash |
| `Paths.SpellingLeadsThere` | crates/satl-agent/src/bundle.rs:508-512 | The shortest path to the place a path leads to, parent steps resolved, leads to the same place |
| `Decimal.ParseReadsDigits` | crates/satl-agent/src/bundle.rs:467-482 | An owner printed in decimal, with or without a plus sign, is read back if and only if it fits a u32 |
| `Payloads.Store.WritePayloads` | crates/satl-agent/src/materialize.rs:30-48 | File i gets payload i, in order, up to the first error |
| `PayloadWriters.FilledHolds` | crates/satl-agent/src/materialize.rs:30-48 | After a batch of distinct paths every file holds its payload |
| `PayloadWriters.FinishedFills` | crates/satl-agent/src/materialize.rs:66-98 | A writer that goes on to its end alone leaves exactly the files of its batch, whatever was there |
| `Payloads.PlansAreValid` | crates/satl-agent/src/bundle.rs:557-632 | An accepted plan is a sound configuration of the protocol: no two files share a path, if neither the rootfs nor the bundle directory lies inside the other |
| `Payloads.StartedContainersSeeTheirObjects` | crates/satl-agent/src/controller.rs:775-878 | Over every run: when start takes effect, the path of each secret below /run/secrets and the target of each config, through its read-only mount, lead to a file that is there with the bytes of the object that the reference names, unless a leftover writer got in the way |
| `Rctl.PercentIsLeast` | crates/satl-agent/src/rctl.rs:238-245 | The CPU percentage is the least one not below the request, and never zero, if and only if the sum fits an i64 |
| `Rctl.SubjectOf` | crates/satl-agent/src/rctl.rs:523-526 | A rule has a jail subject if and only if its line has that shape |
| `Rctl.OwnRulesAreRecognised` | crates/satl-agent/src/rctl.rs:214-229 | Every rule SatL writes is read back as a rule of its jail |
| `Rctl.OwnRulesReadBack` | crates/satl-agent/src/rctl.rs:214-229 | Read as jail:name:resource:action=amount, a memory rule limits memoryuse by sigkill and a CPU rule pcpu by deny, each for its own jail and with its own amount |
| `Rctl.LineYields` | crates/satl-agent/src/rctl.rs:510-517 | A line yields its rule without the white space around it, and a blank one nothing |
| `Rctl.EitherLineEnd` | crates/satl-agent/src/rctl.rs:510-517 | Line ends with and without a carriage return read alike |
| `Rctl.ListingRoundTrip` | crates/satl-agent/src/rctl.rs:510-517 | Listing and parsing give the rules back in order |
| `Rctl.OrphanSatlJailRules` | crates/satl-agent/src/rctl.rs:538-553 | Exactly the id-shaped subjects without a live prison, sorted, each once |
| `Rctl.PurgeIsExact` | crates/satl-agent/src/rctl.rs:528-537 | An unrefused purge leaves no orphan and loses no rule of a live jail, of a jail whose name is not 25 digits and lower-case letters, or of no jail |
| `Rctl.Node.ApplyLimits` | crates/satl-agent/src/rctl.rs:429-463 | Which rules are added for which limits, and which limits are reported as applied; the CPU rule is not tried once the memory rule failed |
| `Rctl.Node.RemoveLimits` | crates/satl-agent/src/rctl.rs:479-503 | Exactly the rules of one jail go, or nothing on failure or with racct off |
| `Rctl.Node.ListRules` | crates/satl-agent/src/rctl.rs:564-570 | Every rule in order, none with racct off, an error when `rctl` fails |
| `Rctl.Node.PurgeOrphanRules` | crates/satl-agent/src/rctl.rs:594-612 | Fails, changing nothing, exactly when the rules cannot be listed; otherwise returns exactly the orphans whose removal was not refused, sorted, and exactly their rules are gone |

## Left out

- Controller operations: on values rather than as methods, because each is cut at its awaits and other events fall in between; `Protocol` and the manager's loop likewise. Update in place shows in `TaskSet.Worker`, `TaskDb.Database`, `Rctl.Node`, `Payloads.Store` and the health classes.
- ProtocolTheorems.ReportsAreCanonical: assumes that every status write of the record's life succeeded; after a failed write the reports may or may not regress.
- ProtocolTheorems.RulesNeverStack: an upper bound only; after an interrupted prepare or resize rules may be missing, because adoption does not re-apply them, and an `rctl -r` that was left running may remove rules added since. The startup purge of orphan rules is modelled in `Rctl` and not as an event of the protocol.
- Bundle.SecretsTmpfsSize: does not model the u64 overflow of a payload total near the largest u64.
- Rctl.Node.ApplyLimits: for id-shaped jail names, which is what callers pass; the text of errors and the degradation note are not modelled.
- Health.RunProber: the clock and the probe process are given turn by turn; the kill of a probe in flight is not modelled.
- Framing.EncodeLogFrame: the RFC 3339 text of the stamp is a parameter.
- Payload file ownership, mode bits and parent directories: recorded in the plan, not in the file map.
- A config file inside a directory that another config names as a file: refused by the file system, not by the planner.
- Network attachment, published ports, overlay networks, log sinks, volumes, image pulls and layers: no effect on the properties here.
- Liveness (that an awaited operation ends): depends on processes outside the model; what follows once it ends is `ProtocolProgress` and the modules after it.
- CBOR encoding, JSON, tracing, metrics and message wording beyond the status messages: library code or presentation.
- Process planning (`merge_argv`, users, hostnames, platforms), rctl usage parsing and the conversions of the HTTP API.
- The manager, dispatcher, store and scheduler crates: the agent is the core that is modelled.
