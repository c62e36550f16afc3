/** One task on one node, as a step system with cancellation and crashes
    (`satl-agent/src/worker.rs`, `task_manager.rs`).

    A `Cell` is everything that concerns one task id: the record on disk, the
    task manager's loop with its command queue and the await its in-flight
    operation stands at, the node's resources, and a history of the current
    record's life. */
module Protocol {
  import opened TaskStates
  import opened Controller
  import D = DoStep
  import H = Health

  /** The parts of a task definition that an update may change. */
  datatype TaskDef = TaskDef(desired: DesiredState, limits: Option<Limits>, reservations: Option<Limits>) {
    /** The limits in force; none given is none at all. */
    function Caps(): Limits { if limits.Some? then limits.value else Limits(0, 0) }

    predicate SameResources(other: TaskDef) { limits == other.limits && reservations == other.reservations }
  }

  datatype Record = Record(task: TaskDef, state: TaskState)

  /** History of one record, from its first `put_task` to its deletion. */
  datatype Life = Life(
    birth: nat,                 // length of the runtime log when the record was created
    inherited: Rules,           // the rctl rules that named this jail then and were not cleared late since
    removal: bool,              // a removal of this record has begun
    writesOk: bool,             // every status write so far succeeded
    advances: nat,              // status writes that changed the state on disk
    reports: seq<TaskState>,    // states handed to the reporter
    calls: seq<D.Call>,         // prepare, start and wait calls made
    leftovers: bool,            // a dropped step, of this life or an earlier one, has left a payload writer at work
    bundleLost: bool,           // the bundle was deleted under a created jail
    lateRule: bool,             // an overtaken `rctl -a` took effect
    overrun: bool               // a start of an earlier life took effect, or a create left running took effect
                                // once the removal had begun
  )

  datatype Command = Update(task: TaskDef) | Remove | Close

  /** Where the loop of `run` stands. */
  datatype Pc =
    | Begin                     // about to poll `do_step`
    | Working(op: OpPc)         // a controller operation is in flight
    | Persist(retry: bool)      // in `put_status`
    | Report(retry: bool)       // in the reporter
    | Backoff                   // the retry timer
    | Park                      // waiting for a command
    | Removing(remove: RemovePc)
  {
    /** Whether the loop is racing its step, its timer or its park against the
        command queue. */
    predicate Interruptible() { Begin? || Working? || Backoff? || Park? }
  }

  datatype Manager = Manager(
    handle: DesiredState,       // the worker's handle: highest desired state accepted
    queue: seq<Command>,
    leaving: bool,              // the worker has taken the handle out of its map
    task: TaskDef,
    status: TaskState,
    pc: Pc,
    local: Local)

  datatype Cell = Cell(
    up: bool,                   // `init_from_disk` has run since the last crash
    disk: Option<Record>,
    res: Resources,
    manager: Option<Manager>,
    life: Life)

  const NoLife := Life(0, NoRules, false, true, 0, [], [], false, false, false, false)

  /** A node that has never heard of the task. */
  const Fresh := Cell(true, None, NoResources, None, NoLife)

  // ---- Steps ---------------------------------------------------------------

  datatype Event =
    | Assign(task: TaskDef, seed: TaskState, ok: bool)      // Worker::apply
    | Unassign                                              // Worker::remove
    | CloseDown                                             // Worker::shutdown
    | Crash                                                 // the daemon dies
    | Init(read: bool, listed: bool, query: bool)           // init_from_disk; a corrupt record is not read
    | Interrupt                                             // the command arm wins
    | Tick(outcome: Outcome)                                // the awaited operation ends
    | ContainerExits
    | Probe(result: H.ProbeResult)                          // the prober folds a result in
    | StrayStep(i: nat, ok: bool)                           // a dropped step's writer goes on, or fails
    | OrphanEnds(x: Orphan, ok: bool)                       // a command left running takes effect, or fails

  /** Worker calls are serialized: while a manager is being removed or closed
      no other call for its task arrives.  Tasks are assigned at or below
      ASSIGNED. */
  predicate Enabled(c: Cell, e: Event)
  {
    match e
    case Assign(_, seed, _) => c.up && seed.AtMost(Assigned) && (c.manager.Some? ==> !c.manager.value.leaving)
    case Unassign => c.up && (c.manager.Some? ==> !c.manager.value.leaving)
    case CloseDown => c.up && c.manager.Some? && !c.manager.value.leaving
    case Crash => true
    case Init(_, _, _) => !c.up
    case Interrupt => c.manager.Some? && c.manager.value.queue != [] && c.manager.value.pc.Interruptible()
    case Tick(_) => c.manager.Some? && !c.manager.value.pc.Park?
    case ContainerExits => c.res.jail.HasPid()
    case Probe(_) => c.manager.Some? && c.manager.value.local.prober.Some?
    case StrayStep(i, _) => i < |c.res.stray| && c.res.stray[i].Running()
    case OrphanEnds(x, _) => c.res.orphans.Has(x)
  }

  function Next(cfg: Config, c: Cell, e: Event): Cell
    requires Enabled(c, e)
  {
    match e
    case Assign(task, seed, ok) => if ok then Applied(c, task, seed) else c
    case Unassign => Unassigned(c)
    case CloseDown => c.(manager := Some(Told(c.manager.value, Close)))
    case Crash => Crashed(c)
    case Init(read, listed, query) => if read then Initialized(c, listed, query) else c.(up := true)
    case Interrupt => Commanded(c, c.manager.value)
    case Tick(outcome) => Ticked(cfg, c, c.manager.value, outcome)
    case ContainerExits => c.(res := c.res.(jail := Stopped))
    case Probe(result) => c.(manager := Some(ProbeRecorded(c.manager.value, result)))
    case StrayStep(i, ok) => c.(res := StrayMoved(c.res, i, ok))
    case OrphanEnds(x, ok) => if ok then OrphanLanded(cfg, c, x) else OrphanLost(c, x)
  }

  /** The writers at work for this task: leftover ones, then the step's own. */
  function Crew(c: Cell): seq<Writer>
  {
    c.res.stray + if c.manager.Some? && c.manager.value.pc.Working? then WriterOf(c.manager.value.pc.op) else []
  }

  predicate AtWork(writers: seq<Writer>) { exists i :: 0 <= i < |writers| && writers[i].Running() }

  /** The daemon dies, and its writers with it; commands it has launched go on. */
  function Crashed(c: Cell): Cell
  {
    c.(up := false, manager := None,
       res := c.res.(stray := [], spoiled := c.res.spoiled + CutAll(Crew(c)),
                     orphans := if c.manager.Some? then LeftRunning(c.res.orphans, c.manager.value) else c.res.orphans))
  }

  /** The commands left running, with the one the manager is waiting for. */
  function LeftRunning(orphans: Orphans, m: Manager): Orphans
  {
    match m.pc
    case Working(op) => Abandoned(orphans, m.task.Caps(), op)
    case Removing(XLimits) => orphans.(clears := orphans.clears + 1)
    case _ => orphans
  }

  /** A command left running takes effect in the life it finds. */
  function OrphanLanded(cfg: Config, c: Cell, x: Orphan): Cell
    requires c.res.orphans.Has(x)
  {
    c.(res := Landed(cfg, c.res, x),
       life := c.life.(inherited := if x.RuleClear? then Cleared(cfg, c.life.inherited) else c.life.inherited,
                       lateRule := c.life.lateRule || (x.IsAdd() && x.late && cfg.racct),
                       overrun := c.life.overrun || Overruns(c, x)))
  }

  predicate Overruns(c: Cell, x: Orphan)
  {
    || (x.JailCreate? && c.res.jail.Absent? && c.life.removal)
    || (x.JailStart? && x.late && c.res.jail.Created?)
  }

  function OrphanLost(c: Cell, x: Orphan): Cell
    requires c.res.orphans.Has(x)
  {
    c.(res := c.res.(orphans := c.res.orphans.Without(x)))
  }

  function ProbeRecorded(m: Manager, result: H.ProbeResult): Manager
    requires m.local.prober.Some?
  {
    m.(local := m.local.(prober := Some(m.local.prober.value + [result])))
  }

  // ---- Worker --------------------------------------------------------------

  function Spawned(task: TaskDef, status: TaskState, pc: Pc, local: Local): Manager
  {
    Manager(task.desired, [], false, task, status, pc, local)
  }

  /** The worker gives up its handle with one last command. */
  function Told(m: Manager, command: Command): Manager
  {
    m.(queue := m.queue + [command], leaving := true)
  }

  /** `Worker::apply` with a successful `put_task`: the definition is replaced,
      a status already on disk stays, and a live manager gets the update unless
      it would move its desired state backwards. */
  function Applied(c: Cell, task: TaskDef, seed: TaskState): Cell
  {
    var record := Record(task, if c.disk.Some? then c.disk.value.state else seed);
    var c := if c.disk.Some? then c else c.(life := Born(c.res), res := c.res.(orphans := c.res.orphans.Outlive()));
    c.(disk := Some(record), manager := Some(
         if c.manager.None? then Spawned(task, record.state, Begin, FreshLocal)
         else Updated(c.manager.value, task)))
  }

  /** `TaskManager::update`. */
  function Updated(m: Manager, task: TaskDef): Manager
  {
    if task.desired.Rank() < m.handle.Rank() then m
    else m.(handle := task.desired, queue := m.queue + [Update(task)])
  }

  function Born(res: Resources): Life
  {
    Life(|res.log|, res.rules, false, true, 0, [], [], AtWork(res.stray), false, false, false)
  }

  /** `Worker::remove`: tell the manager, or clean up from the record. */
  function Unassigned(c: Cell): Cell
  {
    if c.manager.Some? then c.(manager := Some(Told(c.manager.value, Command.Remove)))
    else if c.disk.None? then c
    else c.(manager := Some(Remover(c.disk.value)), life := c.life.(removal := true))
  }

  /** A fresh controller that only removes (`remove_record`). */
  function Remover(record: Record): Manager
  {
    Spawned(record.task, record.state, Removing(XStop), FreshLocal).(leaving := true)
  }

  datatype Resume = ResumeRemove | Reattach | DiedWhileDown | Replay

  /** `resume_decision`; `live` is whether ocijail answered with a jail that is
      not stopped and has a process id. */
  function ResumeDecision(listed: bool, state: TaskState, live: bool): Resume
  {
    if !listed then ResumeRemove
    else if state.IsTerminal() then Replay
    else if state == TaskState.Running then (if live then Reattach else DiedWhileDown)
    else Replay
  }

  /** `init_from_disk` for this record.  The FAILED status of a container that
      died while the daemon was down is persisted and reported before the new
      manager does anything else. */
  function Initialized(c: Cell, listed: bool, query: bool): Cell
  {
    var c := c.(up := true);
    if c.disk.None? then c
    else
      var r := c.disk.value;
      match ResumeDecision(listed, r.state, query && c.res.jail.HasPid())
      case ResumeRemove => c.(manager := Some(Remover(r)), life := c.life.(removal := true))
      case Reattach =>
        c.(manager := Some(Spawned(r.task, r.state, Begin, FreshLocal.(pid := true, watch := true))))
      case DiedWhileDown => c.(manager := Some(Spawned(r.task, Failed, Persist(false), FreshLocal)))
      case Replay => c.(manager := Some(Spawned(r.task, r.state, Begin, FreshLocal)))
  }

  // ---- The command arm -----------------------------------------------------

  function Commanded(c: Cell, m: Manager): Cell
    requires m.queue != []
  {
    Obeyed(Dropped(c, m), m.(pc := Begin))
  }

  /** Drop the in-flight step: its writer and its command go on without it. */
  function Dropped(c: Cell, m: Manager): Cell
  {
    var writers := if m.pc.Working? then WriterOf(m.pc.op) else [];
    c.(res := c.res.(stray := c.res.stray + writers, orphans := LeftRunning(c.res.orphans, m)),
       life := c.life.(leftovers := c.life.leftovers || AtWork(writers)),
       manager := Some(m.(pc := Begin)))
  }

  /** Apply the next command. */
  function Obeyed(c: Cell, m: Manager): Cell
    requires m.queue != []
  {
    var rest := m.(queue := m.queue[1..]);
    match m.queue[0]
    case Update(task) => c.(manager := Some(Adopting(rest, task)))
    case Remove => c.(manager := Some(rest.(pc := Removing(XStop))), life := c.life.(removal := true))
    case Close => c.(manager := None)
  }

  /** `apply_command` for an update: drop a regression, otherwise take the new
      definition and note a resize for the controller. */
  function Adopting(m: Manager, task: TaskDef): Manager
  {
    if task.desired.Rank() < m.task.desired.Rank() then m
    else m.(task := task,
            local := m.local.(resize := m.local.resize || !task.SameResources(m.task)))
  }

  // ---- The step arm --------------------------------------------------------

  function Ticked(cfg: Config, c: Cell, m: Manager, o: Outcome): Cell
    requires !m.pc.Park?
  {
    match m.pc
    case Begin => Dispatched(c, m, D.Dispatch(m.status, m.task.desired))
    case Working(op) => Effected(c, m, op.Call(), Stepped(cfg, c.res, m.local, m.task.Caps(), op, o))
    case Persist(retry) => Persisted(c, m, retry, o.Okay?)
    case Report(retry) => Reported(c, m, retry)
    case Backoff => c.(manager := Some(m.(pc := Begin)))
    case Removing(pc) => Removed(cfg, c, m, pc, o)
  }

  /** The first poll of `do_step`: it runs up to its first await. */
  function Dispatched(c: Cell, m: Manager, action: D.Action): Cell
  {
    match action
    case Idle => c.(manager := Some(m.(pc := Park)))
    case Move(to) => c.(manager := Some(Settled(m, D.Transition(m.status, to))))
    case Invoke(call) =>
      var c := if call.CallShutdown? then c else c.(life := c.life.(calls := c.life.calls + [call]));
      Effected(c, m, call, Opened(call, c.res, m.local))
  }

  /** Take the effect of one step of an operation; its reply ends `do_step`. */
  function Effected(c: Cell, m: Manager, call: D.Call, e: Effect): Cell
  {
    var m := m.(local := e.local);
    c.(res := e.res, manager := Some(
         match e.onward
         case Goto(op) => m.(pc := Working(op))
         case Answer(reply) => Settled(m, D.Conclude(m.status, call, reply))))
  }

  /** Take a verdict of `do_step`: publish it, retry, or park. */
  function Settled(m: Manager, verdict: D.Verdict): Manager
  {
    match verdict
    case Advanced(state) => m.(status := state, pc := Persist(false))
    case Retry => m.(pc := Persist(true))
    case Noop => m.(pc := Park)
  }

  /** `put_status`: a record that is gone is not recreated. */
  function Persisted(c: Cell, m: Manager, retry: bool, ok: bool): Cell
  {
    var c := c.(manager := Some(m.(pc := Report(retry))));
    if !ok then c.(life := c.life.(writesOk := false))
    else if c.disk.None? then c
    else
      c.(disk := Some(c.disk.value.(state := m.status)),
         life := c.life.(advances := c.life.advances + if c.disk.value.state == m.status then 0 else 1))
  }

  /** Hand the status to the reporter; a retry then waits for its timer. */
  function Reported(c: Cell, m: Manager, retry: bool): Cell
  {
    c.(life := c.life.(reports := c.life.reports + [m.status]),
       manager := Some(m.(pc := if retry then Backoff else Begin)))
  }

  /** One step of the tail of `run`, or of `remove_record`. */
  function Removed(cfg: Config, c: Cell, m: Manager, pc: RemovePc, o: Outcome): Cell
  {
    if pc.XRecord? then
      c.(manager := None, disk := if o.Okay? then None else c.disk)
    else
      var local := m.local.(prober := None, exit := if pc.XStop? then Harvested(c.res, m.local, o) else m.local.exit);
      c.(res := RemoveTick(cfg, c.res, pc, o),
         life := c.life.(bundleLost := c.life.bundleLost || (pc.XBundle? && o.Okay? && c.res.jail.Created?)),
         manager := Some(m.(pc := Removing(AfterRemoval(pc)), local := local)))
  }

  // ---- Runs ----------------------------------------------------------------

  ghost predicate Runs(cfg: Config, c: Cell, events: seq<Event>)
    decreases |events|
  {
    events != [] ==> Enabled(c, events[0]) && Runs(cfg, Next(cfg, c, events[0]), events[1..])
  }

  ghost function After(cfg: Config, c: Cell, events: seq<Event>): Cell
    requires Runs(cfg, c, events)
    decreases |events|
  {
    if events == [] then c else After(cfg, Next(cfg, c, events[0]), events[1..])
  }
}
