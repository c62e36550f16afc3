/** A task that nothing goes wrong with: from the assignment to RUNNING, step by
    step, with everything it publishes and everything it leaves on the node. */
module ProtocolRun {
  import opened TaskStates
  import opened Controller
  import opened PayloadWriters
  import opened Protocol
  import opened ProtocolControl
  import opened ProtocolJail
  import opened ProtocolProgress
  import opened ProtocolResume
  import opened ProtocolPrepare
  import D = DoStep
  import H = Health

  lemma {:induction false} OnsKeepControl(cfg: Config, c: Cell, os: seq<Outcome>)
    requires Control(c)
    ensures Control(Ons(cfg, c, os))
    decreases |os|
  {
    if os != [] && c.manager.Some? && !c.manager.value.pc.Park? {
      TickedKept(cfg, c, c.manager.value, os[0]);
      OnsKeepControl(cfg, On(cfg, c, os[0]), os[1..]);
    }
  }

  /** A cell whose history and status have moved on. */
  function Published(c: Cell, states: seq<TaskState>, calls: seq<D.Call>, advances: nat): Cell
    requires c.disk.Some? && states != []
  {
    c.(disk := Some(c.disk.value.(state := states[|states| - 1])),
       life := c.life.(reports := c.life.reports + states, calls := c.life.calls + calls, advances := advances))
  }

  /** What is published after something else. */
  lemma PublishedOn(c: Cell, c1: Cell, c2: Cell, first: seq<TaskState>, next: seq<TaskState>, calls: seq<D.Call>)
    requires c.disk.Some? && first != [] && next != []
    requires c1 == Published(c, first, [], c1.life.advances).(manager := c1.manager)
    requires c2 == Published(c1, next, calls, c2.life.advances).(res := c2.res, manager := c2.manager)
    ensures c2 == Published(c, first + next, calls, c2.life.advances).(res := c2.res, manager := c2.manager)
  {
    assert c.life.reports + first + next == c.life.reports + (first + next);
    assert c.life.calls + [] == c.life.calls;
  }

  /** A call made after that, or before. */
  lemma CalledOn(c: Cell, c1: Cell, c2: Cell, states: seq<TaskState>, call: D.Call)
    requires c.disk.Some? && states != [] && c1 == Published(c, states, [], c1.life.advances).(manager := c1.manager)
    requires c2 == c1.(life := c1.life.(calls := c1.life.calls + [call]), res := c2.res, manager := c2.manager)
    ensures c2 == Published(c, states, [call], c2.life.advances).(res := c2.res, manager := c2.manager)
  {
    assert c.life.calls + [] == c.life.calls;
  }

  lemma CalledFirst(c: Cell, c1: Cell, c2: Cell, states: seq<TaskState>, call: D.Call)
    requires c.disk.Some? && states != []
    requires c1 == c.(life := c.life.(calls := c.life.calls + [call]), res := c1.res, manager := c1.manager)
    requires c2 == Published(c1, states, [], c2.life.advances).(manager := c2.manager)
    ensures c2 == Published(c, states, [call], c2.life.advances).(res := c2.res, manager := c2.manager)
  {
    assert c1.life.calls + [] == c1.life.calls;
  }

  // ---- Publishing a state --------------------------------------------------

  /** A new state is on disk and reported, and the loop goes on. */
  lemma PublishesState(cfg: Config, c: Cell, m: Manager, os: seq<Outcome>)
    requires c.manager == Some(m) && m.pc == Persist(false) && c.disk.Some? && AllFine(os) && |os| == 2
    ensures var c' := Ons(cfg, c, os);
            c' == Published(c, [m.status], [], c'.life.advances).(manager := Some(m.(pc := Begin)))
  {
    PublishesAndGoesOn(cfg, c, m, false, os[0], os[1]);
    TwoOns(cfg, c, os);
    assert os[2..] == [];
    assert c.life.calls + [] == c.life.calls;
  }

  /** So is one that takes only bookkeeping. */
  lemma MovesOn(cfg: Config, c: Cell, m: Manager, to: TaskState, os: seq<Outcome>)
    requires c.manager == Some(m) && m.pc == Begin && c.disk.Some? && AllFine(os) && |os| == 3
    requires D.Dispatch(m.status, m.task.desired) == D.Move(to)
    ensures var c' := Ons(cfg, c, os);
            c' == Published(c, [to], [], c'.life.advances).(manager := Some(m.(status := to)))
  {
    D.DispatchFits(m.status, m.task.desired);
    D.EdgeClimbs(m.status, to);
    FirstOn(cfg, c, os);
    var m1 := m.(status := to, pc := Persist(false));
    assert On(cfg, c, os[0]) == c.(manager := Some(m1));
    PublishesState(cfg, c.(manager := Some(m1)), m1, os[1..]);
  }

  /** A call begins at its first await. */
  lemma Calls(cfg: Config, c: Cell, m: Manager, o: Outcome)
    requires c.manager == Some(m) && m.pc == Begin
    ensures Homed(m.status, m.task.desired, D.CallPrepare) ==>
              On(cfg, c, o) == c.(life := c.life.(calls := c.life.calls + [D.CallPrepare]), manager := Some(
                m.(pc := Working(InPrepare(PAdopt)))))
    ensures Homed(m.status, m.task.desired, D.CallStart) ==>
              On(cfg, c, o) == c.(life := c.life.(calls := c.life.calls + [D.CallStart]), manager := Some(
                m.(pc := Working(InStart(SAttach)))))
  {
    HomedIsDispatched(m.status, m.task.desired, D.CallPrepare);
    HomedIsDispatched(m.status, m.task.desired, D.CallStart);
  }

  // ---- To READY ------------------------------------------------------------

  predicate WantsToRun(task: TaskDef) { task.desired.WantRunning? || task.desired.WantComplete? }

  /** The states that take only bookkeeping. */
  lemma Bookkeeping(status: TaskState, desired: DesiredState)
    requires desired.WantRunning? || desired.WantComplete?
    ensures status.AtMost(Assigned) ==> D.Dispatch(status, desired) == D.Move(Accepted)
    ensures D.Dispatch(Accepted, desired) == D.Move(Preparing) && D.Dispatch(TaskState.Ready, desired) == D.Move(TaskState.Starting)
  {
  }

  /** From the assignment to PREPARING. */
  lemma GetsToPreparing(cfg: Config, c: Cell, m: Manager, os: seq<Outcome>)
    requires c.manager == Some(m) && m.pc == Begin && m.status.AtMost(Assigned) && WantsToRun(m.task) && c.disk.Some?
    requires AllFine(os) && |os| == 6
    ensures var c' := Ons(cfg, c, os);
            c' == Published(c, [Accepted, Preparing], [], c'.life.advances).(manager := Some(m.(status := Preparing)))
  {
    OnsSplit(cfg, c, os, 3);
    Bookkeeping(m.status, m.task.desired);
    MovesOn(cfg, c, m, Accepted, os[..3]);
    var c1 := Ons(cfg, c, os[..3]);
    assert c1.manager == Some(m.(status := Accepted));
    MovesOn(cfg, c1, c1.manager.value, Preparing, os[3..]);
    PublishedOn(c, c1, Ons(cfg, c, os), [Accepted], [Preparing], []);
    assert [Accepted] + [Preparing] == [Accepted, Preparing];
  }

  /** What a new container has on the node. */
  ghost predicate Furnished(cfg: Config, before: Resources, after: Resources, limits: Limits)
  {
    && after.jail == Created && after.rootfs && !after.bare && after.log == before.log + [DidCreate]
    && after.rules == WithLimits(cfg, before.rules, limits)
    && (forall w | Planned(cfg, w) :: Holds(after.files, w))
  }

  /** From PREPARING without a container to READY. */
  lemma GetsToReady(cfg: Config, c: Cell, m: Manager, os: seq<Outcome>)
    requires cfg.Valid() && Control(c) && c.manager == Some(m) && m.pc == Begin && m.status == Preparing && WantsToRun(m.task)
    requires c.disk.Some? && c.res.jail.Absent? && AllFine(os) && |os| == 1 + PrepareSteps(cfg) + 2
    ensures var c' := Ons(cfg, c, os);
            && c' == Published(c, [TaskState.Ready], [D.CallPrepare], c'.life.advances).(
                       res := c'.res,
                       manager := Some(m.(status := TaskState.Ready, local := m.local.(rootfs := true, pid := true, watch := true))))
            && Furnished(cfg, c.res, c'.res, m.task.Caps())
  {
    var n := 1 + PrepareSteps(cfg);
    OnsSplit(cfg, c, os, n);
    Prepares(cfg, c, m, os[..n]);
    var c1 := Ons(cfg, c, os[..n]);
    PublishesState(cfg, c1, c1.manager.value, os[n..]);
    CalledFirst(c, c1, Ons(cfg, c, os), [TaskState.Ready], D.CallPrepare);
  }

  lemma Prepares(cfg: Config, c: Cell, m: Manager, os: seq<Outcome>)
    requires cfg.Valid() && Control(c) && c.manager == Some(m) && m.pc == Begin && m.status == Preparing && WantsToRun(m.task)
    requires c.res.jail.Absent? && AllFine(os) && |os| == 1 + PrepareSteps(cfg)
    ensures var c' := Ons(cfg, c, os);
            && c' == c.(life := c.life.(calls := c.life.calls + [D.CallPrepare]), res := c'.res, manager := Some(
                 m.(status := TaskState.Ready, pc := Persist(false), local := m.local.(rootfs := true, pid := true, watch := true))))
            && Furnished(cfg, c.res, c'.res, m.task.Caps())
  {
    FirstOn(cfg, c, os);
    Calls(cfg, c, m, os[0]);
    TickedKept(cfg, c, m, os[0]);
    var c1 := On(cfg, c, os[0]);
    PrepareSucceeds(cfg, c1, c1.manager.value, os[1..]);
  }

  // ---- To RUNNING ----------------------------------------------------------

  /** From READY to the health gate. */
  lemma GetsToTheGate(cfg: Config, c: Cell, m: Manager, os: seq<Outcome>)
    requires Control(c) && c.manager == Some(m) && m.pc == Begin && m.status == TaskState.Ready && WantsToRun(m.task)
    requires c.disk.Some? && c.res.jail.Created? && m.local.prober.None? && AllFine(os) && |os| == 9
    ensures var c' := Ons(cfg, c, os);
            && c'.manager.Some?
            && c' == Published(c, [TaskState.Starting], [D.CallStart], c'.life.advances).(
                       res := c.res.(jail := Live, log := c.res.log + [DidStart]), manager := c'.manager)
            && var m' := c'.manager.value;
            && m' == m.(status := TaskState.Starting, pc := Working(InStart(SGate)), local := m'.local)
            && m'.local.pid && m'.local.startedAt == Some(os[6].now)
            && m'.local.prober == (if cfg.probe.Some? then Some([]) else None)
  {
    OnsSplit(cfg, c, os, 3);
    Bookkeeping(m.status, m.task.desired);
    MovesOn(cfg, c, m, TaskState.Starting, os[..3]);
    OnsKeepControl(cfg, c, os[..3]);
    var c1 := Ons(cfg, c, os[..3]);
    StartsToTheGate(cfg, c1, c1.manager.value, os[3..]);
    CalledOn(c, c1, Ons(cfg, c, os), [TaskState.Starting], D.CallStart);
  }

  lemma StartsToTheGate(cfg: Config, c: Cell, m: Manager, os: seq<Outcome>)
    requires Control(c) && c.manager == Some(m) && m.pc == Begin && m.status == TaskState.Starting && WantsToRun(m.task)
    requires c.res.jail.Created? && m.local.prober.None? && AllFine(os) && |os| == 6
    ensures var c' := Ons(cfg, c, os);
            && c'.manager.Some?
            && c' == c.(life := c.life.(calls := c.life.calls + [D.CallStart]),
                        res := c.res.(jail := Live, log := c.res.log + [DidStart]), manager := c'.manager)
            && var m' := c'.manager.value;
            && m' == m.(pc := Working(InStart(SGate)), local := m'.local)
            && m'.local.pid && m'.local.startedAt == Some(os[3].now)
            && m'.local.prober == (if cfg.probe.Some? then Some([]) else None)
  {
    OnsSplit(cfg, c, os, 4);
    CallsAndReleases(cfg, c, m, os[..4]);
    var c2 := Ons(cfg, c, os[..4]);
    var last := os[4..];
    StartComesToTheGate(cfg, c2, c2.manager.value, last[0].now, last[1].now);
    TwoOns(cfg, c2, last);
    assert last[2..] == [];
  }

  lemma CallsAndReleases(cfg: Config, c: Cell, m: Manager, os: seq<Outcome>)
    requires Control(c) && c.manager == Some(m) && m.pc == Begin && m.status == TaskState.Starting && WantsToRun(m.task)
    requires c.res.jail.Created? && AllFine(os) && |os| == 4
    ensures Ons(cfg, c, os) == c.(
              life := c.life.(calls := c.life.calls + [D.CallStart]), res := c.res.(jail := Live, log := c.res.log + [DidStart]),
              manager := Some(m.(pc := Working(InStart(SRelook)), local := m.local.(startedAt := Some(os[3].now)))))
  {
    FirstOn(cfg, c, os);
    Calls(cfg, c, m, os[0]);
    TickedKept(cfg, c, m, os[0]);
    var c1 := On(cfg, c, os[0]);
    Releases(cfg, c1, c1.manager.value, os[1..]);
  }

  /** The prober's result comes in, if the container is probed. */
  ghost function FirstProbed(cfg: Config, c: Cell, result: H.ProbeResult): Cell
  {
    if Enabled(c, Probe(result)) then Next(cfg, c, Probe(result)) else c
  }

  /** From the health gate to RUNNING, with the first probe that passes. */
  lemma GetsToRunning(cfg: Config, c: Cell, m: Manager, result: H.ProbeResult, os: seq<Outcome>)
    requires Control(c) && c.manager == Some(m) && m.pc == Working(InStart(SGate)) && c.disk.Some?
    requires m.local.prober == (if cfg.probe.Some? then Some([]) else None) && result.exitCode == 0
    requires AllFine(os) && |os| == 3
    ensures var c' := Ons(cfg, FirstProbed(cfg, c, result), os);
            && c'.manager.Some?
            && c' == Published(c, [TaskState.Running], [], c'.life.advances).(manager := c'.manager)
            && c'.manager.value == m.(status := TaskState.Running, pc := Begin, local := c'.manager.value.local)
  {
    ProbeComesIn(cfg, c, m, result);
    var c0 := FirstProbed(cfg, c, result);
    GateOpens(cfg, c0, c0.manager.value, result, os[0]);
    FirstOn(cfg, c0, os);
    var c1 := On(cfg, c0, os[0]);
    PublishesState(cfg, c1, c1.manager.value, os[1..]);
  }

  lemma ProbeComesIn(cfg: Config, c: Cell, m: Manager, result: H.ProbeResult)
    requires Control(c) && c.manager == Some(m) && m.local.prober == if cfg.probe.Some? then Some([]) else None
    ensures var c' := FirstProbed(cfg, c, result);
            && c' == c.(manager := Some(m.(local := m.local.(prober := if cfg.probe.Some? then Some([result]) else None))))
            && Control(c')
  {
    assert [] + [result] == [result];
    if cfg.probe.Some? {
      ControlKept(cfg, c, Probe(result));
    }
  }

  lemma GateOpens(cfg: Config, c: Cell, m: Manager, result: H.ProbeResult, o: Outcome)
    requires Control(c) && c.manager == Some(m) && m.pc == Working(InStart(SGate)) && o.Okay?
    requires m.local.prober == (if cfg.probe.Some? then Some([result]) else None) && result.exitCode == 0
    ensures var c' := On(cfg, c, o);
            && c'.manager.Some? && c' == c.(manager := c'.manager)
            && c'.manager.value == m.(status := TaskState.Running, pc := Persist(false), local := c'.manager.value.local)
  {
    if cfg.probe.Some? {
      PassedIsHealthy(cfg.probe.value, m.local, result);
    }
    GateExactly(cfg, c, m, o);
  }

  lemma PassedIsHealthy(settings: H.ProbeSettings, local: Local, result: H.ProbeResult)
    requires local.prober == Some([result]) && result.exitCode == 0
    ensures local.Health(settings).Healthy?
  {
  }

  // ---- The whole way -------------------------------------------------------

  function StepsToReady(cfg: Config): nat { 6 + (1 + PrepareSteps(cfg) + 2) }

  /** From the assignment to READY. */
  lemma BecomesReady(cfg: Config, c: Cell, m: Manager, os: seq<Outcome>)
    requires cfg.Valid() && Control(c) && c.manager == Some(m) && m.pc == Begin && m.status.AtMost(Assigned)
    requires WantsToRun(m.task) && c.disk.Some? && c.res.jail.Absent? && AllFine(os) && |os| == StepsToReady(cfg)
    ensures var c' := Ons(cfg, c, os);
            && c' == Published(c, [Accepted, Preparing, TaskState.Ready], [D.CallPrepare], c'.life.advances).(
                       res := c'.res,
                       manager := Some(m.(status := TaskState.Ready, local := m.local.(rootfs := true, pid := true, watch := true))))
            && Furnished(cfg, c.res, c'.res, m.task.Caps())
  {
    OnsSplit(cfg, c, os, 6);
    GetsToPreparing(cfg, c, m, os[..6]);
    OnsKeepControl(cfg, c, os[..6]);
    var c1 := Ons(cfg, c, os[..6]);
    GetsToReady(cfg, c1, c1.manager.value, os[6..]);
    PublishedOn(c, c1, Ons(cfg, c, os), [Accepted, Preparing], [TaskState.Ready], [D.CallPrepare]);
    assert [Accepted, Preparing] + [TaskState.Ready] == [Accepted, Preparing, TaskState.Ready];
  }

  /** What a successful start adds. */
  predicate Started(c: Cell, c': Cell)
    requires c.disk.Some?
  {
    && c'.manager.Some? && c'.manager.value.pc == Begin && c'.manager.value.status == TaskState.Running
    && c'.disk == Some(c.disk.value.(state := TaskState.Running))
    && c'.res == c.res.(jail := Live, log := c.res.log + [DidStart])
    && c'.life.reports == c.life.reports + [TaskState.Starting, TaskState.Running]
    && c'.life.calls == c.life.calls + [D.CallStart]
  }

  /** From there, with the first probe that passes if the container is probed, to
      RUNNING. */
  lemma BecomesRunning(cfg: Config, c: Cell, m: Manager, os: seq<Outcome>, result: H.ProbeResult, os': seq<Outcome>)
    requires Control(c) && c.manager == Some(m) && m.pc == Begin && m.status == TaskState.Ready && WantsToRun(m.task)
    requires c.disk.Some? && c.res.jail.Created? && m.local.prober.None?
    requires AllFine(os) && |os| == 9 && result.exitCode == 0 && AllFine(os') && |os'| == 3
    ensures Started(c, Ons(cfg, FirstProbed(cfg, Ons(cfg, c, os), result), os'))
  {
    GetsToTheGate(cfg, c, m, os);
    OnsKeepControl(cfg, c, os);
    var gate := Ons(cfg, c, os);
    GetsToRunning(cfg, gate, gate.manager.value, result, os');
    assert gate.life.reports + [TaskState.Running] == c.life.reports + [TaskState.Starting, TaskState.Running];
    assert gate.life.calls + [] == gate.life.calls;
  }

  /** READY, and RUNNING, with all that the task has published and has on the node. */
  ghost predicate UpAndReady(cfg: Config, before: Resources, c: Cell, task: TaskDef)
  {
    && c.manager.Some? && c.manager.value.pc == Begin && c.manager.value.status == TaskState.Ready
    && c.manager.value.task == task && c.manager.value.local.prober.None?
    && c.disk == Some(Record(task, TaskState.Ready))
    && c.life.reports == [Accepted, Preparing, TaskState.Ready] && c.life.calls == [D.CallPrepare]
    && c.res.jail == Created && c.res.log == before.log + [DidCreate] && Provided(cfg, before, c.res, task)
  }

  ghost predicate UpAndRunning(cfg: Config, before: Resources, c: Cell, task: TaskDef)
  {
    && c.manager.Some? && c.manager.value.pc == Begin && c.manager.value.status == TaskState.Running
    && c.disk == Some(Record(task, TaskState.Running))
    && c.life.reports == [Accepted, Preparing, TaskState.Ready, TaskState.Starting, TaskState.Running]
    && c.life.calls == [D.CallPrepare, D.CallStart]
    && c.res.jail == Live && c.res.log == before.log + [DidCreate, DidStart] && Provided(cfg, before, c.res, task)
  }

  ghost predicate Provided(cfg: Config, before: Resources, after: Resources, task: TaskDef)
  {
    && after.rootfs
    && after.rules.memory == before.rules.memory + MemoryLimit(cfg, task)
    && after.rules.cpu == before.rules.cpu + CpuLimit(cfg, task)
    && (forall w | Planned(cfg, w) :: Holds(after.files, w))
  }

  /** A task that is assigned to a node that has nothing of it, and that nothing goes
      wrong with: after exactly the steps its payloads take, and the first probe that
      passes if it has a healthcheck, it is RUNNING, on disk and as reported, state
      after state; its container has been created and started once, every secret
      and config holds its payload, and its rules are those of its limits. */
  lemma UndisturbedTaskRuns(
    cfg: Config, c: Cell, task: TaskDef, seed: TaskState, os: seq<Outcome>, os': seq<Outcome>, result: H.ProbeResult,
    os'': seq<Outcome>)
    requires cfg.Valid() && Control(c) && c.up && c.manager.None? && c.disk.None? && c.res.jail.Absent?
    requires WantsToRun(task) && seed.AtMost(Assigned) && result.exitCode == 0
    requires AllFine(os) && AllFine(os') && AllFine(os'') && |os| == StepsToReady(cfg) && |os'| == 9 && |os''| == 3
    ensures Enabled(c, Assign(task, seed, true))
    ensures var ready := Ons(cfg, Next(cfg, c, Assign(task, seed, true)), os);
            UpAndRunning(cfg, c.res, Ons(cfg, FirstProbed(cfg, Ons(cfg, ready, os'), result), os''), task)
  {
    AssignedIsReady(cfg, c, task, seed, os);
    var c1 := Ons(cfg, Next(cfg, c, Assign(task, seed, true)), os);
    RunsFromReady(cfg, c.res, c1, task, os', result, os'');
  }

  lemma RunsFromReady(
    cfg: Config, before: Resources, c: Cell, task: TaskDef, os: seq<Outcome>, result: H.ProbeResult, os': seq<Outcome>)
    requires Control(c) && UpAndReady(cfg, before, c, task) && WantsToRun(task) && result.exitCode == 0
    requires AllFine(os) && |os| == 9 && AllFine(os') && |os'| == 3
    ensures UpAndRunning(cfg, before, Ons(cfg, FirstProbed(cfg, Ons(cfg, c, os), result), os'), task)
  {
    BecomesRunning(cfg, c, c.manager.value, os, result, os');
    assert before.log + [DidCreate] + [DidStart] == before.log + [DidCreate, DidStart];
  }

  lemma AssignedIsReady(cfg: Config, c: Cell, task: TaskDef, seed: TaskState, os: seq<Outcome>)
    requires cfg.Valid() && Control(c) && c.up && c.manager.None? && c.disk.None? && c.res.jail.Absent?
    requires WantsToRun(task) && seed.AtMost(Assigned) && AllFine(os) && |os| == StepsToReady(cfg)
    ensures Enabled(c, Assign(task, seed, true))
    ensures var c' := Ons(cfg, Next(cfg, c, Assign(task, seed, true)), os);
            Control(c') && UpAndReady(cfg, c.res, c', task)
  {
    ControlKept(cfg, c, Assign(task, seed, true));
    var c0 := Next(cfg, c, Assign(task, seed, true));
    BecomesReady(cfg, c0, c0.manager.value, os);
    OnsKeepControl(cfg, c0, os);
    LimitsOfTask(cfg, c.res.rules, task);
  }

  lemma LimitsOfTask(cfg: Config, rules: Rules, task: TaskDef)
    ensures var after := WithLimits(cfg, rules, task.Caps());
            after.memory == rules.memory + MemoryLimit(cfg, task) && after.cpu == rules.cpu + CpuLimit(cfg, task)
  {
  }

  /** The rules of a task's limits: one for each that is positive, none without. */
  function MemoryLimit(cfg: Config, task: TaskDef): seq<int>
  {
    if cfg.racct && task.limits.Some? && task.limits.value.memory > 0 then [task.limits.value.memory] else []
  }

  function CpuLimit(cfg: Config, task: TaskDef): seq<int>
  {
    if cfg.racct && task.limits.Some? && task.limits.value.nanoCpus > 0 then [Percent(task.limits.value.nanoCpus)] else []
  }
}
