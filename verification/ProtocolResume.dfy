/** What startup, removal, closing and an update make of a task. */
module ProtocolResume {
  import opened TaskStates
  import opened Controller
  import opened Protocol
  import opened ProtocolControl
  import opened ProtocolJail
  import opened ProtocolProgress
  import D = DoStep

  // ---- Startup -------------------------------------------------------------

  /** A RUNNING record whose container has a process, after a restart: the task is
      driven at RUNNING with pid and exit watch, nothing is started or created, and
      its second step waits for the container, probing it anew if it has a
      healthcheck. */
  lemma ReattachedTaskIsWaitedFor(cfg: Config, c: Cell, o: Outcome, now: int)
    requires !c.up && c.disk.Some? && c.disk.value.state == TaskState.Running && c.res.jail.HasPid()
    requires c.disk.value.task.desired.WantRunning? || c.disk.value.task.desired.WantComplete?
    ensures Enabled(c, Init(true, true, true))
    ensures var c1 := Next(cfg, c, Init(true, true, true));
            && c1.manager.Some? && c1.manager.value.pc == Begin
            && var c2 := On(cfg, c1, o);
            && c2.manager.Some? && c2.manager.value.pc.Working?
            && var c3 := On(cfg, c2, Okay(now));
            && Waiting(c3) && c3.manager.value.local.pid && c3.manager.value.local.exit.None?
            && c3.manager.value.local.prober == (if cfg.probe.Some? then Some([]) else None)
            && c3.manager.value.task == c.disk.value.task
            && c3.disk == c.disk && c3.res == c.res
  {
    var c1 := Reattached(c);
    assert Next(cfg, c, Init(true, true, true)) == c1;
    WaitOpens(cfg, c1, c1.manager.value, o);
    var c2 := On(cfg, c1, o);
    WaitComes(cfg, c2, c2.manager.value, now);
  }

  function Reattached(c: Cell): Cell
    requires c.disk.Some?
  {
    c.(up := true, manager := Some(Manager(
         c.disk.value.task.desired, [], false, c.disk.value.task, TaskState.Running, Begin,
         Local(true, true, None, false, false, None, None))))
  }

  lemma WaitOpens(cfg: Config, c: Cell, m: Manager, o: Outcome)
    requires c.manager == Some(m) && m.pc == Begin && m.status == TaskState.Running && m.local.exit.None?
    requires m.task.desired.WantRunning? || m.task.desired.WantComplete?
    ensures On(cfg, c, o) == c.(life := c.life.(calls := c.life.calls + [D.CallWait]), manager := Some(
              m.(pc := Working(InWait(if m.local.resize then WUsage else WProber)), local := m.local.(resize := false))))
  {
    HomedIsDispatched(m.status, m.task.desired, D.CallWait);
  }

  lemma WaitComes(cfg: Config, c: Cell, m: Manager, now: int)
    requires c.manager == Some(m) && m.pc == Working(InWait(WProber))
    ensures var c' := On(cfg, c, Okay(now));
            && c'.manager.Some? && c' == c.(manager := c'.manager)
            && var local := c'.manager.value.local;
            && c'.manager.value == m.(pc := Working(InWait(WWait)), local := local)
            && local == m.local.(prober := local.prober, startedAt := local.startedAt)
            && local.prober == (if m.local.prober.Some? || cfg.probe.None? then m.local.prober else Some([]))
  {
  }

  /** A RUNNING record whose container has no process, or about which the runtime
      gives no answer: the task is FAILED, on disk if that write succeeds and
      reported in any case, and then parked; its resources stay as they are. */
  lemma DeadTaskIsFailed(cfg: Config, c: Cell, query: bool, os: seq<Outcome>)
    requires !c.up && c.disk.Some? && c.disk.value.state == TaskState.Running && !(query && c.res.jail.HasPid())
    requires |os| == 3
    ensures Enabled(c, Init(true, true, query))
    ensures var c1 := Next(cfg, c, Init(true, true, query));
            && c1.manager.Some? && c1.manager.value.pc == Persist(false)
            && var c2 := On(cfg, c1, os[0]);
            && c2.manager.Some? && c2.manager.value.pc == Report(false)
            && var c3 := On(cfg, c2, os[1]);
            && c3.manager.Some? && c3.manager.value.pc == Begin && c3.manager.value.status == Failed
            && c3.disk == Some(if os[0].Okay? then c.disk.value.(state := Failed) else c.disk.value)
            && c3.life.reports == c.life.reports + [Failed] && c3.life.calls == c.life.calls && c3.res == c.res
            && On(cfg, c3, os[2]) == c3.(manager := Some(c3.manager.value.(pc := Park)))
  {
    var c1 := Next(cfg, c, Init(true, true, query));
    PublishesAndGoesOn(cfg, c1, c1.manager.value, false, os[0], os[1]);
    var c3 := On(cfg, On(cfg, c1, os[0]), os[1]);
    FinishedParks(cfg, c3, c3.manager.value, os[2]);
  }

  lemma FinishedParks(cfg: Config, c: Cell, m: Manager, o: Outcome)
    requires c.manager == Some(m) && m.pc == Begin && Complete.AtMost(m.status)
    ensures On(cfg, c, o) == c.(manager := Some(m.(pc := Park)))
  {
    D.IdleExactlyWhenParked(m.status, m.task.desired);
  }

  /** Any other record that is still assigned: the task is driven from the state on
      disk, with a controller that remembers nothing.  It parks if it is finished or
      has what is wanted of it; otherwise its first step is the call of its state or
      its next bookkeeping move. */
  lemma OthersAreResumed(cfg: Config, c: Cell, query: bool, o: Outcome)
    requires !c.up && c.disk.Some? && c.disk.value.state != TaskState.Running
    ensures Enabled(c, Init(true, true, query))
    ensures var c1 := Next(cfg, c, Init(true, true, query));
            var state, desired := c.disk.value.state, c.disk.value.task.desired;
            && c1.up && c1.disk == c.disk && c1.res == c.res && c1.life == c.life
            && c1.manager.Some? && c1.manager.value.pc == Begin && c1.manager.value.status == state
            && c1.manager.value.task == c.disk.value.task && c1.manager.value.local.exit.None?
            && !c1.manager.value.local.watch
            && var c2 := On(cfg, c1, o);
            && c2.manager.Some? && c2.res == c.res && c2.disk == c.disk
            && match D.Dispatch(state, desired)
               case Idle => c2.manager.value.pc == Park && c2.manager.value.status == state
               case Move(to) => c2.manager.value.pc == Persist(false) && c2.manager.value.status == to
               case Invoke(call) =>
                 && c2.manager.value.pc.Working? && c2.manager.value.pc.op.Call() == call
                 && c2.manager.value.status == state
  {
    var c1 := Next(cfg, c, Init(true, true, query));
    D.DispatchFits(c.disk.value.state, c.disk.value.task.desired);
    FirstStep(cfg, c1, c1.manager.value, o);
  }

  lemma FirstStep(cfg: Config, c: Cell, m: Manager, o: Outcome)
    requires c.manager == Some(m) && m.pc == Begin && m.local.exit.None?
    ensures var c' := On(cfg, c, o);
            && c'.manager.Some? && c'.res == c.res && c'.disk == c.disk
            && match D.Dispatch(m.status, m.task.desired)
               case Idle => c'.manager.value.pc == Park && c'.manager.value.status == m.status
               case Move(to) => c'.manager.value.pc == Persist(false) && c'.manager.value.status == to
               case Invoke(call) =>
                 && c'.manager.value.pc.Working? && c'.manager.value.pc.op.Call() == call
                 && c'.manager.value.status == m.status
  {
    D.DispatchFits(m.status, m.task.desired);
    match D.Dispatch(m.status, m.task.desired)
    case Idle =>
    case Move(to) => D.EdgeClimbs(m.status, to);
    case Invoke(call) =>
  }

  /** A record that is no longer assigned is removed, and one that cannot be read is
      left alone. */
  lemma UnassignedRecordsAreRemoved(cfg: Config, c: Cell, query: bool)
    requires !c.up && c.disk.Some?
    ensures Enabled(c, Init(true, false, query)) && Enabled(c, Init(false, true, query))
    ensures var c' := Next(cfg, c, Init(true, false, query));
            && c'.manager.Some? && c'.manager.value.pc == Removing(XStop) && c'.manager.value.leaving
            && c'.disk == c.disk && c'.res == c.res && c'.life == c.life.(removal := true)
    ensures Next(cfg, c, Init(false, true, query)) == c.(up := true)
  {
  }

  // ---- Removal -------------------------------------------------------------

  /** The awaited operations end like this, one after the other. */
  ghost function Ons(cfg: Config, c: Cell, os: seq<Outcome>): Cell
    decreases |os|
  {
    if os == [] || c.manager.None? || c.manager.value.pc.Park? then c else Ons(cfg, On(cfg, c, os[0]), os[1..])
  }

  /** The worker's `remove`: a live manager is told, a record without one is
      removed at once, and without a record there is nothing to do. */
  lemma RemovalBegins(cfg: Config, c: Cell)
    requires Enabled(c, Unassign)
    ensures var c' := Next(cfg, c, Unassign);
            && c'.disk == c.disk && c'.res == c.res
            && (c.manager.Some? ==>
                  c'.manager == Some(c.manager.value.(leaving := true, queue := c.manager.value.queue + [Command.Remove])))
            && (c.manager.None? && c.disk.Some? ==> c'.manager.Some? && c'.manager.value.pc == Removing(XStop))
            && (c.manager.None? && c.disk.None? ==> c' == c)
  {
  }

  /** A manager that comes to its removal drops its step; one that comes to its
      closing is gone, and leaves record, jail, files and rules as they are. */
  lemma CommandsEndTheLoop(cfg: Config, c: Cell, m: Manager)
    requires c.manager == Some(m) && m.queue != [] && m.pc.Interruptible() && !m.queue[0].Update?
    ensures Enabled(c, Interrupt)
    ensures var c' := Next(cfg, c, Interrupt);
            && c'.disk == c.disk && c'.up == c.up
            && c'.res == c.res.(stray := c'.res.stray, orphans := c'.res.orphans)
            && (m.queue[0].Close? ==> c'.manager == None && c'.life.removal == c.life.removal)
            && (m.queue[0].Remove? ==> c'.manager.Some? && c'.manager.value.pc == Removing(XStop) && c'.life.removal)
  {
  }

  /** It stops probing, and notes the exit that its stop brings about. */
  lemma RemovalStops(cfg: Config, c: Cell, m: Manager, o: Outcome)
    requires c.manager == Some(m) && m.pc == Removing(XStop)
    ensures On(cfg, c, o) == c.(manager := Some(m.(
              pc := Removing(XLimits), local := m.local.(prober := None, exit := ExitAfter(c.res.jail, m.local, o)))))
  {
  }

  /** A removal takes its six steps whatever goes wrong, and each step that
      succeeds takes away exactly what it stands for: the rules, the jail with its
      secrets, the rootfs, the bundle with its configs, and the record. */
  lemma RemovalExactly(cfg: Config, c: Cell, m: Manager, os: seq<Outcome>)
    requires c.manager == Some(m) && m.pc == Removing(XStop) && |os| == 6
    ensures var c' := Ons(cfg, c, os);
            && c'.manager == None && c'.up == c.up
            && c'.disk == (if os[5].Okay? then None else c.disk)
            && c'.res.rules == (if cfg.racct && os[1].Okay? then NoRules else c.res.rules)
            && c'.res.rulesLeft == (c.res.rulesLeft || (cfg.racct && !os[1].Okay?))
            && c'.res.jail == (if os[2].Okay? then Absent else c.res.jail)
            && c'.res.log == c.res.log + (if os[2].Okay? && !c.res.jail.Absent? then [DidDelete] else [])
            && c'.res.rootfs == (c.res.rootfs && !os[3].Okay?)
            && c'.res.files == c.res.files - (if os[2].Okay? && !c.res.jail.Absent? then cfg.SecretPaths() else {})
                                           - (if os[4].Okay? then cfg.ConfigPaths() else {})
  {
    assert os == [os[0]] + os[1..];
    RemovalHalf(cfg, c, m, os[0], os[1], os[2]);
    var c3 := On(cfg, On(cfg, On(cfg, c, os[0]), os[1]), os[2]);
    RemovalRest(cfg, c3, c3.manager.value, os[3], os[4], os[5]);
    SixOns(cfg, c, os);
  }

  lemma RemovalHalf(cfg: Config, c: Cell, m: Manager, o: Outcome, o': Outcome, o'': Outcome)
    requires c.manager == Some(m) && m.pc == Removing(XStop)
    ensures var c1 := On(cfg, c, o);
            && c1.manager.Some? && c1.manager.value.pc == Removing(XLimits)
            && var c2 := On(cfg, c1, o');
            && c2.manager.Some? && c2.manager.value.pc == Removing(XDelete)
            && var c3 := On(cfg, c2, o'');
            && c3.manager.Some? && c3.manager.value.pc == Removing(XDestroy) && c3.up == c.up && c3.disk == c.disk
            && c3.res.rules == (if cfg.racct && o'.Okay? then NoRules else c.res.rules)
            && c3.res.rulesLeft == (c.res.rulesLeft || (cfg.racct && !o'.Okay?))
            && c3.res.jail == (if o''.Okay? then Absent else c.res.jail)
            && c3.res.log == c.res.log + (if o''.Okay? && !c.res.jail.Absent? then [DidDelete] else [])
            && c3.res.rootfs == c.res.rootfs
            && c3.res.files == c.res.files - (if o''.Okay? && !c.res.jail.Absent? then cfg.SecretPaths() else {})
  {
    RulesGo(cfg, c, m, o, o');
    var c2 := On(cfg, On(cfg, c, o), o');
    JailGoes(cfg, c2, c2.manager.value, o'');
  }

  lemma RulesGo(cfg: Config, c: Cell, m: Manager, o: Outcome, o': Outcome)
    requires c.manager == Some(m) && m.pc == Removing(XStop)
    ensures var c1 := On(cfg, c, o);
            && c1.manager.Some? && c1.manager.value.pc == Removing(XLimits)
            && var c2 := On(cfg, c1, o');
            && c2.manager.Some? && c2.manager.value.pc == Removing(XDelete) && c2.up == c.up && c2.disk == c.disk
            && c2.res.rules == (if cfg.racct && o'.Okay? then NoRules else c.res.rules)
            && c2.res.rulesLeft == (c.res.rulesLeft || (cfg.racct && !o'.Okay?))
            && c2.res == c.res.(rules := c2.res.rules, rulesLeft := c2.res.rulesLeft, orphans := c2.res.orphans)
  {
  }

  lemma JailGoes(cfg: Config, c: Cell, m: Manager, o: Outcome)
    requires c.manager == Some(m) && m.pc == Removing(XDelete)
    ensures var c' := On(cfg, c, o);
            && c'.manager.Some? && c'.manager.value.pc == Removing(XDestroy) && c'.up == c.up && c'.disk == c.disk
            && c'.res.jail == (if o.Okay? then Absent else c.res.jail)
            && c'.res.log == c.res.log + (if o.Okay? && !c.res.jail.Absent? then [DidDelete] else [])
            && c'.res.files == c.res.files - (if o.Okay? && !c.res.jail.Absent? then cfg.SecretPaths() else {})
            && c'.res == c.res.(jail := c'.res.jail, log := c'.res.log, files := c'.res.files, stray := c'.res.stray)
  {
    assert c.res.files - {} == c.res.files && c.res.log + [] == c.res.log;
  }

  lemma RemovalRest(cfg: Config, c: Cell, m: Manager, o: Outcome, o': Outcome, o'': Outcome)
    requires c.manager == Some(m) && m.pc == Removing(XDestroy)
    ensures var c1 := On(cfg, c, o);
            && c1.manager.Some? && c1.manager.value.pc == Removing(XBundle)
            && var c2 := On(cfg, c1, o');
            && c2.manager.Some? && c2.manager.value.pc == Removing(XRecord)
            && var c3 := On(cfg, c2, o'');
            && c3.manager == None && c3.up == c.up && c3.disk == (if o''.Okay? then None else c.disk)
            && c3.res == c.res.(rootfs := c.res.rootfs && !o.Okay?, stray := c3.res.stray,
                                files := c.res.files - (if o'.Okay? then cfg.ConfigPaths() else {}))
  {
    assert c.res.files - {} == c.res.files;
  }

  lemma SixOns(cfg: Config, c: Cell, os: seq<Outcome>)
    requires |os| == 6 && c.manager.Some? && !c.manager.value.pc.Park?
    requires var c1 := On(cfg, c, os[0]);
             && c1.manager.Some? && !c1.manager.value.pc.Park?
             && var c2 := On(cfg, c1, os[1]);
             && c2.manager.Some? && !c2.manager.value.pc.Park?
             && var c3 := On(cfg, c2, os[2]);
             && c3.manager.Some? && !c3.manager.value.pc.Park?
             && var c4 := On(cfg, c3, os[3]);
             && c4.manager.Some? && !c4.manager.value.pc.Park?
             && var c5 := On(cfg, c4, os[4]);
             && c5.manager.Some? && !c5.manager.value.pc.Park?
    ensures Ons(cfg, c, os) == On(cfg, On(cfg, On(cfg, On(cfg, On(cfg, On(cfg, c, os[0]), os[1]), os[2]), os[3]), os[4]), os[5])
  {
    var c2 := On(cfg, On(cfg, c, os[0]), os[1]);
    TwoOns(cfg, c, os);
    TwoOns(cfg, c2, os[2..]);
    TwoOns(cfg, On(cfg, On(cfg, c2, os[2]), os[3]), os[4..]);
    assert os[2..][2..] == os[4..] && os[4..][2..] == [];
  }

  lemma TwoOns(cfg: Config, c: Cell, os: seq<Outcome>)
    requires |os| >= 2 && c.manager.Some? && !c.manager.value.pc.Park?
    requires On(cfg, c, os[0]).manager.Some? && !On(cfg, c, os[0]).manager.value.pc.Park?
    ensures Ons(cfg, c, os) == Ons(cfg, On(cfg, On(cfg, c, os[0]), os[1]), os[2..])
  {
    assert os[1..][1..] == os[2..];
  }

  // ---- Updates -------------------------------------------------------------

  /** An update that the loop takes up: the step in flight is dropped, the new
      definition is in force, and the limits are to be applied again exactly if the
      resources differ, or were to be already. */
  lemma UpdateIsTakenUp(cfg: Config, c: Cell, m: Manager, task: TaskDef)
    requires c.manager == Some(m) && m.queue != [] && m.pc.Interruptible() && m.queue[0] == Update(task)
    requires m.task.desired.AtMost(task.desired)
    ensures Enabled(c, Interrupt)
    ensures var c' := Next(cfg, c, Interrupt);
            && c'.disk == c.disk && c'.res == c.res.(stray := c'.res.stray, orphans := c'.res.orphans)
            && c'.manager == Some(m.(queue := m.queue[1..], pc := Begin, task := task, local := m.local.(
                 resize := m.local.resize || task.limits != m.task.limits || task.reservations != m.task.reservations)))
  {
  }
}
