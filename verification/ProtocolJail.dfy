/** The jail's life in the protocol: the order of runtime commands, how often a
    start can take effect, the exit that is remembered, and the health gate. */
module ProtocolJail {
  import opened TaskStates
  import opened Controller
  import opened Protocol
  import opened ProtocolControl
  import D = DoStep

  // ==== The jail and its log ================================================

  /** Runtime commands take effect in the order (create start? delete)*. */
  predicate Alternates(log: seq<JailOp>)
  {
    forall i :: 0 <= i < |log| ==> InTurn(log, i)
  }

  predicate InTurn(log: seq<JailOp>, i: nat)
    requires i < |log|
  {
    match log[i]
    case DidCreate => i == 0 || log[i - 1] == DidDelete
    case DidStart => i > 0 && log[i - 1] == DidCreate
    case DidDelete => i > 0 && log[i - 1] != DidDelete
  }

  function Last(log: seq<JailOp>): JailOp { if log == [] then DidDelete else log[|log| - 1] }

  /** The jail is what its log says; a live or created one may have exited. */
  predicate JailOk(res: Resources)
  {
    && Alternates(res.log)
    && match res.jail
       case Absent => Last(res.log) == DidDelete
       case Created => Last(res.log) == DidCreate
       case Live => Last(res.log) == DidStart
       case Stopped => Last(res.log) != DidDelete
  }

  /** What an operation in flight knows about the jail since it last looked. */
  predicate JailSeen(jail: Jail, op: OpPc)
  {
    match op
    case InPrepare(pc) =>
      pc.PSecrets? || pc.PMemory? || pc.PCpu? || pc.RResolve? || pc.RConfigs? || pc.RSecrets? ==> !jail.Absent?
    case InStart(pc) => !pc.SAttach? && !pc.SLook? ==> !jail.Absent?
    case _ => true
  }

  /** The states of a task that prepare has finished for. */
  predicate Prepared(s: TaskState) { s.Ready? || s.Starting? || s.Running? }

  /** What a record whose removal has not begun says of its jail. */
  predicate Undeleted(c: Cell)
    requires c.disk.Some? && c.life.birth <= |c.res.log|
  {
    && DidDelete !in c.res.log[c.life.birth..]
    && (Prepared(c.disk.value.state) ==> !c.res.jail.Absent?)
    && (c.manager.Some? && Prepared(c.manager.value.status) ==> !c.res.jail.Absent?)
  }

  /** A loop that reached RUNNING beyond its record saw a jail on the way, and
      only a removal deletes it. */
  predicate RanHere(c: Cell)
  {
    c.manager.Some? && !c.manager.value.pc.Removing? && c.manager.value.status.Running? && c.disk.Some? ==>
      Recorded(c.disk.value.state) || !c.res.jail.Absent?
  }

  predicate Recorded(s: TaskState) { TaskState.Running.AtMost(s) }

  /** A start left running by this life was issued for its jail. */
  predicate StartsSeen(c: Cell)
  {
    c.disk.Some? && !c.life.removal && !c.life.overrun && c.res.orphans.starts > 0 ==> !c.res.jail.Absent?
  }

  predicate JailInv(c: Cell)
  {
    && JailOk(c.res) && StartsSeen(c)
    && (c.manager.Some? && c.manager.value.pc.Working? ==> JailSeen(c.res.jail, c.manager.value.pc.op))
    && (c.disk.Some? ==> c.life.birth <= |c.res.log| && (!c.life.removal ==> Undeleted(c)))
    && RanHere(c)
  }

  lemma AlternatesExtends(log: seq<JailOp>, x: JailOp)
    requires Alternates(log)
    requires match x
             case DidCreate => Last(log) == DidDelete
             case DidStart => Last(log) == DidCreate
             case DidDelete => Last(log) != DidDelete
    ensures Alternates(log + [x])
  {
    forall i | 0 <= i < |log| + 1 ensures InTurn(log + [x], i) {
      if i < |log| {
        assert InTurn(log, i);
      }
    }
  }

  /** How a step of an operation extends the log. */
  predicate LogStep(res: Resources, op: OpPc, after: Resources)
  {
    || (after.log == res.log && (after.jail == res.jail))
    || (op == InPrepare(PCreate) && res.jail.Absent? && after.log == res.log + [DidCreate] && after.jail == Created)
    || (op == InStart(SStart) && res.jail.Created? && after.log == res.log + [DidStart] && after.jail == Live)
  }

  lemma LogSteps(cfg: Config, res: Resources, local: Local, limits: Limits, op: OpPc, o: Outcome)
    ensures LogStep(res, op, Stepped(cfg, res, local, limits, op, o).res)
    ensures Stepped(cfg, res, local, limits, op, o).res.orphans.starts == res.orphans.starts
  {
    match op
    case InPrepare(pc) => LogPrepare(cfg, res, local, limits, pc, o);
    case InStart(pc) => LogStart(cfg, res, local, pc, o);
    case InWait(pc) => LogWait(cfg, res, local, limits, pc, o);
    case InStop(pc) =>
  }

  lemma LogPrepare(cfg: Config, res: Resources, local: Local, limits: Limits, pc: PreparePc, o: Outcome)
    ensures var after := PrepareTick(cfg, res, local, limits, pc, o).res;
            LogStep(res, InPrepare(pc), after) && after.orphans == res.orphans
  {
  }

  lemma LogStart(cfg: Config, res: Resources, local: Local, pc: StartPc, o: Outcome)
    ensures var after := StartTick(cfg, res, local, pc, o).res;
            LogStep(res, InStart(pc), after) && after.orphans == res.orphans
  {
  }

  lemma LogWait(cfg: Config, res: Resources, local: Local, limits: Limits, pc: WaitPc, o: Outcome)
    ensures var after := WaitTick(cfg, res, local, limits, pc, o).res;
            LogStep(res, InWait(pc), after) && after.orphans.starts == res.orphans.starts
  {
  }

  /** One step of an operation keeps the jail's story and what it has seen. */
  lemma JailStep(cfg: Config, res: Resources, local: Local, limits: Limits, op: OpPc, o: Outcome)
    requires JailOk(res) && JailSeen(res.jail, op)
    ensures var e := Stepped(cfg, res, local, limits, op, o);
            && JailOk(e.res) && LogStep(res, op, e.res)
            && (e.onward.Goto? ==> JailSeen(e.res.jail, e.onward.op))
            && (op.InPrepare? && e.onward == Answer(D.Done) ==> !e.res.jail.Absent?)
            && (op.InStart? && e.onward == Answer(D.Done) ==> !e.res.jail.Absent?)
            && e.res.orphans.starts == res.orphans.starts
  {
    LogSteps(cfg, res, local, limits, op, o);
    if op == InPrepare(PCreate) && res.jail.Absent? {
      AlternatesExtends(res.log, DidCreate);
    } else if op == InStart(SStart) && res.jail.Created? {
      AlternatesExtends(res.log, DidStart);
    }
    SeesOnward(cfg, res, local, limits, op, o);
  }

  lemma SeesOnward(cfg: Config, res: Resources, local: Local, limits: Limits, op: OpPc, o: Outcome)
    requires JailSeen(res.jail, op)
    ensures var e := Stepped(cfg, res, local, limits, op, o);
            && (e.onward.Goto? ==> JailSeen(e.res.jail, e.onward.op))
            && (op.InPrepare? && e.onward == Answer(D.Done) ==> !e.res.jail.Absent?)
            && (op.InStart? && e.onward == Answer(D.Done) ==> !e.res.jail.Absent?)
  {
    match op
    case InPrepare(pc) => SeesPrepared(cfg, res, local, limits, pc, o);
    case InStart(pc) => SeesStarted(cfg, res, local, pc, o);
    case InWait(pc) => StepsAreSound(cfg, res, local, limits, op, o);
    case InStop(pc) => StepsAreSound(cfg, res, local, limits, op, o);
  }

  lemma SeesPrepared(cfg: Config, res: Resources, local: Local, limits: Limits, pc: PreparePc, o: Outcome)
    requires JailSeen(res.jail, InPrepare(pc))
    ensures var e := PrepareTick(cfg, res, local, limits, pc, o);
            && (e.onward.Goto? ==> e.onward.op.InPrepare? && JailSeen(e.res.jail, e.onward.op))
            && (e.onward == Answer(D.Done) ==> !e.res.jail.Absent?)
  {
  }

  lemma SeesStarted(cfg: Config, res: Resources, local: Local, pc: StartPc, o: Outcome)
    requires JailSeen(res.jail, InStart(pc))
    ensures var e := StartTick(cfg, res, local, pc, o);
            && (e.onward.Goto? ==> e.onward.op.InStart? && JailSeen(e.res.jail, e.onward.op))
            && (e.onward == Answer(D.Done) ==> !e.res.jail.Absent?)
  {
  }

  lemma LivedGrows(log: seq<JailOp>, x: JailOp, birth: nat)
    ensures birth <= |log| ==> (log + [x])[birth..] == log[birth..] + [x]
  {
  }

  lemma JailEffected(c: Cell, m: Manager, call: D.Call, e: Effect)
    requires Control(c) && JailInv(c) && c.manager == Some(m) && (m.pc.Begin? || m.pc.Working?)
    requires Homed(m.status, m.task.desired, call)
    requires JailOk(e.res) && (e.onward.Goto? ==> JailSeen(e.res.jail, e.onward.op))
    requires e.res.log == c.res.log || e.res.log == c.res.log + [DidCreate] || e.res.log == c.res.log + [DidStart]
    requires e.res.jail.Absent? ==> c.res.jail.Absent?
    requires e.res.orphans.starts == c.res.orphans.starts
    requires (call.CallPrepare? || call.CallStart?) && e.onward == Answer(D.Done) ==> !e.res.jail.Absent?
    ensures JailInv(Effected(c, m, call, e))
  {
    LivedGrows(c.res.log, DidCreate, c.life.birth);
    LivedGrows(c.res.log, DidStart, c.life.birth);
    var m' := Effected(c, m, call, e).manager.value;
    assert m'.status != m.status && Prepared(m'.status) ==> !e.res.jail.Absent? by {
      if e.onward.Answer? {
        PreparedBy(m.status, m.task.desired, call, e.onward.reply);
      }
    }
  }

  /** Only a successful prepare or start makes a task READY or RUNNING. */
  lemma PreparedBy(status: TaskState, desired: DesiredState, call: D.Call, reply: D.Reply)
    requires Homed(status, desired, call)
    ensures var v := D.Conclude(status, call, reply);
            v.Advanced? && Prepared(v.state) ==> (call.CallPrepare? || call.CallStart?) && reply.Done?
  {
  }

  lemma JailDispatched(c: Cell, m: Manager)
    requires Control(c) && JailInv(c) && c.manager == Some(m) && m.pc.Begin?
    ensures JailInv(Dispatched(c, m, D.Dispatch(m.status, m.task.desired)))
  {
    DispatchIsApt(m.status, m.task.desired);
    match D.Dispatch(m.status, m.task.desired)
    case Idle =>
    case Move(to) =>
    case Invoke(call) =>
      if call.CallShutdown? {
        JailEffected(c, m, call, Opened(call, c.res, m.local));
      } else {
        CallingKept(c, m, call);
        JailEffected(c.(life := c.life.(calls := c.life.calls + [call])), m, call, Opened(call, c.res, m.local));
      }
  }

  lemma JailWorked(cfg: Config, c: Cell, m: Manager, op: OpPc, o: Outcome)
    requires Control(c) && JailInv(c) && c.manager == Some(m) && m.pc == Working(op)
    ensures JailInv(Effected(c, m, op.Call(), Stepped(cfg, c.res, m.local, m.task.Caps(), op, o)))
  {
    JailStep(cfg, c.res, m.local, m.task.Caps(), op, o);
    JailEffected(c, m, op.Call(), Stepped(cfg, c.res, m.local, m.task.Caps(), op, o));
  }

  lemma JailRemoved(cfg: Config, c: Cell, m: Manager, pc: RemovePc, o: Outcome)
    requires Control(c) && JailInv(c) && c.manager == Some(m) && m.pc == Removing(pc)
    ensures JailInv(Removed(cfg, c, m, pc, o))
  {
    if pc.XDelete? && !c.res.jail.Absent? {
      AlternatesExtends(c.res.log, DidDelete);
    }
  }

  lemma JailTicked(cfg: Config, c: Cell, m: Manager, o: Outcome)
    requires Control(c) && JailInv(c) && c.manager == Some(m) && !m.pc.Park?
    ensures JailInv(Ticked(cfg, c, m, o))
  {
    match m.pc
    case Begin => JailDispatched(c, m);
    case Working(op) => JailWorked(cfg, c, m, op, o);
    case Removing(pc) => JailRemoved(cfg, c, m, pc, o);
    case _ =>
  }

  lemma JailApplied(c: Cell, task: TaskDef, seed: TaskState)
    requires Control(c) && JailInv(c) && Enabled(c, Assign(task, seed, true))
    ensures JailInv(Applied(c, task, seed))
  {
  }

  lemma JailInitialized(c: Cell, listed: bool, query: bool)
    requires Control(c) && JailInv(c) && !c.up
    ensures JailInv(Initialized(c, listed, query))
  {
  }

  lemma JailDropped(c: Cell, m: Manager)
    requires Control(c) && JailInv(c) && c.manager == Some(m) && m.pc.Interruptible()
    ensures JailInv(Dropped(c, m))
  {
  }

  lemma JailObeyed(c: Cell, m: Manager)
    requires Control(c) && JailInv(c) && c.manager == Some(m) && m.queue != [] && m.pc.Begin?
    ensures JailInv(Obeyed(c, m))
  {
  }

  lemma JailCommanded(c: Cell, m: Manager)
    requires Control(c) && JailInv(c) && c.manager == Some(m) && m.queue != [] && m.pc.Interruptible()
    ensures JailInv(Commanded(c, m))
  {
    JailDropped(c, m);
    DroppedKept(c, m);
    JailObeyed(Dropped(c, m), m.(pc := Begin));
  }

  lemma JailCrashed(c: Cell)
    requires Control(c) && JailInv(c)
    ensures JailInv(Crashed(c))
  {
  }

  /** What a command left running does to the jail and its log. */
  predicate LandStep(res: Resources, x: Orphan, after: Resources)
  {
    && after.orphans.starts <= res.orphans.starts
    && (|| (after.log == res.log && after.jail == res.jail)
        || (x.JailCreate? && res.jail.Absent? && after.log == res.log + [DidCreate] && after.jail == Created)
        || (x.JailStart? && res.jail.Created? && after.log == res.log + [DidStart] && after.jail == Live))
  }

  lemma LandSteps(cfg: Config, res: Resources, x: Orphan)
    requires res.orphans.Has(x)
    ensures LandStep(res, x, Landed(cfg, res, x))
  {
  }

  lemma JailLanded(cfg: Config, c: Cell, x: Orphan)
    requires Control(c) && JailInv(c) && c.res.orphans.Has(x)
    ensures JailInv(OrphanLanded(cfg, c, x))
  {
    LandSteps(cfg, c.res, x);
    JailMoves(c, OrphanLanded(cfg, c, x), x);
  }

  lemma JailMoves(c: Cell, c': Cell, x: Orphan)
    requires JailInv(c) && LandStep(c.res, x, c'.res) && c'.manager == c.manager && c'.disk == c.disk
    requires c'.life.birth == c.life.birth && c'.life.removal == c.life.removal && (c.life.overrun ==> c'.life.overrun)
    ensures JailInv(c')
  {
    LivedGrows(c.res.log, DidCreate, c.life.birth);
    LivedGrows(c.res.log, DidStart, c.life.birth);
    if x.JailCreate? && c.res.jail.Absent? {
      AlternatesExtends(c.res.log, DidCreate);
    } else if x.JailStart? && c.res.jail.Created? {
      AlternatesExtends(c.res.log, DidStart);
    }
  }

  lemma JailKept(cfg: Config, c: Cell, e: Event)
    requires Control(c) && JailInv(c) && Enabled(c, e)
    ensures JailInv(Next(cfg, c, e))
  {
    match e
    case Assign(task, seed, ok) => if ok { JailApplied(c, task, seed); }
    case Unassign =>
    case CloseDown =>
    case Crash => JailCrashed(c);
    case Init(read, listed, query) => if read { JailInitialized(c, listed, query); }
    case Interrupt => JailCommanded(c, c.manager.value);
    case Tick(o) => JailTicked(cfg, c, c.manager.value, o);
    case ContainerExits =>
    case Probe(result) =>
    case StrayStep(i, ok) =>
    case OrphanEnds(x, ok) => if ok { JailLanded(cfg, c, x); }
  }

  // ==== Starts ==============================================================

  /** In the life that began at `birth` nothing but a delete follows a start, and
      a start is on record. */
  predicate StartOk(log: seq<JailOp>, birth: nat, state: TaskState)
  {
    && (forall i, j :: birth <= i < j < |log| && log[i] == DidStart ==> log[j] == DidDelete)
    && (forall i :: birth <= i < |log| && log[i] == DidStart ==> TaskState.Starting.AtMost(state))
  }

  predicate StartInv(c: Cell)
  {
    c.disk.Some? && c.life.writesOk && !c.life.overrun ==>
      && StartOk(c.res.log, c.life.birth, c.disk.value.state)
      && (c.res.orphans.starts > 0 ==> TaskState.Starting.AtMost(c.disk.value.state))
  }

  lemma StartLogged(log: seq<JailOp>, birth: nat, state: TaskState, x: JailOp)
    requires StartOk(log, birth, state)
    requires x == DidCreate ==> state.Below(TaskState.Starting)
    requires x == DidStart ==> Last(log) == DidCreate && TaskState.Starting.AtMost(state)
    ensures StartOk(log + [x], birth, state)
  {
    var n := |log|;
    forall i, j | birth <= i < j < n + 1 && (log + [x])[i] == DidStart ensures (log + [x])[j] == DidDelete {
      assert log[i] == DidStart;
      if j == n {
        assert i == n - 1 || log[n - 1] == DidDelete;
      }
    }
  }

  lemma StartWorked(cfg: Config, c: Cell, m: Manager, op: OpPc, o: Outcome)
    requires Control(c) && JailInv(c) && StartInv(c) && c.manager == Some(m) && m.pc == Working(op)
    ensures StartInv(Effected(c, m, op.Call(), Stepped(cfg, c.res, m.local, m.task.Caps(), op, o)))
  {
    LogSteps(cfg, c.res, m.local, m.task.Caps(), op, o);
    if c.life.writesOk && !c.life.overrun {
      if op == InPrepare(PCreate) {
        StartLogged(c.res.log, c.life.birth, c.disk.value.state, DidCreate);
      } else if op == InStart(SStart) && c.res.jail.Created? {
        StartLogged(c.res.log, c.life.birth, c.disk.value.state, DidStart);
      }
    }
  }

  lemma StartRemoved(cfg: Config, c: Cell, m: Manager, pc: RemovePc, o: Outcome)
    requires StartInv(c) && c.manager == Some(m) && m.pc == Removing(pc)
    ensures StartInv(Removed(cfg, c, m, pc, o))
  {
    if c.disk.Some? && c.life.writesOk && !c.life.overrun {
      StartLogged(c.res.log, c.life.birth, c.disk.value.state, DidDelete);
    }
  }

  lemma StartPersisted(c: Cell, m: Manager, retry: bool, ok: bool)
    requires Control(c) && StartInv(c) && c.manager == Some(m) && m.pc == Persist(retry)
    ensures StartInv(Persisted(c, m, retry, ok))
  {
    if c.disk.Some? && Behind(c.disk.value.state, m.status) && c.disk.value.state != m.status && c.life.writesOk {
      D.EdgeClimbs(c.disk.value.state, m.status);
    }
  }

  lemma StartDispatched(c: Cell, m: Manager, action: D.Action)
    requires StartInv(c) && c.manager == Some(m)
    ensures StartInv(Dispatched(c, m, action))
  {
  }

  lemma StartTicked(cfg: Config, c: Cell, m: Manager, o: Outcome)
    requires Control(c) && JailInv(c) && StartInv(c) && c.manager == Some(m) && !m.pc.Park?
    ensures StartInv(Ticked(cfg, c, m, o))
  {
    match m.pc
    case Begin => StartDispatched(c, m, D.Dispatch(m.status, m.task.desired));
    case Working(op) => StartWorked(cfg, c, m, op, o);
    case Persist(retry) => StartPersisted(c, m, retry, o.Okay?);
    case Removing(pc) => StartRemoved(cfg, c, m, pc, o);
    case _ =>
  }

  lemma StartKept(cfg: Config, c: Cell, e: Event)
    requires Control(c) && JailInv(c) && StartInv(c) && Enabled(c, e)
    ensures StartInv(Next(cfg, c, e))
  {
    match e
    case Assign(task, seed, ok) => if ok { StartApplied(c, task, seed); }
    case Unassign =>
    case CloseDown =>
    case Crash => StartCrashed(c);
    case Init(read, listed, query) =>
    case Interrupt => StartCommanded(c, c.manager.value);
    case Tick(o) => StartTicked(cfg, c, c.manager.value, o);
    case ContainerExits =>
    case Probe(result) =>
    case StrayStep(i, ok) =>
    case OrphanEnds(x, ok) => if ok { StartLanded(cfg, c, x); }
  }

  /** A start is left running only by a task that is on record as STARTING. */
  lemma StartCrashed(c: Cell)
    requires Control(c) && StartInv(c)
    ensures StartInv(Crashed(c))
  {
  }

  /** A create that lands before any removal finds a life without a runtime
      command; a start that lands is on record. */
  lemma StartLanded(cfg: Config, c: Cell, x: Orphan)
    requires JailInv(c) && StartInv(c) && c.res.orphans.Has(x)
    ensures StartInv(OrphanLanded(cfg, c, x))
  {
    LandSteps(cfg, c.res, x);
    if c.disk.Some? && c.life.writesOk && !c.life.overrun {
      if x.JailStart? && !x.late && c.res.jail.Created? {
        StartLogged(c.res.log, c.life.birth, c.disk.value.state, DidStart);
      } else if x.JailCreate? && c.res.jail.Absent? && !c.life.removal {
        FirstLogged(c.res.log, c.life.birth, c.disk.value.state, DidCreate);
      }
    }
  }

  lemma FirstLogged(log: seq<JailOp>, birth: nat, state: TaskState, x: JailOp)
    requires birth <= |log| && DidDelete !in log[birth..] && Last(log) == DidDelete && !x.DidStart?
    ensures StartOk(log + [x], birth, state)
  {
    if birth < |log| {
      LastLived(log, birth);
    }
  }

  lemma LastLived(log: seq<JailOp>, birth: nat)
    requires birth < |log|
    ensures Last(log) in log[birth..]
  {
    assert log[birth..][|log| - 1 - birth] == Last(log);
  }

  lemma StartApplied(c: Cell, task: TaskDef, seed: TaskState)
    requires StartInv(c)
    ensures StartInv(Applied(c, task, seed))
  {
  }

  lemma StartCommanded(c: Cell, m: Manager)
    requires Control(c) && StartInv(c) && c.manager == Some(m) && m.queue != []
    ensures StartInv(Commanded(c, m))
  {
    StartDropped(c, m);
  }

  lemma StartDropped(c: Cell, m: Manager)
    requires Control(c) && StartInv(c) && c.manager == Some(m)
    ensures StartInv(Dropped(c, m))
  {
  }

  // ==== The health gate =====================================================

  /** At the gate a task with a healthcheck is being probed, and while `wait`
      waits it has no exit to answer with. */
  predicate GateOk(cfg: Config, local: Local, op: OpPc)
  {
    && (op == InStart(SGate) && cfg.probe.Some? ==> local.prober.Some?)
    && (op.InWait? && Awaiting(op.wait) ==> local.exit.None?)
  }

  /** The awaits of `wait` before it knows how it ends. */
  predicate Awaiting(pc: WaitPc) { !pc.WStop? && !pc.WPorts? && !pc.WDetach? }

  predicate GateInv(cfg: Config, c: Cell)
  {
    c.manager.Some? && c.manager.value.pc.Working? ==> GateOk(cfg, c.manager.value.local, c.manager.value.pc.op)
  }

  lemma GateStep(cfg: Config, res: Resources, local: Local, limits: Limits, op: OpPc, o: Outcome)
    requires GateOk(cfg, local, op)
    ensures var e := Stepped(cfg, res, local, limits, op, o); e.onward.Goto? ==> GateOk(cfg, e.local, e.onward.op)
  {
    match op
    case InPrepare(pc) => StepsAreSound(cfg, res, local, limits, op, o);
    case InStart(pc) =>
    case InWait(pc) =>
    case InStop(pc) =>
  }

  lemma GateEffected(cfg: Config, c: Cell, m: Manager, call: D.Call, e: Effect)
    requires e.onward.Goto? ==> GateOk(cfg, e.local, e.onward.op)
    ensures GateInv(cfg, Effected(c, m, call, e))
  {
  }

  lemma GateTicked(cfg: Config, c: Cell, m: Manager, o: Outcome)
    requires GateInv(cfg, c) && c.manager == Some(m) && !m.pc.Park?
    ensures GateInv(cfg, Ticked(cfg, c, m, o))
  {
    match m.pc
    case Begin => GateDispatched(cfg, c, m, D.Dispatch(m.status, m.task.desired));
    case Working(op) =>
      GateStep(cfg, c.res, m.local, m.task.Caps(), op, o);
      GateEffected(cfg, c, m, op.Call(), Stepped(cfg, c.res, m.local, m.task.Caps(), op, o));
    case _ =>
  }

  lemma GateDispatched(cfg: Config, c: Cell, m: Manager, action: D.Action)
    requires c.manager == Some(m)
    ensures m.pc.Begin? ==> GateInv(cfg, Dispatched(c, m, action))
  {
  }

  lemma GateKept(cfg: Config, c: Cell, e: Event)
    requires GateInv(cfg, c) && Enabled(c, e)
    ensures GateInv(cfg, Next(cfg, c, e))
  {
    if e.Tick? {
      GateTicked(cfg, c, c.manager.value, e.outcome);
    }
  }

  // ==== The harvested exit ==================================================

  /** Only a container is watched, and an exit is remembered only of one that
      is: past READY or by a loop that wants a stop, and exit code 0 only of a
      process that is gone. */
  predicate ExitOk(status: TaskState, desired: DesiredState, jail: Jail, local: Local)
  {
    && Truthful(jail, local)
    && (local.exit.Some? ==> TaskState.Starting.AtMost(status) || desired.WantsStop())
  }

  predicate Truthful(jail: Jail, local: Local)
  {
    && (local.watch ==> !jail.Absent?)
    && (local.exit.Some? ==> local.watch && (local.exit.value ==> !jail.HasPid()))
  }

  predicate ExitInv(c: Cell)
  {
    c.manager.Some? && !c.manager.value.pc.Removing? ==>
      ExitOk(c.manager.value.status, c.manager.value.task.desired, c.res.jail, c.manager.value.local)
  }

  lemma ExitStep(
    cfg: Config, res: Resources, local: Local, limits: Limits, op: OpPc, o: Outcome, status: TaskState, desired: DesiredState)
    requires ExitOk(status, desired, res.jail, local) && Homed(status, desired, op.Call())
    ensures var e := Stepped(cfg, res, local, limits, op, o); ExitOk(status, desired, e.res.jail, e.local)
  {
    match op
    case InPrepare(pc) => ExitOfPrepare(cfg, res, local, limits, pc, o);
    case InStart(pc) => ExitOfStart(cfg, res, local, pc, o);
    case InWait(pc) => ExitOfWait(cfg, res, local, limits, pc, o);
    case InStop(pc) =>
  }

  lemma ExitOfPrepare(cfg: Config, res: Resources, local: Local, limits: Limits, pc: PreparePc, o: Outcome)
    requires Truthful(res.jail, local) && local.exit.None?
    ensures var e := PrepareTick(cfg, res, local, limits, pc, o); Truthful(e.res.jail, e.local) && e.local.exit.None?
  {
  }

  lemma ExitOfStart(cfg: Config, res: Resources, local: Local, pc: StartPc, o: Outcome)
    requires Truthful(res.jail, local)
    ensures var e := StartTick(cfg, res, local, pc, o); Truthful(e.res.jail, e.local)
  {
  }

  lemma ExitOfWait(cfg: Config, res: Resources, local: Local, limits: Limits, pc: WaitPc, o: Outcome)
    requires Truthful(res.jail, local)
    ensures var e := WaitTick(cfg, res, local, limits, pc, o); Truthful(e.res.jail, e.local)
  {
  }

  lemma ExitEffected(c: Cell, m: Manager, call: D.Call, e: Effect)
    requires c.manager == Some(m) && Homed(m.status, m.task.desired, call) && Sound(call, e)
    requires ExitOk(m.status, m.task.desired, e.res.jail, e.local)
    ensures ExitInv(Effected(c, m, call, e))
  {
    if e.onward.Answer? {
      D.ConcludeFollowsAnEdge(m.status, call, e.onward.reply);
      var v := D.Conclude(m.status, call, e.onward.reply);
      if v.Advanced? {
        D.EdgeClimbs(m.status, v.state);
      }
    }
  }

  lemma ExitDispatched(c: Cell, m: Manager)
    requires ExitInv(c) && c.manager == Some(m) && m.pc.Begin?
    ensures ExitInv(Dispatched(c, m, D.Dispatch(m.status, m.task.desired)))
  {
    DispatchIsApt(m.status, m.task.desired);
    match D.Dispatch(m.status, m.task.desired)
    case Idle =>
    case Move(to) => D.EdgeClimbs(m.status, to);
    case Invoke(call) =>
      OpeningsAreSound(call, c.res, m.local);
      var c' := if call.CallShutdown? then c else c.(life := c.life.(calls := c.life.calls + [call]));
      ExitEffected(c', m, call, Opened(call, c.res, m.local));
  }

  lemma ExitWorked(cfg: Config, c: Cell, m: Manager, op: OpPc, o: Outcome)
    requires Control(c) && JailInv(c) && ExitInv(c) && c.manager == Some(m) && m.pc == Working(op)
    ensures ExitInv(Effected(c, m, op.Call(), Stepped(cfg, c.res, m.local, m.task.Caps(), op, o)))
  {
    ExitStep(cfg, c.res, m.local, m.task.Caps(), op, o, m.status, m.task.desired);
    StepsAreSound(cfg, c.res, m.local, m.task.Caps(), op, o);
    ExitEffected(c, m, op.Call(), Stepped(cfg, c.res, m.local, m.task.Caps(), op, o));
  }

  lemma ExitCommanded(c: Cell, m: Manager)
    requires ExitInv(c) && c.manager == Some(m) && m.queue != [] && m.pc.Interruptible()
    ensures ExitInv(Commanded(c, m))
  {
  }

  lemma ExitTicked(cfg: Config, c: Cell, m: Manager, o: Outcome)
    requires Control(c) && JailInv(c) && ExitInv(c) && c.manager == Some(m) && !m.pc.Park?
    ensures ExitInv(Ticked(cfg, c, m, o))
  {
    match m.pc
    case Begin => ExitDispatched(c, m);
    case Working(op) => ExitWorked(cfg, c, m, op, o);
    case _ =>
  }

  lemma ExitKept(cfg: Config, c: Cell, e: Event)
    requires Control(c) && JailInv(c) && ExitInv(c) && Enabled(c, e)
    ensures ExitInv(Next(cfg, c, e))
  {
    match e
    case Assign(task, seed, ok) =>
    case Unassign =>
    case CloseDown =>
    case Crash =>
    case Init(read, listed, query) =>
    case Interrupt => ExitCommanded(c, c.manager.value);
    case Tick(o) => ExitTicked(cfg, c, c.manager.value, o);
    case ContainerExits =>
    case Probe(result) =>
    case StrayStep(i, ok) =>
    case OrphanEnds(x, ok) => if ok { ExitLanded(cfg, c, x); }
  }

  lemma ExitLanded(cfg: Config, c: Cell, x: Orphan)
    requires ExitInv(c) && c.res.orphans.Has(x)
    ensures ExitInv(OrphanLanded(cfg, c, x))
  {
    LandSteps(cfg, c.res, x);
  }
}
