/** The control invariants of the protocol: the loop's position, the chain of
    desired states, and the ledger of what disk, loop and reporter know about
    the task's state.  Controller operations are seen only from outside. */
module ProtocolControl {
  import opened TaskStates
  import opened Controller
  import opened Protocol
  import D = DoStep

  // ---- The invariants ------------------------------------------------------

  /** A call is in flight only in the state it belongs to. */
  predicate Homed(status: TaskState, desired: DesiredState, call: D.Call)
  {
    if call.CallShutdown? then desired.WantsStop() && status.Below(Complete)
    else !desired.WantsStop() && status == D.HomeOf(call) && (desired.WantReady? ==> call.CallPrepare?)
  }

  predicate Shape(c: Cell)
  {
    c.manager.Some? ==>
      var m := c.manager.value;
      && c.up
      && (m.pc.Working? ==> Homed(m.status, m.task.desired, m.pc.op.Call()))
      && (m.pc.Removing? ==> c.life.removal && m.leaving)
      && (!m.pc.Removing? ==> c.disk.Some?)
      && (forall x | x in m.queue :: !x.Update? ==> m.leaving)
  }

  /** From the loop's desired state through every queued update, in order, to
      the handle's: never backwards. */
  predicate Chain(low: DesiredState, queue: seq<Command>, high: DesiredState)
    decreases |queue|
  {
    if queue == [] then low.AtMost(high)
    else if queue[0].Update? then low.AtMost(queue[0].task.desired) && Chain(queue[0].task.desired, queue[1..], high)
    else Chain(low, queue[1..], high)
  }

  predicate Chained(c: Cell)
  {
    c.manager.Some? ==>
      Chain(c.manager.value.task.desired, c.manager.value.queue, c.manager.value.handle)
  }

  /** `b` is `a` or on a later rung; a terminal state stays put. */
  predicate Behind(a: TaskState, b: TaskState) { a == b || a.Rung() < b.Rung() }

  /** The record on disk never runs ahead of the loop; if status writes succeed
      it is at most the one advance behind that is being persisted. */
  predicate Ledger(c: Cell)
  {
    c.disk.Some? ==>
      && c.life.advances <= c.disk.value.state.Rung()
      && (c.manager.Some? ==>
            var m := c.manager.value;
            && Behind(c.disk.value.state, m.status)
            && (c.life.writesOk && c.disk.value.state != m.status ==>
                  m.pc == Persist(false) && D.Edge(c.disk.value.state, m.status)))
  }

  predicate Ascending(states: seq<TaskState>)
  {
    forall i, j :: 0 <= i < j < |states| ==> states[i].AtMost(states[j])
  }

  /** What was reported is in order and already on disk. */
  predicate ReportsKept(c: Cell)
  {
    c.life.writesOk ==>
      && Ascending(c.life.reports)
      && (c.disk.Some? ==> forall s | s in c.life.reports :: s.AtMost(c.disk.value.state))
  }

  /** A state that a task whose `start` was called can be in. */
  predicate Launched(s: TaskState) { s.Starting? || s.Running? || s.Complete? || s.Shutdown? || s.Failed? }

  predicate CallFits(call: D.Call, state: TaskState)
  {
    !call.CallShutdown? && D.HomeOf(call).AtMost(state) && (!call.CallPrepare? ==> Launched(state))
  }

  predicate CallsInOrder(calls: seq<D.Call>)
  {
    && (forall x | x in calls :: !x.CallShutdown?)
    && (forall i, j :: 0 <= i < j < |calls| ==> D.HomeOf(calls[i]).AtMost(D.HomeOf(calls[j])))
  }

  /** Calls came in the order prepare, start, wait, and fit the state on disk. */
  predicate CallsKept(c: Cell)
  {
    c.life.writesOk ==>
      && CallsInOrder(c.life.calls)
      && (c.disk.Some? ==> forall x | x in c.life.calls :: CallFits(x, c.disk.value.state))
  }

  predicate Control(c: Cell)
  {
    Shape(c) && Chained(c) && Ledger(c) && ReportsKept(c) && CallsKept(c)
  }

  // ---- Operations ----------------------------------------------------------

  /** What the loop relies on from a controller step: it stays in its operation
      or answers it. */
  predicate Sound(call: D.Call, e: Effect)
  {
    match e.onward
    case Goto(op) => op.Call() == call
    case Answer(reply) => D.Answers(call, reply)
  }

  lemma StepsAreSound(cfg: Config, res: Resources, local: Local, limits: Limits, op: OpPc, o: Outcome)
    ensures Sound(op.Call(), Stepped(cfg, res, local, limits, op, o))
  {
  }

  lemma OpeningsAreSound(call: D.Call, res: Resources, local: Local)
    ensures Sound(call, Opened(call, res, local))
  {
  }

  lemma DispatchIsApt(status: TaskState, desired: DesiredState)
    ensures match D.Dispatch(status, desired)
            case Idle => true
            case Move(to) => D.Edge(status, to)
            case Invoke(call) => Homed(status, desired, call)
  {
  }

  /** Taking a verdict. */
  lemma SettledKept(c: Cell, m: Manager, res: Resources, verdict: D.Verdict)
    requires Control(c) && c.manager.Some? && c.disk.Some?
    requires m == c.manager.value.(local := m.local) && (m.pc.Begin? || m.pc.Working?)
    requires verdict.Advanced? ==> D.Edge(m.status, verdict.state)
    ensures Control(c.(res := res, manager := Some(Settled(m, verdict))))
  {
    if verdict.Advanced? {
      D.EdgeClimbs(m.status, verdict.state);
    }
  }

  lemma EffectedKept(c: Cell, m: Manager, call: D.Call, e: Effect)
    requires Control(c) && c.manager == Some(m) && c.disk.Some? && (m.pc.Begin? || m.pc.Working?)
    requires Homed(m.status, m.task.desired, call) && Sound(call, e)
    ensures Control(Effected(c, m, call, e))
  {
    match e.onward
    case Goto(op) =>
    case Answer(reply) =>
      D.ConcludeFollowsAnEdge(m.status, call, reply);
      SettledKept(c, m.(local := e.local), e.res, D.Conclude(m.status, call, reply));
  }

  lemma CallingKept(c: Cell, m: Manager, call: D.Call)
    requires Control(c) && c.manager == Some(m) && c.disk.Some? && m.pc.Begin?
    requires !call.CallShutdown? && m.status == D.HomeOf(call)
    ensures Control(c.(life := c.life.(calls := c.life.calls + [call])))
  {
    var calls := c.life.calls + [call];
    if c.life.writesOk {
      assert c.disk.value.state == m.status;
      forall i, j | 0 <= i < j < |calls| ensures D.HomeOf(calls[i]).AtMost(D.HomeOf(calls[j])) {
        assert calls[i] in c.life.calls;
      }
    }
  }

  lemma DispatchedKept(c: Cell, m: Manager)
    requires Control(c) && c.manager == Some(m) && m.pc.Begin?
    ensures Control(Dispatched(c, m, D.Dispatch(m.status, m.task.desired)))
  {
    DispatchIsApt(m.status, m.task.desired);
    match D.Dispatch(m.status, m.task.desired)
    case Idle => SettledKept(c, m, c.res, D.Noop);
    case Move(to) =>
      D.EdgeClimbs(m.status, to);
      SettledKept(c, m, c.res, D.Advanced(to));
    case Invoke(call) =>
      OpeningsAreSound(call, c.res, m.local);
      if call.CallShutdown? {
        EffectedKept(c, m, call, Opened(call, c.res, m.local));
      } else {
        CallingKept(c, m, call);
        EffectedKept(c.(life := c.life.(calls := c.life.calls + [call])), m, call, Opened(call, c.res, m.local));
      }
  }

  // ---- Publishing, commands, removal ---------------------------------------

  lemma PersistedKept(c: Cell, m: Manager, retry: bool, ok: bool)
    requires Control(c) && c.manager == Some(m) && m.pc == Persist(retry)
    ensures Control(Persisted(c, m, retry, ok))
  {
    if ok && c.life.writesOk && c.disk.value.state != m.status {
      D.EdgeClimbs(c.disk.value.state, m.status);
    }
  }

  lemma ReportedKept(c: Cell, m: Manager, retry: bool)
    requires Control(c) && c.manager == Some(m) && m.pc == Report(retry)
    ensures Control(Reported(c, m, retry))
  {
  }

  lemma RemovedKept(cfg: Config, c: Cell, m: Manager, pc: RemovePc, o: Outcome)
    requires Control(c) && c.manager == Some(m) && m.pc == Removing(pc)
    ensures Control(Removed(cfg, c, m, pc, o))
  {
  }

  lemma DroppedKept(c: Cell, m: Manager)
    requires Control(c) && c.manager == Some(m) && m.pc.Interruptible()
    ensures Control(Dropped(c, m))
  {
  }

  lemma ObeyedKept(c: Cell, m: Manager)
    requires Control(c) && c.manager == Some(m) && m.queue != [] && m.pc.Begin?
    ensures Control(Obeyed(c, m))
  {
  }

  lemma CommandedKept(c: Cell, m: Manager)
    requires Control(c) && c.manager == Some(m) && m.queue != [] && m.pc.Interruptible()
    ensures Control(Commanded(c, m))
  {
    DroppedKept(c, m);
    ObeyedKept(Dropped(c, m), m.(pc := Begin));
  }

  lemma TickedKept(cfg: Config, c: Cell, m: Manager, o: Outcome)
    requires Control(c) && c.manager == Some(m) && !m.pc.Park?
    ensures Control(Ticked(cfg, c, m, o))
  {
    match m.pc
    case Begin => DispatchedKept(c, m);
    case Working(op) =>
      StepsAreSound(cfg, c.res, m.local, m.task.Caps(), op, o);
      EffectedKept(c, m, op.Call(), Stepped(cfg, c.res, m.local, m.task.Caps(), op, o));
    case Persist(retry) => PersistedKept(c, m, retry, o.Okay?);
    case Report(retry) => ReportedKept(c, m, retry);
    case Backoff =>
    case Removing(pc) => RemovedKept(cfg, c, m, pc, o);
  }

  // ---- The worker ----------------------------------------------------------

  lemma {:induction false} ChainExtends(low: DesiredState, queue: seq<Command>, high: DesiredState, x: Command)
    requires Chain(low, queue, high)
    ensures x.Update? && high.AtMost(x.task.desired) ==> Chain(low, queue + [x], x.task.desired)
    ensures !x.Update? ==> Chain(low, queue + [x], high)
    decreases |queue|
  {
    if queue == [] {
      assert (queue + [x])[1..] == [];
    } else {
      assert (queue + [x])[1..] == queue[1..] + [x];
      ChainExtends(if queue[0].Update? then queue[0].task.desired else low, queue[1..], high, x);
    }
  }

  lemma AppliedKept(c: Cell, task: TaskDef, seed: TaskState)
    requires Control(c) && Enabled(c, Assign(task, seed, true))
    ensures Control(Applied(c, task, seed))
  {
    if c.manager.Some? {
      var m := c.manager.value;
      if m.handle.Rank() <= task.desired.Rank() {
        ChainExtends(m.task.desired, m.queue, m.handle, Update(task));
      }
    }
  }

  lemma ToldKept(c: Cell, x: Command)
    requires Control(c) && c.manager.Some? && !x.Update?
    ensures Control(c.(manager := Some(Told(c.manager.value, x))))
  {
    var m := c.manager.value;
    ChainExtends(m.task.desired, m.queue, m.handle, x);
  }

  lemma InitializedKept(c: Cell, listed: bool, query: bool)
    requires Control(c) && !c.up
    ensures Control(Initialized(c, listed, query))
  {
  }

  /** The loop takes no notice of a command that nobody waits for. */
  lemma OrphanKept(cfg: Config, c: Cell, x: Orphan)
    requires Control(c) && c.res.orphans.Has(x)
    ensures Control(OrphanLanded(cfg, c, x)) && Control(OrphanLost(c, x))
  {
  }

  // ---- Every step ----------------------------------------------------------

  lemma ControlKept(cfg: Config, c: Cell, e: Event)
    requires Control(c) && Enabled(c, e)
    ensures Control(Next(cfg, c, e))
  {
    match e
    case Assign(task, seed, ok) => if ok { AppliedKept(c, task, seed); }
    case Unassign => if c.manager.Some? { ToldKept(c, Command.Remove); }
    case CloseDown => ToldKept(c, Close);
    case Crash =>
    case Init(read, listed, query) => if read { InitializedKept(c, listed, query); }
    case Interrupt => CommandedKept(c, c.manager.value);
    case Tick(o) => TickedKept(cfg, c, c.manager.value, o);
    case ContainerExits =>
    case Probe(result) =>
    case StrayStep(i, ok) =>
    case OrphanEnds(x, ok) => OrphanKept(cfg, c, x);
  }
}
