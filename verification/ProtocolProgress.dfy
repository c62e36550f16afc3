/** What the operations of a task come to: how each await ends the call it
    belongs to, what a call that runs undisturbed leaves behind, what is tried
    again, and what startup and removal make of a record. */
module ProtocolProgress {
  import opened TaskStates
  import opened Controller
  import opened Protocol
  import opened ProtocolControl
  import opened ProtocolJail
  import D = DoStep
  import H = Health

  // ---- How a call ends -----------------------------------------------------

  /** How a call of the loop ends: the task advances, the call is to be made
      again, or the task has failed. */
  datatype Ending = To(state: TaskState) | Again | Fatal

  /** `shutdown` stops, the others go one state up; an exit code other than 0 and
      an error that is not temporary are failures. */
  function EndingOf(call: D.Call, reply: D.Reply): Ending
  {
    match reply
    case Broke(temporary) => if temporary then Again else Fatal
    case BadExit => To(Failed)
    case Done =>
      match call
      case CallPrepare => To(TaskState.Ready)
      case CallStart => To(TaskState.Running)
      case CallWait => To(Complete)
      case CallShutdown => To(TaskState.Shutdown)
  }

  /** The state a task is in then: a failure is REJECTED before STARTING and
      FAILED from there on. */
  function StateAfter(status: TaskState, ending: Ending): TaskState
  {
    match ending
    case To(state) => state
    case Again => status
    case Fatal => if status.Rung() < 4 then Rejected else Failed
  }

  /** Every answer of a call ends it like this, and is then persisted. */
  lemma AnswersEnd(c: Cell, m: Manager, call: D.Call, e: Effect)
    requires Homed(m.status, m.task.desired, call) && e.onward.Answer? && D.Answers(call, e.onward.reply)
    ensures var ending := EndingOf(call, e.onward.reply);
            Effected(c, m, call, e) == c.(res := e.res, manager := Some(m.(
              local := e.local, status := StateAfter(m.status, ending), pc := Persist(ending.Again?))))
  {
  }

  /** The awaits whose error is the call's own; the others are the health gate,
      the wait for the exit, and what follows once the outcome is settled. */
  predicate Fragile(op: OpPc)
  {
    match op
    case InPrepare(_) => true
    case InStart(pc) => pc.SAttach? || pc.SLook? || pc.SStart? || pc.SRelook? || pc.SProber?
    case InWait(pc) => pc.WUsage? || pc.WClear? || pc.WMemory? || pc.WCpu? || pc.WProber?
    case InStop(_) => true
  }

  predicate Errs(op: OpPc, o: Outcome) { o.Bad? || o.Sick? || (o.Gone? && op != InStop(HSignal)) }

  /** An error there ends the operation; what was done so far stays, and the file
      that was being written is spoiled. */
  lemma ErrorsAnswer(cfg: Config, res: Resources, local: Local, limits: Limits, op: OpPc, o: Outcome)
    requires Fragile(op) && Errs(op, o)
    ensures Stepped(cfg, res, local, limits, op, o)
         == Effect(res.(spoiled := res.spoiled + CutAll(WriterOf(op))), local, Answer(D.Broke(o.Temporary())))
  {
    assert res.spoiled + CutAll([]) == res.spoiled;
    match op
    case InPrepare(pc) => CutOne(WriterOf(op));
    case InStart(pc) =>
    case InWait(pc) =>
    case InStop(pc) =>
  }

  lemma CutOne(writers: seq<Writer>)
    requires |writers| <= 1
    ensures CutAll(writers) == if writers == [] then {} else Cut(writers[0])
  {
  }

  /** No other await can make the call be made again. */
  lemma RetriesOnlyOnErrors(cfg: Config, res: Resources, local: Local, limits: Limits, op: OpPc, o: Outcome)
    requires Stepped(cfg, res, local, limits, op, o).onward == Answer(D.Broke(true))
    ensures Fragile(op) && o.Temporary()
  {
    match op
    case InPrepare(pc) =>
    case InStart(pc) =>
    case InWait(pc) =>
    case InStop(pc) =>
  }

  // ---- What is tried again -------------------------------------------------

  /** The awaited operation of the loop ends: the event `Tick`. */
  function On(cfg: Config, c: Cell, o: Outcome): Cell
    requires c.manager.Some? && !c.manager.value.pc.Park?
  {
    Ticked(cfg, c, c.manager.value, o)
  }

  /** An await of a call ends in an error of the call's own: exactly a temporary
      one leaves the task where it is, to try again, and any other ends it.  Only
      a payload file that was being written is touched. */
  lemma ErrorsEndTheCall(cfg: Config, c: Cell, m: Manager, op: OpPc, o: Outcome)
    requires Control(c) && c.manager == Some(m) && m.pc == Working(op) && Fragile(op) && Errs(op, o)
    ensures var ending := if o.Temporary() then Again else Fatal;
            On(cfg, c, o) == c.(res := c.res.(spoiled := c.res.spoiled + CutAll(WriterOf(op))), manager := Some(m.(
              status := StateAfter(m.status, ending), pc := Persist(o.Temporary()))))
  {
    ErrorsAnswer(cfg, c.res, m.local, m.task.Caps(), op, o);
    AnswersEnd(c, m, op.Call(), Stepped(cfg, c.res, m.local, m.task.Caps(), op, o));
  }

  /** A call is made again exactly after a temporary error at such an await. */
  lemma RetriedExactly(cfg: Config, c: Cell, m: Manager, op: OpPc, o: Outcome)
    requires Control(c) && c.manager == Some(m) && m.pc == Working(op)
    ensures On(cfg, c, o).manager.Some?
    ensures On(cfg, c, o).manager.value.pc == Persist(true) <==> Fragile(op) && o.Temporary()
  {
    var e := Stepped(cfg, c.res, m.local, m.task.Caps(), op, o);
    StepsAreSound(cfg, c.res, m.local, m.task.Caps(), op, o);
    assert On(cfg, c, o) == Effected(c, m, op.Call(), e);
    if Fragile(op) && o.Temporary() {
      ErrorsEndTheCall(cfg, c, m, op, o);
    } else if e.onward.Answer? {
      AnswersEnd(c, m, op.Call(), e);
      if e.onward == Answer(D.Broke(true)) {
        RetriesOnlyOnErrors(cfg, c.res, m.local, m.task.Caps(), op, o);
      }
    }
  }

  /** A status that is persisted, or fails to be, is reported; an advance goes on
      at once, and what is tried again waits for the timer first. */
  lemma PublishesAndGoesOn(cfg: Config, c: Cell, m: Manager, retry: bool, o: Outcome, o': Outcome)
    requires c.manager == Some(m) && m.pc == Persist(retry) && c.disk.Some?
    ensures var c1 := On(cfg, c, o);
            && c1.manager == Some(m.(pc := Report(retry)))
            && var c2 := On(cfg, c1, o');
            && c2.manager == Some(m.(pc := if retry then Backoff else Begin)) && c2.res == c.res && c2.up == c.up
            && c2.disk == Some(if o.Okay? then c.disk.value.(state := m.status) else c.disk.value)
            && c2.life == c.life.(reports := c.life.reports + [m.status], writesOk := c.life.writesOk && o.Okay?,
                                  advances := c2.life.advances)
  {
  }

  lemma TimerRings(cfg: Config, c: Cell, m: Manager, o: Outcome)
    requires c.manager == Some(m) && m.pc == Backoff
    ensures On(cfg, c, o) == c.(manager := Some(m.(pc := Begin)))
  {
  }

  /** In the state and under the desired state of a call the loop makes it. */
  lemma HomedIsDispatched(status: TaskState, desired: DesiredState, call: D.Call)
    ensures Homed(status, desired, call) <==> D.Dispatch(status, desired) == D.Invoke(call)
  {
  }

  /** The call of a status, from its first await. */
  lemma CallsAgain(cfg: Config, c: Cell, m: Manager, call: D.Call, o: Outcome)
    requires c.manager == Some(m) && m.pc == Begin && Homed(m.status, m.task.desired, call)
    requires call.CallWait? ==> m.local.exit.None?
    ensures var c' := On(cfg, c, o);
            && c'.manager.Some? && c'.manager.value.pc.Working? && c'.manager.value.pc.op.Call() == call
            && c'.manager.value.status == m.status && c'.disk == c.disk && c'.res == c.res
            && c'.life.calls == c.life.calls + (if call.CallShutdown? then [] else [call])
  {
    HomedIsDispatched(m.status, m.task.desired, call);
  }

  /** A temporary failure of a call, whatever the status write and the reporter do:
      the task keeps its state, the record is left alone if status writes succeed,
      the state is reported once more, and after the timer the same call is made
      again. */
  lemma TemporaryFailureIsRetried(cfg: Config, c: Cell, m: Manager, op: OpPc, o: Outcome, os: seq<Outcome>)
    requires Control(c) && GateInv(cfg, c) && c.manager == Some(m) && m.pc == Working(op)
    requires Fragile(op) && o.Temporary() && |os| == 4
    ensures var c1 := On(cfg, c, o);
            && c1.manager == Some(m.(pc := Persist(true)))
            && var c2 := On(cfg, c1, os[0]);
            && c2.manager == Some(m.(pc := Report(true)))
            && var c3 := On(cfg, c2, os[1]);
            && c3.manager == Some(m.(pc := Backoff)) && c3.life.reports == c.life.reports + [m.status]
            && (c.life.writesOk ==> c3.disk == c.disk)
            && var c4 := On(cfg, c3, os[2]);
            && c4.manager == Some(m.(pc := Begin))
            && var c5 := On(cfg, c4, os[3]);
            && c5.manager.Some? && c5.manager.value.pc.Working? && c5.manager.value.pc.op.Call() == op.Call()
            && c5.manager.value.status == m.status && c5.disk == c3.disk
  {
    ErrorsEndTheCall(cfg, c, m, op, o);
    var c1 := On(cfg, c, o);
    PublishesAndGoesOn(cfg, c1, m.(pc := Persist(true)), true, os[0], os[1]);
    var c3 := On(cfg, On(cfg, c1, os[0]), os[1]);
    TimerRings(cfg, c3, m.(pc := Backoff), os[2]);
    CallsAgain(cfg, On(cfg, c3, os[2]), m.(pc := Begin), op.Call(), os[3]);
  }

  // ---- Shutdown ------------------------------------------------------------

  /** The exit a controller knows once it has been told, or not, of one: exit code
      0 is believed only of a process that is gone. */
  function ExitAfter(jail: Jail, local: Local, o: Outcome): Option<bool>
  {
    match o
    case Gone(clean) =>
      if local.exit.None? && local.watch && !(clean && (jail.Created? || jail.Live?)) then Some(clean) else local.exit
    case _ => local.exit
  }

  /** `shutdown` after the signal: whether the container went or was given up, the
      ports are unpublished, and the exit is remembered; then the task is SHUTDOWN.
      An error at either await is retried or fatal like any other. */
  lemma ShutdownExactly(cfg: Config, c: Cell, m: Manager, o: Outcome, o': Outcome)
    requires Control(c) && c.manager == Some(m) && m.pc == Working(InStop(HSignal))
    ensures var c1 := On(cfg, c, o);
            if o.Okay? || o.Gone? then
              var m1 := m.(pc := Working(InStop(HPorts)), local := m.local.(exit := ExitAfter(c.res.jail, m.local, o)));
              && c1 == c.(manager := Some(m1))
              && On(cfg, c1, o') == c.(manager := Some(m1.(
                   status := StateAfter(m.status, if o'.Okay? then To(TaskState.Shutdown) else if o'.Temporary() then Again else Fatal),
                   pc := Persist(o'.Temporary()))))
            else
              c1.manager == Some(m.(status := StateAfter(m.status, if o.Temporary() then Again else Fatal),
                                    pc := Persist(o.Temporary())))
  {
    if o.Okay? || o.Gone? {
      SignalIsSent(c.res, m.local, o);
      var c1 := On(cfg, c, o);
      PortsAreUnpublished(c.res, c1.manager.value.local, o');
      AnswersEnd(c1, c1.manager.value, D.CallShutdown, StopTick(c.res, c1.manager.value.local, HPorts, o'));
    } else {
      ErrorsEndTheCall(cfg, c, m, InStop(HSignal), o);
    }
  }

  lemma SignalIsSent(res: Resources, local: Local, o: Outcome)
    requires o.Okay? || o.Gone?
    ensures StopTick(res, local, HSignal, o)
         == Effect(res, local.(exit := ExitAfter(res.jail, local, o)), Goto(InStop(HPorts)))
  {
  }

  lemma PortsAreUnpublished(res: Resources, local: Local, o: Outcome)
    ensures StopTick(res, local, HPorts, o)
         == Effect(res, local, Answer(if o.Okay? then D.Done else D.Broke(o.Temporary())))
  {
  }

  /** A stop request that nothing goes wrong with, from any state below COMPLETE:
      the prober is stopped, `shutdown` is called, and SHUTDOWN is on disk and
      reported. */
  lemma StopSucceeds(cfg: Config, c: Cell, m: Manager, os: seq<Outcome>)
    requires Control(c) && c.manager == Some(m) && m.pc == Begin
    requires m.task.desired.WantsStop() && m.status.Below(Complete)
    requires |os| == 5 && forall o | o in os :: o.Okay?
    ensures var c1 := On(cfg, c, os[0]);
            && c1.manager == Some(m.(pc := Working(InStop(HSignal)), local := m.local.(prober := None)))
            && var c2 := On(cfg, c1, os[1]);
            && c2.manager.Some? && !c2.manager.value.pc.Park?
            && var c3 := On(cfg, c2, os[2]);
            && c3.manager.Some? && !c3.manager.value.pc.Park?
            && var c4 := On(cfg, c3, os[3]);
            && c4.manager.Some? && !c4.manager.value.pc.Park?
            && var c5 := On(cfg, c4, os[4]);
            && c5.disk == Some(c.disk.value.(state := TaskState.Shutdown)) && c5.res == c.res
            && c5.manager == Some(m.(status := TaskState.Shutdown, local := m.local.(prober := None)))
            && c5.life.reports == c.life.reports + [TaskState.Shutdown]
  {
    HomedIsDispatched(m.status, m.task.desired, D.CallShutdown);
    StopOpens(cfg, c, m, os[0]);
    var c1 := On(cfg, c, os[0]);
    ShutdownExactly(cfg, c1, c1.manager.value, os[1], os[2]);
    var c3 := On(cfg, On(cfg, c1, os[1]), os[2]);
    PublishesAndGoesOn(cfg, c3, c3.manager.value, false, os[3], os[4]);
  }

  lemma StopOpens(cfg: Config, c: Cell, m: Manager, o: Outcome)
    requires Control(c) && c.manager == Some(m) && m.pc == Begin && Homed(m.status, m.task.desired, D.CallShutdown)
    ensures On(cfg, c, o)
         == c.(manager := Some(m.(pc := Working(InStop(HSignal)), local := m.local.(prober := None))))
    ensures Control(On(cfg, c, o))
  {
    HomedIsDispatched(m.status, m.task.desired, D.CallShutdown);
    TickedKept(cfg, c, m, o);
  }

  // ---- Start and the health gate -------------------------------------------

  /** `start` looks at the container first: without one it fails, a created one is
      started, and one that was started before is left as it is. */
  lemma StartLooks(cfg: Config, c: Cell, m: Manager, now: int, now': int)
    requires Control(c) && c.manager == Some(m) && m.pc == Working(InStart(SAttach))
    ensures var c1 := On(cfg, c, Okay(now));
            && c1 == c.(manager := Some(m.(pc := Working(InStart(SLook)))))
            && On(cfg, c1, Okay(now')) == c.(manager := Some(
                 match c.res.jail
                 case Absent => m.(status := Failed, pc := Persist(false))
                 case Created => m.(pc := Working(InStart(SStart)))
                 case _ => m.(pc := Working(InStart(SRelook)))))
  {
    var c1 := On(cfg, c, Okay(now));
    if c.res.jail.Absent? {
      AnswersEnd(c1, c1.manager.value, D.CallStart, StartTick(cfg, c.res, m.local, SLook, Okay(now')));
    }
  }

  /** A created container is released and its start time noted; one that has died
      since is taken for started; any other is refused, and the task has failed. */
  lemma StartReleases(cfg: Config, c: Cell, m: Manager, now: int)
    requires Control(c) && c.manager == Some(m) && m.pc == Working(InStart(SStart))
    ensures var on := m.(pc := Working(InStart(SRelook)), local := m.local.(startedAt := Some(now)));
            On(cfg, c, Okay(now)) ==
              match c.res.jail
              case Created => c.(res := c.res.(jail := Live, log := c.res.log + [DidStart]), manager := Some(on))
              case Stopped => c.(manager := Some(on))
              case _ => c.(manager := Some(m.(status := Failed, pc := Persist(false))))
  {
    if c.res.jail.Live? || c.res.jail.Absent? {
      AnswersEnd(c, m, D.CallStart, StartTick(cfg, c.res, m.local, SStart, Okay(now)));
    }
  }

  /** Then its process id is known, and it is probed from its start on if it has a
      healthcheck; probing that goes on already goes on. */
  lemma StartComesToTheGate(cfg: Config, c: Cell, m: Manager, now: int, now': int)
    requires c.manager == Some(m) && m.pc == Working(InStart(SRelook))
    ensures var c1 := On(cfg, c, Okay(now));
            && c1.manager.Some? && c1.manager.value.pc == Working(InStart(SProber))
            && var c2 := On(cfg, c1, Okay(now'));
            && c2 == c.(manager := c2.manager) && c2.manager.Some?
            && var m2 := c2.manager.value;
            && m2 == m.(pc := Working(InStart(SGate)), local := m2.local)
            && (c.res.jail.Created? || c.res.jail.Live? ==> m2.local.pid)
            && m2.local == m.local.(pid := m2.local.pid, prober := m2.local.prober, startedAt := m2.local.startedAt)
            && (cfg.probe.None? || m.local.prober.Some? ==>
                  m2.local.prober == m.local.prober && m2.local.startedAt == m.local.startedAt)
            && (cfg.probe.Some? && m.local.prober.None? ==>
                  && m2.local.prober == Some([])
                  && m2.local.startedAt == if m.local.startedAt.Some? then m.local.startedAt else Some(now'))
  {
  }

  /** What the health gate makes of each outcome: RUNNING without a healthcheck or
      once a probe has passed, a stop once the container is unhealthy, FAILED if the
      prober or the container is gone, and otherwise more waiting. */
  lemma GateExactly(cfg: Config, c: Cell, m: Manager, o: Outcome)
    requires Control(c) && GateInv(cfg, c) && c.manager == Some(m) && m.pc == Working(InStart(SGate))
    ensures var m' := On(cfg, c, o).manager;
            && On(cfg, c, o) == c.(manager := m') && m'.Some?
            && match o
               case Okay(_) =>
                 if cfg.probe.None? then m'.value == m.(status := TaskState.Running, pc := Persist(false), local := m'.value.local)
                 else
                   m'.value == (match m.local.Health(cfg.probe.value)
                                case Healthy => m.(status := TaskState.Running, pc := Persist(false))
                                case Unhealthy => m.(pc := Working(InStart(SStop)), local := m.local.(prober := None))
                                case Starting => m)
               case Gone(_) =>
                 var exit := ExitAfter(c.res.jail, m.local, o);
                 m'.value == m.(pc := Working(InStart(if exit.Some? then SDetach else SGate)), local := m.local.(exit := exit))
               case _ => m'.value == m.(status := Failed, pc := Persist(false), local := m.local.(prober := None))
  {
    var e := StartTick(cfg, c.res, m.local, SGate, o);
    StepsAreSound(cfg, c.res, m.local, m.task.Caps(), InStart(SGate), o);
    if e.onward.Answer? {
      AnswersEnd(c, m, D.CallStart, e);
    }
  }

  /** A container that is gone is detached, and the task is FAILED. */
  lemma GateDetachFails(cfg: Config, c: Cell, m: Manager, o: Outcome)
    requires Control(c) && c.manager == Some(m) && m.pc == Working(InStart(SDetach))
    ensures On(cfg, c, o) == c.(manager := Some(m.(status := Failed, pc := Persist(false), local := m.local.(prober := None))))
  {
    AnswersEnd(c, m, D.CallStart, StartTick(cfg, c.res, m.local, SDetach, o));
  }

  /** An unhealthy container is stopped, and whatever exit it had is remembered. */
  lemma GateStops(cfg: Config, c: Cell, m: Manager, o: Outcome)
    requires c.manager == Some(m) && m.pc == Working(InStart(SStop))
    ensures On(cfg, c, o) == c.(manager := Some(
              m.(pc := Working(InStart(SPorts)), local := m.local.(exit := ExitAfter(c.res.jail, m.local, o)))))
  {
  }

  /** Its ports are unpublished, and the task is FAILED however that ends. */
  lemma GateStopFails(cfg: Config, c: Cell, m: Manager, o: Outcome)
    requires Control(c) && c.manager == Some(m) && m.pc == Working(InStart(SPorts))
    ensures On(cfg, c, o) == c.(manager := Some(m.(status := Failed, pc := Persist(false), local := m.local.(prober := None))))
  {
    AnswersEnd(c, m, D.CallStart, StartTick(cfg, c.res, m.local, SPorts, o));
  }

  // ---- Waiting -------------------------------------------------------------

  /** The outcomes that end the wait of a watched container: an exit, an unhealthy
      container, or a prober that is gone. */
  predicate WaitEnds(cfg: Config, res: Resources, local: Local, o: Outcome)
  {
    var probed := local.prober.Some? && cfg.probe.Some?;
    || (o.Gone? && ExitAfter(res.jail, local, o).Some?)
    || (o.Sick? && probed && local.Health(cfg.probe.value).Unhealthy?)
    || (o.Bad? && probed)
  }

  /** What `wait` makes of each outcome: an unwatched container fails the task, an
      exit is remembered, an unhealthy container is stopped, a task whose prober is
      gone fails, and otherwise it waits on. */
  lemma WaitExactly(cfg: Config, c: Cell, m: Manager, o: Outcome)
    requires Control(c) && GateInv(cfg, c) && c.manager == Some(m) && m.pc == Working(InWait(WWait))
    ensures On(cfg, c, o) == c.(manager := Some(
              if !m.local.watch then m.(status := Failed, pc := Persist(false))
              else if !WaitEnds(cfg, c.res, m.local, o) then m
              else
                match o
                case Gone(_) => m.(pc := Working(InWait(WDetach)), local := m.local.(exit := ExitAfter(c.res.jail, m.local, o)))
                case Sick => m.(pc := Working(InWait(WStop)), local := m.local.(prober := None))
                case _ => m.(status := Failed, pc := Persist(false), local := m.local.(prober := None))))
  {
    var e := Awaited(cfg, c.res, m.local, o);
    if e.onward.Answer? {
      AnswersEnd(c, m, D.CallWait, e);
    }
  }

  /** An exit makes the task COMPLETE exactly if its code was 0, and FAILED
      otherwise; an unhealthy container that was stopped is FAILED anyhow. */
  lemma WaitConcludes(cfg: Config, c: Cell, m: Manager, o: Outcome, o': Outcome)
    requires Control(c) && c.manager == Some(m)
    ensures m.pc == Working(InWait(WDetach)) ==>
              On(cfg, c, o) == c.(manager := Some(
                m.(status := if m.local.exit == Some(true) then Complete else Failed, pc := Persist(false))))
    ensures m.pc == Working(InWait(WStop)) ==>
              var m1 := m.(pc := Working(InWait(WPorts)), local := m.local.(exit := ExitAfter(c.res.jail, m.local, o)));
              && On(cfg, c, o) == c.(manager := Some(m1))
              && On(cfg, On(cfg, c, o), o') == c.(manager := Some(m1.(status := Failed, pc := Persist(false))))
  {
    if m.pc == Working(InWait(WDetach)) {
      AnswersEnd(c, m, D.CallWait, WaitTick(cfg, c.res, m.local, m.task.Caps(), WDetach, o));
    }
    if m.pc == Working(InWait(WStop)) {
      var c1 := On(cfg, c, o);
      AnswersEnd(c1, c1.manager.value, D.CallWait, WaitTick(cfg, c.res, c1.manager.value.local, m.task.Caps(), WPorts, o'));
    }
  }

  /** The task is RUNNING and its watched container is waited for. */
  predicate Waiting(c: Cell)
  {
    && c.up && c.manager.Some? && c.manager.value.status == TaskState.Running
    && c.manager.value.pc == Working(InWait(WWait)) && c.manager.value.local.watch
  }

  /** Neither a command, nor a crash, nor an outcome that ends the wait. */
  predicate Calm(cfg: Config, c: Cell, e: Event)
  {
    && !e.Interrupt? && !e.Crash?
    && (e.Tick? && c.manager.Some? ==> !WaitEnds(cfg, c.res, c.manager.value.local, e.outcome))
  }

  ghost predicate AllCalm(cfg: Config, c: Cell, events: seq<Event>)
    requires Runs(cfg, c, events)
    decreases |events|
  {
    events != [] ==> Calm(cfg, c, events[0]) && AllCalm(cfg, Next(cfg, c, events[0]), events[1..])
  }

  lemma WaitingGoesOn(cfg: Config, c: Cell, e: Event)
    requires Control(c) && GateInv(cfg, c) && Waiting(c) && Enabled(c, e) && Calm(cfg, c, e)
    ensures Waiting(Next(cfg, c, e))
  {
    if e.Tick? {
      WaitExactly(cfg, c, c.manager.value, e.outcome);
    }
  }

  /** However long nothing ends the wait, whatever is assigned, probed, written or
      lands meanwhile, the task stays RUNNING and is waited for. */
  lemma {:induction false} StaysRunning(cfg: Config, c: Cell, events: seq<Event>)
    requires Control(c) && GateInv(cfg, c) && Waiting(c) && Runs(cfg, c, events) && AllCalm(cfg, c, events)
    ensures Waiting(After(cfg, c, events))
    decreases |events|
  {
    if events != [] {
      ControlKept(cfg, c, events[0]);
      GateKept(cfg, c, events[0]);
      WaitingGoesOn(cfg, c, events[0]);
      StaysRunning(cfg, Next(cfg, c, events[0]), events[1..]);
    }
  }
}
