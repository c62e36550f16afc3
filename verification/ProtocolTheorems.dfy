/** What holds of a task over every run: any interleaving of assignments,
    updates, removals, dropped steps, writers and commands left running by them,
    container exits, probes, daemon crashes and restarts. */
module ProtocolTheorems {
  import opened TaskStates
  import opened Controller
  import opened Protocol
  import opened ProtocolControl
  import opened ProtocolJail
  import opened ProtocolRules
  import opened ProtocolFiles
  import opened ProtocolSafety
  import opened PayloadWriters
  import D = DoStep
  import H = Health

  // ---- Reachability --------------------------------------------------------

  lemma {:induction false} SafeRun(cfg: Config, c: Cell, events: seq<Event>)
    requires cfg.Valid() && Safe(cfg, c) && Runs(cfg, c, events)
    ensures Safe(cfg, After(cfg, c, events))
    decreases |events|
  {
    if events != [] {
      SafeKept(cfg, c, events[0]);
      SafeRun(cfg, Next(cfg, c, events[0]), events[1..]);
    }
  }

  /** Every state of every run from a node that never heard of the task. */
  lemma EveryRunIsSafe(cfg: Config, events: seq<Event>)
    requires cfg.Valid() && Runs(cfg, Fresh, events)
    ensures Safe(cfg, After(cfg, Fresh, events))
  {
    FreshIsSafe(cfg);
    SafeRun(cfg, Fresh, events);
  }

  // ---- One-shot execution --------------------------------------------------

  function Count(log: seq<JailOp>, x: JailOp): nat
  {
    if log == [] then 0 else Count(log[..|log| - 1], x) + if log[|log| - 1] == x then 1 else 0
  }

  lemma {:induction false} CountZero(log: seq<JailOp>, x: JailOp)
    ensures Count(log, x) == 0 <==> x !in log
    decreases |log|
  {
    if log != [] {
      CountZero(log[..|log| - 1], x);
      assert log == log[..|log| - 1] + [log[|log| - 1]];
    }
  }

  /** In any stretch of the runtime log, creations and starts outnumber
      deletions by at most one. */
  lemma {:induction false} StretchCounts(log: seq<JailOp>, low: nat, high: nat)
    requires Alternates(log) && low <= high <= |log|
    ensures var s := log[low..high];
            var open := s != [] && s[|s| - 1] != DidDelete;
            var started := s != [] && s[|s| - 1] == DidStart;
            && Count(s, DidCreate) <= Count(s, DidDelete) + (if open then 1 else 0)
            && Count(s, DidStart) <= Count(s, DidDelete) + (if started then 1 else 0)
    decreases high
  {
    if low < high {
      StretchCounts(log, low, high - 1);
      var s := log[low..high];
      assert s[..|s| - 1] == log[low..high - 1];
      assert InTurn(log, high - 1);
    }
  }

  /** Where nothing but a delete follows a start there is one start at most. */
  lemma {:induction false} OneStart(log: seq<JailOp>, low: nat, high: nat)
    requires low <= high <= |log|
    requires forall i, j :: low <= i < j < |log| && log[i] == DidStart ==> log[j] == DidDelete
    ensures Count(log[low..high], DidStart) <= 1
    decreases high
  {
    if low < high {
      var s := log[low..high];
      assert s[..|s| - 1] == log[low..high - 1];
      OneStart(log, low, high - 1);
      if log[high - 1] == DidStart {
        CountZero(log[low..high - 1], DidStart);
      }
    }
  }

  /** `ocijail create` takes effect at most once in the life of a record as long
      as no removal of it has begun, and `ocijail start` as long as no removal has
      begun, or every status write succeeded and no late command of the runtime
      overran the life; in general each takes effect at most once more than
      `ocijail delete` did.  Commands that dropped steps left running count. */
  lemma OneShot(cfg: Config, events: seq<Event>)
    requires cfg.Valid() && Runs(cfg, Fresh, events) && After(cfg, Fresh, events).disk.Some?
    ensures var c := After(cfg, Fresh, events);
            && c.life.birth <= |c.res.log|
            && var lived := c.res.log[c.life.birth..];
            && Count(lived, DidCreate) <= Count(lived, DidDelete) + 1
            && Count(lived, DidStart) <= Count(lived, DidDelete) + 1
            && (!c.life.removal ==> Count(lived, DidCreate) <= 1)
            && (!c.life.removal || (c.life.writesOk && !c.life.overrun) ==> Count(lived, DidStart) <= 1)
  {
    EveryRunIsSafe(cfg, events);
    var c := After(cfg, Fresh, events);
    var lived := c.res.log[c.life.birth..];
    assert lived == c.res.log[c.life.birth..|c.res.log|];
    StretchCounts(c.res.log, c.life.birth, |c.res.log|);
    CountZero(lived, DidDelete);
    if c.life.writesOk && !c.life.overrun {
      OneStart(c.res.log, c.life.birth, |c.res.log|);
    }
  }

  /** A create that is awaited takes effect exactly if there is no jail, and the
      task is REJECTED if a create that an earlier step left running was first.  In
      a life that began without a jail it repeats an earlier create exactly if a
      delete has taken effect in that life. */
  lemma CreateRepeatsExactlyAfterADelete(cfg: Config, c: Cell, now: int)
    requires Safe(cfg, c) && c.manager.Some? && c.manager.value.pc == Working(InPrepare(PCreate))
    ensures c.disk.Some? && c.life.birth <= |c.res.log|
    ensures var c' := Next(cfg, c, Tick(Okay(now)));
            && c'.res.log == c.res.log + (if c.res.jail.Absent? then [DidCreate] else [])
            && c'.manager.Some? && (c'.manager.value.status == Rejected <==> !c.res.jail.Absent?)
    ensures c.res.jail.Absent? && Last(c.res.log[..c.life.birth]) == DidDelete ==>
              (DidCreate in c.res.log[c.life.birth..] <==> DidDelete in c.res.log[c.life.birth..])
  {
    CreateTick(cfg, c, c.manager.value, now);
    if c.res.jail.Absent? && Last(c.res.log[..c.life.birth]) == DidDelete {
      BothOrNeither(c.res.log, c.life.birth);
    }
  }

  /** Between two moments without a jail there are creates and deletes, or none of
      either. */
  lemma BothOrNeither(log: seq<JailOp>, birth: nat)
    requires Alternates(log) && birth <= |log| && Last(log[..birth]) == DidDelete && Last(log) == DidDelete
    ensures DidCreate in log[birth..] <==> DidDelete in log[birth..]
  {
    var lived := log[birth..];
    if lived != [] {
      assert InTurn(log, birth);
      assert lived[0] == log[birth] && lived[|lived| - 1] == Last(log);
    }
  }

  lemma CreateTick(cfg: Config, c: Cell, m: Manager, now: int)
    requires Control(c) && c.manager == Some(m) && m.pc == Working(InPrepare(PCreate))
    ensures var c' := Ticked(cfg, c, m, Okay(now));
            && c'.res.log == c.res.log + (if c.res.jail.Absent? then [DidCreate] else [])
            && c'.manager.Some? && (c'.manager.value.status == Rejected <==> !c.res.jail.Absent?)
  {
    assert c.res.log + [] == c.res.log;
  }

  // ---- Canonical local status ----------------------------------------------

  lemma BehindIsAtMost(a: TaskState, b: TaskState)
    requires Behind(a, b)
    ensures a.AtMost(b)
  {
  }

  /** No step moves the state on disk backwards while the record exists. */
  lemma DiskNeverRegresses(cfg: Config, c: Cell, e: Event)
    requires Safe(cfg, c) && Enabled(c, e) && c.disk.Some? && Next(cfg, c, e).disk.Some?
    ensures c.disk.value.state.AtMost(Next(cfg, c, e).disk.value.state)
    ensures c.manager.Some? ==> c.disk.value.state.AtMost(c.manager.value.status)
  {
    if c.manager.Some? {
      BehindIsAtMost(c.disk.value.state, c.manager.value.status);
    }
  }

  /** The record is there before, between and after all of the events. */
  ghost predicate RecordStays(cfg: Config, c: Cell, events: seq<Event>)
    requires Runs(cfg, c, events)
    decreases |events|
  {
    c.disk.Some? && (events != [] ==> RecordStays(cfg, Next(cfg, c, events[0]), events[1..]))
  }

  /** Over any stretch of a record's life, crashes included, the state on disk
      never decreases. */
  lemma {:induction false} DiskClimbs(cfg: Config, c: Cell, events: seq<Event>)
    requires cfg.Valid() && Safe(cfg, c) && Runs(cfg, c, events) && RecordStays(cfg, c, events)
    ensures var c' := After(cfg, c, events);
            c'.disk.Some? && c.disk.value.state.AtMost(c'.disk.value.state)
    decreases |events|
  {
    if events != [] {
      SafeKept(cfg, c, events[0]);
      DiskClimbs(cfg, Next(cfg, c, events[0]), events[1..]);
      DiskNeverRegresses(cfg, c, events[0]);
    }
  }

  /** If status writes succeed, what is reported is what is on disk, and the
      reports of a record's life, across all crashes, never decrease. */
  lemma ReportsAreCanonical(cfg: Config, events: seq<Event>)
    requires cfg.Valid() && Runs(cfg, Fresh, events) && After(cfg, Fresh, events).life.writesOk
    ensures var c := After(cfg, Fresh, events);
            && Ascending(c.life.reports)
            && (c.disk.Some? ==> forall s | s in c.life.reports :: s.AtMost(c.disk.value.state))
  {
    EveryRunIsSafe(cfg, events);
  }

  lemma ReportEqualsDisk(cfg: Config, c: Cell, o: Outcome)
    requires Safe(cfg, c) && c.manager.Some? && c.manager.value.pc.Report? && c.life.writesOk
    ensures c.disk.Some?
    ensures Next(cfg, c, Tick(o)).life.reports == c.life.reports + [c.disk.value.state]
    ensures Next(cfg, c, Tick(o)).disk == c.disk
  {
  }

  // ---- Step bound and phase order ------------------------------------------

  /** A record's state on disk changes at most six times in its life, however
      many updates, retries, failed writes and crashes there are. */
  lemma AtMostSixAdvances(cfg: Config, events: seq<Event>)
    requires cfg.Valid() && Runs(cfg, Fresh, events) && After(cfg, Fresh, events).disk.Some?
    ensures var c := After(cfg, Fresh, events);
            c.life.advances <= c.disk.value.state.Rung() <= 6
  {
    EveryRunIsSafe(cfg, events);
  }

  /** If status writes succeed, controller calls come in the order prepare,
      start, wait, and a REJECTED task never had `start` called. */
  lemma PhasesInOrder(cfg: Config, events: seq<Event>)
    requires cfg.Valid() && Runs(cfg, Fresh, events)
    requires After(cfg, Fresh, events).disk.Some? && After(cfg, Fresh, events).life.writesOk
    ensures var c := After(cfg, Fresh, events);
            && CallsInOrder(c.life.calls)
            && (c.disk.value.state.Rejected? ==> D.CallStart !in c.life.calls && D.CallWait !in c.life.calls)
  {
    EveryRunIsSafe(cfg, events);
  }

  // ---- Shutdown dominance --------------------------------------------------

  /** The loop's own regression check never fires: a queued update is never
      behind the loop's desired state. */
  lemma NoRegressionIsEverQueued(cfg: Config, c: Cell)
    requires Safe(cfg, c) && c.manager.Some? && c.manager.value.queue != []
    requires c.manager.value.queue[0].Update?
    ensures c.manager.value.task.desired.AtMost(c.manager.value.queue[0].task.desired)
    ensures Adopting(c.manager.value, c.manager.value.queue[0].task).task == c.manager.value.queue[0].task
  {
  }

  /** One manager drives the task throughout. */
  ghost predicate Tenure(cfg: Config, c: Cell, events: seq<Event>)
    requires Runs(cfg, c, events)
    decreases |events|
  {
    c.manager.Some? && (events != [] ==> Tenure(cfg, Next(cfg, c, events[0]), events[1..]))
  }

  lemma StopStep(cfg: Config, c: Cell, e: Event)
    requires Safe(cfg, c) && Enabled(c, e) && c.manager.Some? && Next(cfg, c, e).manager.Some?
    requires c.manager.value.task.desired.WantsStop()
    ensures var m, m' := c.manager.value, Next(cfg, c, e).manager.value;
            && m'.task.desired.WantsStop()
            && Next(cfg, c, e).life.calls == c.life.calls
            && (m'.status == m.status || (m'.status.IsTerminal() && !m.status.IsTerminal()))
  {
    var m := c.manager.value;
    match e
    case Tick(o) => StopTicks(cfg, c, m, o);
    case Interrupt =>
      if m.queue[0].Update? {
        NoRegressionIsEverQueued(cfg, c);
      }
      StopInterrupted(c, m);
    case _ =>
  }

  lemma StopTicks(cfg: Config, c: Cell, m: Manager, o: Outcome)
    requires Control(c) && c.manager == Some(m) && !m.pc.Park? && m.task.desired.WantsStop()
    ensures var c' := Ticked(cfg, c, m, o);
            && c'.life.calls == c.life.calls
            && (c'.manager.Some? ==>
                  && c'.manager.value.task == m.task
                  && (c'.manager.value.status == m.status
                      || (c'.manager.value.status.IsTerminal() && !m.status.IsTerminal())))
  {
    match m.pc
    case Begin =>
      DispatchIsApt(m.status, m.task.desired);
      StopBegins(c, m);
    case Working(op) => StopWorks(cfg, c, m, op, o);
    case _ =>
  }

  lemma StopInterrupted(c: Cell, m: Manager)
    requires c.manager == Some(m) && m.queue != [] && m.task.desired.WantsStop()
    requires m.queue[0].Update? ==> m.task.desired.AtMost(m.queue[0].task.desired)
    ensures var c' := Commanded(c, m);
            && c'.life.calls == c.life.calls
            && (c'.manager.Some? ==> c'.manager.value.task.desired.WantsStop() && c'.manager.value.status == m.status)
  {
  }

  lemma StopBegins(c: Cell, m: Manager)
    requires c.manager == Some(m) && m.pc.Begin? && m.task.desired.WantsStop()
    ensures var c' := Dispatched(c, m, D.Dispatch(m.status, m.task.desired));
            && c'.life == c.life && c'.manager.Some?
            && c'.manager.value.task == m.task && c'.manager.value.status == m.status
  {
  }

  lemma StopWorks(cfg: Config, c: Cell, m: Manager, op: OpPc, o: Outcome)
    requires Control(c) && c.manager == Some(m) && m.pc == Working(op) && m.task.desired.WantsStop()
    ensures op.InStop?
    ensures var c' := Ticked(cfg, c, m, o);
            && c'.life == c.life && c'.manager.Some? && c'.manager.value.task == m.task
            && (c'.manager.value.status == m.status
                || (c'.manager.value.status.IsTerminal() && !m.status.IsTerminal()))
  {
    StepsAreSound(cfg, c.res, m.local, m.task.Caps(), op, o);
    var e := Stepped(cfg, c.res, m.local, m.task.Caps(), op, o);
    if e.onward.Answer? {
      StopVerdict(m.status, e.onward.reply);
    }
  }

  lemma StopVerdict(status: TaskState, reply: D.Reply)
    requires status.Below(Complete) && !reply.BadExit?
    ensures var v := D.Conclude(status, D.CallShutdown, reply); v.Advanced? ==> v.state.IsTerminal()
    ensures !status.IsTerminal()
  {
  }

  /** Once the loop has adopted a stop request it never again calls prepare,
      start or wait, and its only further advance is to a terminal state. */
  lemma {:induction false} StopDominates(cfg: Config, c: Cell, events: seq<Event>)
    requires cfg.Valid() && Safe(cfg, c) && Runs(cfg, c, events) && Tenure(cfg, c, events)
    requires c.manager.value.task.desired.WantsStop()
    ensures var c' := After(cfg, c, events);
            && c'.manager.Some? && c'.manager.value.task.desired.WantsStop()
            && c'.life.calls == c.life.calls
            && (c'.manager.value.pc.Working? ==> c'.manager.value.pc.op.InStop?)
            && (c'.manager.value.status == c.manager.value.status || c'.manager.value.status.IsTerminal())
            && (c.manager.value.status.IsTerminal() ==> c'.manager.value.status == c.manager.value.status)
    decreases |events|
  {
    if events != [] {
      SafeKept(cfg, c, events[0]);
      StopStep(cfg, c, events[0]);
      StopDominates(cfg, Next(cfg, c, events[0]), events[1..]);
    }
  }

  // ---- The health gate -----------------------------------------------------

  /** A task with a healthcheck goes from STARTING to RUNNING only after one of
      its prober's probes exited 0. */
  lemma RunningMeansAProbePassed(cfg: Config, c: Cell, e: Event)
    requires cfg.Valid() && Safe(cfg, c) && Enabled(c, e) && c.manager.Some?
    requires Next(cfg, c, e).manager.Some? && cfg.probe.Some?
    requires c.manager.value.status == TaskState.Starting
    requires Next(cfg, c, e).manager.value.status == TaskState.Running
    ensures var local := c.manager.value.local;
            local.prober.Some? && H.EverSucceeded(local.prober.value)
  {
    var m := c.manager.value;
    assert e.Tick?;
    if m.pc.Begin? {
      DispatchIsApt(m.status, m.task.desired);
      RunningIsNotDispatched(c, m);
    } else {
      assert m.pc.Working?;
      RunningComesFromTheGate(cfg, c, m, m.pc.op, e.outcome);
      H.HealthyMeansAProbePassed(cfg.probe.value, m.local.StartedAt(0), m.local.prober.value);
    }
  }

  lemma RunningIsNotDispatched(c: Cell, m: Manager)
    requires c.manager == Some(m) && m.pc.Begin? && m.status == TaskState.Starting
    ensures var c' := Dispatched(c, m, D.Dispatch(m.status, m.task.desired));
            c'.manager.Some? && c'.manager.value.status == m.status
  {
  }

  lemma RunningComesFromTheGate(cfg: Config, c: Cell, m: Manager, op: OpPc, o: Outcome)
    requires Control(c) && GateInv(cfg, c) && c.manager == Some(m) && m.pc == Working(op)
    requires m.status == TaskState.Starting && cfg.probe.Some?
    requires Ticked(cfg, c, m, o).manager.value.status == TaskState.Running
    ensures m.local.prober.Some? && m.local.Health(cfg.probe.value).Healthy?
  {
    StepsAreSound(cfg, c.res, m.local, m.task.Caps(), op, o);
    var e := Stepped(cfg, c.res, m.local, m.task.Caps(), op, o);
    assert Ticked(cfg, c, m, o) == Effected(c, m, op.Call(), e);
    match op {
      case InStart(pc) =>
        assert e == StartTick(cfg, c.res, m.local, pc, o);
        assert e.onward == Answer(D.Done);
        assert pc == SGate;
      case InStop(pc) =>
      case InPrepare(pc) =>
      case InWait(pc) =>
    }
  }

  // ---- The harvested exit --------------------------------------------------

  /** A task goes from RUNNING to COMPLETE only when its container is gone. */
  lemma CompleteMeansItExited(cfg: Config, c: Cell, e: Event)
    requires Safe(cfg, c) && Enabled(c, e) && c.manager.Some? && Next(cfg, c, e).manager.Some?
    requires c.manager.value.status == TaskState.Running && Next(cfg, c, e).manager.value.status == Complete
    ensures !c.res.jail.HasPid() && c.manager.value.local.exit == Some(true)
  {
    var m := c.manager.value;
    assert e.Tick?;
    if m.pc.Begin? {
      DispatchIsApt(m.status, m.task.desired);
      CompleteFromCache(c, m);
    } else {
      assert m.pc.Working?;
      CompleteFromWait(cfg, c, m, m.pc.op, e.outcome);
    }
  }

  lemma CompleteFromCache(c: Cell, m: Manager)
    requires c.manager == Some(m) && m.pc.Begin? && m.status == TaskState.Running
    ensures var c' := Dispatched(c, m, D.Dispatch(m.status, m.task.desired));
            c'.manager.Some? && (c'.manager.value.status == Complete ==> m.local.exit == Some(true))
  {
  }

  lemma CompleteFromWait(cfg: Config, c: Cell, m: Manager, op: OpPc, o: Outcome)
    requires Control(c) && c.manager == Some(m) && m.pc == Working(op) && m.status == TaskState.Running
    requires Ticked(cfg, c, m, o).manager.value.status == Complete
    ensures m.local.exit == Some(true)
  {
    var e := Stepped(cfg, c.res, m.local, m.task.Caps(), op, o);
    assert Ticked(cfg, c, m, o) == Effected(c, m, op.Call(), e);
    assert e.onward.Answer? && D.Conclude(m.status, op.Call(), e.onward.reply) == D.Advanced(Complete);
    assert op.InWait? && e == WaitTick(cfg, c.res, m.local, m.task.Caps(), op.wait, o);
  }

  /** A stop of an unhealthy RUNNING container that runs to its end fails the
      task, whatever exit was harvested. */
  lemma UnhealthyFails(cfg: Config, c: Cell, o: Outcome)
    requires Safe(cfg, c) && c.manager.Some? && c.manager.value.pc == Working(InWait(WPorts))
    ensures Next(cfg, c, Tick(o)).manager.Some? && Next(cfg, c, Tick(o)).manager.value.status == Failed
  {
    var m := c.manager.value;
    assert Stepped(cfg, c.res, m.local, m.task.Caps(), m.pc.op, o).onward == Answer(D.Broke(false));
  }

  /** A stop that an update drops is forgotten: the next step answers from the
      harvested exit if there is one.  The unhealthy task becomes COMPLETE if and
      only if that was exit code 0, FAILED if it was another, and is waited for
      again if there is none. */
  lemma DroppedStopAnswersFromTheExit(cfg: Config, c: Cell, m: Manager, task: TaskDef, o: Outcome)
    requires Safe(cfg, c) && c.manager == Some(m)
    requires m.pc == Working(InWait(WStop)) || m.pc == Working(InWait(WPorts))
    requires m.queue != [] && m.queue[0] == Update(task) && (task.desired.WantRunning? || task.desired.WantComplete?)
    ensures Enabled(c, Interrupt) && Enabled(Next(cfg, c, Interrupt), Tick(o))
    ensures var c' := Next(cfg, Next(cfg, c, Interrupt), Tick(o));
            && c'.manager.Some?
            && (c'.manager.value.status == Complete <==> m.local.exit == Some(true))
            && (c'.manager.value.status == Failed <==> m.local.exit == Some(false))
            && (m.local.exit.None? ==> c'.manager.value.pc.Working? && c'.manager.value.pc.op.InWait?)
  {
    NoRegressionIsEverQueued(cfg, c);
    DroppedStop(c, m, task);
    var c1 := Next(cfg, c, Interrupt);
    WaitsAgain(c1, c1.manager.value);
  }

  lemma DroppedStop(c: Cell, m: Manager, task: TaskDef)
    requires c.manager == Some(m) && m.pc.Working? && m.queue != [] && m.queue[0] == Update(task)
    requires m.task.desired.AtMost(task.desired)
    ensures var m1 := Commanded(c, m).manager;
            && m1.Some? && m1.value.pc.Begin? && m1.value.status == m.status && m1.value.task == task
            && m1.value.local.exit == m.local.exit
  {
  }

  lemma WaitsAgain(c: Cell, m: Manager)
    requires c.manager == Some(m) && m.pc.Begin? && m.status == TaskState.Running
    requires m.task.desired.WantRunning? || m.task.desired.WantComplete?
    ensures var c' := Dispatched(c, m, D.Dispatch(m.status, m.task.desired));
            && c'.manager.Some?
            && (c'.manager.value.status == Complete <==> m.local.exit == Some(true))
            && (c'.manager.value.status == Failed <==> m.local.exit == Some(false))
            && (m.local.exit.None? ==> c'.manager.value.pc.Working? && c'.manager.value.pc.op.InWait?)
  {
    assert D.Dispatch(m.status, m.task.desired) == D.Invoke(D.CallWait);
  }

  // ---- Payloads before start -----------------------------------------------

  /** A leftover writer is in the middle of the file, or was cut short there. */
  ghost predicate HalfWritten(res: Resources, w: Write)
  {
    w.path in res.spoiled || !Untouched(res.stray, w)
  }

  /** The start belongs to the record that is there, and nothing has come between
      it and its payloads. */
  predicate Timely(c: Cell, e: Event)
  {
    && (e.Tick? || (c.disk.Some? && c.life.writesOk && e == OrphanEnds(JailStart(false), true)))
    && Undisturbed(c.life) && c.res.rootfs && !c.res.bare
  }

  /** Whenever `ocijail start` takes effect on a container whose rootfs exists,
      that was not adopted without it, whose bundle was not deleted under its
      created jail and whose life no late command of the runtime overran, every
      secret and config file is there, and holds exactly its payload unless a writer
      that a dropped step left behind is in the middle of it or was cut short there.
      A start that a dropped step left running is among them if it takes effect in
      the life it belongs to and the status writes of that life succeeded. */
  lemma PayloadsBeforeStart(cfg: Config, c: Cell, e: Event)
    requires cfg.Valid() && Safe(cfg, c) && Enabled(c, e)
    requires Next(cfg, c, e).res.log == c.res.log + [DidStart]
    ensures c.res.jail.Created? && (e.Tick? ==> c.disk.Some?)
    ensures Timely(c, e) ==>
              forall w | Planned(cfg, w) ::
                && w.path in Next(cfg, c, e).res.files
                && (Holds(Next(cfg, c, e).res.files, w) || (HalfWritten(c.res, w) && c.life.leftovers))
  {
    StartsOnlyAtStart(cfg, c, e);
    StartLeavesFiles(cfg, c, e);
    if Timely(c, e) {
      StartsQuietly(cfg, c, e);
      forall w | Planned(cfg, w)
        ensures w.path in c.res.files && (Holds(c.res.files, w) || (HalfWritten(c.res, w) && c.life.leftovers))
      {
        StartableFile(cfg, c, w);
      }
    }
  }

  predicate AtStart(c: Cell, e: Event)
  {
    || (e.Tick? && c.manager.Some? && c.manager.value.pc == Working(InStart(SStart)))
    || (e.OrphanEnds? && e.x.JailStart? && e.ok && c.res.orphans.Has(e.x))
  }

  /** Then no step is writing payloads, and all files are there. */
  lemma StartsQuietly(cfg: Config, c: Cell, e: Event)
    requires Safe(cfg, c) && AtStart(c, e) && c.disk.Some? && c.res.jail.Created?
    requires Timely(c, e)
    ensures Crew(c) == c.res.stray && AllDone(cfg, c.res, c.life.leftovers)
  {
    if c.manager.Some? && c.manager.value.pc.Working? && c.manager.value.pc.op.InPrepare? {
      NoStartToCome(c, c.manager.value);
    }
  }

  lemma StartLeavesFiles(cfg: Config, c: Cell, e: Event)
    requires Enabled(c, e) && AtStart(c, e)
    ensures Next(cfg, c, e).res.files == c.res.files
  {
    if e.Tick? {
      OthersLeaveFiles(cfg, c.res, c.manager.value.local, c.manager.value.task.Caps(), InStart(SStart), e.outcome);
    } else {
      LandsElsewhere(cfg, c.res, e.x);
    }
  }

  lemma StartableFile(cfg: Config, c: Cell, w: Write)
    requires AllDone(cfg, c.res, c.life.leftovers) && Planned(cfg, w)
    requires Good(cfg, c.res.files, c.res.spoiled, c.res.stray) && (!c.life.leftovers ==> !AtWork(c.res.stray))
    ensures w.path in c.res.files && (Holds(c.res.files, w) || (HalfWritten(c.res, w) && c.life.leftovers))
  {
    var batch := if w in cfg.configs then cfg.configs else cfg.secrets;
    var i :| 0 <= i < |batch| && batch[i] == w;
    assert Kept(c.res.files, c.res.spoiled, c.life.leftovers, batch[i].path);
    if !HalfWritten(c.res, w) {
      GoodHolds(cfg, c.res.files, c.res.spoiled, c.res.stray, w);
    }
  }

  /** A start takes effect only while it is awaited, or after it was. */
  lemma StartsOnlyAtStart(cfg: Config, c: Cell, e: Event)
    requires Safe(cfg, c) && Enabled(c, e) && Next(cfg, c, e).res.log == c.res.log + [DidStart]
    ensures AtStart(c, e) && c.res.jail.Created?
  {
    Appended(c.res.log);
    match e
    case Tick(o) => StartsAtTick(cfg, c, c.manager.value, o);
    case OrphanEnds(x, ok) => LandSteps(cfg, c.res, x);
    case _ => OthersLeaveTheLog(cfg, c, e);
  }

  lemma OthersLeaveTheLog(cfg: Config, c: Cell, e: Event)
    requires Enabled(c, e) && !e.Tick? && !e.OrphanEnds?
    ensures Next(cfg, c, e).res.log == c.res.log
  {
    match e
    case Assign(task, seed, ok) =>
    case Init(read, listed, query) =>
    case Interrupt => CommandsLeaveTheLog(c, c.manager.value);
    case _ =>
  }

  lemma CommandsLeaveTheLog(c: Cell, m: Manager)
    requires m.queue != []
    ensures Commanded(c, m).res.log == c.res.log
  {
  }

  lemma LogTicks(cfg: Config, c: Cell, m: Manager, o: Outcome)
    requires c.manager == Some(m) && !m.pc.Park?
    ensures var c' := Ticked(cfg, c, m, o);
            || (m.pc.Working? && LogStep(c.res, m.pc.op, c'.res))
            || c'.res.log == c.res.log || c'.res.log == c.res.log + [DidDelete]
  {
    match m.pc
    case Working(op) => LogSteps(cfg, c.res, m.local, m.task.Caps(), op, o);
    case Begin => DispatchLeavesTheLog(c, m, D.Dispatch(m.status, m.task.desired));
    case _ =>
  }

  lemma DispatchLeavesTheLog(c: Cell, m: Manager, action: D.Action)
    ensures Dispatched(c, m, action).res.log == c.res.log
  {
  }

  lemma StartsAtTick(cfg: Config, c: Cell, m: Manager, o: Outcome)
    requires c.manager == Some(m) && !m.pc.Park? && Ticked(cfg, c, m, o).res.log == c.res.log + [DidStart]
    ensures m.pc == Working(InStart(SStart)) && c.res.jail.Created?
  {
    Appended(c.res.log);
    LogTicks(cfg, c, m, o);
  }

  lemma Appended(log: seq<JailOp>)
    ensures log != log + [DidStart] && log + [DidCreate] != log + [DidStart] && log + [DidDelete] != log + [DidStart]
  {
    assert (log + [DidStart])[|log|] == DidStart;
    assert (log + [DidCreate])[|log|] == DidCreate;
    assert (log + [DidDelete])[|log|] == DidDelete;
  }

  // ---- Limits --------------------------------------------------------------

  /** As long as no removal's `rctl -r` has failed and no overtaken `rctl -a` has
      taken effect, a jail has at most one memory and one CPU rule in every
      reachable state, across removals, crashes and lives, what dropped steps left
      running to be added included.  Whatever happened before, a life adds at most
      one of each to what it inherited, until its removal begins or an overtaken
      `rctl -a` takes effect in it. */
  lemma RulesNeverStack(cfg: Config, events: seq<Event>)
    requires cfg.Valid() && Runs(cfg, Fresh, events)
    ensures var c := After(cfg, Fresh, events);
            && (!c.res.rulesLeft && !c.res.rulesLate ==> OneMore(c.res.rules, c.res.orphans.adds, NoRules))
            && (c.disk.Some? && !c.life.removal && !c.life.lateRule ==>
                  OneMore(c.res.rules, c.res.orphans.adds, c.life.inherited))
  {
    EveryRunIsSafe(cfg, events);
  }

  /** Rules are inherited only after some removal's `rctl -r` has failed or an
      overtaken `rctl -a` has taken effect. */
  lemma RulesAreInheritedOnlyIfLeftBehind(cfg: Config, events: seq<Event>)
    requires cfg.Valid() && Runs(cfg, Fresh, events)
    ensures var c := After(cfg, Fresh, events);
            c.disk.Some? && c.life.inherited != NoRules ==> c.res.rulesLeft || c.res.rulesLate
  {
    EveryRunIsSafe(cfg, events);
  }

  /** Exactly when the rule a new container gets is its only one. */
  lemma NewRuleStacksExactlyOnInherited(cfg: Config, c: Cell, now: int)
    requires Safe(cfg, c) && c.manager.Some? && c.disk.Some? && !c.life.removal && !c.life.lateRule
    requires cfg.racct
    ensures c.manager.value.pc == Working(InPrepare(PMemory)) && c.manager.value.task.Caps().memory > 0 ==>
              (|Next(cfg, c, Tick(Okay(now))).res.rules.memory| <= 1 <==> c.life.inherited.memory == [])
    ensures c.manager.value.pc == Working(InPrepare(PCpu)) && c.manager.value.task.Caps().nanoCpus > 0 ==>
              (|Next(cfg, c, Tick(Okay(now))).res.rules.cpu| <= 1 <==> c.life.inherited.cpu == [])
  {
  }

  /** A hot resize in which no other event comes between leaves exactly the rules
      of the current limits, whatever was there before. */
  lemma ResizeIsExact(cfg: Config, res: Resources, local: Local, limits: Limits, now: int)
    requires cfg.racct
    ensures var e1 := Stepped(cfg, res, local, limits, InWait(WUsage), Okay(now));
            && e1.onward.Goto?
            && var e2 := Stepped(cfg, e1.res, e1.local, limits, e1.onward.op, Okay(now));
            && e2.onward.Goto?
            && var e3 := Stepped(cfg, e2.res, e2.local, limits, e2.onward.op, Okay(now));
            && e3.onward.Goto?
            && var e4 := Stepped(cfg, e3.res, e3.local, limits, e3.onward.op, Okay(now));
            && e4.onward == Goto(InWait(WProber))
            && e4.res.rules == Rules(if limits.memory > 0 then [limits.memory] else [],
                                     if limits.nanoCpus > 0 then [Percent(limits.nanoCpus)] else [])
            && e4.res == res.(rules := e4.res.rules, orphans := res.orphans.Overtake())
  {
  }
}
