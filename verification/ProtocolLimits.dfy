/** Where the protocol's guarantees end: for each failure the theorems exclude,
    runs in which it happens and the conclusion does not hold. */
module ProtocolLimits {
  import opened TaskStates
  import opened Controller
  import opened PayloadWriters
  import opened Protocol
  import opened ProtocolControl
  import D = DoStep
  import H = Health

  /** Every step from a cell of this kind leads to one of this kind. */
  ghost predicate Closed(cfg: Config, kind: Cell -> bool)
  {
    forall c, e :: kind(c) && Enabled(c, e) ==> kind(Next(cfg, c, e))
  }

  /** Steps lead from one cell to the other: it is of every kind that the first is
      of and that no step leaves. */
  ghost predicate Reaches(cfg: Config, a: Cell, b: Cell)
  {
    forall kind: Cell -> bool | Closed(cfg, kind) && kind(a) :: kind(b)
  }

  /** The first cell leads to the second by these events. */
  ghost predicate Leads(cfg: Config, a: Cell, b: Cell, events: seq<Event>)
  {
    Runs(cfg, a, events) && After(cfg, a, events) == b
  }

  /** That is: there is a run from one to the other. */
  lemma ReachesByARun(cfg: Config, a: Cell, b: Cell)
    ensures Reaches(cfg, a, b) <==> exists events :: Leads(cfg, a, b, events)
  {
    var kind: Cell -> bool := x => exists events :: Leads(cfg, a, x, events);
    assert kind(a) by {
      assert Leads(cfg, a, a, []);
    }
    assert Closed(cfg, kind) by {
      forall c, e | kind(c) && Enabled(c, e) ensures kind(Next(cfg, c, e)) {
        var events :| Leads(cfg, a, c, events);
        RunsExtend(cfg, a, events, e);
        assert Leads(cfg, a, Next(cfg, c, e), events + [e]);
      }
    }
    if events :| Leads(cfg, a, b, events) {
      RunReaches(cfg, a, events);
    }
  }

  lemma {:induction false} RunsExtend(cfg: Config, a: Cell, events: seq<Event>, e: Event)
    requires Runs(cfg, a, events) && Enabled(After(cfg, a, events), e)
    ensures Runs(cfg, a, events + [e])
    ensures After(cfg, a, events + [e]) == Next(cfg, After(cfg, a, events), e)
    decreases |events|
  {
    if events == [] {
      assert (events + [e])[1..] == [];
    } else {
      assert (events + [e])[0] == events[0] && (events + [e])[1..] == events[1..] + [e];
      RunsExtend(cfg, Next(cfg, a, events[0]), events[1..], e);
    }
  }

  lemma {:induction false} RunReaches(cfg: Config, a: Cell, events: seq<Event>)
    requires Runs(cfg, a, events)
    ensures Reaches(cfg, a, After(cfg, a, events))
    decreases |events|
  {
    if events != [] {
      RunReaches(cfg, Next(cfg, a, events[0]), events[1..]);
    }
  }

  /** One more event of a run. */
  lemma Go(cfg: Config, a: Cell, b: Cell, e: Event) returns (b': Cell)
    requires Reaches(cfg, a, b) && Enabled(b, e)
    ensures Reaches(cfg, a, b') && b' == Next(cfg, b, e)
  {
    b' := Next(cfg, b, e);
  }

  lemma Here(cfg: Config, a: Cell)
    ensures Reaches(cfg, a, a)
  {
  }

  const Fine := Okay(0)

  /** The awaited operation ends. */
  lemma Step(cfg: Config, a: Cell, b: Cell, o: Outcome) returns (b': Cell)
    requires Reaches(cfg, a, b) && b.manager.Some? && !b.manager.value.pc.Park?
    ensures Reaches(cfg, a, b') && b' == Ticked(cfg, b, b.manager.value, o)
  {
    b' := Go(cfg, a, b, Tick(o));
  }

  /** A leftover writer goes on. */
  lemma Strays(cfg: Config, a: Cell, b: Cell, j: nat) returns (b': Cell)
    requires Reaches(cfg, a, b) && j < |b.res.stray| && b.res.stray[j].Running()
    ensures Reaches(cfg, a, b') && b' == b.(res := StrayMoved(b.res, j, true))
  {
    b' := Go(cfg, a, b, StrayStep(j, true));
  }

  /** A command left running takes effect. */
  lemma Lands(cfg: Config, a: Cell, b: Cell, x: Orphan) returns (b': Cell)
    requires Reaches(cfg, a, b) && b.res.orphans.Has(x)
    ensures Reaches(cfg, a, b') && b' == OrphanLanded(cfg, b, x)
  {
    b' := Go(cfg, a, b, OrphanEnds(x, true));
  }

  /** An update of the definition, at the same desired state, drops the step. */
  lemma Updates(cfg: Config, a: Cell, b: Cell, m: Manager, task: TaskDef) returns (b': Cell)
    requires Reaches(cfg, a, b) && b.up && b.disk.Some? && b.manager == Some(m) && m.pc.Interruptible()
    requires m.queue == [] && !m.leaving && m.handle == m.task.desired == task.desired
    ensures Reaches(cfg, a, b')
    ensures b' == Dropped(b, m).(disk := Some(b.disk.value.(task := task)), manager := Some(Adopting(m.(pc := Begin), task)))
  {
    b' := Go(cfg, a, b, Assign(task, Assigned, true));
    assert b'.manager.value.queue == [Update(task)];
    b' := Interrupts(cfg, a, b', b'.manager.value);
    assert b'.manager.value.queue == [];
  }

  lemma Interrupts(cfg: Config, a: Cell, b: Cell, m: Manager) returns (b': Cell)
    requires Reaches(cfg, a, b) && b.manager == Some(m) && m.queue != [] && m.pc.Interruptible()
    ensures Reaches(cfg, a, b') && b' == Commanded(b, m)
  {
    b' := Go(cfg, a, b, Interrupt);
  }

  // ---- Pieces of runs ------------------------------------------------------

  /** An advance is persisted, or fails to be, and reported. */
  lemma Publishes(cfg: Config, a: Cell, c: Cell, m: Manager, ok: bool) returns (c': Cell)
    requires Reaches(cfg, a, c) && c.manager == Some(m) && m.pc == Persist(false) && c.disk.Some?
    ensures Reaches(cfg, a, c')
    ensures c'.up == c.up && c'.res == c.res && c'.manager == Some(m.(pc := Begin))
    ensures c'.disk == Some(if ok then c.disk.value.(state := m.status) else c.disk.value)
    ensures c'.life == c.life.(writesOk := c.life.writesOk && ok, reports := c.life.reports + [m.status],
                               advances := c'.life.advances)
  {
    c' := Step(cfg, a, c, if ok then Okay(0) else Bad(false));
    c' := Step(cfg, a, c', Fine);
  }

  /** One bookkeeping move, its status write failing or not, and its report. */
  lemma Moves(cfg: Config, a: Cell, c: Cell, m: Manager, to: TaskState, ok: bool) returns (c': Cell)
    requires Reaches(cfg, a, c) && c.manager == Some(m) && m.pc.Begin? && c.disk.Some?
    requires D.Dispatch(m.status, m.task.desired) == D.Move(to) && m.status.Below(to)
    ensures Reaches(cfg, a, c')
    ensures c'.up == c.up && c'.res == c.res && c'.manager == Some(m.(status := to))
    ensures c'.disk == Some(if ok then c.disk.value.(state := to) else c.disk.value)
    ensures c'.life == c.life.(writesOk := c.life.writesOk && ok, reports := c.life.reports + [to],
                               advances := c'.life.advances)
  {
    c' := Step(cfg, a, c, Fine);
    c' := Publishes(cfg, a, c', c'.manager.value, ok);
  }

  /** From ASSIGNED to PREPARING. */
  lemma ToPreparing(cfg: Config, a: Cell, c: Cell, m: Manager, ok: bool) returns (c': Cell)
    requires Reaches(cfg, a, c) && c.manager == Some(m) && m.pc.Begin? && c.disk.Some?
    requires m.status == Assigned && m.task.desired == WantRunning
    ensures Reaches(cfg, a, c')
    ensures c'.up == c.up && c'.res == c.res && c'.manager == Some(m.(status := TaskState.Preparing))
    ensures c'.disk == Some(if ok then c.disk.value.(state := TaskState.Preparing) else c.disk.value)
    ensures c'.life == c.life.(writesOk := c.life.writesOk && ok, advances := c'.life.advances,
                               reports := c.life.reports + [Accepted] + [TaskState.Preparing])
  {
    c' := Moves(cfg, a, c, m, Accepted, ok);
    c' := Moves(cfg, a, c', m.(status := Accepted), TaskState.Preparing, ok);
  }

  /** The first assignment of a task. */
  lemma Assigns(cfg: Config, a: Cell, c: Cell, task: TaskDef) returns (c': Cell)
    requires Reaches(cfg, a, c) && c.up && c.disk.None? && c.manager.None?
    ensures Reaches(cfg, a, c')
    ensures c' == c.(disk := Some(Record(task, Assigned)), life := Born(c.res),
                     res := c.res.(orphans := c.res.orphans.Outlive()),
                     manager := Some(Spawned(task, Assigned, Begin, FreshLocal)))
  {
    c' := Go(cfg, a, c, Assign(task, Assigned, true));
  }

  /** The manager with its call of `prepare` at `pc`. */
  function AtPrepare(m: Manager, pc: PreparePc): Manager { m.(pc := Working(InPrepare(pc))) }

  function Called(life: Life, call: D.Call): Life { life.(calls := life.calls + [call]) }

  /** From a task at PREPARING without a jail to the writing of its configs. */
  lemma Clones(cfg: Config, a: Cell, c: Cell, m: Manager) returns (c': Cell)
    requires Reaches(cfg, a, c) && c.manager == Some(m) && m.pc.Begin?
    requires m.status == TaskState.Preparing && m.task.desired == WantRunning && c.res.jail.Absent?
    ensures Reaches(cfg, a, c')
    ensures c' == c.(life := Called(c.life, D.CallPrepare), res := c.res.(rootfs := true),
                     manager := Some(AtPrepare(m.(local := m.local.(rootfs := true)), PConfigs(Writer(cfg.configs, FRONT)))))
  {
    c' := Step(cfg, a, c, Fine);
    assert c' == c.(life := Called(c.life, D.CallPrepare), manager := Some(AtPrepare(m, PAdopt)));
    c' := Step(cfg, a, c', Fine);
    c' := Step(cfg, a, c', Fine);
    c' := Step(cfg, a, c', Fine);
  }

  /** From there, with no configs to write, through `ocijail create`. */
  lemma Builds(cfg: Config, a: Cell, c: Cell, m: Manager) returns (c': Cell)
    requires Reaches(cfg, a, c) && c.manager == Some(m) && m.pc == Working(InPrepare(PConfigs(Writer([], FRONT))))
    requires c.res.stray == [] && c.res.jail.Absent?
    ensures Reaches(cfg, a, c')
    ensures c'.manager ==
              Some(AtPrepare(m.(local := m.local.(pid := true, watch := true)), PSecrets(Writer(cfg.secrets, FRONT))))
    ensures c'.disk == c.disk && c'.life == c.life && c'.up == c.up
    ensures c'.res == c.res.(jail := Created, bare := false, log := c.res.log + [DidCreate],
                             files := c.res.files - cfg.SecretPaths())
  {
    c' := Step(cfg, a, c, Fine);
    c' := Step(cfg, a, c', Fine);
    assert Detached([], cfg.SecretPaths()) == [];
  }

  /** From a task at PREPARING, no jail, to its container being created. */
  lemma Makes(cfg: Config, a: Cell, c: Cell, m: Manager) returns (c': Cell)
    requires Reaches(cfg, a, c) && c.manager == Some(m) && m.pc.Begin? && cfg.configs == [] && c.res.stray == []
    requires m.status == TaskState.Preparing && m.task.desired == WantRunning && c.res.jail.Absent?
    ensures Reaches(cfg, a, c')
    ensures c'.manager == Some(AtPrepare(m.(local := m.local.(rootfs := true, pid := true, watch := true)),
                                         PSecrets(Writer(cfg.secrets, FRONT))))
    ensures c'.disk == c.disk && c'.life == Called(c.life, D.CallPrepare) && c'.up == c.up
    ensures c'.res == c.res.(rootfs := true, jail := Created, bare := false, log := c.res.log + [DidCreate],
                             files := c.res.files - cfg.SecretPaths())
  {
    c' := Clones(cfg, a, c, m);
    c' := Builds(cfg, a, c', c'.manager.value);
  }

  /** From there, with no secrets to write, through the memory rule. */
  lemma Limits1(cfg: Config, a: Cell, c: Cell, m: Manager) returns (c': Cell)
    requires Reaches(cfg, a, c) && c.manager == Some(m) && m.pc == Working(InPrepare(PSecrets(Writer([], FRONT))))
    ensures Reaches(cfg, a, c')
    ensures c' == c.(res := c.res.(rules := c.res.rules.Plus(MemoryRules(cfg, m.task.Caps()))),
                     manager := Some(AtPrepare(m, PCpu)))
  {
    c' := Step(cfg, a, c, Fine);
    c' := Step(cfg, a, c', Fine);
  }

  /** A successful `prepare` becomes READY; its status write fails or not. */
  lemma BecomesReady(cfg: Config, a: Cell, c: Cell, m: Manager, op: PreparePc, ok: bool) returns (c': Cell)
    requires Reaches(cfg, a, c) && c.manager == Some(m) && m.pc == Working(InPrepare(op))
    requires op.PCpu? || (op.RSecrets? && !op.x.Running())
    requires m.status == TaskState.Preparing && c.disk.Some?
    ensures Reaches(cfg, a, c')
    ensures c'.up == c.up && c'.manager == Some(m.(status := TaskState.Ready, pc := Begin))
    ensures c'.disk == Some(if ok then c.disk.value.(state := TaskState.Ready) else c.disk.value)
    ensures c'.res == c.res.(rules := c'.res.rules)
    ensures c'.life == c.life.(writesOk := c.life.writesOk && ok, reports := c'.life.reports, advances := c'.life.advances)
  {
    c' := Step(cfg, a, c, Fine);
    assert c'.manager == Some(m.(status := TaskState.Ready, pc := Persist(false)));
    c' := Publishes(cfg, a, c', c'.manager.value, ok);
  }

  lemma Readies(cfg: Config, a: Cell, c: Cell, m: Manager, ok: bool) returns (c': Cell)
    requires Reaches(cfg, a, c) && c.manager == Some(m) && m.pc == Working(InPrepare(PSecrets(Writer([], FRONT))))
    requires m.status == TaskState.Preparing && c.disk.Some?
    ensures Reaches(cfg, a, c')
    ensures c'.up == c.up && c'.manager == Some(m.(status := TaskState.Ready, pc := Begin))
    ensures c'.disk == Some(if ok then c.disk.value.(state := TaskState.Ready) else c.disk.value)
    ensures c'.res == c.res.(rules := c'.res.rules)
    ensures c'.life == c.life.(writesOk := c.life.writesOk && ok, reports := c'.life.reports, advances := c'.life.advances)
  {
    c' := Limits1(cfg, a, c, m);
    c' := BecomesReady(cfg, a, c', c'.manager.value, PCpu, ok);
  }

  /** `do_step` calls `start`. */
  lemma CallsStart(cfg: Config, a: Cell, c: Cell, m: Manager) returns (c': Cell)
    requires Reaches(cfg, a, c) && c.manager == Some(m) && m.pc.Begin?
    requires m.status == TaskState.Starting && m.task.desired == WantRunning
    ensures Reaches(cfg, a, c')
    ensures c' == c.(life := Called(c.life, D.CallStart), manager := Some(m.(pc := Working(InStart(SAttach)))))
  {
    c' := Step(cfg, a, c, Fine);
  }

  /** From there to the await of `ocijail start`. */
  lemma Looks(cfg: Config, a: Cell, c: Cell, m: Manager) returns (c': Cell)
    requires Reaches(cfg, a, c) && c.manager == Some(m) && m.pc == Working(InStart(SAttach)) && c.res.jail == Created
    ensures Reaches(cfg, a, c') && c' == c.(manager := Some(m.(pc := Working(InStart(SStart)))))
  {
    c' := Step(cfg, a, c, Fine);
    c' := Step(cfg, a, c', Fine);
  }

  lemma Launches(cfg: Config, a: Cell, c: Cell, m: Manager) returns (c': Cell)
    requires Reaches(cfg, a, c) && c.manager == Some(m) && m.pc == Working(InStart(SStart)) && c.res.jail == Created
    ensures Reaches(cfg, a, c')
    ensures c' == c.(res := c.res.(jail := Live, log := c.res.log + [DidStart]),
                     manager := Some(m.(pc := Working(InStart(SRelook)), local := m.local.(startedAt := Some(0)))))
  {
    c' := Step(cfg, a, c, Fine);
  }

  /** From READY to `ocijail start` taking effect. */
  lemma Starts(cfg: Config, a: Cell, c: Cell, m: Manager, ok: bool) returns (c': Cell)
    requires Reaches(cfg, a, c) && c.manager == Some(m) && m.pc.Begin? && c.disk.Some? && c.res.jail == Created
    requires m.status == TaskState.Ready && m.task.desired == WantRunning
    ensures Reaches(cfg, a, c')
    ensures c'.up == c.up && c'.disk == Some(if ok then c.disk.value.(state := TaskState.Starting) else c.disk.value)
    ensures c'.res == c.res.(jail := Live, log := c.res.log + [DidStart])
    ensures c'.life == c.life.(writesOk := c.life.writesOk && ok, reports := c'.life.reports, advances := c'.life.advances,
                               calls := c.life.calls + [D.CallStart])
    ensures c'.manager == Some(m.(status := TaskState.Starting, pc := Working(InStart(SRelook)),
                                  local := m.local.(startedAt := Some(0))))
  {
    c' := Moves(cfg, a, c, m, TaskState.Starting, ok);
    c' := CallsStart(cfg, a, c', c'.manager.value);
    c' := Looks(cfg, a, c', c'.manager.value);
    c' := Launches(cfg, a, c', c'.manager.value);
  }

  /** The worker removes a task whose writers are idle. */
  lemma BeginsRemoval(cfg: Config, a: Cell, c: Cell, m: Manager) returns (c': Cell)
    requires Reaches(cfg, a, c) && c.up && c.manager == Some(m) && m.queue == [] && !m.leaving
    requires m.pc.Begin? || (m.pc.Working? && (WriterOf(m.pc.op) == [] || WriterOf(m.pc.op) == [Writer([], FRONT)]))
    ensures Reaches(cfg, a, c')
    ensures c'.up == c.up && c'.disk == c.disk && c'.life == c.life.(removal := true)
    ensures c'.res == c.res.(stray := c'.res.stray, orphans := LeftRunning(c.res.orphans, m))
    ensures m.pc.Begin? || WriterOf(m.pc.op) == [] ==> c'.res.stray == c.res.stray
    ensures c'.manager == Some(m.(leaving := true, pc := Removing(XStop)))
  {
    c' := Go(cfg, a, c, Unassign);
    assert c'.manager.value.queue == [Command.Remove];
    c' := Interrupts(cfg, a, c', c'.manager.value);
    assert c'.manager.value.queue == [];
  }

  /** The removal of a task gets as far as `ocijail delete`. */
  lemma Deletes(cfg: Config, a: Cell, c: Cell, m: Manager) returns (c': Cell)
    requires Reaches(cfg, a, c) && c.up && c.manager == Some(m) && m.queue == [] && !m.leaving
    requires m.pc.Working? && (WriterOf(m.pc.op) == [] || WriterOf(m.pc.op) == [Writer([], FRONT)])
    requires !c.res.jail.Absent?
    ensures Reaches(cfg, a, c')
    ensures c'.disk == c.disk && c'.life == c.life.(removal := true) && c'.up == c.up && c'.manager.Some?
    ensures !c'.manager.value.pc.Working?
    ensures c'.res.jail == Absent && c'.res.log == c.res.log + [DidDelete]
    ensures c'.res.orphans.creates >= c.res.orphans.creates
  {
    c' := BeginsRemoval(cfg, a, c, m);
    c' := DeletesJail(cfg, a, c', c'.manager.value);
  }

  lemma DeletesJail(cfg: Config, a: Cell, c: Cell, m: Manager) returns (c': Cell)
    requires Reaches(cfg, a, c) && c.manager == Some(m) && m.pc == Removing(XStop) && !c.res.jail.Absent?
    ensures Reaches(cfg, a, c')
    ensures c'.disk == c.disk && c'.life == c.life && c'.up == c.up
    ensures c'.manager.Some? && c'.manager.value.pc == Removing(XDestroy)
    ensures c'.res.jail == Absent && c'.res.log == c.res.log + [DidDelete] && c'.res.orphans == c.res.orphans.Overtake()
  {
    c' := Step(cfg, a, c, Fine);
    c' := Step(cfg, a, c', Fine);
    c' := Step(cfg, a, c', Fine);
  }

  /** A daemon that dies and comes back with the task still assigned. */
  lemma Restarts(cfg: Config, a: Cell, c: Cell) returns (c': Cell)
    requires Reaches(cfg, a, c) && c.disk.Some?
    requires !c.disk.value.state.IsTerminal() && c.disk.value.state != TaskState.Running
    ensures Reaches(cfg, a, c')
    ensures c'.res.orphans == if c.manager.Some? then LeftRunning(c.res.orphans, c.manager.value) else c.res.orphans
    ensures c.manager.None? && c.res.stray == [] ==> c'.res.spoiled == c.res.spoiled
    ensures c' == c.(up := true, res := c.res.(stray := [], spoiled := c'.res.spoiled, orphans := c'.res.orphans),
                     manager := Some(Spawned(c.disk.value.task, c.disk.value.state, Begin, FreshLocal)))
  {
    c' := Go(cfg, a, c, Crash);
    assert c.manager.None? && c.res.stray == [] ==> Crew(c) == [];
    c' := Go(cfg, a, c', Init(true, true, true));
  }

  // ---- A removal cut short -------------------------------------------------

  const Bare := Config([], [], None, true)
  const Task := TaskDef(WantRunning, None, None)

  /** A crash between `ocijail delete` and the deletion of the record lets a
      second create happen in the life of one record. */
  lemma CutRemovalCreatesTwice() returns (c: Cell)
    ensures Reaches(Bare, Fresh, c) && c.disk.Some? && c.life.removal && c.life.writesOk && c.life.birth == 0
    ensures c.res.log == [DidCreate, DidDelete, DidCreate]
  {
    Here(Bare, Fresh);
    c := Assigns(Bare, Fresh, Fresh, Task);
    c := ToPreparing(Bare, Fresh, c, c.manager.value, true);
    c := Makes(Bare, Fresh, c, c.manager.value);
    c := Deletes(Bare, Fresh, c, c.manager.value);
    c := Restarts(Bare, Fresh, c);
    c := Makes(Bare, Fresh, c, c.manager.value);
  }

  // ---- Status writes that fail ---------------------------------------------

  /** Two failed status writes and a crash: the reports go backwards. */
  lemma FailedWritesRegressReports() returns (c: Cell)
    ensures Reaches(Bare, Fresh, c) && c.disk.Some? && !c.life.removal && !c.life.writesOk
    ensures c.life.reports == [Accepted, TaskState.Preparing, Accepted, TaskState.Preparing]
    ensures !Ascending(c.life.reports)
  {
    Here(Bare, Fresh);
    c := Assigns(Bare, Fresh, Fresh, Task);
    c := ToPreparing(Bare, Fresh, c, c.manager.value, false);
    c := Restarts(Bare, Fresh, c);
    c := ToPreparing(Bare, Fresh, c, c.manager.value, true);
    assert !c.life.reports[1].AtMost(c.life.reports[2]);
  }

  /** `do_step` calls `prepare`, which fails for good; REJECTED is persisted. */
  lemma FailsPrepare(cfg: Config, a: Cell, c: Cell, m: Manager) returns (c': Cell)
    requires Reaches(cfg, a, c) && c.manager == Some(m) && m.pc.Begin? && c.disk.Some?
    requires m.status == TaskState.Preparing && m.task.desired == WantRunning
    ensures Reaches(cfg, a, c') && c'.disk == Some(c.disk.value.(state := Rejected))
    ensures c'.life.calls == c.life.calls + [D.CallPrepare]
    ensures c'.life.removal == c.life.removal && c'.life.writesOk == c.life.writesOk
  {
    c' := Step(cfg, a, c, Fine);
    c' := Breaks(cfg, a, c', c'.manager.value);
  }

  lemma Breaks(cfg: Config, a: Cell, c: Cell, m: Manager) returns (c': Cell)
    requires Reaches(cfg, a, c) && c.manager == Some(m) && c.disk.Some?
    requires m.pc == Working(InPrepare(PAdopt)) && m.status == TaskState.Preparing
    ensures Reaches(cfg, a, c') && c'.disk == Some(c.disk.value.(state := Rejected))
    ensures c'.life.calls == c.life.calls
    ensures c'.life.removal == c.life.removal && c'.life.writesOk == c.life.writesOk
  {
    c' := Step(cfg, a, c, Bad(false));
    c' := Step(cfg, a, c', Fine);
  }

  /** A container that started while nothing of it was recorded. */
  lemma StartsUnrecorded() returns (c: Cell)
    ensures Reaches(Bare, Fresh, c) && c.up && !c.life.removal && !c.life.writesOk && c.life.birth == 0
    ensures c.disk == Some(Record(Task, Assigned)) && c.res.stray == [] && D.CallStart in c.life.calls
    ensures c.res.jail == Live && c.res.log == [DidCreate, DidStart]
    ensures c.manager.Some? && c.manager.value.pc == Working(InStart(SRelook))
    ensures c.manager.value.queue == [] && !c.manager.value.leaving
  {
    Here(Bare, Fresh);
    c := Assigns(Bare, Fresh, Fresh, Task);
    c := ToPreparing(Bare, Fresh, c, c.manager.value, false);
    c := Makes(Bare, Fresh, c, c.manager.value);
    c := Readies(Bare, Fresh, c, c.manager.value, false);
    c := Starts(Bare, Fresh, c, c.manager.value, false);
  }

  /** With failed status writes a task can be REJECTED after `start` was called. */
  lemma FailedWritesRejectAfterStart() returns (c: Cell)
    ensures Reaches(Bare, Fresh, c) && c.disk.Some? && !c.life.removal && !c.life.writesOk
    ensures c.disk.value.state == Rejected && D.CallStart in c.life.calls
  {
    c := StartsUnrecorded();
    c := Restarts(Bare, Fresh, c);
    c := ToPreparing(Bare, Fresh, c, c.manager.value, true);
    c := FailsPrepare(Bare, Fresh, c, c.manager.value);
  }

  /** With failed status writes and a removal cut short, start takes effect twice
      in the life of one record. */
  lemma BothFailuresStartTwice() returns (c: Cell)
    ensures Reaches(Bare, Fresh, c) && c.disk.Some? && c.life.removal && !c.life.writesOk && c.life.birth == 0
    ensures c.res.log == [DidCreate, DidStart, DidDelete, DidCreate, DidStart]
  {
    c := StartsUnrecorded();
    c := Deletes(Bare, Fresh, c, c.manager.value);
    c := Restarts(Bare, Fresh, c);
    c := StartsAnew(c, c.manager.value);
  }

  /** A task without a jail goes from ASSIGNED all the way to its start. */
  lemma StartsAnew(c: Cell, m: Manager) returns (c': Cell)
    requires Reaches(Bare, Fresh, c) && c.manager == Some(m) && m.pc.Begin? && c.disk.Some?
    requires m.status == Assigned && m.task.desired == WantRunning && c.res.jail.Absent? && c.res.stray == []
    ensures Reaches(Bare, Fresh, c') && c'.disk.Some?
    ensures c'.life.removal == c.life.removal && c'.life.writesOk == c.life.writesOk && c'.life.birth == c.life.birth
    ensures c'.res.log == c.res.log + [DidCreate] + [DidStart]
  {
    c' := ToPreparing(Bare, Fresh, c, m, true);
    c' := Makes(Bare, Fresh, c', c'.manager.value);
    c' := Readies(Bare, Fresh, c', c'.manager.value, true);
    c' := Starts(Bare, Fresh, c', c'.manager.value, true);
  }

  // ---- Rules that outlive their record -------------------------------------

  /** A whole removal whose `rctl -r` fails and whose other steps succeed. */
  lemma RemovesButRules(cfg: Config, a: Cell, c: Cell, m: Manager) returns (c': Cell)
    requires Reaches(cfg, a, c) && c.up && c.manager == Some(m) && m.queue == [] && !m.leaving
    requires m.pc == Working(InPrepare(PCpu)) && c.res.jail == Created && c.res.stray == [] && cfg.racct
    ensures Reaches(cfg, a, c')
    ensures c'.up && c'.disk == None && c'.manager == None && c'.res.stray == [] && c'.res.rulesLeft
    ensures c'.res.jail == Absent && c'.res.rules == c.res.rules && c'.res.log == c.res.log + [DidDelete]
  {
    c' := BeginsRemoval(cfg, a, c, m);
    c' := Step(cfg, a, c', Fine);
    c' := Step(cfg, a, c', Bad(false));
    c' := Step(cfg, a, c', Fine);
    assert c'.res.stray == [];
    c' := Forgets(cfg, a, c', c'.manager.value);
  }

  /** The rest of a removal after `ocijail delete`. */
  lemma Forgets(cfg: Config, a: Cell, c: Cell, m: Manager) returns (c': Cell)
    requires Reaches(cfg, a, c) && c.manager == Some(m) && m.pc == Removing(XDestroy)
    ensures Reaches(cfg, a, c') && c'.up == c.up && c'.disk == None && c'.manager == None
    ensures c'.res == c.res.(rootfs := false, files := c'.res.files, stray := c'.res.stray)
    ensures c.res.stray == [] ==> c'.res.stray == []
  {
    c' := Step(cfg, a, c, Fine);
    c' := Step(cfg, a, c', Fine);
    c' := Step(cfg, a, c', Fine);
  }

  /** A removal in which only `rctl -r` failed, and the same task assigned again:
      two memory rules name one jail. */
  lemma InheritedRulesStack() returns (c: Cell)
    ensures Reaches(Bare, Fresh, c) && c.disk.Some? && !c.life.removal && c.life.writesOk
    ensures c.life.inherited.memory == [1] && c.res.rules.memory == [1, 1] && c.res.rulesLeft
  {
    Here(Bare, Fresh);
    var task := TaskDef(WantRunning, Some(Limits(1, 0)), None);
    c := Assigns(Bare, Fresh, Fresh, task);
    c := ToPreparing(Bare, Fresh, c, c.manager.value, true);
    c := Makes(Bare, Fresh, c, c.manager.value);
    c := Limits1(Bare, Fresh, c, c.manager.value);
    c := RemovesButRules(Bare, Fresh, c, c.manager.value);
    c := ComesBack(c, task);
  }

  /** The task is assigned again and gets its memory rule. */
  lemma ComesBack(c: Cell, task: TaskDef) returns (c': Cell)
    requires Reaches(Bare, Fresh, c) && c.up && c.disk.None? && c.manager.None? && c.res.stray == [] && c.res.jail.Absent?
    requires task.desired == WantRunning
    ensures Reaches(Bare, Fresh, c') && c'.disk.Some? && !c'.life.removal && c'.life.writesOk
    ensures c'.life.inherited == c.res.rules && c'.res.rulesLeft == c.res.rulesLeft
    ensures c'.res.rules == c.res.rules.Plus(MemoryRules(Bare, task.Caps()))
  {
    c' := Assigns(Bare, Fresh, c, task);
    c' := ToPreparing(Bare, Fresh, c', c'.manager.value, true);
    c' := Makes(Bare, Fresh, c', c'.manager.value);
    c' := Limits1(Bare, Fresh, c', c'.manager.value);
  }

  // ---- A bundle deleted under its jail -------------------------------------

  /** A removal in which `ocijail delete` and `zfs destroy` fail gets as far as
      the bundle directory. */
  lemma ToBundle(cfg: Config, a: Cell, c: Cell, m: Manager) returns (c': Cell)
    requires Reaches(cfg, a, c) && c.up && c.manager == Some(m) && m.queue == [] && !m.leaving && m.pc.Begin?
    ensures Reaches(cfg, a, c') && c'.disk == c.disk && c'.life == c.life.(removal := true)
    ensures c'.manager.Some? && c'.manager.value.pc == Removing(XBundle)
    ensures c'.res.jail == c.res.jail && c'.res.rootfs == c.res.rootfs && c'.res.log == c.res.log
  {
    c' := BeginsRemoval(cfg, a, c, m);
    c' := Step(cfg, a, c', Fine);
    c' := Step(cfg, a, c', Fine);
    c' := FailsDeletion(cfg, a, c', c'.manager.value);
  }

  lemma FailsDeletion(cfg: Config, a: Cell, c: Cell, m: Manager) returns (c': Cell)
    requires Reaches(cfg, a, c) && c.manager == Some(m) && m.pc == Removing(XDelete)
    ensures Reaches(cfg, a, c') && c' == c.(manager := c'.manager)
    ensures c'.manager.Some? && c'.manager.value.pc == Removing(XBundle)
  {
    c' := Step(cfg, a, c, Bad(false));
    c' := Step(cfg, a, c', Bad(false));
  }

  lemma DeletesBundle(cfg: Config, a: Cell, c: Cell, m: Manager) returns (c': Cell)
    requires Reaches(cfg, a, c) && c.manager == Some(m) && m.pc == Removing(XBundle) && c.res.jail.Created?
    ensures Reaches(cfg, a, c') && c'.disk == c.disk && c'.life == c.life.(bundleLost := true)
    ensures c'.res.jail == c.res.jail && c'.res.rootfs == c.res.rootfs && c'.res.log == c.res.log
    ensures forall w | w in cfg.configs :: w.path !in c'.res.files
  {
    c' := Step(cfg, a, c, Fine);
    assert forall w | w in cfg.configs :: w.path in cfg.ConfigPaths();
  }

  /** Any READY task whose container is created: a removal that deletes only the
      bundle, a crash, and the task still assigned; then start takes effect with
      none of its config files there. */
  lemma LostBundleStartsWithoutConfigs(cfg: Config, a: Cell, c: Cell, m: Manager) returns (c': Cell)
    requires Reaches(cfg, a, c) && c.up && c.manager == Some(m) && m.queue == [] && !m.leaving && m.pc.Begin?
    requires c.disk.Some? && c.disk.value.state == TaskState.Ready && c.disk.value.task.desired == WantRunning
    requires c.res.jail.Created? && c.res.rootfs
    ensures Reaches(cfg, a, c') && c'.res.log == c.res.log + [DidStart] && c'.res.rootfs && c'.life.bundleLost
    ensures forall w | w in cfg.configs :: !Holds(c'.res.files, w)
  {
    c' := ToBundle(cfg, a, c, m);
    c' := DeletesBundle(cfg, a, c', c'.manager.value);
    c' := Restarts(cfg, a, c');
    c' := Starts(cfg, a, c', c'.manager.value, true);
  }

  // ---- Leftover writers ----------------------------------------------------

  /** How many steps a writer still takes in the file it is at. */
  function Rest(x: Writer): nat
    requires x.Running()
  {
    match x.at.pos
    case Unopened => |x.File().data| + 2
    case At(n) => if n <= |x.File().data| then |x.File().data| + 1 - n else 0
    case Lost(n) => if n <= |x.File().data| then |x.File().data| + 1 - n else 0
  }

  /** The writer has still to open file `k` of its batch. */
  predicate Owes(x: Writer, k: nat)
  {
    k < |x.batch| && (x.at.k < k || (x.at.k == k && x.at.pos.Unopened?))
  }

  /** One step brings the writer nearer to the file, or opens it. */
  lemma Nearer(res: Resources, j: nat, k: nat)
    requires j < |res.stray| && Owes(res.stray[j], k)
    ensures var x, after := res.stray[j], StrayMoved(res, j, true);
            && after.jail == res.jail && after.log == res.log && after.rootfs == res.rootfs && |after.stray| == |res.stray|
            && after.stray[j].batch == x.batch
            && if x.at.k == k then x.batch[k].path in after.files && after.files[x.batch[k].path] == []
               else Owes(after.stray[j], k)
                    && (after.stray[j].at.k > x.at.k || (after.stray[j].at.k == x.at.k && Rest(after.stray[j]) < Rest(x)))
  {
  }

  /** A leftover writer can be made to open any file it still owes. */
  lemma {:induction false} OpensOwed(cfg: Config, a: Cell, c: Cell, j: nat, k: nat) returns (c': Cell)
    requires Reaches(cfg, a, c) && j < |c.res.stray| && Owes(c.res.stray[j], k)
    ensures Reaches(cfg, a, c') && c' == c.(res := c'.res)
    ensures c'.res.jail == c.res.jail && c'.res.log == c.res.log && c'.res.rootfs == c.res.rootfs
    ensures var path := c.res.stray[j].batch[k].path; path in c'.res.files && c'.res.files[path] == []
    decreases k - c.res.stray[j].at.k, Rest(c.res.stray[j])
  {
    Nearer(c.res, j, k);
    c' := Strays(cfg, a, c, j);
    if c.res.stray[j].at.k != k {
      c' := OpensOwed(cfg, a, c', j, k);
    }
  }

  /** Whatever file with a payload a leftover writer still owes when a container
      is about to start, the container may start with that file empty. */
  lemma OwedFileMayStartEmpty(cfg: Config, c: Cell, m: Manager, j: nat, k: nat) returns (c': Cell)
    requires c.manager == Some(m) && m.pc == Working(InStart(SStart)) && c.res.jail == Created
    requires j < |c.res.stray| && Owes(c.res.stray[j], k) && c.res.stray[j].batch[k].data != []
    ensures Reaches(cfg, c, c') && c'.res.log == c.res.log + [DidStart] && c'.res.rootfs == c.res.rootfs
    ensures !Holds(c'.res.files, c.res.stray[j].batch[k])
  {
    Here(cfg, c);
    c' := OpensOwed(cfg, c, c, j, k);
    c' := Launches(cfg, c, c', m);
  }

  const Secret := Write(["s"], [1])
  const OneSecret := Config([], [Secret], None, true)

  /** An update with the same definition drops the step in flight. */
  lemma Drops(cfg: Config, a: Cell, c: Cell, m: Manager) returns (c': Cell)
    requires Reaches(cfg, a, c) && c.up && c.disk.Some? && c.manager == Some(m) && m.pc.Working?
    requires m.queue == [] && !m.leaving && m.handle == m.task.desired && c.disk.value.task == m.task
    ensures Reaches(cfg, a, c')
    ensures c'.up == c.up && c'.disk == c.disk && c'.manager == Some(m.(pc := Begin))
    ensures c'.res == c.res.(stray := c.res.stray + WriterOf(m.pc.op), orphans := LeftRunning(c.res.orphans, m))
    ensures c'.life == c.life.(leftovers := c'.life.leftovers)
  {
    c' := Updates(cfg, a, c, m, m.task);
  }

  /** The step that writes the secret is dropped by an update; its writer stays. */
  lemma LeavesAWriter() returns (c: Cell)
    ensures Reaches(OneSecret, Fresh, c) && c.up && c.disk == Some(Record(Task, TaskState.Preparing))
    ensures c.res.jail == Created && c.res.rootfs && c.res.log == [DidCreate]
    ensures c.res.stray == [Writer([Secret], FRONT)] && !c.life.bundleLost && !c.life.overrun
    ensures c.manager.Some? && c.manager.value.pc.Begin? && c.manager.value.status == TaskState.Preparing
    ensures c.manager.value.task == Task && c.manager.value.queue == [] && !c.manager.value.leaving
    ensures c.manager.value.local.rootfs
  {
    Here(OneSecret, Fresh);
    c := Assigns(OneSecret, Fresh, Fresh, Task);
    c := ToPreparing(OneSecret, Fresh, c, c.manager.value, true);
    c := Makes(OneSecret, Fresh, c, c.manager.value);
    c := Drops(OneSecret, Fresh, c, c.manager.value);
    assert c.res.stray == [Writer([Secret], FRONT)];
  }

  /** The next `prepare` adopts the container. */
  lemma Adopts(c: Cell, m: Manager) returns (c': Cell)
    requires Reaches(OneSecret, Fresh, c) && c.manager == Some(m) && m.pc.Begin?
    requires m.status == TaskState.Preparing && m.task == Task && c.res.jail == Created && c.res.rootfs
    ensures Reaches(OneSecret, Fresh, c')
    ensures c'.up == c.up && c'.disk == c.disk && c'.life == Called(c.life, D.CallPrepare)
    ensures c'.res == c.res.(bare := false)
    ensures c'.manager.Some?
    ensures c'.manager.value == m.(local := c'.manager.value.local, pc := Working(InPrepare(RResolve)))
  {
    c' := Step(OneSecret, Fresh, c, Fine);
    c' := Step(OneSecret, Fresh, c', Fine);
  }

  /** It writes the secret again. */
  lemma Rewrites(c: Cell, m: Manager) returns (c': Cell)
    requires Reaches(OneSecret, Fresh, c) && c.manager == Some(m) && m.pc == Working(InPrepare(RResolve))
    ensures Reaches(OneSecret, Fresh, c')
    ensures c'.up == c.up && c'.disk == c.disk && c'.life == c.life
    ensures c'.res == c.res.(files := c'.res.files, spoiled := c'.res.spoiled)
    ensures c'.manager == Some(m.(pc := Working(InPrepare(RSecrets(Writer([Secret], Place(1, Unopened)))))))
  {
    c' := ComesToSecrets(c, m);
    var x := Writer([Secret], FRONT);
    c' := WritesOn(c', c'.manager.value, x);
    assert x.Moved() == Writer([Secret], Place(0, At(0)));
    c' := WritesOn(c', c'.manager.value, x.Moved());
    assert x.Moved().Moved() == Writer([Secret], Place(0, At(1)));
    c' := WritesOn(c', c'.manager.value, x.Moved().Moved());
  }

  lemma ComesToSecrets(c: Cell, m: Manager) returns (c': Cell)
    requires Reaches(OneSecret, Fresh, c) && c.manager == Some(m) && m.pc == Working(InPrepare(RResolve))
    ensures Reaches(OneSecret, Fresh, c')
    ensures c' == c.(manager := Some(m.(pc := Working(InPrepare(RSecrets(Writer([Secret], FRONT)))))))
  {
    c' := Step(OneSecret, Fresh, c, Fine);
    c' := Step(OneSecret, Fresh, c', Fine);
  }

  lemma WritesOn(c: Cell, m: Manager, x: Writer) returns (c': Cell)
    requires Reaches(OneSecret, Fresh, c) && c.manager == Some(m)
    requires m.pc == Working(InPrepare(RSecrets(x))) && x.Running()
    ensures Reaches(OneSecret, Fresh, c')
    ensures c'.up == c.up && c'.disk == c.disk && c'.life == c.life
    ensures c'.res == c.res.(files := c'.res.files, spoiled := c'.res.spoiled)
    ensures c'.manager == Some(m.(pc := Working(InPrepare(RSecrets(x.Moved())))))
  {
    c' := Step(OneSecret, Fresh, c, Fine);
  }

  /** The second `prepare` succeeds, and the first one's writer has not begun. */
  lemma ReadyWithAWriter() returns (c: Cell)
    ensures Reaches(OneSecret, Fresh, c) && c.disk == Some(Record(Task, TaskState.Ready))
    ensures c.res.jail == Created && c.res.rootfs && !c.res.bare && c.res.log == [DidCreate]
    ensures c.res.stray == [Writer([Secret], FRONT)] && !c.life.bundleLost && !c.life.overrun
    ensures c.manager.Some? && c.manager.value.pc.Begin? && c.manager.value.status == TaskState.Ready
    ensures c.manager.value.task == Task
  {
    c := LeavesAWriter();
    c := Adopts(c, c.manager.value);
    c := Rewrites(c, c.manager.value);
    c := BecomesReady(OneSecret, Fresh, c, c.manager.value, RSecrets(Writer([Secret], Place(1, Unopened))), true);
  }

  lemma AboutToStart() returns (c: Cell)
    ensures Reaches(OneSecret, Fresh, c) && c.res.jail == Created && c.res.rootfs && c.res.log == [DidCreate]
    ensures c.res.stray == [Writer([Secret], FRONT)]
    ensures c.manager.Some? && c.manager.value.pc == Working(InStart(SStart))
  {
    c := ReadyWithAWriter();
    c := ComesToStart(OneSecret, Fresh, c, c.manager.value);
  }

  lemma ComesToStart(cfg: Config, a: Cell, c: Cell, m: Manager) returns (c': Cell)
    requires Reaches(cfg, a, c) && c.manager == Some(m) && m.pc.Begin? && c.disk.Some? && c.res.jail == Created
    requires m.status == TaskState.Ready && m.task.desired == WantRunning
    ensures Reaches(cfg, a, c') && c'.res == c.res
    ensures c'.manager == Some(m.(status := TaskState.Starting, pc := Working(InStart(SStart))))
  {
    c' := Moves(cfg, a, c, m, TaskState.Starting, true);
    c' := CallsStart(cfg, a, c', c'.manager.value);
    c' := Looks(cfg, a, c', c'.manager.value);
  }

  /** A dropped prepare, a second one that succeeds, and the first one's writer
      coming late: the container starts on an empty secret. */
  lemma LeftoverWriterEmptiesASecret() returns (b: Cell, c: Cell)
    ensures Reaches(OneSecret, Fresh, b) && Reaches(OneSecret, b, c)
    ensures c.res.log == [DidCreate, DidStart] && c.res.rootfs && !Holds(c.res.files, Secret)
  {
    b := AboutToStart();
    assert Owes(b.res.stray[0], 0) && b.res.stray[0].batch[0] == Secret;
    c := OwedFileMayStartEmpty(OneSecret, b, b.manager.value, 0, 0);
  }

  /** The leftover writer opens the secret's file, and the daemon dies. */
  lemma CutsShort(c: Cell) returns (c': Cell)
    requires Reaches(OneSecret, Fresh, c) && c.res.stray == [Writer([Secret], FRONT)]
    ensures Reaches(OneSecret, Fresh, c') && !c'.up && c'.manager == None && c'.disk == c.disk && c'.life == c.life
    ensures c'.res == c.res.(stray := [], files := c.res.files[Secret.path := []], spoiled := c'.res.spoiled,
                             orphans := c'.res.orphans)
    ensures Secret.path in c'.res.spoiled
  {
    c' := Strays(OneSecret, Fresh, c, 0);
    assert Crew(c')[0] == Writer([Secret], Place(0, At(0))) && Crew(c')[0] in Crew(c') && Crew(c')[0].HalfDone();
    c' := Go(OneSecret, Fresh, c', Crash);
  }

  /** A writer that a crash cuts short in the file of a READY task: the restarted
      daemon starts the container on an empty secret that nobody has open. */
  lemma CutWriterLeavesAnEmptySecret() returns (c: Cell)
    ensures Reaches(OneSecret, Fresh, c) && c.res.log == [DidCreate, DidStart] && c.res.rootfs && !c.res.bare
    ensures !c.life.bundleLost && !c.life.overrun
    ensures c.res.stray == [] && Secret.path in c.res.spoiled && !Holds(c.res.files, Secret)
  {
    c := ReadyWithAWriter();
    c := CutsShort(c);
    c := Restarts(OneSecret, Fresh, c);
    c := Starts(OneSecret, Fresh, c, c.manager.value, true);
  }

  // ---- An unhealthy task whose stop is dropped -----------------------------

  const Settings := H.ProbeSettings(["probe"], 1, 1, 1, 0)
  const Checked := Config([], [], Some(Settings), true)
  const Pass := H.ProbeResult(0, 0, 0, "")
  const Fail := H.ProbeResult(0, 0, 1, "")

  lemma Verdicts(startedAt: int)
    ensures H.Fold(Settings, startedAt, []).status == H.Starting
    ensures H.Fold(Settings, startedAt, [Pass]).status == H.Healthy
    ensures H.Fold(Settings, startedAt, [Pass, Fail]).status == H.Unhealthy
  {
    H.FoldStep(Settings, startedAt, [], Pass);
    assert [] + [Pass] == [Pass];
    H.FoldStep(Settings, startedAt, [Pass], Fail);
    assert [Pass] + [Fail] == [Pass, Fail];
  }

  /** From `ocijail start` to the health gate. */
  lemma ToGate(a: Cell, c: Cell, m: Manager) returns (c': Cell)
    requires Reaches(Checked, a, c) && c.manager == Some(m) && m.pc == Working(InStart(SRelook))
    requires m.local.prober.None? && m.local.startedAt == Some(0) && c.res.jail == Live
    ensures Reaches(Checked, a, c')
    ensures c' == c.(manager := Some(m.(pc := Working(InStart(SGate)), local := m.local.(pid := true, prober := Some([])))))
  {
    c' := Step(Checked, a, c, Fine);
    c' := Step(Checked, a, c', Fine);
  }

  /** A probe result arrives, and gives this verdict. */
  lemma Probes(a: Cell, c: Cell, m: Manager, result: H.ProbeResult, recorded: seq<H.ProbeResult>) returns (c': Cell)
    requires Reaches(Checked, a, c) && c.manager == Some(m) && m.local.startedAt == Some(0)
    requires m.local.prober.Some? && m.local.prober.value + [result] == recorded
    requires recorded == [Pass] || recorded == [Pass, Fail]
    ensures Reaches(Checked, a, c') && c' == c.(manager := Some(m.(local := m.local.(prober := Some(recorded)))))
    ensures c'.manager.value.local.Health(Settings) == if recorded == [Pass] then H.Healthy else H.Unhealthy
  {
    Verdicts(0);
    c' := Go(Checked, a, c, Probe(result));
  }

  /** A healthy container passes the gate, and the task is RUNNING. */
  lemma PassesGate(a: Cell, c: Cell, m: Manager) returns (c': Cell)
    requires Reaches(Checked, a, c) && c.manager == Some(m) && m.pc == Working(InStart(SGate))
    requires m.local.prober.Some? && m.local.Health(Settings).Healthy? && m.status == TaskState.Starting && c.disk.Some?
    ensures Reaches(Checked, a, c') && c'.res == c.res && c'.up == c.up
    ensures c'.disk == Some(c.disk.value.(state := TaskState.Running))
    ensures c'.manager == Some(m.(status := TaskState.Running, pc := Begin))
  {
    c' := Step(Checked, a, c, Fine);
    assert c'.manager == Some(m.(status := TaskState.Running, pc := Persist(false)));
    c' := Publishes(Checked, a, c', c'.manager.value, true);
  }

  /** An unhealthy container that is waited for is stopped, and exits with code 0. */
  lemma StopsUnhealthy(a: Cell, c: Cell, m: Manager) returns (c': Cell)
    requires Reaches(Checked, a, c) && c.manager == Some(m) && m.pc == Working(InWait(WWait)) && c.res.jail == Live
    requires m.local.prober.Some? && m.local.Health(Settings).Unhealthy? && m.local.watch && m.local.exit.None?
    ensures Reaches(Checked, a, c') && c'.up == c.up && c'.disk == c.disk
    ensures c'.manager == Some(m.(pc := Working(InWait(WPorts)), local := m.local.(prober := None, exit := Some(true))))
  {
    c' := Step(Checked, a, c, Sick);
    assert c'.manager == Some(m.(pc := Working(InWait(WStop)), local := m.local.(prober := None)));
    c' := Exits(a, c', c'.manager.value);
  }

  lemma Exits(a: Cell, c: Cell, m: Manager) returns (c': Cell)
    requires Reaches(Checked, a, c) && c.manager == Some(m) && m.pc == Working(InWait(WStop)) && c.res.jail == Live
    requires m.local.watch && m.local.exit.None?
    ensures Reaches(Checked, a, c') && c'.up == c.up && c'.disk == c.disk
    ensures c'.manager == Some(m.(pc := Working(InWait(WPorts)), local := m.local.(exit := Some(true))))
  {
    c' := Go(Checked, a, c, ContainerExits);
    c' := Step(Checked, a, c', Gone(true));
  }

  lemma RunsChecked() returns (c: Cell)
    ensures Reaches(Checked, Fresh, c) && c.up && c.res.jail == Live && c.disk == Some(Record(Task, TaskState.Running))
    ensures c.manager.Some? && c.manager.value.pc.Begin? && c.manager.value.status == TaskState.Running
    ensures c.manager.value.task == Task && c.manager.value.queue == [] && !c.manager.value.leaving
    ensures c.manager.value.handle == WantRunning
    ensures var local := c.manager.value.local;
            && local.prober == Some([Pass]) && local.startedAt == Some(0) && local.watch && local.exit.None? && !local.resize
  {
    Here(Checked, Fresh);
    c := Assigns(Checked, Fresh, Fresh, Task);
    c := ToPreparing(Checked, Fresh, c, c.manager.value, true);
    c := Makes(Checked, Fresh, c, c.manager.value);
    c := Readies(Checked, Fresh, c, c.manager.value, true);
    c := Starts(Checked, Fresh, c, c.manager.value, true);
    c := ToGate(Fresh, c, c.manager.value);
    assert [] + [Pass] == [Pass];
    c := Probes(Fresh, c, c.manager.value, Pass, [Pass]);
    c := PassesGate(Fresh, c, c.manager.value);
  }

  /** An unhealthy RUNNING task whose stop is dropped by an update after exit code
      0 was harvested ends COMPLETE instead of FAILED. */
  lemma DroppedStopCompletesAnUnhealthyTask() returns (c: Cell)
    ensures Reaches(Checked, Fresh, c) && c.disk == Some(Record(Task, Complete))
  {
    c := RunsChecked();
    c := WaitsFor(c, c.manager.value);
    assert [Pass] + [Fail] == [Pass, Fail];
    c := Probes(Fresh, c, c.manager.value, Fail, [Pass, Fail]);
    c := StopsUnhealthy(Fresh, c, c.manager.value);
    c := Drops(Checked, Fresh, c, c.manager.value);
    c := AnswersCached(c, c.manager.value);
  }

  lemma WaitsFor(c: Cell, m: Manager) returns (c': Cell)
    requires Reaches(Checked, Fresh, c) && c.manager == Some(m) && m.pc.Begin?
    requires m.status == TaskState.Running && m.task == Task && m.local.prober.Some? && m.local.exit.None? && !m.local.resize
    ensures Reaches(Checked, Fresh, c')
    ensures c' == c.(life := Called(c.life, D.CallWait), manager := Some(m.(pc := Working(InWait(WWait)))))
  {
    c' := Step(Checked, Fresh, c, Fine);
    c' := Step(Checked, Fresh, c', Fine);
  }

  lemma AnswersCached(c: Cell, m: Manager) returns (c': Cell)
    requires Reaches(Checked, Fresh, c) && c.disk == Some(Record(Task, TaskState.Running)) && c.manager == Some(m)
    requires m.pc.Begin? && m.status == TaskState.Running && m.task == Task && m.local.exit == Some(true)
    ensures Reaches(Checked, Fresh, c') && c'.disk == Some(Record(Task, Complete))
  {
    c' := Step(Checked, Fresh, c, Fine);
    assert c'.manager == Some(m.(status := Complete, pc := Persist(false)));
    c' := Publishes(Checked, Fresh, c', c'.manager.value, true);
  }
}
