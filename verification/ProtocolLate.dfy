/** Where the protocol's guarantees end for commands that a dropped step or a dead
    daemon left running: runs in which one takes effect late, and what it then
    breaks. */
module ProtocolLate {
  import opened TaskStates
  import opened Controller
  import opened PayloadWriters
  import opened Protocol
  import opened ProtocolLimits
  import D = DoStep

  // ---- Rules that come late ------------------------------------------------

  /** An `rctl -a` left running, once an `rctl -r` has overtaken it. */
  function Later(orphans: Orphans, x: Orphan): Orphan
    requires x.IsAdd()
  {
    if x.late then x
    else if x.MemoryAdd? then MemoryAdd(|orphans.overtaken.memory| + x.i, true)
    else CpuAdd(|orphans.overtaken.cpu| + x.i, true)
  }

  lemma LaterAddsTheSame(orphans: Orphans, x: Orphan)
    requires x.IsAdd() && orphans.Has(x)
    ensures var y := Later(orphans, x);
            y.late && y.IsAdd() && orphans.Overtake().Has(y) && orphans.Overtake().Rule(y) == orphans.Rule(x)
  {
  }

  function LimitRules(limits: Limits): Rules { MemoryRule(limits).Plus(CpuRule(limits)) }

  /** A hot resize clears the rules and adds those of its limits. */
  lemma Resets(cfg: Config, a: Cell, c: Cell, m: Manager) returns (c': Cell)
    requires Reaches(cfg, a, c) && c.manager == Some(m) && m.pc == Working(InWait(WClear)) && cfg.racct
    ensures Reaches(cfg, a, c')
    ensures c' == c.(res := c.res.(rules := LimitRules(m.task.Caps()), orphans := c.res.orphans.Overtake()),
                     manager := Some(m.(pc := Working(InWait(WProber)))))
  {
    c' := Step(cfg, a, c, Fine);
    c' := Step(cfg, a, c', Fine);
    assert c'.res.rules == MemoryRule(m.task.Caps());
    c' := Step(cfg, a, c', Fine);
  }

  /** Any hot resize about to clear the rules while an `rctl -a` of a dropped step
      is outstanding can leave that rule beside its own: two of a kind if it sets
      that limit. */
  lemma OutstandingAddStacks(cfg: Config, a: Cell, c: Cell, m: Manager, x: Orphan) returns (c': Cell)
    requires Reaches(cfg, a, c) && c.manager == Some(m) && m.pc == Working(InWait(WClear)) && cfg.racct
    requires x.IsAdd() && c.res.orphans.Has(x)
    ensures Reaches(cfg, a, c') && c'.disk == c.disk && c'.life == c.life.(lateRule := true)
    ensures c'.res.rules == LimitRules(m.task.Caps()).Plus(c.res.orphans.Rule(x))
    ensures c'.res.rulesLeft == c.res.rulesLeft && c'.res.rulesLate
    ensures x.MemoryAdd? && m.task.Caps().memory > 0 ==> |c'.res.rules.memory| == 2
    ensures x.CpuAdd? && m.task.Caps().nanoCpus > 0 ==> |c'.res.rules.cpu| == 2
  {
    LaterAddsTheSame(c.res.orphans, x);
    c' := Resets(cfg, a, c, m);
    c' := Lands(cfg, a, c', Later(c.res.orphans, x));
  }

  /** The rest of a removal after its `rctl -r`, without a failure. */
  lemma Finishes(cfg: Config, a: Cell, c: Cell, m: Manager) returns (c': Cell)
    requires Reaches(cfg, a, c) && c.manager == Some(m) && m.pc == Removing(XDelete)
    ensures Reaches(cfg, a, c') && c'.up == c.up && c'.disk == None && c'.manager == None && c'.res.jail == Absent
    ensures c'.res.rules == c.res.rules && c'.res.orphans == c.res.orphans
    ensures c'.res.rulesLeft == c.res.rulesLeft && c'.res.rulesLate == c.res.rulesLate
    ensures c.res.stray == [] ==> c'.res.stray == []
    ensures c'.res.log == c.res.log + if c.res.jail.Absent? then [] else [DidDelete]
  {
    assert c.res.log + [] == c.res.log;
    c' := Step(cfg, a, c, Fine);
    c' := Forgets(cfg, a, c', c'.manager.value);
  }

  /** Any removal about to clear the rules while an `rctl -a` of a dropped step is
      outstanding can go on without a failure and leave that rule to the next
      record of the task. */
  lemma OutstandingAddOutlivesItsRecord(cfg: Config, a: Cell, c: Cell, m: Manager, x: Orphan) returns (c': Cell)
    requires Reaches(cfg, a, c) && c.manager == Some(m) && m.pc == Removing(XLimits) && cfg.racct
    requires x.IsAdd() && c.res.orphans.Has(x)
    ensures Reaches(cfg, a, c') && c'.disk == None && c'.manager == None && c'.res.jail == Absent
    ensures c'.res.rules == c.res.orphans.Rule(x)
    ensures c'.res.rulesLeft == c.res.rulesLeft && c'.res.rulesLate
  {
    LaterAddsTheSame(c.res.orphans, x);
    c' := Step(cfg, a, c, Fine);
    c' := Lands(cfg, a, c', Later(c.res.orphans, x));
    assert c'.res.rules == c.res.orphans.Rule(x);
    c' := Finishes(cfg, a, c', c'.manager.value);
  }

  function Sized(memory: int): TaskDef { TaskDef(WantRunning, Some(Limits(memory, 0)), None) }

  /** A started container without a healthcheck: the task is RUNNING. */
  lemma OpensGate(cfg: Config, a: Cell, c: Cell, m: Manager) returns (c': Cell)
    requires Reaches(cfg, a, c) && c.manager == Some(m) && m.pc == Working(InStart(SRelook)) && cfg.probe.None?
    requires m.status == TaskState.Starting && m.local.prober.None? && c.disk.Some? && c.res.jail == Live
    ensures Reaches(cfg, a, c') && c'.up == c.up && c'.res == c.res
    ensures c'.disk == Some(c.disk.value.(state := TaskState.Running))
    ensures c'.life == c.life.(reports := c'.life.reports, advances := c'.life.advances)
    ensures c'.manager == Some(m.(status := TaskState.Running, pc := Begin, local := m.local.(pid := true)))
  {
    c' := ComesToGate(cfg, a, c, m);
    c' := Step(cfg, a, c', Fine);
    assert c'.manager == Some(m.(status := TaskState.Running, pc := Persist(false), local := m.local.(pid := true)));
    c' := Publishes(cfg, a, c', c'.manager.value, true);
  }

  lemma ComesToGate(cfg: Config, a: Cell, c: Cell, m: Manager) returns (c': Cell)
    requires Reaches(cfg, a, c) && c.manager == Some(m) && m.pc == Working(InStart(SRelook)) && cfg.probe.None?
    requires c.res.jail == Live
    ensures Reaches(cfg, a, c')
    ensures c' == c.(manager := Some(m.(pc := Working(InStart(SGate)), local := m.local.(pid := true))))
  {
    c' := Step(cfg, a, c, Fine);
    c' := Step(cfg, a, c', Fine);
  }

  lemma RunsPlain() returns (c: Cell)
    ensures Reaches(Bare, Fresh, c) && c.up && c.disk == Some(Record(Task, TaskState.Running))
    ensures !c.life.removal && c.life.writesOk && !c.res.rulesLeft
    ensures c.manager.Some? && c.manager.value.pc.Begin? && c.manager.value.status == TaskState.Running
    ensures c.manager.value.task == Task && c.manager.value.queue == [] && !c.manager.value.leaving
    ensures c.manager.value.handle == WantRunning && c.manager.value.local.exit.None?
  {
    Here(Bare, Fresh);
    c := Assigns(Bare, Fresh, Fresh, Task);
    c := ToPreparing(Bare, Fresh, c, c.manager.value, true);
    c := Makes(Bare, Fresh, c, c.manager.value);
    c := Readies(Bare, Fresh, c, c.manager.value, true);
    c := Starts(Bare, Fresh, c, c.manager.value, true);
    c := OpensGate(Bare, Fresh, c, c.manager.value);
  }

  /** A RUNNING task that was resized comes to `rctl -r`. */
  lemma WaitsToClear(cfg: Config, a: Cell, c: Cell, m: Manager) returns (c': Cell)
    requires Reaches(cfg, a, c) && c.manager == Some(m) && m.pc.Begin? && m.status == TaskState.Running
    requires m.task.desired == WantRunning && m.local.exit.None? && m.local.resize
    ensures Reaches(cfg, a, c')
    ensures c' == c.(life := Called(c.life, D.CallWait),
                     manager := Some(m.(pc := Working(InWait(WClear)), local := m.local.(resize := false))))
  {
    c' := Step(cfg, a, c, Fine);
    c' := Step(cfg, a, c', Fine);
  }

  /** A resize is dropped by another one while it waits for `rctl -a`. */
  lemma LeavesAnAdd() returns (c: Cell)
    ensures Reaches(Bare, Fresh, c) && c.disk.Some? && !c.life.removal && c.life.writesOk && !c.res.rulesLeft
    ensures c.manager.Some? && c.manager.value.pc.Begin? && c.manager.value.status == TaskState.Running
    ensures c.manager.value.task == Sized(2) && c.manager.value.local.exit.None? && c.manager.value.local.resize
    ensures c.res.orphans.adds.memory == [1]
  {
    c := RunsPlain();
    c := Updates(Bare, Fresh, c, c.manager.value, Sized(1));
    c := WaitsToClear(Bare, Fresh, c, c.manager.value);
    c := Clears(Bare, Fresh, c, c.manager.value);
    c := Updates(Bare, Fresh, c, c.manager.value, Sized(2));
    assert c.res.orphans.adds.memory == [1];
  }

  lemma Clears(cfg: Config, a: Cell, c: Cell, m: Manager) returns (c': Cell)
    requires Reaches(cfg, a, c) && c.manager == Some(m) && m.pc == Working(InWait(WClear))
    ensures Reaches(cfg, a, c')
    ensures c' == c.(res := RulesCleared(cfg, c.res), manager := Some(m.(pc := Working(InWait(WMemory)))))
  {
    c' := Step(cfg, a, c, Fine);
  }

  /** Two resizes in a row and no failure: two memory rules name the jail. */
  lemma TwoResizesStackRules() returns (c: Cell)
    ensures Reaches(Bare, Fresh, c) && c.disk.Some? && !c.life.removal && c.life.writesOk && !c.res.rulesLeft
    ensures c.res.rules.memory == [2, 1]
  {
    c := LeavesAnAdd();
    c := WaitsToClear(Bare, Fresh, c, c.manager.value);
    c := OutstandingAddStacks(Bare, Fresh, c, c.manager.value, MemoryAdd(0, false));
  }

  // ---- A container with one secret -----------------------------------------

  /** The step's own writer writes the secret, after `ocijail create`. */
  lemma WritesSecret(a: Cell, c: Cell, m: Manager) returns (c': Cell)
    requires Reaches(OneSecret, a, c) && c.manager == Some(m) && m.pc == Working(InPrepare(PSecrets(Writer([Secret], FRONT))))
    ensures Reaches(OneSecret, a, c')
    ensures c' == c.(res := c.res.(files := c'.res.files, spoiled := c'.res.spoiled), manager := Some(AtPrepare(m, PMemory)))
  {
    var x := Writer([Secret], FRONT);
    c' := WritesByte(a, c, m, x);
    assert x.Moved() == Writer([Secret], Place(0, At(0)));
    c' := WritesByte(a, c', c'.manager.value, x.Moved());
    assert x.Moved().Moved() == Writer([Secret], Place(0, At(1)));
    c' := WritesByte(a, c', c'.manager.value, x.Moved().Moved());
    assert !x.Moved().Moved().Moved().Running();
    c' := Step(OneSecret, a, c', Fine);
  }

  lemma WritesByte(a: Cell, c: Cell, m: Manager, x: Writer) returns (c': Cell)
    requires Reaches(OneSecret, a, c) && c.manager == Some(m) && m.pc == Working(InPrepare(PSecrets(x))) && x.Running()
    ensures Reaches(OneSecret, a, c')
    ensures c' == c.(res := c.res.(files := c'.res.files, spoiled := c'.res.spoiled),
                     manager := Some(AtPrepare(m, PSecrets(x.Moved()))))
  {
    c' := Step(OneSecret, a, c, Fine);
  }

  /** From `ocijail create` to READY. */
  lemma Furnishes(a: Cell, c: Cell, m: Manager, ok: bool) returns (c': Cell)
    requires Reaches(OneSecret, a, c) && c.manager == Some(m) && m.pc == Working(InPrepare(PSecrets(Writer([Secret], FRONT))))
    requires m.status == TaskState.Preparing && c.disk.Some?
    ensures Reaches(OneSecret, a, c')
    ensures c'.up == c.up && c'.manager == Some(m.(status := TaskState.Ready, pc := Begin))
    ensures c'.disk == Some(if ok then c.disk.value.(state := TaskState.Ready) else c.disk.value)
    ensures c'.res == c.res.(files := c'.res.files, spoiled := c'.res.spoiled, rules := c'.res.rules)
    ensures c'.life == c.life.(writesOk := c.life.writesOk && ok, reports := c'.life.reports, advances := c'.life.advances)
  {
    c' := WritesSecret(a, c, m);
    c' := LimitsMemory(OneSecret, a, c', c'.manager.value);
    c' := BecomesReady(OneSecret, a, c', c'.manager.value, PCpu, ok);
  }

  lemma LimitsMemory(cfg: Config, a: Cell, c: Cell, m: Manager) returns (c': Cell)
    requires Reaches(cfg, a, c) && c.manager == Some(m) && m.pc == Working(InPrepare(PMemory))
    ensures Reaches(cfg, a, c')
    ensures c' == c.(res := c.res.(rules := c'.res.rules), manager := Some(AtPrepare(m, PCpu)))
  {
    c' := Step(cfg, a, c, Fine);
  }

  // ---- A create that comes late --------------------------------------------

  /** A `prepare` is dropped while it waits for `ocijail create`. */
  lemma LeavesACreate() returns (c: Cell)
    ensures Reaches(OneSecret, Fresh, c) && c.up && c.disk == Some(Record(Task, TaskState.Preparing))
    ensures c.res.jail == Absent && c.res.log == [] && c.res.stray == [] && c.res.orphans.creates == 1
    ensures !c.life.removal && c.life.writesOk && c.life.birth == 0 && !c.life.bundleLost
    ensures c.manager.Some? && c.manager.value.pc.Begin? && c.manager.value.status == TaskState.Preparing
    ensures c.manager.value.task == Task && c.manager.value.queue == [] && !c.manager.value.leaving
  {
    Here(OneSecret, Fresh);
    c := Assigns(OneSecret, Fresh, Fresh, Task);
    c := ToPreparing(OneSecret, Fresh, c, c.manager.value, true);
    c := Clones(OneSecret, Fresh, c, c.manager.value);
    c := Step(OneSecret, Fresh, c, Fine);
    c := Drops(OneSecret, Fresh, c, c.manager.value);
    assert c.res.stray == [];
  }

  /** The next `prepare` creates the container itself; it is started, and deleted
      by a removal that a crash cuts short. */
  lemma DeletesAfterStart() returns (c: Cell)
    ensures Reaches(OneSecret, Fresh, c) && c.disk == Some(Record(Task, TaskState.Starting))
    ensures c.res.jail == Absent && c.res.log == [DidCreate, DidStart, DidDelete] && c.res.orphans.creates > 0
    ensures c.life.removal && c.life.writesOk && c.life.birth == 0 && !c.life.bundleLost
    ensures c.manager == Some(Spawned(Task, TaskState.Starting, Begin, FreshLocal))
  {
    c := LeavesACreate();
    c := MakesAndStarts(c, c.manager.value);
    c := DeletesAndRestarts(c, c.manager.value);
  }

  lemma MakesAndStarts(c: Cell, m: Manager) returns (c': Cell)
    requires Reaches(OneSecret, Fresh, c) && c.manager == Some(m) && m.pc.Begin? && c.res.stray == []
    requires m.status == TaskState.Preparing && m.task == Task && c.disk == Some(Record(Task, TaskState.Preparing))
    requires c.res.jail.Absent?
    ensures Reaches(OneSecret, Fresh, c') && c'.up == c.up && c'.disk == Some(Record(Task, TaskState.Starting))
    ensures c'.res.jail == Live && c'.res.log == c.res.log + [DidCreate] + [DidStart] && c'.res.orphans == c.res.orphans
    ensures c'.life == c.life.(reports := c'.life.reports, advances := c'.life.advances, calls := c'.life.calls)
    ensures c'.manager.Some? && c'.manager.value.pc == Working(InStart(SRelook))
    ensures c'.manager.value.queue == m.queue && c'.manager.value.leaving == m.leaving
  {
    c' := Makes(OneSecret, Fresh, c, m);
    c' := Furnishes(Fresh, c', c'.manager.value, true);
    c' := Starts(OneSecret, Fresh, c', c'.manager.value, true);
  }

  lemma DeletesAndRestarts(c: Cell, m: Manager) returns (c': Cell)
    requires Reaches(OneSecret, Fresh, c) && c.up && c.manager == Some(m) && m.queue == [] && !m.leaving
    requires m.pc == Working(InStart(SRelook)) && !c.res.jail.Absent? && c.disk == Some(Record(Task, TaskState.Starting))
    ensures Reaches(OneSecret, Fresh, c') && c'.disk == c.disk && c'.life == c.life.(removal := true)
    ensures c'.manager == Some(Spawned(Task, TaskState.Starting, Begin, FreshLocal))
    ensures c'.res.jail == Absent && c'.res.log == c.res.log + [DidDelete]
    ensures c'.res.orphans.creates >= c.res.orphans.creates
  {
    c' := Deletes(OneSecret, Fresh, c, m);
    c' := Restarts(OneSecret, Fresh, c');
  }

  /** That create, coming after the container was started and deleted again, lets
      it be started a second time in the same life although every status write
      succeeded, and without its secret. */
  lemma LateCreateStartsTwice() returns (c: Cell)
    ensures Reaches(OneSecret, Fresh, c) && c.disk.Some? && c.life.writesOk && c.life.overrun && c.life.birth == 0
    ensures c.res.log == [DidCreate, DidStart, DidDelete, DidCreate, DidStart] && !Holds(c.res.files, Secret)
    ensures !c.life.bundleLost && !c.res.bare
  {
    c := DeletesAfterStart();
    c := Recreates(Fresh, c);
    c := StartsAgain(OneSecret, Fresh, c, c.manager.value);
  }

  lemma Recreates(a: Cell, c: Cell) returns (c': Cell)
    requires Reaches(OneSecret, a, c) && c.res.orphans.creates > 0 && c.res.jail.Absent? && c.life.removal
    ensures Reaches(OneSecret, a, c') && c'.disk == c.disk && c'.manager == c.manager && c'.up == c.up
    ensures c'.life == c.life.(overrun := true, inherited := c'.life.inherited)
    ensures c'.res.jail == Created && c'.res.log == c.res.log + [DidCreate] && !c'.res.bare && !Holds(c'.res.files, Secret)
  {
    c' := Lands(OneSecret, a, c, JailCreate);
    assert Secret in OneSecret.secrets && Secret.path in OneSecret.SecretPaths();
  }

  /** A task on record as STARTING starts its created container. */
  lemma StartsAgain(cfg: Config, a: Cell, c: Cell, m: Manager) returns (c': Cell)
    requires Reaches(cfg, a, c) && c.manager == Some(m) && m.pc.Begin? && c.res.jail == Created
    requires m.status == TaskState.Starting && m.task.desired == WantRunning
    ensures Reaches(cfg, a, c') && c'.disk == c.disk && c'.life == Called(c.life, D.CallStart)
    ensures c'.res == c.res.(jail := Live, log := c.res.log + [DidStart])
  {
    c' := CallsStart(cfg, a, c, m);
    c' := Looks(cfg, a, c', c'.manager.value);
    c' := Launches(cfg, a, c', c'.manager.value);
  }

  /** Any `prepare` about to create its container while a create of a dropped one
      is outstanding can find it done, and then the task is REJECTED. */
  lemma LateCreateRejectsTheTask(cfg: Config, a: Cell, c: Cell, m: Manager) returns (c': Cell)
    requires Reaches(cfg, a, c) && c.manager == Some(m) && m.pc == Working(InPrepare(PCreate))
    requires m.status == TaskState.Preparing && c.disk.Some? && c.res.orphans.creates > 0 && c.res.jail.Absent?
    ensures Reaches(cfg, a, c') && c'.disk == Some(c.disk.value.(state := Rejected))
    ensures c'.life.writesOk == c.life.writesOk && c'.res.jail == Created
  {
    c' := Lands(cfg, a, c, JailCreate);
    c' := Refuses(cfg, a, c', m);
    c' := Publishes(cfg, a, c', c'.manager.value, true);
  }

  lemma Refuses(cfg: Config, a: Cell, c: Cell, m: Manager) returns (c': Cell)
    requires Reaches(cfg, a, c) && c.manager == Some(m) && m.pc == Working(InPrepare(PCreate))
    requires m.status == TaskState.Preparing && c.res.jail == Created
    ensures Reaches(cfg, a, c') && c' == c.(manager := Some(m.(status := Rejected, pc := Persist(false))))
  {
    c' := Step(cfg, a, c, Fine);
  }

  // ---- A start that comes late ---------------------------------------------

  /** A task with one secret up to the await of `ocijail start`. */
  lemma AwaitsStart(ok: bool) returns (c: Cell)
    ensures Reaches(OneSecret, Fresh, c) && c.up && c.disk.Some? && c.disk.value.task == Task
    ensures ok || c.disk.value.state == Assigned
    ensures c.res.jail == Created && c.res.log == [DidCreate] && c.res.stray == [] && c.res.rootfs
    ensures !c.life.removal && c.life.writesOk == ok && !c.life.overrun && !c.life.leftovers && !c.life.bundleLost
    ensures c.manager.Some? && c.manager.value.pc == Working(InStart(SStart))
    ensures c.manager.value.queue == [] && !c.manager.value.leaving
  {
    Here(OneSecret, Fresh);
    c := Assigns(OneSecret, Fresh, Fresh, Task);
    c := ToPreparing(OneSecret, Fresh, c, c.manager.value, ok);
    c := MakesAndFurnishes(Fresh, c, c.manager.value, ok);
    c := ReachesStart(OneSecret, Fresh, c, c.manager.value, ok);
  }

  lemma MakesAndFurnishes(a: Cell, c: Cell, m: Manager, ok: bool) returns (c': Cell)
    requires Reaches(OneSecret, a, c) && c.manager == Some(m) && m.pc.Begin? && c.res.stray == [] && c.disk.Some?
    requires m.status == TaskState.Preparing && m.task.desired == WantRunning && c.res.jail.Absent?
    ensures Reaches(OneSecret, a, c') && c'.up == c.up
    ensures c'.disk == Some(if ok then c.disk.value.(state := TaskState.Ready) else c.disk.value)
    ensures c'.res.jail == Created && c'.res.log == c.res.log + [DidCreate] && c'.res.stray == [] && c'.res.rootfs
    ensures c'.manager.Some? && c'.manager.value == m.(status := TaskState.Ready, local := c'.manager.value.local)
    ensures c'.life == c.life.(writesOk := c.life.writesOk && ok, reports := c'.life.reports, advances := c'.life.advances,
                               calls := c'.life.calls)
  {
    c' := Makes(OneSecret, a, c, m);
    c' := Furnishes(a, c', c'.manager.value, ok);
  }

  lemma ReachesStart(cfg: Config, a: Cell, c: Cell, m: Manager, ok: bool) returns (c': Cell)
    requires Reaches(cfg, a, c) && c.manager == Some(m) && m.pc.Begin? && c.disk.Some? && c.res.jail == Created
    requires m.status == TaskState.Ready && m.task.desired == WantRunning
    ensures Reaches(cfg, a, c') && c'.up == c.up && c'.res == c.res
    ensures c'.disk == Some(if ok then c.disk.value.(state := TaskState.Starting) else c.disk.value)
    ensures c'.manager == Some(m.(status := TaskState.Starting, pc := Working(InStart(SStart))))
    ensures c'.life == c.life.(writesOk := c.life.writesOk && ok, reports := c'.life.reports, advances := c'.life.advances,
                               calls := c'.life.calls)
  {
    c' := Moves(cfg, a, c, m, TaskState.Starting, ok);
    c' := CallsStart(cfg, a, c', c'.manager.value);
    c' := Looks(cfg, a, c', c'.manager.value);
  }

  /** A removal that succeeds throughout. */
  lemma Removes(cfg: Config, a: Cell, c: Cell, m: Manager) returns (c': Cell)
    requires Reaches(cfg, a, c) && c.up && c.manager == Some(m) && m.queue == [] && !m.leaving
    requires m.pc == Working(InStart(SStart)) && c.res.stray == [] && c.res.jail == Created
    ensures Reaches(cfg, a, c') && c'.up && c'.disk == None && c'.manager == None && c'.res.stray == []
    ensures c'.res.jail == Absent && c'.res.log == c.res.log + [DidDelete]
    ensures c'.res.orphans.starts == c.res.orphans.starts + 1
  {
    c' := BeginsRemoval(cfg, a, c, m);
    c' := Step(cfg, a, c', Fine);
    c' := Step(cfg, a, c', Fine);
    c' := Finishes(cfg, a, c', c'.manager.value);
  }

  /** A start that a removed record left running takes effect on the container
      that the task's next record has just created: it runs before its secret is
      written, and while it is on record as PREPARING. */
  lemma OldStartComesBeforeTheSecret() returns (c: Cell)
    ensures Reaches(OneSecret, Fresh, c) && c.disk == Some(Record(Task, TaskState.Preparing))
    ensures !c.life.removal && c.life.writesOk && c.life.overrun && c.life.birth == 2
    ensures c.res.log == [DidCreate, DidDelete, DidCreate, DidStart] && c.res.rootfs && !Holds(c.res.files, Secret)
  {
    c := AwaitsStart(true);
    c := Removes(OneSecret, Fresh, c, c.manager.value);
    c := Assigns(OneSecret, Fresh, c, Task);
    c := ToPreparing(OneSecret, Fresh, c, c.manager.value, true);
    c := Makes(OneSecret, Fresh, c, c.manager.value);
    c := StartsLate(Fresh, c, true);
    assert Secret in OneSecret.secrets && Secret.path in OneSecret.SecretPaths();
  }

  lemma StartsLate(a: Cell, c: Cell, late: bool) returns (c': Cell)
    requires Reaches(OneSecret, a, c) && c.res.orphans.Has(JailStart(late)) && c.res.jail == Created
    ensures Reaches(OneSecret, a, c') && c'.disk == c.disk
    ensures c'.life == c.life.(overrun := c.life.overrun || late)
    ensures c'.res == c.res.(jail := Live, log := c.res.log + [DidStart], orphans := c'.res.orphans)
  {
    c' := Lands(OneSecret, a, c, JailStart(late));
  }

  /** With failed status writes a restarted daemon prepares the task anew while
      the start of the dead one is outstanding; it takes effect in the middle of
      the rewriting of the secret, and no writer was left over. */
  lemma LateStartMeetsTheRewrite() returns (c: Cell)
    ensures Reaches(OneSecret, Fresh, c) && c.disk.Some? && !c.life.writesOk && !c.life.removal
    ensures !c.life.overrun && !c.life.bundleLost && !c.life.leftovers && !c.res.bare && c.res.rootfs
    ensures c.res.log == [DidCreate, DidStart] && !Holds(c.res.files, Secret)
  {
    c := AwaitsStart(false);
    c := Restarts(OneSecret, Fresh, c);
    c := ToPreparing(OneSecret, Fresh, c, c.manager.value, true);
    c := Adopts(c, c.manager.value);
    c := ComesToSecrets(c, c.manager.value);
    c := Truncates(c, c.manager.value);
    c := StartsLate(Fresh, c, false);
  }

  /** The rewriting opens the secret's file. */
  lemma Truncates(c: Cell, m: Manager) returns (c': Cell)
    requires Reaches(OneSecret, Fresh, c) && c.manager == Some(m)
    requires m.pc == Working(InPrepare(RSecrets(Writer([Secret], FRONT))))
    ensures Reaches(OneSecret, Fresh, c') && c'.disk == c.disk && c'.life == c.life
    ensures c'.res == c.res.(files := c'.res.files, spoiled := c'.res.spoiled) && !Holds(c'.res.files, Secret)
  {
    c' := Step(OneSecret, Fresh, c, Fine);
  }

  // ---- A rootfs that comes late --------------------------------------------

  /** A `prepare` is dropped while it waits for `zfs clone`. */
  lemma LeavesAClone() returns (c: Cell)
    ensures Reaches(OneSecret, Fresh, c) && c.up && c.disk == Some(Record(Task, TaskState.Preparing))
    ensures c.res.jail == Absent && c.res.log == [] && c.res.stray == [] && c.res.orphans.clones == 1
    ensures !c.life.removal && c.life.writesOk && !c.life.overrun && !c.life.bundleLost
    ensures c.manager.Some? && c.manager.value.pc.Begin? && c.manager.value.status == TaskState.Preparing
    ensures c.manager.value.task == Task && c.manager.value.queue == [] && !c.manager.value.leaving
    ensures c.manager.value.handle == WantRunning
  {
    Here(OneSecret, Fresh);
    c := Assigns(OneSecret, Fresh, Fresh, Task);
    c := ToPreparing(OneSecret, Fresh, c, c.manager.value, true);
    c := ComesToClone(OneSecret, Fresh, c, c.manager.value);
    c := Drops(OneSecret, Fresh, c, c.manager.value);
    assert c.res.stray == [];
  }

  lemma ComesToClone(cfg: Config, a: Cell, c: Cell, m: Manager) returns (c': Cell)
    requires Reaches(cfg, a, c) && c.manager == Some(m) && m.pc.Begin? && c.res.jail.Absent?
    requires m.status == TaskState.Preparing && m.task.desired == WantRunning
    ensures Reaches(cfg, a, c')
    ensures c' == c.(life := Called(c.life, D.CallPrepare), manager := Some(AtPrepare(m, PLayers)))
  {
    c' := Step(cfg, a, c, Fine);
    c' := Step(cfg, a, c', Fine);
    c' := Step(cfg, a, c', Fine);
  }

  /** A removal that destroys the rootfs and not the jail, and a crash. */
  lemma LosesRootfs(a: Cell, c: Cell, m: Manager) returns (c': Cell)
    requires Reaches(OneSecret, a, c) && c.up && c.manager == Some(m) && m.queue == [] && !m.leaving
    requires m.pc == Working(InPrepare(PSecrets(Writer([Secret], FRONT)))) && c.disk == Some(Record(Task, TaskState.Preparing))
    requires m.task == Task && m.handle == WantRunning
    ensures Reaches(OneSecret, a, c') && c'.disk == c.disk
    ensures c'.manager == Some(Spawned(Task, TaskState.Preparing, Begin, FreshLocal))
    ensures c'.res.jail == c.res.jail && c'.res.log == c.res.log && c'.res.files == c.res.files && !c'.res.rootfs
    ensures c'.res.orphans.clones == c.res.orphans.clones
    ensures c'.life == c.life.(removal := true, leftovers := c'.life.leftovers)
  {
    c' := Drops(OneSecret, a, c, m);
    c' := GetsToDelete(OneSecret, a, c', c'.manager.value);
    c' := DestroysOnly(OneSecret, a, c', c'.manager.value);
    c' := Restarts(OneSecret, a, c');
  }

  lemma GetsToDelete(cfg: Config, a: Cell, c: Cell, m: Manager) returns (c': Cell)
    requires Reaches(cfg, a, c) && c.up && c.manager == Some(m) && m.queue == [] && !m.leaving && m.pc.Begin?
    ensures Reaches(cfg, a, c') && c'.disk == c.disk && c'.life == c.life.(removal := true)
    ensures c'.res == c.res.(rules := c'.res.rules, orphans := c.res.orphans.Overtake())
    ensures c'.manager.Some? && c'.manager.value.pc == Removing(XDelete)
  {
    c' := BeginsRemoval(cfg, a, c, m);
    c' := Step(cfg, a, c', Fine);
    c' := Step(cfg, a, c', Fine);
  }

  lemma DestroysOnly(cfg: Config, a: Cell, c: Cell, m: Manager) returns (c': Cell)
    requires Reaches(cfg, a, c) && c.manager == Some(m) && m.pc == Removing(XDelete)
    ensures Reaches(cfg, a, c')
    ensures c' == c.(res := c.res.(rootfs := false), manager := c'.manager) && c'.manager.Some?
    ensures c'.manager.value.pc == Removing(XBundle)
  {
    c' := Step(cfg, a, c, Bad(false));
    c' := Step(cfg, a, c', Fine);
  }

  /** The next `prepare` adopts the container without its rootfs and writes
      nothing; the task is READY. */
  lemma AdoptsBare(a: Cell, c: Cell, m: Manager) returns (c': Cell)
    requires Reaches(OneSecret, a, c) && c.manager == Some(m) && m == Spawned(Task, TaskState.Preparing, Begin, FreshLocal)
    requires c.disk.Some? && c.res.jail == Created && !c.res.rootfs
    ensures Reaches(OneSecret, a, c') && c'.disk == Some(c.disk.value.(state := TaskState.Ready))
    ensures c'.res == c.res.(bare := true)
    ensures c'.manager.Some? && c'.manager.value == m.(status := TaskState.Ready, local := c'.manager.value.local)
    ensures c'.life == c.life.(reports := c'.life.reports, advances := c'.life.advances, calls := c'.life.calls)
  {
    c' := Step(OneSecret, a, c, Fine);
    c' := Step(OneSecret, a, c', Fine);
    c' := Publishes(OneSecret, a, c', c'.manager.value, true);
  }

  /** A container adopted without its rootfs starts without its secret, and a clone
      that comes late makes the rootfs be there again. */
  lemma BareContainerStartsWithoutItsSecret() returns (c: Cell)
    ensures Reaches(OneSecret, Fresh, c) && c.disk.Some? && c.life.writesOk && !c.life.overrun && !c.life.bundleLost
    ensures c.res.log == [DidCreate, DidStart] && c.res.rootfs && c.res.bare && Secret.path !in c.res.files
  {
    c := LeavesAClone();
    c := Makes(OneSecret, Fresh, c, c.manager.value);
    assert Secret in OneSecret.secrets && Secret.path in OneSecret.SecretPaths();
    c := LosesRootfs(Fresh, c, c.manager.value);
    c := AdoptsBare(Fresh, c, c.manager.value);
    c := ClonesLate(Fresh, c);
    c := Starts(OneSecret, Fresh, c, c.manager.value, true);
  }

  lemma ClonesLate(a: Cell, c: Cell) returns (c': Cell)
    requires Reaches(OneSecret, a, c) && c.res.orphans.clones > 0
    ensures Reaches(OneSecret, a, c') && c'.disk == c.disk && c'.manager == c.manager && c'.life == c.life
    ensures c'.res == c.res.(rootfs := true, orphans := c'.res.orphans)
  {
    c' := Lands(OneSecret, a, c, RootfsClone);
  }
}
