/** The payload files in the protocol: what the writers at work leave of them in
    every state, and which of them are there when a container is ready to start. */
module ProtocolFiles {
  import opened TaskStates
  import opened Controller
  import opened PayloadWriters
  import opened Protocol
  import opened ProtocolControl
  import opened ProtocolJail
  import D = DoStep

  // ==== What the writers leave ==============================================

  ghost predicate CrewInv(cfg: Config, c: Cell)
  {
    && Good(cfg, c.res.files, c.res.spoiled, Crew(c))
    && (c.manager.Some? && c.manager.value.pc.Working? ==> Batched(cfg, c.manager.value.pc.op))
  }

  /** Before the container is created only configs are written. */
  predicate Batched(cfg: Config, op: OpPc) { op.InPrepare? && op.prepare.PConfigs? ==> op.prepare.x.batch == cfg.configs }

  /** The writers an operation's step leaves at work. */
  function CrewAfter(e: Effect): seq<Writer>
  {
    e.res.stray + if e.onward.Goto? then WriterOf(e.onward.op) else []
  }

  /** The step's own writer moves, ends its batch, or is cut short by an error. */
  lemma CrewWrites(cfg: Config, res: Resources, local: Local, x: Writer, o: Outcome, more: PreparePc, done: Onward)
    requires cfg.Valid() && Good(cfg, res.files, res.spoiled, res.stray + [x])
    requires WriterOf(InPrepare(more)) == [x.Moved()]
    requires done.Goto? ==> WriterOf(done.op) == [] || WriterOf(done.op) == [Writer(cfg.secrets, FRONT)]
    ensures var e := Written(res, local, x, o, more, done);
            Good(cfg, e.res.files, e.res.spoiled, CrewAfter(e))
  {
    var all, n := res.stray + [x], |res.stray|;
    assert all[n] == x;
    if !o.Okay? {
      CutGood(cfg, res.files, res.spoiled, all, n);
      assert all[n := x.Ended()] == res.stray + [x.Ended()];
      LeaveGood(cfg, res.files, res.spoiled + Cut(x), res.stray, x.Ended());
      assert res.stray + [] == res.stray;
    } else if x.Running() {
      StepGood(cfg, res.files, res.spoiled, all, n);
      assert all[n := x.Moved()] == res.stray + [x.Moved()];
    } else {
      LeaveGood(cfg, res.files, res.spoiled, res.stray, x);
      assert res.stray + [] == res.stray;
      JoinGood(cfg, res.files, res.spoiled, res.stray, Writer(cfg.secrets, FRONT));
    }
  }

  lemma CrewStarts(cfg: Config, res: Resources, batch: seq<Write>)
    requires Good(cfg, res.files, res.spoiled, res.stray + []) && (batch == cfg.configs || batch == cfg.secrets)
    ensures Good(cfg, res.files, res.spoiled, res.stray)
    ensures Good(cfg, res.files, res.spoiled, res.stray + [Writer(batch, FRONT)])
  {
    assert res.stray + [] == res.stray;
    JoinGood(cfg, res.files, res.spoiled, res.stray, Writer(batch, FRONT));
  }

  lemma CrewCreates(cfg: Config, res: Resources)
    requires Good(cfg, res.files, res.spoiled, res.stray)
    ensures var after := Wiped(res, cfg.SecretPaths());
            Good(cfg, after.files, after.spoiled, after.stray + [Writer(cfg.secrets, FRONT)])
  {
    WipeGood(cfg, res.files, res.spoiled, res.stray, cfg.SecretPaths());
    var after := Wiped(res, cfg.SecretPaths());
    JoinGood(cfg, after.files, after.spoiled, after.stray, Writer(cfg.secrets, FRONT));
  }

  lemma CrewOfPrepare(cfg: Config, res: Resources, local: Local, limits: Limits, pc: PreparePc, o: Outcome)
    requires cfg.Valid() && Good(cfg, res.files, res.spoiled, res.stray + WriterOf(InPrepare(pc)))
    ensures var e := PrepareTick(cfg, res, local, limits, pc, o);
            Good(cfg, e.res.files, e.res.spoiled, CrewAfter(e))
  {
    match pc
    case PConfigs(x) => CrewWrites(cfg, res, local, x, o, PConfigs(x.Moved()), Goto(InPrepare(PCreate)));
    case PSecrets(x) => CrewWrites(cfg, res, local, x, o, PSecrets(x.Moved()), Goto(InPrepare(PMemory)));
    case RConfigs(x) =>
      CrewWrites(cfg, res, local, x, o, RConfigs(x.Moved()), Goto(InPrepare(RSecrets(Writer(cfg.secrets, FRONT)))));
    case RSecrets(x) => CrewWrites(cfg, res, local, x, o, RSecrets(x.Moved()), Answer(D.Done));
    case _ => CrewElsewhere(cfg, res, local, limits, pc, o);
  }

  /** The awaits of `prepare` without a writer. */
  lemma CrewElsewhere(cfg: Config, res: Resources, local: Local, limits: Limits, pc: PreparePc, o: Outcome)
    requires cfg.Valid() && WriterOf(InPrepare(pc)) == [] && Good(cfg, res.files, res.spoiled, res.stray + [])
    ensures var e := PrepareTick(cfg, res, local, limits, pc, o);
            Good(cfg, e.res.files, e.res.spoiled, CrewAfter(e))
  {
    CrewStarts(cfg, res, cfg.configs);
    if pc.PCreate? {
      CrewCreates(cfg, res);
    }
  }

  lemma BatchedOnward(cfg: Config, res: Resources, local: Local, limits: Limits, pc: PreparePc, o: Outcome)
    requires Batched(cfg, InPrepare(pc))
    ensures var e := PrepareTick(cfg, res, local, limits, pc, o); e.onward.Goto? ==> Batched(cfg, e.onward.op)
  {
  }

  /** Only `prepare` touches files. */
  lemma OthersLeaveFiles(cfg: Config, res: Resources, local: Local, limits: Limits, op: OpPc, o: Outcome)
    requires !op.InPrepare?
    ensures var e := Stepped(cfg, res, local, limits, op, o);
            && e.res.files == res.files && e.res.spoiled == res.spoiled && e.res.stray == res.stray
            && e.res.rootfs == res.rootfs && e.res.bare == res.bare && (e.res.jail.Created? ==> res.jail.Created?)
            && (e.onward.Goto? ==> !e.onward.op.InPrepare?)
  {
    StepsAreSound(cfg, res, local, limits, op, o);
    match op
    case InStart(pc) => FilesOfStart(cfg, res, local, pc, o);
    case InWait(pc) => FilesOfWait(cfg, res, local, limits, pc, o);
    case InStop(pc) =>
  }

  predicate SameFiles(res: Resources, after: Resources)
  {
    && after.files == res.files && after.spoiled == res.spoiled && after.stray == res.stray
    && after.rootfs == res.rootfs && after.bare == res.bare && (after.jail.Created? ==> res.jail.Created?)
  }

  lemma FilesOfStart(cfg: Config, res: Resources, local: Local, pc: StartPc, o: Outcome)
    ensures SameFiles(res, StartTick(cfg, res, local, pc, o).res)
  {
  }

  lemma FilesOfWait(cfg: Config, res: Resources, local: Local, limits: Limits, pc: WaitPc, o: Outcome)
    ensures SameFiles(res, WaitTick(cfg, res, local, limits, pc, o).res)
  {
  }

  lemma CrewWorked(cfg: Config, c: Cell, m: Manager, op: OpPc, o: Outcome)
    requires cfg.Valid() && CrewInv(cfg, c) && c.manager == Some(m) && m.pc == Working(op)
    ensures CrewInv(cfg, Effected(c, m, op.Call(), Stepped(cfg, c.res, m.local, m.task.Caps(), op, o)))
  {
    var e := Stepped(cfg, c.res, m.local, m.task.Caps(), op, o);
    if op.InPrepare? {
      CrewOfPrepare(cfg, c.res, m.local, m.task.Caps(), op.prepare, o);
      BatchedOnward(cfg, c.res, m.local, m.task.Caps(), op.prepare, o);
    } else {
      OthersLeaveFiles(cfg, c.res, m.local, m.task.Caps(), op, o);
    }
    assert Crew(Effected(c, m, op.Call(), e)) == CrewAfter(e);
  }

  lemma CrewRemoved(cfg: Config, c: Cell, m: Manager, pc: RemovePc, o: Outcome)
    requires CrewInv(cfg, c) && c.manager == Some(m) && m.pc == Removing(pc)
    ensures CrewInv(cfg, Removed(cfg, c, m, pc, o))
  {
    assert c.res.stray + [] == c.res.stray;
    WipeGood(cfg, c.res.files, c.res.spoiled, c.res.stray, cfg.SecretPaths());
    WipeGood(cfg, c.res.files, c.res.spoiled, c.res.stray, cfg.ConfigPaths());
    var c' := Removed(cfg, c, m, pc, o);
    assert c'.res.stray + [] == c'.res.stray;
  }

  lemma CrewTicked(cfg: Config, c: Cell, m: Manager, o: Outcome)
    requires cfg.Valid() && CrewInv(cfg, c) && c.manager == Some(m) && !m.pc.Park?
    ensures CrewInv(cfg, Ticked(cfg, c, m, o))
  {
    match m.pc
    case Begin => CrewDispatched(cfg, c, m, D.Dispatch(m.status, m.task.desired));
    case Working(op) => CrewWorked(cfg, c, m, op, o);
    case Removing(pc) => CrewRemoved(cfg, c, m, pc, o);
    case _ =>
  }

  lemma CrewDispatched(cfg: Config, c: Cell, m: Manager, action: D.Action)
    requires CrewInv(cfg, c) && c.manager == Some(m) && m.pc.Begin?
    ensures CrewInv(cfg, Dispatched(c, m, action))
  {
    CrewIdle(cfg, c, Dispatched(c, m, action));
  }

  lemma CrewIdle(cfg: Config, c: Cell, c': Cell)
    requires CrewInv(cfg, c) && Crew(c') == Crew(c)
    requires c'.res == c.res.(orphans := c'.res.orphans)
    requires c'.manager.Some? && c'.manager.value.pc.Working? ==> Batched(cfg, c'.manager.value.pc.op)
    ensures CrewInv(cfg, c')
  {
  }

  lemma CrewCommanded(cfg: Config, c: Cell, m: Manager)
    requires CrewInv(cfg, c) && c.manager == Some(m) && m.queue != []
    ensures CrewInv(cfg, Commanded(c, m))
  {
    var c' := Commanded(c, m);
    assert Crew(c') == c'.res.stray == Crew(c);
  }

  /** Only a late create touches files. */
  lemma LandsOnFiles(cfg: Config, res: Resources, x: Orphan)
    requires res.orphans.Has(x)
    ensures var after := Landed(cfg, res, x);
            if x.JailCreate? && res.jail.Absent? then
              var wiped := Wiped(res, cfg.SecretPaths());
              after.files == wiped.files && after.stray == wiped.stray && after.spoiled == res.spoiled
            else
              after.files == res.files && after.stray == res.stray && after.spoiled == res.spoiled
  {
  }

  /** A create that lands late finds no writer in a secret but strays, and they
      lose their file. */
  lemma CrewLanded(cfg: Config, c: Cell, x: Orphan)
    requires cfg.Valid() && JailInv(c) && CrewInv(cfg, c) && c.res.orphans.Has(x)
    ensures CrewInv(cfg, OrphanLanded(cfg, c, x))
  {
    LandsOnFiles(cfg, c.res, x);
    var own := if c.manager.Some? && c.manager.value.pc.Working? then WriterOf(c.manager.value.pc.op) else [];
    if x.JailCreate? && c.res.jail.Absent? {
      OwnStays(cfg, c, own);
      CrewRemounts(cfg, c.res, own);
    }
    assert Crew(OrphanLanded(cfg, c, x)) == Landed(cfg, c.res, x).stray + own;
  }

  lemma CrewRemounts(cfg: Config, res: Resources, own: seq<Writer>)
    requires Good(cfg, res.files, res.spoiled, res.stray + own)
    requires forall i :: 0 <= i < |own| ==> DetachedFrom(own[i], cfg.SecretPaths()) == own[i]
    ensures var after := Wiped(res, cfg.SecretPaths()); Good(cfg, after.files, res.spoiled, after.stray + own)
  {
    WipeGood(cfg, res.files, res.spoiled, res.stray + own, cfg.SecretPaths());
    assert Detached(res.stray + own, cfg.SecretPaths()) == Detached(res.stray, cfg.SecretPaths()) + own;
  }

  /** A step that writes while there is no jail writes configs. */
  lemma OwnStays(cfg: Config, c: Cell, own: seq<Writer>)
    requires cfg.Valid() && JailInv(c) && CrewInv(cfg, c) && c.res.jail.Absent?
    requires own == if c.manager.Some? && c.manager.value.pc.Working? then WriterOf(c.manager.value.pc.op) else []
    ensures forall i :: 0 <= i < |own| ==> DetachedFrom(own[i], cfg.SecretPaths()) == own[i]
  {
    forall i | 0 <= i < |own| ensures DetachedFrom(own[i], cfg.SecretPaths()) == own[i] {
      assert own[i].batch == cfg.configs;
      if own[i].Running() {
        assert own[i].File() in cfg.configs;
      }
    }
  }

  lemma CrewStrays(cfg: Config, c: Cell, i: nat, ok: bool)
    requires cfg.Valid() && CrewInv(cfg, c) && Enabled(c, StrayStep(i, ok))
    ensures CrewInv(cfg, c.(res := StrayMoved(c.res, i, ok)))
  {
    var all, x := Crew(c), c.res.stray[i];
    assert all[i] == x;
    StepGood(cfg, c.res.files, c.res.spoiled, all, i);
    CutGood(cfg, c.res.files, c.res.spoiled, all, i);
    var c' := c.(res := StrayMoved(c.res, i, ok));
    assert Crew(c') == all[i := if ok then x.Moved() else x.Ended()];
  }

  lemma CrewCrashed(cfg: Config, c: Cell)
    requires CrewInv(cfg, c)
    ensures CrewInv(cfg, Crashed(c))
  {
    CrashGood(cfg, c.res.files, c.res.spoiled, Crew(c));
    assert Crew(Crashed(c)) == [];
  }

  /** Calls of the worker, startup and probes leave the writers alone. */
  lemma CrewUnmoved(cfg: Config, c: Cell, e: Event)
    requires Control(c) && CrewInv(cfg, c) && Enabled(c, e)
    requires e.Assign? || e.Unassign? || e.CloseDown? || e.Init? || e.Probe?
    ensures CrewInv(cfg, Next(cfg, c, e))
  {
    var c' := Next(cfg, c, e);
    assert Crew(c') == Crew(c);
    CrewIdle(cfg, c, c');
  }

  lemma CrewLost(cfg: Config, c: Cell, x: Orphan)
    requires CrewInv(cfg, c) && c.res.orphans.Has(x)
    ensures CrewInv(cfg, OrphanLost(c, x))
  {
    CrewIdle(cfg, c, OrphanLost(c, x));
  }

  lemma CrewKept(cfg: Config, c: Cell, e: Event)
    requires cfg.Valid() && Control(c) && JailInv(c) && CrewInv(cfg, c) && Enabled(c, e)
    ensures CrewInv(cfg, Next(cfg, c, e))
  {
    match e
    case Crash => CrewCrashed(cfg, c);
    case Interrupt => CrewCommanded(cfg, c, c.manager.value);
    case Tick(o) => CrewTicked(cfg, c, c.manager.value, o);
    case ContainerExits =>
    case StrayStep(i, ok) => CrewStrays(cfg, c, i, ok);
    case OrphanEnds(x, ok) => if ok { CrewLanded(cfg, c, x); } else { CrewLost(cfg, c, x); }
    case _ => CrewUnmoved(cfg, c, e);
  }

  // ==== Which files are there ===============================================

  /** The file exists, and only a leftover writer can have left it incomplete. */
  predicate Kept(files: map<Path, Bytes>, spoiled: set<Path>, leftovers: bool, path: Path)
  {
    path in files && (path in spoiled ==> leftovers)
  }

  predicate Done(files: map<Path, Bytes>, spoiled: set<Path>, leftovers: bool, batch: seq<Write>, n: nat)
  {
    n <= |batch| && forall i :: 0 <= i < n ==> Kept(files, spoiled, leftovers, batch[i].path)
  }

  /** How far a step's own writer has got. */
  predicate Under(files: map<Path, Bytes>, spoiled: set<Path>, leftovers: bool, x: Writer)
  {
    && !x.at.pos.Lost? && Done(files, spoiled, leftovers, x.batch, x.at.k)
    && (x.Running() && x.at.pos.At? ==> Kept(files, spoiled, leftovers, x.File().path))
  }

  predicate AllDone(cfg: Config, res: Resources, leftovers: bool)
  {
    && Done(res.files, res.spoiled, leftovers, cfg.configs, |cfg.configs|)
    && Done(res.files, res.spoiled, leftovers, cfg.secrets, |cfg.secrets|)
  }

  /** How far an operation in flight has got with the payloads. */
  predicate FilesSeen(cfg: Config, res: Resources, leftovers: bool, op: OpPc)
  {
    op.InPrepare? ==>
      var files, spoiled := res.files, res.spoiled;
      var configs := Done(files, spoiled, leftovers, cfg.configs, |cfg.configs|);
      match op.prepare
      case PConfigs(x) => x.batch == cfg.configs && Under(files, spoiled, leftovers, x)
      case PCreate => configs
      case PSecrets(x) => configs && x.batch == cfg.secrets && Under(files, spoiled, leftovers, x)
      case PMemory => AllDone(cfg, res, leftovers)
      case PCpu => AllDone(cfg, res, leftovers)
      case RConfigs(x) => x.batch == cfg.configs && Under(files, spoiled, leftovers, x)
      case RSecrets(x) => configs && x.batch == cfg.secrets && Under(files, spoiled, leftovers, x)
      case _ => true
  }

  /** A created container that was not adopted bare has all its files. */
  predicate Startable(cfg: Config, res: Resources, leftovers: bool)
  {
    res.jail.Created? && !res.bare ==> AllDone(cfg, res, leftovers)
  }

  /** Neither a removal nor a late command of the runtime has got in between. */
  predicate Undisturbed(life: Life) { !life.bundleLost && !life.overrun }

  ghost predicate FilesInv(cfg: Config, c: Cell)
  {
    c.disk.Some? ==>
      && (!c.life.leftovers ==> !AtWork(c.res.stray))
      && (Undisturbed(c.life) ==>
            && (Prepared(c.disk.value.state) ==> Startable(cfg, c.res, c.life.leftovers))
            && (c.res.orphans.starts > 0 && c.life.writesOk ==> Startable(cfg, c.res, c.life.leftovers))
            && (c.manager.Some? ==>
                  && (Prepared(c.manager.value.status) ==> Startable(cfg, c.res, c.life.leftovers))
                  && (c.manager.value.pc.Working? ==>
                        FilesSeen(cfg, c.res, c.life.leftovers, c.manager.value.pc.op))))
  }

  /** A writer's step loses no file and spoils none. */
  lemma StepKeeps(files: map<Path, Bytes>, spoiled: set<Path>, leftovers: bool, x: Writer, batch: seq<Write>, n: nat)
    requires x.Running() && Done(files, spoiled, leftovers, batch, n)
    ensures Done(FilesAfter(x, files), SpoiledAfter(x, spoiled), leftovers, batch, n)
  {
    forall i | 0 <= i < n ensures Kept(FilesAfter(x, files), SpoiledAfter(x, spoiled), leftovers, batch[i].path) {
      assert Kept(files, spoiled, leftovers, batch[i].path);
    }
  }

  lemma StepUnder(files: map<Path, Bytes>, spoiled: set<Path>, leftovers: bool, x: Writer)
    requires x.Running() && Under(files, spoiled, leftovers, x)
    ensures Under(FilesAfter(x, files), SpoiledAfter(x, spoiled), leftovers, x.Moved())
  {
    StepKeeps(files, spoiled, leftovers, x, x.batch, x.at.k);
  }

  /** A fresh tmpfs over the secrets leaves the configs alone. */
  lemma FreshTmpfs(cfg: Config, res: Resources, leftovers: bool)
    requires cfg.Valid() && Done(res.files, res.spoiled, leftovers, cfg.configs, |cfg.configs|)
    ensures var after := Wiped(res, cfg.SecretPaths());
            Done(after.files, after.spoiled, leftovers, cfg.configs, |cfg.configs|)
  {
    var after := Wiped(res, cfg.SecretPaths());
    forall i | 0 <= i < |cfg.configs| ensures Kept(after.files, after.spoiled, leftovers, cfg.configs[i].path) {
      assert Kept(res.files, res.spoiled, leftovers, cfg.configs[i].path) && cfg.configs[i] in cfg.configs;
    }
  }

  lemma FilesWritten(
    cfg: Config, res: Resources, local: Local, leftovers: bool, x: Writer, o: Outcome, more: PreparePc, done: Onward)
    requires Under(res.files, res.spoiled, leftovers, x)
    ensures var e := Written(res, local, x, o, more, done);
            && (o.Okay? && x.Running() ==> Under(e.res.files, e.res.spoiled, leftovers, x.Moved()))
            && (o.Okay? && x.Running() && Done(res.files, res.spoiled, leftovers, cfg.configs, |cfg.configs|) ==>
                  Done(e.res.files, e.res.spoiled, leftovers, cfg.configs, |cfg.configs|))
            && (o.Okay? && !x.Running() ==>
                  e.res == res && Done(res.files, res.spoiled, leftovers, x.batch, |x.batch|))
  {
    if x.Running() {
      StepUnder(res.files, res.spoiled, leftovers, x);
      OthersStayDone(res.files, res.spoiled, leftovers, x, cfg.configs);
    }
  }

  lemma OthersStayDone(files: map<Path, Bytes>, spoiled: set<Path>, leftovers: bool, x: Writer, batch: seq<Write>)
    requires x.Running()
    ensures Done(files, spoiled, leftovers, batch, |batch|) ==>
              Done(FilesAfter(x, files), SpoiledAfter(x, spoiled), leftovers, batch, |batch|)
  {
    if Done(files, spoiled, leftovers, batch, |batch|) {
      StepKeeps(files, spoiled, leftovers, x, batch, |batch|);
    }
  }

  /** A step of `prepare` extends the batch it is writing and keeps the other, and
      a successful `prepare` leaves every file there. */
  lemma FilesOfPrepare(cfg: Config, res: Resources, local: Local, limits: Limits, pc: PreparePc, o: Outcome, leftovers: bool)
    requires cfg.Valid() && FilesSeen(cfg, res, leftovers, InPrepare(pc))
    ensures var e := PrepareTick(cfg, res, local, limits, pc, o);
            && (e.onward.Goto? ==> FilesSeen(cfg, e.res, leftovers, e.onward.op))
            && (e.onward == Answer(D.Done) ==> Startable(cfg, e.res, leftovers))
  {
    match pc
    case PConfigs(x) => FilesWritten(cfg, res, local, leftovers, x, o, PConfigs(x.Moved()), Goto(InPrepare(PCreate)));
    case PSecrets(x) => FilesWritten(cfg, res, local, leftovers, x, o, PSecrets(x.Moved()), Goto(InPrepare(PMemory)));
    case RConfigs(x) =>
      FilesWritten(cfg, res, local, leftovers, x, o, RConfigs(x.Moved()), Goto(InPrepare(RSecrets(Writer(cfg.secrets, FRONT)))));
    case RSecrets(x) => FilesWritten(cfg, res, local, leftovers, x, o, RSecrets(x.Moved()), Answer(D.Done));
    case PCreate => FreshTmpfs(cfg, res, leftovers);
    case _ =>
  }

  lemma QuietAfter(cfg: Config, res: Resources, local: Local, limits: Limits, op: OpPc, o: Outcome)
    requires !AtWork(res.stray)
    ensures !AtWork(Stepped(cfg, res, local, limits, op, o).res.stray)
  {
    if op.InPrepare? {
      StrayOfPrepare(cfg, res, local, limits, op.prepare, o);
      DetachedQuiet(res.stray, cfg.SecretPaths());
    } else {
      OthersLeaveFiles(cfg, res, local, limits, op, o);
    }
  }

  lemma StrayOfPrepare(cfg: Config, res: Resources, local: Local, limits: Limits, pc: PreparePc, o: Outcome)
    ensures var stray := PrepareTick(cfg, res, local, limits, pc, o).res.stray;
            stray == res.stray || stray == Detached(res.stray, cfg.SecretPaths())
  {
  }

  lemma DetachedQuiet(writers: seq<Writer>, paths: set<Path>)
    requires !AtWork(writers)
    ensures !AtWork(Detached(writers, paths))
  {
  }

  lemma FilesEffected(cfg: Config, c: Cell, m: Manager, call: D.Call, e: Effect)
    requires Control(c) && FilesInv(cfg, c) && c.manager == Some(m) && c.disk.Some?
    requires Homed(m.status, m.task.desired, call)
    requires !AtWork(c.res.stray) ==> !AtWork(e.res.stray)
    requires Undisturbed(c.life) && e.onward.Goto? ==> FilesSeen(cfg, e.res, c.life.leftovers, e.onward.op)
    requires Undisturbed(c.life) && call.CallPrepare? && e.onward == Answer(D.Done) ==>
               Startable(cfg, e.res, c.life.leftovers)
    requires !call.CallPrepare? && Startable(cfg, c.res, c.life.leftovers) ==> Startable(cfg, e.res, c.life.leftovers)
    requires e.res.orphans.starts == c.res.orphans.starts
    requires call.CallPrepare? && Undisturbed(c.life) && c.life.writesOk ==> c.res.orphans.starts == 0
    ensures FilesInv(cfg, Effected(c, m, call, e))
  {
    if e.onward.Answer? {
      PreparedBy(m.status, m.task.desired, call, e.onward.reply);
    }
  }

  /** While `prepare` runs no start of this life is still to come. */
  lemma NoStartToCome(c: Cell, m: Manager)
    requires Control(c) && StartInv(c) && c.manager == Some(m) && c.disk.Some?
    requires m.status == TaskState.Preparing && (m.pc.Begin? || m.pc.Working?)
    ensures Undisturbed(c.life) && c.life.writesOk ==> c.res.orphans.starts == 0
  {
  }

  lemma FilesDispatched(cfg: Config, c: Cell, m: Manager)
    requires Control(c) && StartInv(c) && FilesInv(cfg, c) && c.manager == Some(m) && m.pc.Begin?
    ensures FilesInv(cfg, Dispatched(c, m, D.Dispatch(m.status, m.task.desired)))
  {
    DispatchIsApt(m.status, m.task.desired);
    match D.Dispatch(m.status, m.task.desired)
    case Idle =>
    case Move(to) =>
    case Invoke(call) =>
      if call.CallPrepare? {
        NoStartToCome(c, m);
      }
      if call.CallShutdown? {
        FilesEffected(cfg, c, m, call, Opened(call, c.res, m.local));
      } else {
        CallingKept(c, m, call);
        FilesEffected(cfg, c.(life := c.life.(calls := c.life.calls + [call])), m, call,
                      Opened(call, c.res, m.local));
      }
  }

  lemma FilesWorked(cfg: Config, c: Cell, m: Manager, op: OpPc, o: Outcome)
    requires cfg.Valid() && Control(c) && JailInv(c) && StartInv(c) && FilesInv(cfg, c)
    requires c.manager == Some(m) && m.pc == Working(op)
    ensures FilesInv(cfg, Effected(c, m, op.Call(), Stepped(cfg, c.res, m.local, m.task.Caps(), op, o)))
  {
    if !AtWork(c.res.stray) {
      QuietAfter(cfg, c.res, m.local, m.task.Caps(), op, o);
    }
    LogSteps(cfg, c.res, m.local, m.task.Caps(), op, o);
    if !op.InPrepare? {
      OthersLeaveFiles(cfg, c.res, m.local, m.task.Caps(), op, o);
    } else {
      NoStartToCome(c, m);
      if Undisturbed(c.life) {
        FilesOfPrepare(cfg, c.res, m.local, m.task.Caps(), op.prepare, o, c.life.leftovers);
      }
    }
    FilesEffected(cfg, c, m, op.Call(), Stepped(cfg, c.res, m.local, m.task.Caps(), op, o));
  }

  lemma FilesRemoved(cfg: Config, c: Cell, m: Manager, pc: RemovePc, o: Outcome)
    requires Control(c) && FilesInv(cfg, c) && c.manager == Some(m) && m.pc == Removing(pc)
    ensures FilesInv(cfg, Removed(cfg, c, m, pc, o))
  {
  }

  lemma FilesPersisted(cfg: Config, c: Cell, m: Manager, retry: bool, ok: bool)
    requires FilesInv(cfg, c) && c.manager == Some(m) && m.pc == Persist(retry)
    ensures FilesInv(cfg, Persisted(c, m, retry, ok))
  {
  }

  lemma FilesTicked(cfg: Config, c: Cell, m: Manager, o: Outcome)
    requires cfg.Valid() && Control(c) && JailInv(c) && StartInv(c) && FilesInv(cfg, c)
    requires c.manager == Some(m) && !m.pc.Park?
    ensures FilesInv(cfg, Ticked(cfg, c, m, o))
  {
    match m.pc
    case Begin => FilesDispatched(cfg, c, m);
    case Working(op) => FilesWorked(cfg, c, m, op, o);
    case Persist(retry) => FilesPersisted(cfg, c, m, retry, o.Okay?);
    case Report(retry) =>
    case Backoff =>
    case Removing(pc) => FilesRemoved(cfg, c, m, pc, o);
  }

  /** Cutting a leftover writer can spoil a file; that is on record. */
  lemma CutKeeps(res: Resources, more: set<Path>, leftovers: bool, batch: seq<Write>, n: nat)
    requires Done(res.files, res.spoiled, leftovers, batch, n) && (more != {} ==> leftovers)
    ensures Done(res.files, res.spoiled + more, leftovers, batch, n)
  {
    forall i | 0 <= i < n ensures Kept(res.files, res.spoiled + more, leftovers, batch[i].path) {
      assert Kept(res.files, res.spoiled, leftovers, batch[i].path);
    }
  }

  lemma StrayKeeps(res: Resources, i: nat, ok: bool, leftovers: bool, batch: seq<Write>, n: nat)
    requires i < |res.stray| && res.stray[i].Running() && leftovers
    requires Done(res.files, res.spoiled, leftovers, batch, n)
    ensures var after := StrayMoved(res, i, ok); Done(after.files, after.spoiled, leftovers, batch, n)
  {
    if ok {
      StepKeeps(res.files, res.spoiled, leftovers, res.stray[i], batch, n);
    } else {
      CutKeeps(res, Cut(res.stray[i]), leftovers, batch, n);
    }
  }

  lemma FilesStray(cfg: Config, c: Cell, i: nat, ok: bool)
    requires FilesInv(cfg, c) && Enabled(c, StrayStep(i, ok))
    ensures FilesInv(cfg, c.(res := StrayMoved(c.res, i, ok)))
  {
    var left := c.life.leftovers;
    if c.disk.Some? {
      assert left;
      forall batch, n: nat | Done(c.res.files, c.res.spoiled, left, batch, n)
        ensures var after := StrayMoved(c.res, i, ok); Done(after.files, after.spoiled, left, batch, n)
      {
        StrayKeeps(c.res, i, ok, left, batch, n);
      }
    }
  }

  lemma FilesCrashed(cfg: Config, c: Cell)
    requires Control(c) && StartInv(c) && FilesInv(cfg, c)
    ensures FilesInv(cfg, Crashed(c))
  {
    if c.disk.Some? && c.manager.Some? && c.manager.value.pc.Working? && c.manager.value.pc.op.InPrepare? {
      NoStartToCome(c, c.manager.value);
    }
  }

  lemma FilesDropped(cfg: Config, c: Cell, m: Manager)
    requires Control(c) && FilesInv(cfg, c) && c.manager == Some(m) && m.pc.Interruptible()
    ensures FilesInv(cfg, Dropped(c, m))
  {
    var writers := if m.pc.Working? then WriterOf(m.pc.op) else [];
    MoreAtWork(c.res.stray, writers);
    StartableWeakens(cfg, c.res, Dropped(c, m).res, c.life.leftovers, c.life.leftovers || AtWork(writers));
  }

  lemma FilesObeyed(cfg: Config, c: Cell, m: Manager)
    requires FilesInv(cfg, c) && c.manager == Some(m) && m.queue != [] && m.pc.Begin?
    ensures FilesInv(cfg, Obeyed(c, m))
  {
  }

  lemma FilesCommanded(cfg: Config, c: Cell, m: Manager)
    requires Control(c) && FilesInv(cfg, c) && c.manager == Some(m) && m.queue != [] && m.pc.Interruptible()
    ensures FilesInv(cfg, Commanded(c, m))
  {
    FilesDropped(cfg, c, m);
    FilesObeyed(cfg, Dropped(c, m), m.(pc := Begin));
  }

  lemma Remounted(cfg: Config, res: Resources, left: bool, x: Writer)
    requires cfg.Valid() && x.batch == cfg.configs && Under(res.files, res.spoiled, left, x)
    ensures Under(Wiped(res, cfg.SecretPaths()).files, res.spoiled, left, x)
  {
    var after := Wiped(res, cfg.SecretPaths());
    forall i | 0 <= i < |cfg.configs| && Kept(res.files, res.spoiled, left, cfg.configs[i].path)
      ensures Kept(after.files, res.spoiled, left, cfg.configs[i].path)
    {
      assert cfg.configs[i] in cfg.configs;
    }
  }

  /** A create that lands during `prepare` leaves the configs it has written. */
  lemma SeenCreated(cfg: Config, res: Resources, left: bool, op: OpPc)
    requires cfg.Valid() && res.jail.Absent? && JailSeen(res.jail, op) && FilesSeen(cfg, res, left, op)
    ensures FilesSeen(cfg, JailCreated(cfg, res), left, op)
  {
    if op.InPrepare? {
      match op.prepare
      case PConfigs(x) => Remounted(cfg, res, left, x);
      case PCreate => FreshTmpfs(cfg, res, left);
      case _ =>
    }
  }

  /** A jail appears late only where none was prepared, or the life is overrun. */
  lemma FilesCreated(cfg: Config, c: Cell)
    requires cfg.Valid() && JailInv(c) && FilesInv(cfg, c) && c.res.orphans.Has(JailCreate) && c.res.jail.Absent?
    ensures FilesInv(cfg, OrphanLanded(cfg, c, JailCreate))
  {
    var left := c.res.(orphans := c.res.orphans.Without(JailCreate));
    assert OrphanLanded(cfg, c, JailCreate).res == JailCreated(cfg, left);
    assert !AtWork(c.res.stray) ==> !AtWork(JailCreated(cfg, left).stray);
    if c.disk.Some? && Undisturbed(c.life) && c.manager.Some? && c.manager.value.pc.Working? {
      SeenCreated(cfg, left, c.life.leftovers, c.manager.value.pc.op);
    }
  }

  /** Nothing else that lands touches files or creates a jail. */
  lemma LandsElsewhere(cfg: Config, res: Resources, x: Orphan)
    requires res.orphans.Has(x) && !(x.JailCreate? && res.jail.Absent?)
    ensures var after := Landed(cfg, res, x);
            && after.files == res.files && after.stray == res.stray && after.spoiled == res.spoiled && after.bare == res.bare
            && (after.jail.Created? ==> res.jail.Created?) && after.orphans.starts <= res.orphans.starts
  {
  }

  lemma FilesAlike(cfg: Config, c: Cell, c': Cell)
    requires FilesInv(cfg, c) && c'.disk == c.disk && c'.manager == c.manager
    requires c'.life == c.life.(inherited := c'.life.inherited, lateRule := c'.life.lateRule, overrun := c'.life.overrun)
    requires c.life.overrun ==> c'.life.overrun
    requires var res, after := c.res, c'.res;
             && after.files == res.files && after.stray == res.stray && after.spoiled == res.spoiled && after.bare == res.bare
             && (after.jail.Created? ==> res.jail.Created?) && after.orphans.starts <= res.orphans.starts
    ensures FilesInv(cfg, c')
  {
  }

  lemma FilesLanded(cfg: Config, c: Cell, x: Orphan)
    requires cfg.Valid() && JailInv(c) && FilesInv(cfg, c) && c.res.orphans.Has(x)
    ensures FilesInv(cfg, OrphanLanded(cfg, c, x))
  {
    if x.JailCreate? && c.res.jail.Absent? {
      FilesCreated(cfg, c);
    } else {
      LandsElsewhere(cfg, c.res, x);
      FilesAlike(cfg, c, OrphanLanded(cfg, c, x));
    }
  }

  lemma FilesLost(cfg: Config, c: Cell, x: Orphan)
    requires FilesInv(cfg, c) && c.res.orphans.Has(x)
    ensures FilesInv(cfg, OrphanLost(c, x))
  {
  }

  lemma StartableWeakens(cfg: Config, res: Resources, after: Resources, left: bool, left': bool)
    requires after == res.(stray := after.stray, orphans := after.orphans) && (left ==> left')
    ensures Startable(cfg, res, left) ==> Startable(cfg, after, left')
  {
  }

  lemma MoreAtWork(a: seq<Writer>, b: seq<Writer>)
    ensures AtWork(a + b) <==> AtWork(a) || AtWork(b)
  {
    if i :| 0 <= i < |a| && a[i].Running() {
      assert (a + b)[i].Running();
    }
    if i :| 0 <= i < |b| && b[i].Running() {
      assert (a + b)[|a| + i].Running();
    }
  }

  lemma FilesApplied(cfg: Config, c: Cell, task: TaskDef, seed: TaskState)
    requires Control(c) && FilesInv(cfg, c) && Enabled(c, Assign(task, seed, true))
    ensures FilesInv(cfg, Applied(c, task, seed))
  {
  }

  lemma FilesInitialized(cfg: Config, c: Cell, listed: bool, query: bool)
    requires Control(c) && FilesInv(cfg, c) && !c.up
    ensures FilesInv(cfg, Initialized(c, listed, query))
  {
  }

  lemma FilesUnassigned(cfg: Config, c: Cell)
    requires FilesInv(cfg, c)
    ensures FilesInv(cfg, Unassigned(c))
  {
  }

  lemma FilesKept(cfg: Config, c: Cell, e: Event)
    requires cfg.Valid() && Control(c) && JailInv(c) && StartInv(c) && FilesInv(cfg, c) && Enabled(c, e)
    ensures FilesInv(cfg, Next(cfg, c, e))
  {
    match e
    case Assign(task, seed, ok) => if ok { FilesApplied(cfg, c, task, seed); }
    case Unassign => FilesUnassigned(cfg, c);
    case CloseDown =>
    case Crash => FilesCrashed(cfg, c);
    case Init(read, listed, query) => if read { FilesInitialized(cfg, c, listed, query); }
    case Interrupt => FilesCommanded(cfg, c, c.manager.value);
    case Tick(o) => FilesTicked(cfg, c, c.manager.value, o);
    case ContainerExits =>
    case Probe(result) =>
    case StrayStep(i, ok) => FilesStray(cfg, c, i, ok);
    case OrphanEnds(x, ok) => if ok { FilesLanded(cfg, c, x); } else { FilesLost(cfg, c, x); }
  }
}
