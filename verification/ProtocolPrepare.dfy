/** A `prepare` that nothing goes wrong with: after exactly as many steps as its
    work takes the task is READY, with a created container, its payloads in place,
    and the rules of its limits. */
module ProtocolPrepare {
  import opened TaskStates
  import opened Controller
  import opened PayloadWriters
  import opened Protocol
  import opened ProtocolControl
  import opened ProtocolProgress
  import opened ProtocolResume
  import D = DoStep

  ghost predicate AllFine(os: seq<Outcome>) { forall i :: 0 <= i < |os| ==> os[i].Okay? }

  /** The same operations in two stretches. */
  lemma {:induction false} OnsSplit(cfg: Config, c: Cell, os: seq<Outcome>, n: nat)
    requires n <= |os|
    ensures Ons(cfg, c, os) == Ons(cfg, Ons(cfg, c, os[..n]), os[n..])
    decreases n
  {
    if n == 0 {
      assert os[..0] == [] && os[0..] == os;
    } else if c.manager.Some? && !c.manager.value.pc.Park? {
      OnsSplit(cfg, On(cfg, c, os[0]), os[1..], n - 1);
      assert os[..n][0] == os[0] && os[..n][1..] == os[1..][..n - 1] && os[1..][n - 1..] == os[n..];
    }
  }

  lemma OneOn(cfg: Config, c: Cell, os: seq<Outcome>)
    requires |os| == 1 && c.manager.Some? && !c.manager.value.pc.Park?
    ensures Ons(cfg, c, os) == On(cfg, c, os[0])
  {
    assert os[1..] == [];
  }

  // ---- Writing payloads ----------------------------------------------------

  /** The await with its writer as far as `x`. */
  function WithWriter(pc: PreparePc, x: Writer): PreparePc
  {
    match pc
    case PConfigs(_) => PConfigs(x)
    case PSecrets(_) => PSecrets(x)
    case RConfigs(_) => RConfigs(x)
    case RSecrets(_) => RSecrets(x)
    case _ => pc
  }

  function AtAwait(m: Manager, pc: PreparePc): Manager { m.(pc := Working(InPrepare(pc))) }

  lemma WritesOneStep(cfg: Config, c: Cell, m: Manager, pc: PreparePc, x: Writer, o: Outcome)
    requires c.manager == Some(m) && m.pc == Working(InPrepare(pc)) && WriterOf(InPrepare(pc)) == [x]
    requires x.Running() && o.Okay?
    ensures On(cfg, c, o) == c.(manager := Some(AtAwait(m, WithWriter(pc, x.Moved()))),
                                res := c.res.(files := FilesAfter(x, c.res.files), spoiled := SpoiledAfter(x, c.res.spoiled)))
  {
  }

  lemma WriterMoves(pc: PreparePc, x: Writer, y: Writer, z: Writer)
    requires WriterOf(InPrepare(pc)) == [x]
    ensures WriterOf(InPrepare(WithWriter(pc, y))) == [y] && WithWriter(WithWriter(pc, y), z) == WithWriter(pc, z)
    ensures WithWriter(pc, x) == pc
  {
  }

  lemma FirstOn(cfg: Config, c: Cell, os: seq<Outcome>)
    requires os != [] && c.manager.Some? && !c.manager.value.pc.Park?
    ensures Ons(cfg, c, os) == Ons(cfg, On(cfg, c, os[0]), os[1..])
  {
  }

  /** All that a writer has still to do. */
  lemma {:induction false} WritesOn(cfg: Config, c: Cell, m: Manager, pc: PreparePc, x: Writer, os: seq<Outcome>) returns (y: Writer)
    requires c.manager == Some(m) && m.pc == Working(InPrepare(pc)) && WriterOf(InPrepare(pc)) == [x]
    requires InFile(x) && AllFine(os) && |os| == Toil(x)
    ensures !y.Running()
    ensures var c' := Ons(cfg, c, os);
            c' == c.(manager := Some(AtAwait(m, WithWriter(pc, y))),
                     res := c.res.(files := Finished(x, c.res.files), spoiled := c'.res.spoiled))
    decreases |os|
  {
    y := x;
    if x.Running() {
      ToilFalls(x);
      WritesOneStep(cfg, c, m, pc, x, os[0]);
      FirstOn(cfg, c, os);
      var m1 := AtAwait(m, WithWriter(pc, x.Moved()));
      var c1 := c.(manager := Some(m1),
                   res := c.res.(files := FilesAfter(x, c.res.files), spoiled := SpoiledAfter(x, c.res.spoiled)));
      WriterMoves(pc, x, x.Moved(), x);
      y := WritesOn(cfg, c1, m1, WithWriter(pc, x.Moved()), x.Moved(), os[1..]);
      WriterMoves(pc, x, x.Moved(), y);
    } else {
      WriterMoves(pc, x, x, x);
    }
  }

  /** A whole batch, from a new writer to the await after it. */
  lemma WritesBatch(cfg: Config, c: Cell, m: Manager, pc: PreparePc, batch: seq<Write>, os: seq<Outcome>) returns (y: Writer)
    requires c.manager == Some(m) && m.pc == Working(InPrepare(pc)) && WriterOf(InPrepare(pc)) == [Writer(batch, FRONT)]
    requires AllFine(os) && |os| == Effort(batch)
    ensures !y.Running()
    ensures var c' := Ons(cfg, c, os);
            c' == c.(manager := Some(AtAwait(m, WithWriter(pc, y))),
                     res := c.res.(files := Filled(c.res.files, batch), spoiled := c'.res.spoiled))
  {
    var x := Writer(batch, FRONT);
    assert batch[0..] == batch;
    FinishedFills(x, c.res.files);
    y := WritesOn(cfg, c, m, pc, x, os);
  }

  // ---- A new container -----------------------------------------------------

  /** From the look at the runtime to the configs. */
  lemma Layers(cfg: Config, c: Cell, m: Manager, os: seq<Outcome>)
    requires c.manager == Some(m) && m.pc == Working(InPrepare(PAdopt)) && c.res.jail.Absent?
    requires AllFine(os) && |os| == 3
    ensures Ons(cfg, c, os) == c.(res := c.res.(rootfs := true), manager := Some(
              AtAwait(m.(local := m.local.(rootfs := true)), PConfigs(Writer(cfg.configs, FRONT)))))
  {
    var c1 := On(cfg, c, os[0]);
    assert c1 == c.(manager := Some(AtAwait(m, PResolve)));
    var c2 := On(cfg, c1, os[1]);
    assert c2 == c.(manager := Some(AtAwait(m, PLayers)));
    TwoOns(cfg, c, os);
    OneOn(cfg, c2, os[2..]);
  }

  /** From the last config to the new jail, which hides the secrets' files. */
  lemma Creates(cfg: Config, c: Cell, m: Manager, y: Writer, os: seq<Outcome>)
    requires c.manager == Some(m) && m.pc == Working(InPrepare(PConfigs(y))) && !y.Running() && c.res.jail.Absent?
    requires AllFine(os) && |os| == 2
    ensures var c' := Ons(cfg, c, os);
            c' == c.(res := c.res.(jail := Created, bare := false, log := c.res.log + [DidCreate], stray := c'.res.stray,
                                   files := c.res.files - cfg.SecretPaths()),
                     manager := Some(AtAwait(m.(local := m.local.(pid := true, watch := true)),
                                             PSecrets(Writer(cfg.secrets, FRONT)))))
  {
    var c1 := On(cfg, c, os[0]);
    assert c1 == c.(manager := Some(AtAwait(m, PCreate)));
    TwoOns(cfg, c, os);
    assert os[2..] == [];
  }

  /** From the last secret through both rules to READY. */
  lemma LimitsAndReady(cfg: Config, c: Cell, m: Manager, y: Writer, os: seq<Outcome>)
    requires Homed(m.status, m.task.desired, D.CallPrepare)
    requires c.manager == Some(m) && m.pc == Working(InPrepare(PSecrets(y))) && !y.Running()
    requires AllFine(os) && |os| == 3
    ensures Ons(cfg, c, os) == c.(res := c.res.(rules := WithLimits(cfg, c.res.rules, m.task.Caps())), manager := Some(
              m.(status := TaskState.Ready, pc := Persist(false))))
  {
    MemoryIsLimited(cfg, c, m, y, os[0], os[1]);
    var c2 := On(cfg, On(cfg, c, os[0]), os[1]);
    TwoOns(cfg, c, os);
    OneOn(cfg, c2, os[2..]);
    CpuIsLimited(cfg, c2, c2.manager.value, os[2]);
    LimitsAdd(cfg, c.res.rules, m.task.Caps());
  }

  lemma MemoryIsLimited(cfg: Config, c: Cell, m: Manager, y: Writer, o: Outcome, o': Outcome)
    requires c.manager == Some(m) && m.pc == Working(InPrepare(PSecrets(y))) && !y.Running() && o.Okay? && o'.Okay?
    ensures var c1 := On(cfg, c, o);
            && c1 == c.(manager := Some(AtAwait(m, PMemory)))
            && On(cfg, c1, o') == c.(res := c.res.(rules := c.res.rules.Plus(MemoryRules(cfg, m.task.Caps()))),
                                     manager := Some(AtAwait(m, PCpu)))
  {
  }

  lemma CpuIsLimited(cfg: Config, c: Cell, m: Manager, o: Outcome)
    requires Homed(m.status, m.task.desired, D.CallPrepare)
    requires c.manager == Some(m) && m.pc == Working(InPrepare(PCpu)) && o.Okay?
    ensures On(cfg, c, o) == c.(res := c.res.(rules := c.res.rules.Plus(CpuRules(cfg, m.task.Caps()))), manager := Some(
              m.(status := TaskState.Ready, pc := Persist(false))))
  {
    AnswersEnd(c, m, D.CallPrepare, PrepareTick(cfg, c.res, m.local, m.task.Caps(), PCpu, o));
  }

  lemma LimitsAdd(cfg: Config, rules: Rules, limits: Limits)
    ensures rules.Plus(MemoryRules(cfg, limits)).Plus(CpuRules(cfg, limits)) == WithLimits(cfg, rules, limits)
  {
  }

  /** One more rule of each kind that is limited, with racct on. */
  function WithLimits(cfg: Config, rules: Rules, limits: Limits): Rules
  {
    Rules(if cfg.racct && limits.memory > 0 then rules.memory + [limits.memory] else rules.memory,
          if cfg.racct && limits.nanoCpus > 0 then rules.cpu + [Percent(limits.nanoCpus)] else rules.cpu)
  }

  function PrepareSteps(cfg: Config): nat { 3 + Effort(cfg.configs) + 2 + Effort(cfg.secrets) + 3 }

  /** A `prepare` without a container, undisturbed and without an error. */
  lemma PrepareSucceeds(cfg: Config, c: Cell, m: Manager, os: seq<Outcome>)
    requires cfg.Valid() && Control(c) && c.manager == Some(m) && m.pc == Working(InPrepare(PAdopt)) && c.res.jail.Absent?
    requires AllFine(os) && |os| == PrepareSteps(cfg)
    ensures var c' := Ons(cfg, c, os);
            && c'.disk == c.disk && c'.life == c.life && c'.up == c.up
            && c'.manager == Some(m.(status := TaskState.Ready, pc := Persist(false),
                                     local := m.local.(rootfs := true, pid := true, watch := true)))
            && c'.res.jail == Created && c'.res.rootfs && !c'.res.bare && c'.res.log == c.res.log + [DidCreate]
            && c'.res.rules == WithLimits(cfg, c.res.rules, m.task.Caps())
            && c'.res.files == Filled(Filled(c.res.files, cfg.configs) - cfg.SecretPaths(), cfg.secrets)
            && (forall w | Planned(cfg, w) :: Holds(c'.res.files, w))
  {
    var n := 3 + Effort(cfg.configs) + 2;
    OnsSplit(cfg, c, os, n);
    Makes(cfg, c, m, os[..n]);
    var c1 := Ons(cfg, c, os[..n]);
    Furnishes(cfg, c1, c1.manager.value, os[n..]);
    AllInPlace(cfg, c.res.files);
  }

  /** From the look at the runtime to the new jail, with the configs in place. */
  lemma Makes(cfg: Config, c: Cell, m: Manager, os: seq<Outcome>)
    requires c.manager == Some(m) && m.pc == Working(InPrepare(PAdopt)) && c.res.jail.Absent?
    requires AllFine(os) && |os| == 3 + Effort(cfg.configs) + 2
    ensures var c' := Ons(cfg, c, os);
            c' == c.(res := c.res.(jail := Created, rootfs := true, bare := false, log := c.res.log + [DidCreate],
                                   stray := c'.res.stray, spoiled := c'.res.spoiled,
                                   files := Filled(c.res.files, cfg.configs) - cfg.SecretPaths()),
                     manager := Some(AtAwait(m.(local := m.local.(rootfs := true, pid := true, watch := true)),
                                             PSecrets(Writer(cfg.secrets, FRONT)))))
  {
    var n := 3 + Effort(cfg.configs);
    OnsSplit(cfg, c, os, n);
    OnsSplit(cfg, c, os[..n], 3);
    assert os[..n][..3] == os[..3];
    Layers(cfg, c, m, os[..3]);
    var c1 := Ons(cfg, c, os[..3]);
    var y := WritesBatch(cfg, c1, c1.manager.value, PConfigs(Writer(cfg.configs, FRONT)), cfg.configs, os[..n][3..]);
    var c2 := Ons(cfg, c, os[..n]);
    Creates(cfg, c2, c2.manager.value, y, os[n..]);
  }

  /** From there to READY. */
  lemma Furnishes(cfg: Config, c: Cell, m: Manager, os: seq<Outcome>)
    requires Homed(m.status, m.task.desired, D.CallPrepare)
    requires c.manager == Some(m) && m.pc == Working(InPrepare(PSecrets(Writer(cfg.secrets, FRONT))))
    requires AllFine(os) && |os| == Effort(cfg.secrets) + 3
    ensures var c' := Ons(cfg, c, os);
            c' == c.(res := c.res.(rules := WithLimits(cfg, c.res.rules, m.task.Caps()), spoiled := c'.res.spoiled,
                                   files := Filled(c.res.files, cfg.secrets)),
                     manager := Some(m.(status := TaskState.Ready, pc := Persist(false))))
  {
    var n := Effort(cfg.secrets);
    OnsSplit(cfg, c, os, n);
    var y := WritesBatch(cfg, c, m, PSecrets(Writer(cfg.secrets, FRONT)), cfg.secrets, os[..n]);
    var c1 := Ons(cfg, c, os[..n]);
    LimitsAndReady(cfg, c1, c1.manager.value, y, os[n..]);
  }

  lemma AllInPlace(cfg: Config, files: map<Path, Bytes>)
    requires cfg.Valid()
    ensures var after := Filled(Filled(files, cfg.configs) - cfg.SecretPaths(), cfg.secrets);
            forall w | Planned(cfg, w) :: Holds(after, w)
  {
    FilledHolds(files, cfg.configs);
    SecretsOnTop(cfg, Filled(files, cfg.configs) - cfg.SecretPaths());
  }

  // ---- A container that is there -------------------------------------------

  /** A container that was started, or that has no payloads, is adopted as it is. */
  lemma AdoptsAsItIs(cfg: Config, c: Cell, m: Manager, o: Outcome)
    requires Control(c) && c.manager == Some(m) && m.pc == Working(InPrepare(PAdopt)) && o.Okay?
    requires c.res.jail.Live? || c.res.jail.Stopped? || (c.res.jail.Created? && cfg.configs == [] && cfg.secrets == [])
    ensures var c' := On(cfg, c, o);
            && c' == c.(res := c.res.(bare := false), manager := c'.manager) && c'.manager.Some?
            && c'.manager.value == m.(status := TaskState.Ready, pc := Persist(false), local := c'.manager.value.local)
            && var process := c.res.jail.Created? || c.res.jail.Live?;
            && c'.manager.value.local == m.local.(
                 pid := m.local.pid || process, watch := m.local.watch || process, rootfs := m.local.rootfs || c.res.rootfs)
  {
    AnswersEnd(c, m, D.CallPrepare, Adopted(cfg, c.res, m.local));
  }

  function RewriteSteps(cfg: Config): nat { 2 + Effort(cfg.configs) + 1 + Effort(cfg.secrets) + 1 }

  /** A created container with its rootfs gets all its payloads written again, and
      nothing else is done to it. */
  lemma RewriteSucceeds(cfg: Config, c: Cell, m: Manager, os: seq<Outcome>)
    requires cfg.Valid() && Control(c) && c.manager == Some(m) && m.pc == Working(InPrepare(PAdopt))
    requires c.res.jail.Created? && c.res.rootfs && (cfg.configs != [] || cfg.secrets != [])
    requires AllFine(os) && |os| == RewriteSteps(cfg)
    ensures var c' := Ons(cfg, c, os);
            && c'.manager == Some(m.(status := TaskState.Ready, pc := Persist(false),
                                     local := m.local.(rootfs := true, pid := true, watch := true)))
            && c' == c.(manager := c'.manager, res := c.res.(bare := false, spoiled := c'.res.spoiled,
                        files := Filled(Filled(c.res.files, cfg.configs), cfg.secrets)))
            && (forall w | Planned(cfg, w) :: Holds(c'.res.files, w))
  {
    var n := 2 + Effort(cfg.configs);
    OnsSplit(cfg, c, os, n);
    var y := ConfigsAgain(cfg, c, m, os[..n]);
    var c2 := Ons(cfg, c, os[..n]);
    SecretsAgain(cfg, c2, c2.manager.value, y, os[n..]);
    RewrittenHold(cfg, c.res.files);
  }

  lemma ConfigsAgain(cfg: Config, c: Cell, m: Manager, os: seq<Outcome>) returns (y: Writer)
    requires c.manager == Some(m) && m.pc == Working(InPrepare(PAdopt))
    requires c.res.jail.Created? && c.res.rootfs && (cfg.configs != [] || cfg.secrets != [])
    requires AllFine(os) && |os| == 2 + Effort(cfg.configs)
    ensures !y.Running()
    ensures var c' := Ons(cfg, c, os);
            c' == c.(res := c.res.(bare := false, spoiled := c'.res.spoiled, files := Filled(c.res.files, cfg.configs)),
                     manager := Some(AtAwait(m.(local := m.local.(rootfs := true, pid := true, watch := true)), RConfigs(y))))
  {
    OnsSplit(cfg, c, os, 2);
    LooksAgain(cfg, c, m, os[..2]);
    var c1 := Ons(cfg, c, os[..2]);
    y := WritesBatch(cfg, c1, c1.manager.value, RConfigs(Writer(cfg.configs, FRONT)), cfg.configs, os[2..]);
  }

  lemma LooksAgain(cfg: Config, c: Cell, m: Manager, os: seq<Outcome>)
    requires c.manager == Some(m) && m.pc == Working(InPrepare(PAdopt)) && AllFine(os) && |os| == 2
    requires c.res.jail.Created? && c.res.rootfs && (cfg.configs != [] || cfg.secrets != [])
    ensures Ons(cfg, c, os) == c.(res := c.res.(bare := false), manager := Some(
              AtAwait(m.(local := m.local.(rootfs := true, pid := true, watch := true)), RConfigs(Writer(cfg.configs, FRONT)))))
  {
    var c1 := On(cfg, c, os[0]);
    assert c1 == c.(res := c.res.(bare := false), manager := Some(
                   AtAwait(m.(local := m.local.(rootfs := true, pid := true, watch := true)), RResolve)));
    TwoOns(cfg, c, os);
    assert os[2..] == [];
  }

  lemma SecretsAgain(cfg: Config, c: Cell, m: Manager, y: Writer, os: seq<Outcome>)
    requires Homed(m.status, m.task.desired, D.CallPrepare)
    requires c.manager == Some(m) && m.pc == Working(InPrepare(RConfigs(y))) && !y.Running()
    requires AllFine(os) && |os| == 1 + Effort(cfg.secrets) + 1
    ensures var c' := Ons(cfg, c, os);
            c' == c.(res := c.res.(spoiled := c'.res.spoiled, files := Filled(c.res.files, cfg.secrets)),
                     manager := Some(m.(status := TaskState.Ready, pc := Persist(false))))
  {
    TurnsToSecrets(cfg, c, m, y, os[0]);
    var c1 := On(cfg, c, os[0]);
    assert Ons(cfg, c, os) == Ons(cfg, c1, os[1..]);
    LastSecrets(cfg, c1, c1.manager.value, os[1..]);
  }

  lemma TurnsToSecrets(cfg: Config, c: Cell, m: Manager, y: Writer, o: Outcome)
    requires c.manager == Some(m) && m.pc == Working(InPrepare(RConfigs(y))) && !y.Running() && o.Okay?
    ensures On(cfg, c, o) == c.(manager := Some(AtAwait(m, RSecrets(Writer(cfg.secrets, FRONT)))))
  {
  }

  lemma LastSecrets(cfg: Config, c: Cell, m: Manager, os: seq<Outcome>)
    requires Homed(m.status, m.task.desired, D.CallPrepare)
    requires c.manager == Some(m) && m.pc == Working(InPrepare(RSecrets(Writer(cfg.secrets, FRONT))))
    requires AllFine(os) && |os| == Effort(cfg.secrets) + 1
    ensures var c' := Ons(cfg, c, os);
            c' == c.(res := c.res.(spoiled := c'.res.spoiled, files := Filled(c.res.files, cfg.secrets)),
                     manager := Some(m.(status := TaskState.Ready, pc := Persist(false))))
  {
    var n := Effort(cfg.secrets);
    OnsSplit(cfg, c, os, n);
    var z := WritesBatch(cfg, c, m, RSecrets(Writer(cfg.secrets, FRONT)), cfg.secrets, os[..n]);
    var c2 := Ons(cfg, c, os[..n]);
    OneOn(cfg, c2, os[n..]);
    Concludes(cfg, c2, c2.manager.value, z, os[n]);
  }

  lemma Concludes(cfg: Config, c: Cell, m: Manager, z: Writer, o: Outcome)
    requires Homed(m.status, m.task.desired, D.CallPrepare)
    requires c.manager == Some(m) && m.pc == Working(InPrepare(RSecrets(z))) && !z.Running() && o.Okay?
    ensures On(cfg, c, o) == c.(manager := Some(m.(status := TaskState.Ready, pc := Persist(false))))
  {
    AnswersEnd(c, m, D.CallPrepare, PrepareTick(cfg, c.res, m.local, m.task.Caps(), RSecrets(z), o));
  }

  lemma RewrittenHold(cfg: Config, files: map<Path, Bytes>)
    requires cfg.Valid()
    ensures var after := Filled(Filled(files, cfg.configs), cfg.secrets); forall w | Planned(cfg, w) :: Holds(after, w)
  {
    FilledHolds(files, cfg.configs);
    SecretsOnTop(cfg, Filled(files, cfg.configs));
  }

  /** Writing the secrets leaves the configs alone. */
  lemma SecretsOnTop(cfg: Config, files: map<Path, Bytes>)
    requires cfg.Valid() && forall w | w in cfg.configs :: Holds(files, w)
    ensures forall w | Planned(cfg, w) :: Holds(Filled(files, cfg.secrets), w)
  {
    FilledHolds(files, cfg.secrets);
    forall w | Planned(cfg, w) ensures Holds(Filled(files, cfg.secrets), w) {
      if w !in cfg.secrets {
        FilledElsewhere(files, cfg.secrets, w.path);
      }
    }
  }

  // ---- A start ---------------------------------------------------------------

  /** A created container is released and its start time noted. */
  lemma Releases(cfg: Config, c: Cell, m: Manager, os: seq<Outcome>)
    requires Control(c) && c.manager == Some(m) && m.pc == Working(InStart(SAttach))
    requires c.res.jail.Created? && AllFine(os) && |os| == 3
    ensures var c' := Ons(cfg, c, os);
            && c' == c.(res := c.res.(jail := Live, log := c.res.log + [DidStart]), manager := Some(
                 m.(pc := Working(InStart(SRelook)), local := m.local.(startedAt := Some(os[2].now)))))
            && Control(c')
  {
    StartLooks(cfg, c, m, os[0].now, os[1].now);
    TwoOns(cfg, c, os);
    var c2 := On(cfg, On(cfg, c, os[0]), os[1]);
    StartReleases(cfg, c2, c2.manager.value, os[2].now);
    OneOn(cfg, c2, os[2..]);
  }
}
