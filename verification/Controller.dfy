/** The per-task controller (`satl-agent/src/controller.rs`) against an
    abstract runtime: `prepare`, `start`, `wait`, `shutdown` and `remove` cut at
    every `await`.

    A step of an operation runs from one await to the next and yields an
    `Effect`: the node's resources and the controller's own memory afterwards,
    and either the next await or the operation's reply.  Between two steps a
    caller may drop the operation, the container may exit, the daemon may die, a
    payload writer left behind by a dropped step may go on writing, and an
    external command left behind may take effect. */
module Controller {
  import opened TaskStates
  import D = DoStep
  import H = Health
  import ByteStrings

  // ---- What does not change during a record's life -------------------------

  type Path = seq<string>
  type Bytes = ByteStrings.Bytes

  /** One payload file: its planned path and the bytes of the secret or config
      its reference names. */
  datatype Write = Write(path: Path, data: Bytes)

  datatype Config = Config(
    configs: seq<Write>,
    secrets: seq<Write>,
    probe: Option<H.ProbeSettings>,
    racct: bool
  ) {
    /** No two planned files share a path, within a kind or across kinds. */
    ghost predicate Valid()
    {
      && (forall v, w | v in configs && w in configs :: v.path == w.path ==> v == w)
      && (forall v, w | v in secrets && w in secrets :: v.path == w.path ==> v == w)
      && (forall v, w | v in configs && w in secrets :: v.path != w.path)
      && (probe.Some? ==> probe.value.Valid())
    }

    function SecretPaths(): set<Path> { set w | w in secrets :: w.path }

    function ConfigPaths(): set<Path> { set w | w in configs :: w.path }
  }

  datatype Limits = Limits(memory: int, nanoCpus: int)

  // ---- The node's resources for this task ----------------------------------

  datatype Jail = Absent | Created | Live | Stopped {
    /** Whether ocijail knows a process id for it. */
    predicate HasPid() { Created? || Live? }
  }

  /** The rctl rules that name this jail, per resource; `rctl -a` stacks. */
  datatype Rules = Rules(memory: seq<int>, cpu: seq<int>) {
    function Plus(more: Rules): Rules { Rules(memory + more.memory, cpu + more.cpu) }
  }

  const NoRules := Rules([], [])

  /** A runtime command that took effect. */
  datatype JailOp = DidCreate | DidStart | DidDelete

  datatype Resources = Resources(
    jail: Jail,
    rootfs: bool,               // the container's dataset exists
    bare: bool,                 // the created container was adopted without its rootfs and payloads
    files: map<Path, Bytes>,
    stray: seq<Writer>,         // blocking writers whose step was dropped
    spoiled: set<Path>,         // files whose last writer was cut short while it had them open
    rules: Rules,
    rulesLeft: bool,            // some removal's `rctl -r` has failed
    rulesLate: bool,            // some overtaken `rctl -a` has taken effect
    orphans: Orphans,
    log: seq<JailOp>            // every runtime command that took effect, in order
  )

  const NoResources := Resources(Absent, false, false, map[], [], {}, NoRules, false, false, NoOrphans, [])

  // ---- Commands left running -----------------------------------------------

  /** External commands that still run although the step that awaits them was
      dropped or its daemon has died: the runners of ocijail, rctl and zfs do not
      kill their child on drop.  An `rctl -a` is overtaken once an `rctl -r` issued after it
      has taken effect, or a new record of the task has begun; an `ocijail start` is
      old once a new record has begun. */
  datatype Orphans = Orphans(
    adds: Rules, overtaken: Rules, clears: nat, creates: nat, starts: nat, oldStarts: nat, clones: nat)
  {
    function Overtake(): Orphans { this.(adds := NoRules, overtaken := overtaken.Plus(adds)) }

    /** When a new record begins. */
    function Outlive(): Orphans { Overtake().(starts := 0, oldStarts := oldStarts + starts) }

    predicate Has(x: Orphan)
    {
      match x
      case MemoryAdd(i, late) => i < |(if late then overtaken else adds).memory|
      case CpuAdd(i, late) => i < |(if late then overtaken else adds).cpu|
      case RuleClear => clears > 0
      case JailCreate => creates > 0
      case JailStart(late) => (if late then oldStarts else starts) > 0
      case RootfsClone => clones > 0
    }

    function Without(x: Orphan): Orphans
      requires Has(x)
    {
      match x
      case MemoryAdd(i, late) =>
        if late then this.(overtaken := overtaken.(memory := Drop(overtaken.memory, i)))
        else this.(adds := adds.(memory := Drop(adds.memory, i)))
      case CpuAdd(i, late) =>
        if late then this.(overtaken := overtaken.(cpu := Drop(overtaken.cpu, i)))
        else this.(adds := adds.(cpu := Drop(adds.cpu, i)))
      case RuleClear => this.(clears := clears - 1)
      case JailCreate => this.(creates := creates - 1)
      case JailStart(late) => if late then this.(oldStarts := oldStarts - 1) else this.(starts := starts - 1)
      case RootfsClone => this.(clones := clones - 1)
    }

    /** The rule that an `rctl -a` left running is about to add. */
    function Rule(x: Orphan): Rules
      requires Has(x) && x.IsAdd()
    {
      var from := if x.late then overtaken else adds;
      if x.MemoryAdd? then Rules([from.memory[x.i]], []) else Rules([], [from.cpu[x.i]])
    }
  }

  const NoOrphans := Orphans(NoRules, NoRules, 0, 0, 0, 0, 0)

  datatype Orphan =
    | MemoryAdd(i: nat, late: bool) | CpuAdd(i: nat, late: bool) | RuleClear
    | JailCreate | JailStart(late: bool) | RootfsClone
  {
    predicate IsAdd() { MemoryAdd? || CpuAdd? }
  }

  function Drop(s: seq<int>, i: nat): seq<int>
    requires i < |s|
  {
    s[..i] + s[i + 1..]
  }

  /** A command left running takes effect; with racct off there was no rctl to
      run, and the runtime refuses what the jail's state does not allow. */
  function Landed(cfg: Config, res: Resources, x: Orphan): Resources
    requires res.orphans.Has(x)
  {
    var after := res.(orphans := res.orphans.Without(x));
    if x.IsAdd() then
      if !cfg.racct then after
      else after.(rules := res.rules.Plus(res.orphans.Rule(x)), rulesLate := res.rulesLate || x.late)
    else
      match x
      case RuleClear => after.(rules := Cleared(cfg, res.rules))
      case JailCreate => if res.jail.Absent? then JailCreated(cfg, after) else after
      case JailStart(_) => if res.jail.Created? then JailStarted(after) else after
      case RootfsClone => after.(rootfs := true)
  }

  /** The new jail mounts a fresh tmpfs over the secrets directory. */
  function JailCreated(cfg: Config, res: Resources): Resources
  {
    Wiped(res, cfg.SecretPaths()).(jail := Created, bare := false, log := res.log + [DidCreate])
  }

  function JailStarted(res: Resources): Resources
  {
    res.(jail := Live, log := res.log + [DidStart])
  }

  // ---- Payload writers -----------------------------------------------------

  /** Where a blocking writer stands in its file: not opened yet, open with `n`
      bytes written, or open on a file that has been removed since. */
  datatype Pos = Unopened | At(n: nat) | Lost(n: nat)

  /** The file of the batch a writer is at, and where in it. */
  datatype Place = Place(k: nat, pos: Pos)

  const FRONT := Place(0, Unopened)

  /** `write_payloads` on its own thread: file after file it opens (which
      truncates), writes byte after byte, and closes. */
  datatype Writer = Writer(batch: seq<Write>, at: Place) {
    predicate Running() { at.k < |batch| }

    function File(): Write
      requires Running()
    {
      batch[at.k]
    }

    /** It has the file open and has not written all of it. */
    predicate HalfDone() { Running() && at.pos.At? && at.pos.n < |File().data| }

    /** One step further. */
    function Onto(): Place
      requires Running()
    {
      match at.pos
      case Unopened => Place(at.k, At(0))
      case At(n) => if n < |File().data| then Place(at.k, At(n + 1)) else Place(at.k + 1, Unopened)
      case Lost(n) => if n < |File().data| then Place(at.k, Lost(n + 1)) else Place(at.k + 1, Unopened)
    }

    function Moved(): Writer { if Running() then this.(at := Onto()) else this }

    /** The writer once an error has ended it. */
    function Ended(): Writer { this.(at := Place(|batch|, Unopened)) }
  }

  /** One byte of a file, at an offset; a gap before it reads as zeros. */
  function Poke(content: Bytes, n: nat, b: ByteStrings.Byte): Bytes
  {
    if n < |content| then content[n := b] else content + seq(n - |content|, _ => 0) + [b]
  }

  function FilesAfter(x: Writer, files: map<Path, Bytes>): map<Path, Bytes>
    requires x.Running()
  {
    var w := x.File();
    match x.at.pos
    case Unopened => files[w.path := []]
    case At(n) =>
      if n < |w.data| && w.path in files then files[w.path := Poke(files[w.path], n, w.data[n])] else files
    case Lost(_) => files
  }

  /** Opening a file starts it anew. */
  function SpoiledAfter(x: Writer, spoiled: set<Path>): set<Path>
    requires x.Running()
  {
    if x.at.pos.Unopened? then spoiled - {x.File().path} else spoiled
  }

  /** The file that a writer cut short here leaves incomplete. */
  function Cut(x: Writer): set<Path> { if x.HalfDone() then {x.File().path} else {} }

  function CutAll(writers: seq<Writer>): set<Path>
  {
    set x | x in writers && x.HalfDone() :: x.File().path
  }

  /** Files are removed, or hidden by a mount; who had one open keeps a handle
      to what nobody else sees. */
  function Wiped(res: Resources, paths: set<Path>): Resources
  {
    res.(files := res.files - paths, stray := Detached(res.stray, paths))
  }

  function Detached(writers: seq<Writer>, paths: set<Path>): seq<Writer>
  {
    seq(|writers|, i requires 0 <= i < |writers| => DetachedFrom(writers[i], paths))
  }

  function DetachedFrom(x: Writer, paths: set<Path>): Writer
  {
    if x.Running() && x.at.pos.At? && x.File().path in paths
    then x.(at := Place(x.at.k, Lost(x.at.pos.n))) else x
  }

  /** A leftover writer goes on by one step, or fails and ends. */
  function StrayMoved(res: Resources, i: nat, ok: bool): Resources
    requires i < |res.stray| && res.stray[i].Running()
  {
    var x := res.stray[i];
    if ok then
      res.(files := FilesAfter(x, res.files), spoiled := SpoiledAfter(x, res.spoiled), stray := res.stray[i := x.Moved()])
    else
      res.(spoiled := res.spoiled + Cut(x), stray := res.stray[i := x.Ended()])
  }

  // ---- Controller memory and positions -------------------------------------

  /** `Local`: what a controller remembers; lost with its process. */
  datatype Local = Local(
    pid: bool, watch: bool, exit: Option<bool>, rootfs: bool, resize: bool,
    startedAt: Option<int>, prober: Option<seq<H.ProbeResult>>
  ) {
    function StartedAt(default: int): int { if startedAt.Some? then startedAt.value else default }

    /** The value of the prober's watch channel: the fold of what it recorded. */
    function Health(settings: H.ProbeSettings): H.HealthStatus
      requires prober.Some?
    {
      H.Fold(settings, StartedAt(0), prober.value).status
    }
  }

  const FreshLocal := Local(false, false, None, false, false, None, None)

  /** The awaits of `prepare_inner` (P) and of the payload rewrite for an
      adopted container (R). */
  datatype PreparePc =
    | PAdopt | PResolve | PLayers | PConfigs(x: Writer) | PCreate | PSecrets(x: Writer) | PMemory | PCpu
    | RResolve | RConfigs(x: Writer) | RSecrets(x: Writer)

  /** The awaits of `start_inner`, `start_container` and the health gate. */
  datatype StartPc = SAttach | SLook | SStart | SRelook | SProber | SGate | SStop | SPorts | SDetach

  /** The awaits of `wait_inner` with its hot-resize prologue. */
  datatype WaitPc = WUsage | WClear | WMemory | WCpu | WProber | WWait | WStop | WPorts | WDetach

  datatype StopPc = HSignal | HPorts

  datatype OpPc = InPrepare(prepare: PreparePc) | InStart(start: StartPc) | InWait(wait: WaitPc) | InStop(stop: StopPc) {
    function Call(): D.Call
    {
      match this
      case InPrepare(_) => D.CallPrepare
      case InStart(_) => D.CallStart
      case InWait(_) => D.CallWait
      case InStop(_) => D.CallShutdown
    }
  }

  /** The awaits of a removal. */
  datatype RemovePc = XStop | XLimits | XDelete | XDestroy | XBundle | XRecord

  /** How an awaited operation ended, chosen by the environment.  `Gone` is the
      exit watch, with exit code 0 or anything else; `Sick` is the health arm of
      `wait`.  Where an await has no such arm they are errors like any other. */
  datatype Outcome = Okay(now: int) | Bad(temporary: bool) | Sick | Gone(clean: bool) {
    predicate Temporary() { Bad? && temporary }
  }

  datatype Onward = Goto(op: OpPc) | Answer(reply: D.Reply)

  datatype Effect = Effect(res: Resources, local: Local, onward: Onward)

  // ---- The operations ------------------------------------------------------

  /** How a call begins: it runs to its first await, or answers at once. */
  function Opened(call: D.Call, res: Resources, local: Local): Effect
  {
    match call
    case CallPrepare => Effect(res, local, Goto(InPrepare(PAdopt)))
    case CallStart => Effect(res, local, Goto(InStart(SAttach)))
    case CallShutdown => Effect(res, local.(prober := None), Goto(InStop(HSignal)))
    case CallWait =>
      if local.exit.Some? then
        Effect(res, local, Answer(if local.exit.value then D.Done else D.BadExit))
      else if local.resize then
        Effect(res, local.(resize := false), Goto(InWait(WUsage)))
      else
        Effect(res, local, Goto(InWait(WProber)))
  }

  function Stepped(cfg: Config, res: Resources, local: Local, limits: Limits, op: OpPc, o: Outcome): Effect
  {
    match op
    case InPrepare(pc) => PrepareTick(cfg, res, local, limits, pc, o)
    case InStart(pc) => StartTick(cfg, res, local, pc, o)
    case InWait(pc) => WaitTick(cfg, res, local, limits, pc, o)
    case InStop(pc) => StopTick(res, local, pc, o)
  }

  /** `prepare_inner` and `rematerialize_dependencies`. */
  function PrepareTick(cfg: Config, res: Resources, local: Local, limits: Limits, pc: PreparePc, o: Outcome): Effect
  {
    match pc
    case PConfigs(x) => Written(res, local, x, o, PConfigs(x.Moved()), Goto(InPrepare(PCreate)))
    case PSecrets(x) => Written(res, local, x, o, PSecrets(x.Moved()), Goto(InPrepare(PMemory)))
    case RConfigs(x) =>
      Written(res, local, x, o, RConfigs(x.Moved()), Goto(InPrepare(RSecrets(Writer(cfg.secrets, FRONT)))))
    case RSecrets(x) => Written(res, local, x, o, RSecrets(x.Moved()), Answer(D.Done))
    case _ =>
      if !o.Okay? then Effect(res, local, Answer(D.Broke(o.Temporary())))
      else
        match pc
        case PAdopt => Adopted(cfg, res, local)
        case PResolve => Effect(res, local, Goto(InPrepare(PLayers)))
        case PLayers =>
          Effect(res.(rootfs := true), local.(rootfs := true), Goto(InPrepare(PConfigs(Writer(cfg.configs, FRONT)))))
        case PCreate =>
          // ocijail refuses to create a container that exists.
          if !res.jail.Absent? then Effect(res, local, Answer(D.Broke(false)))
          else
            Effect(JailCreated(cfg, res), local.(pid := true, watch := true),
                   Goto(InPrepare(PSecrets(Writer(cfg.secrets, FRONT)))))
        case PMemory => Effect(res.(rules := res.rules.Plus(MemoryRules(cfg, limits))), local, Goto(InPrepare(PCpu)))
        case PCpu => Effect(res.(rules := res.rules.Plus(CpuRules(cfg, limits))), local, Answer(D.Done))
        case RResolve => Effect(res, local, Goto(InPrepare(RConfigs(Writer(cfg.configs, FRONT)))))
  }

  /** `adopt_created`, and what `prepare` makes of it: a container that exists
      is kept, and one that has not started yet gets its payloads rewritten
      unless it has none or its rootfs is gone. */
  function Adopted(cfg: Config, res: Resources, local: Local): Effect
  {
    if res.jail.Absent? then Effect(res, local, Goto(InPrepare(PResolve)))
    else
      var local := local.(pid := local.pid || res.jail.HasPid(), watch := local.watch || res.jail.HasPid(),
                          rootfs := local.rootfs || res.rootfs);
      var wanting := res.jail.Created? && (cfg.configs != [] || cfg.secrets != []);
      Effect(res.(bare := wanting && !local.rootfs), local,
             if wanting && local.rootfs then Goto(InPrepare(RResolve)) else Answer(D.Done))
  }

  /** One step of the step's own writer, or on to what follows the batch; an
      error ends the operation and leaves the file as it is. */
  function Written(
    res: Resources, local: Local, x: Writer, o: Outcome, more: PreparePc, done: Onward): Effect
  {
    if !o.Okay? then Effect(res.(spoiled := res.spoiled + Cut(x)), local, Answer(D.Broke(o.Temporary())))
    else if x.Running() then
      Effect(res.(files := FilesAfter(x, res.files), spoiled := SpoiledAfter(x, res.spoiled)), local,
             Goto(InPrepare(more)))
    else
      Effect(res, local, done)
  }

  /** The rules for a limit; none if it is <= 0. */
  function MemoryRule(limits: Limits): Rules
  {
    if limits.memory > 0 then Rules([limits.memory], []) else NoRules
  }

  function CpuRule(limits: Limits): Rules
  {
    if limits.nanoCpus > 0 then Rules([], [Percent(limits.nanoCpus)]) else NoRules
  }

  /** The rules `apply_limits` adds; none with racct off. */
  function MemoryRules(cfg: Config, limits: Limits): Rules { if cfg.racct then MemoryRule(limits) else NoRules }

  function CpuRules(cfg: Config, limits: Limits): Rules { if cfg.racct then CpuRule(limits) else NoRules }

  /** `nano_cpus_to_pcpu` for a positive request. */
  function Percent(nanoCpus: int): int
  {
    (nanoCpus + 9_999_999) / 10_000_000
  }

  /** `start_inner`, `start_container` and the health gate. */
  function StartTick(cfg: Config, res: Resources, local: Local, pc: StartPc, o: Outcome): Effect
  {
    if pc.SStop? then Effect(res, local.(exit := Harvested(res, local, o)), Goto(InStart(SPorts)))
    else if pc.SPorts? || pc.SDetach? then
      // The unhealthy container has been stopped, or the overlay of an exited
      // one detached; `start` fails either way.
      Effect(res, local.(prober := None), Answer(D.Broke(false)))
    else if pc.SGate? then
      match o
      case Okay(_) => Gate(cfg, res, local)
      case Gone(_) =>
        // The container exited first.
        Effect(res, local.(exit := Harvested(res, local, o)),
               Goto(InStart(if Harvested(res, local, o).Some? then SDetach else SGate)))
      case _ =>
        // The prober is gone.
        Effect(res, local.(prober := None), Answer(D.Broke(false)))
    else if !o.Okay? then
      Effect(res, local, Answer(D.Broke(o.Temporary())))
    else
      match pc
      case SAttach => Effect(res, local, Goto(InStart(SLook)))
      case SLook =>
        Effect(res, local,
               if res.jail.Absent? then Answer(D.Broke(false))
               else Goto(InStart(if res.jail.Created? then SStart else SRelook)))
      case SStart =>
        // ocijail refuses to start a container twice, and takes no notice of
        // one whose process has died since it was created.
        if res.jail.Live? || res.jail.Absent? then Effect(res, local, Answer(D.Broke(false)))
        else
          Effect(if res.jail.Created? then JailStarted(res) else res, local.(startedAt := Some(o.now)),
                 Goto(InStart(SRelook)))
      case SRelook => Effect(res, local.(pid := local.pid || res.jail.HasPid()), Goto(InStart(SProber)))
      case SProber => Effect(res, Probed(cfg, local, o.now), Goto(InStart(SGate)))
  }

  /** `ensure_prober`: start probing unless that is already happening. */
  function Probed(cfg: Config, local: Local, now: int): Local
  {
    if local.prober.None? && cfg.probe.Some? then
      local.(prober := Some([]), startedAt := Some(local.StartedAt(now)))
    else local
  }

  /** `await_first_healthy`, the prober's arm; an unhealthy container loses its
      prober before it is stopped. */
  function Gate(cfg: Config, res: Resources, local: Local): Effect
  {
    if local.prober.None? || cfg.probe.None? then Effect(res, local, Answer(D.Done))
    else
      match local.Health(cfg.probe.value)
      case Healthy => Effect(res, local, Answer(D.Done))
      case Unhealthy => Effect(res, local.(prober := None), Goto(InStart(SStop)))
      case Starting => Effect(res, local, Goto(InStart(SGate)))
  }

  /** What the exit watch has to tell, once it is armed: exit code 0 only of a
      process that is gone; a watch that failed counts as a bad exit. */
  function Harvested(res: Resources, local: Local, o: Outcome): Option<bool>
  {
    if local.exit.None? && local.watch && o.Gone? && (o.clean ==> !res.jail.HasPid()) then Some(o.clean) else local.exit
  }

  /** `wait_inner` with the hot resize of `reapply_limits_if_resized`. */
  function WaitTick(cfg: Config, res: Resources, local: Local, limits: Limits, pc: WaitPc, o: Outcome): Effect
  {
    if pc.WStop? then Effect(res, local.(exit := Harvested(res, local, o)), Goto(InWait(WPorts)))
    else if pc.WPorts? then
      // The unhealthy container has been stopped.
      Effect(res, local, Answer(D.Broke(false)))
    else if pc.WDetach? then
      // The overlay of the exited container has been detached.
      Effect(res, local, Answer(if local.exit == Some(true) then D.Done else D.BadExit))
    else if pc.WWait? then Awaited(cfg, res, local, o)
    else if !o.Okay? then
      Effect(res, local, Answer(D.Broke(o.Temporary())))
    else
      match pc
      case WUsage => Effect(res, local, Goto(InWait(WClear)))
      case WClear => Effect(RulesCleared(cfg, res), local, Goto(InWait(WMemory)))
      case WMemory => Effect(res.(rules := res.rules.Plus(MemoryRules(cfg, limits))), local, Goto(InWait(WCpu)))
      case WCpu => Effect(res.(rules := res.rules.Plus(CpuRules(cfg, limits))), local, Goto(InWait(WProber)))
      case WProber => Effect(res, Probed(cfg, local, o.now), Goto(InWait(WWait)))
  }

  /** The race of the exit watch and the health arm: an exit, a container that
      has gone unhealthy, or a prober that is gone. */
  function Awaited(cfg: Config, res: Resources, local: Local, o: Outcome): Effect
  {
    var probed := local.prober.Some? && cfg.probe.Some?;
    if !local.watch then Effect(res, local, Answer(D.Broke(false)))
    else if o.Gone? && Harvested(res, local, o).Some? then
      Effect(res, local.(exit := Harvested(res, local, o)), Goto(InWait(WDetach)))
    else if o.Sick? && probed && local.Health(cfg.probe.value).Unhealthy? then
      Effect(res, local.(prober := None), Goto(InWait(WStop)))
    else if o.Bad? && probed then
      Effect(res, local.(prober := None), Answer(D.Broke(false)))
    else
      Effect(res, local, Goto(InWait(WWait)))
  }

  /** `remove_limits`: with racct off no rctl process is spawned. */
  function Cleared(cfg: Config, rules: Rules): Rules
  {
    if cfg.racct then NoRules else rules
  }

  /** A step's own `rctl -r` succeeds; what is still to be added is overtaken. */
  function RulesCleared(cfg: Config, res: Resources): Resources
  {
    res.(rules := Cleared(cfg, res.rules), orphans := res.orphans.Overtake())
  }

  /** `shutdown_inner`: signal and wait for the exit, which is remembered before
      the ports are unpublished; a signal acts through the container's exit. */
  function StopTick(res: Resources, local: Local, pc: StopPc, o: Outcome): Effect
  {
    if pc.HSignal? && (o.Okay? || o.Gone?) then
      Effect(res, local.(exit := Harvested(res, local, o)), Goto(InStop(HPorts)))
    else
      Effect(res, local, Answer(if o.Okay? then D.Done else D.Broke(o.Temporary())))
  }

  /** `shutdown` (best effort), then the steps of `remove_inner` up to the
      deletion of the record: no failure stops the rest. */
  function RemoveTick(cfg: Config, res: Resources, pc: RemovePc, o: Outcome): Resources
  {
    if pc.XLimits? then if o.Okay? || !cfg.racct then RulesCleared(cfg, res) else res.(rulesLeft := true)
    else if !o.Okay? then res
    else
      match pc
      case XStop => res
      case XDelete =>
        if res.jail.Absent? then res
        else Wiped(res, cfg.SecretPaths()).(jail := Absent, log := res.log + [DidDelete])
      case XDestroy => res.(rootfs := false)
      case XBundle => Wiped(res, cfg.ConfigPaths())
      case XRecord => res
  }

  function AfterRemoval(pc: RemovePc): RemovePc
    requires !pc.XRecord?
  {
    match pc
    case XStop => XLimits
    case XLimits => XDelete
    case XDelete => XDestroy
    case XDestroy => XBundle
    case XBundle => XRecord
  }

  /** The writer an operation has at work: dropping the step does not stop it. */
  function WriterOf(op: OpPc): seq<Writer>
  {
    if !op.InPrepare? then []
    else
      match op.prepare
      case PConfigs(x) => [x]
      case PSecrets(x) => [x]
      case RConfigs(x) => [x]
      case RSecrets(x) => [x]
      case _ => []
  }

  /** The commands left running once an operation with these limits is dropped:
      the one it is waiting for, if it has an effect, joins them. */
  function Abandoned(orphans: Orphans, limits: Limits, op: OpPc): Orphans
  {
    match op
    case InPrepare(PLayers) => orphans.(clones := orphans.clones + 1)
    case InPrepare(PCreate) => orphans.(creates := orphans.creates + 1)
    case InPrepare(PMemory) => orphans.(adds := orphans.adds.Plus(MemoryRule(limits)))
    case InPrepare(PCpu) => orphans.(adds := orphans.adds.Plus(CpuRule(limits)))
    case InStart(SStart) => orphans.(starts := orphans.starts + 1)
    case InWait(WClear) => orphans.(clears := orphans.clears + 1)
    case InWait(WMemory) => orphans.(adds := orphans.adds.Plus(MemoryRule(limits)))
    case InWait(WCpu) => orphans.(adds := orphans.adds.Plus(CpuRule(limits)))
    case _ => orphans
  }
}
