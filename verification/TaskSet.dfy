/** The worker's task set (`worker.rs`) with the handles of its task managers
    (`task_manager.rs`): every call keeps every task's invariant, touches no task
    but its own, and the startup pass accounts for every record once. */
module TaskSet {
  import opened TaskStates
  import opened Controller
  import opened Protocol
  import opened ProtocolSafety
  import opened Orders
  import opened Lifting

  // ---- The invariant of all tasks ------------------------------------------

  ghost predicate SafeTask(cfg: Config, c: Cell) { cfg.Valid() && Safe(cfg, c) }

  /** Every task satisfies the invariants that every run keeps. */
  ghost predicate AllSafe(configs: map<string, Config>, cells: map<string, Cell>)
  {
    AllHold(SafeTask, configs, cells)
  }

  lemma SafeTaskKept(cfg: Config, c: Cell, e: Event)
    requires SafeTask(cfg, c) && Enabled(c, e)
    ensures SafeTask(cfg, Next(cfg, c, e))
  {
    SafeKept(cfg, c, e);
  }

  /** A step of one task keeps every task's invariant. */
  lemma AllSafeKept(configs: map<string, Config>, cells: map<string, Cell>, id: string, e: Event)
    requires AllSafe(configs, cells) && id in cells && Enabled(cells[id], e)
    ensures AllSafe(configs, cells[id := Next(configs[id], cells[id], e)])
  {
    SafeTaskKept(configs[id], cells[id], e);
    Replaced(SafeTask, configs, cells, id, Next(configs[id], cells[id], e));
  }

  lemma AppliedSafe(
    configs: map<string, Config>, cells: map<string, Cell>, id: string, task: TaskDef, seed: TaskState, ok: bool)
    requires AllSafe(configs, cells) && id in cells && Enabled(cells[id], Assign(task, seed, ok))
    ensures AllSafe(configs, cells[id := if ok then Applied(cells[id], task, seed) else cells[id]])
  {
    AllSafeKept(configs, cells, id, Assign(task, seed, ok));
  }

  lemma AllFresh(configs: map<string, Config>)
    requires forall id | id in configs :: configs[id].Valid()
    ensures AllSafe(configs, map id | id in configs :: Fresh)
  {
    forall id | id in configs ensures SafeTask(configs[id], Fresh) {
      FreshIsSafe(configs[id]);
    }
    AllAlike(SafeTask, configs, Fresh);
  }

  // ---- What the calls do to one task ---------------------------------------

  /** `put_task`, then the manager's handle. */
  method Persisting(cell: Cell, task: TaskDef, seed: TaskState) returns (c: Cell)
    ensures c == Applied(cell, task, seed)
  {
    c := cell;
    var status := if c.disk.Some? then c.disk.value.state else seed;
    if c.disk.None? {
      c := c.(life := Born(c.res));
      c := c.(res := c.res.(orphans := c.res.orphans.Outlive()));
    }
    c := c.(disk := Some(Record(task, status)));
    if c.manager.Some? {
      var m, forwarded := UpdateManager(c.manager.value, task);
      c := c.(manager := Some(m));
    } else {
      c := c.(manager := Some(Spawned(task, status, Begin, FreshLocal)));
    }
  }

  /** `TaskManager::update`: forwarded unless it would move the desired state
      that the handle has accepted backwards. */
  method UpdateManager(manager: Manager, task: TaskDef) returns (m: Manager, forwarded: bool)
    ensures m == Updated(manager, task) && (forwarded <==> manager.handle.AtMost(task.desired))
  {
    m := manager;
    if task.desired.Rank() < m.handle.Rank() {
      return m, false;
    }
    m := m.(handle := task.desired);
    m := m.(queue := m.queue + [Update(task)]);
    forwarded := true;
  }

  datatype Flow = Continue | Stop(removed: bool)

  /** `apply_command` in the manager's loop. */
  method ApplyCommand(manager: Manager, command: Command) returns (m: Manager, flow: Flow)
    ensures m == if command.Update? then Adopting(manager, command.task) else manager
    ensures flow == if command.Update? then Continue else Stop(command.Remove?)
    ensures manager.task.desired.AtMost(m.task.desired)
  {
    m := manager;
    match command {
      case Update(updated) =>
        if updated.desired.Rank() < m.task.desired.Rank() {
          return m, Continue;
        }
        var resized := updated.limits != m.task.limits || updated.reservations != m.task.reservations;
        m := m.(task := updated);
        if resized {
          m := m.(local := m.local.(resize := true));
        }
        flow := Continue;
      case Remove => flow := Stop(true);
      case Close => flow := Stop(false);
    }
  }

  /** `remove`: through the manager, or from the record. */
  method Releasing(cell: Cell) returns (c: Cell)
    ensures c == Unassigned(cell)
  {
    c := cell;
    if c.manager.Some? {
      var m := c.manager.value;
      m := m.(leaving := true);
      m := m.(queue := m.queue + [Command.Remove]);
      c := c.(manager := Some(m));
    } else if c.disk.Some? {
      c := c.(life := c.life.(removal := true));
      c := c.(manager := Some(Remover(c.disk.value)));
    }
  }

  /** One record of `init_from_disk`; ocijail is asked only about assigned tasks
      that were RUNNING. */
  method Resuming(cell: Cell, listed: bool, answering: bool) returns (c: Cell, d: Resume)
    requires cell.disk.Some?
    ensures c == Initialized(cell, listed, answering) && d == Decision(cell, listed, answering)
  {
    c := cell.(up := true);
    var r := c.disk.value;
    var live := listed && r.state.Running? && answering && c.res.jail.HasPid();
    d := ResumeDecision(listed, r.state, live);
    var m := Spawned(r.task, r.state, Begin, FreshLocal);
    match d {
      case ResumeRemove =>
        m := Remover(r);
        c := c.(life := c.life.(removal := true));
      case Reattach => m := m.(local := m.local.(pid := true, watch := true));
      case DiedWhileDown => m := m.(status := Failed, pc := Persist(false));
      case Replay =>
    }
    c := c.(manager := Some(m));
  }

  function Decision(c: Cell, listed: bool, answering: bool): Resume
    requires c.disk.Some?
  {
    ResumeDecision(listed, c.disk.value.state, answering && c.res.jail.HasPid())
  }

  // ---- Crash and startup, all tasks at once --------------------------------

  /** What is left of a task when the daemon dies. */
  function Dead(env: (), id: string, c: Cell): Cell { Crashed(c) }

  predicate AnyTime(env: (), id: string, c: Cell) { true }

  lemma CrashIsSafe(cfg: Config, c: Cell)
    requires SafeTask(cfg, c)
    ensures SafeTask(cfg, Crashed(c))
  {
    SafeKept(cfg, c, Event.Crash);
  }

  lemma CrashKeeps()
    ensures Keeps(SafeTask, AnyTime, Dead, ())
  {
    forall id: string, cfg, c | SafeTask(cfg, c) ensures SafeTask(cfg, Dead((), id, c)) {
      CrashIsSafe(cfg, c);
    }
  }

  /** A startup pass: the listing of the database, the tasks still assigned
      here, and those about which ocijail gives an answer. */
  datatype Pass = Pass(ids: seq<string>, listed: set<string>, answering: set<string>) {
    function Take(n: nat): Pass
      requires n <= |ids|
    {
      this.(ids := ids[..n])
    }

    function Decides(c: Cell, id: string): Resume
      requires c.disk.Some?
    {
      Decision(c, id in listed, id in answering)
    }
  }

  /** A task after a startup pass; one whose record is missing or corrupt is only
      marked. */
  function Restarted(pass: Pass, id: string, c: Cell): Cell
  {
    if id in pass.ids then Initialized(c, id in pass.listed, id in pass.answering) else c.(up := true)
  }

  predicate Down(pass: Pass, id: string, c: Cell) { !c.up }

  lemma RestartIsSafe(pass: Pass, cfg: Config, id: string, c: Cell)
    requires SafeTask(cfg, c) && Down(pass, id, c)
    ensures SafeTask(cfg, Restarted(pass, id, c))
  {
    SafeKept(cfg, c, Init(id in pass.ids, id in pass.listed, id in pass.answering));
  }

  lemma RestartKeeps(pass: Pass)
    ensures Keeps(SafeTask, Down, Restarted, pass)
  {
    forall id, cfg, c | Down(pass, id, c) && SafeTask(cfg, c) ensures SafeTask(cfg, Restarted(pass, id, c)) {
      RestartIsSafe(pass, cfg, id, c);
    }
  }

  // ---- The startup report --------------------------------------------------

  /** `InitReport`. */
  datatype InitReport = InitReport(
    resumed: seq<string>, reattached: seq<string>, diedWhileDown: seq<string>, removed: seq<string>,
    driving: map<string, TaskDef>)

  predicate OnDisk(cells: map<string, Cell>, ids: seq<string>)
  {
    forall i :: 0 <= i < |ids| ==> ids[i] in cells && cells[ids[i]].disk.Some?
  }

  /** The ids for which startup decides `d`, in order. */
  function Deciding(cells: map<string, Cell>, pass: Pass, d: Resume): seq<string>
    requires OnDisk(cells, pass.ids)
    decreases |pass.ids|
  {
    if pass.ids == [] then []
    else
      var n := |pass.ids| - 1;
      var id := pass.ids[n];
      Deciding(cells, pass.Take(n), d) + if pass.Decides(cells[id], id) == d then [id] else []
  }

  function StartupReport(cells: map<string, Cell>, pass: Pass): InitReport
    requires OnDisk(cells, pass.ids)
  {
    InitReport(
      Deciding(cells, pass, Replay), Deciding(cells, pass, Reattach), Deciding(cells, pass, DiedWhileDown),
      Deciding(cells, pass, ResumeRemove),
      map id | id in cells && id in pass.ids && id in pass.listed && cells[id].disk.Some? :: cells[id].disk.value.task)
  }

  /** The report with one more record in it. */
  method Noted(report: InitReport, id: string, task: TaskDef, d: Resume) returns (r: InitReport)
    ensures r == Extended(report, id, task, d)
  {
    r := report;
    if !d.ResumeRemove? {
      r := r.(driving := r.driving[id := task]);
    }
    match d {
      case ResumeRemove => r := r.(removed := r.removed + [id]);
      case Reattach => r := r.(reattached := r.reattached + [id]);
      case DiedWhileDown => r := r.(diedWhileDown := r.diedWhileDown + [id]);
      case Replay => r := r.(resumed := r.resumed + [id]);
    }
  }

  function Extended(r: InitReport, id: string, task: TaskDef, d: Resume): InitReport
  {
    match d
    case ResumeRemove => r.(removed := r.removed + [id])
    case Reattach => r.(reattached := r.reattached + [id], driving := r.driving[id := task])
    case DiedWhileDown => r.(diedWhileDown := r.diedWhileDown + [id], driving := r.driving[id := task])
    case Replay => r.(resumed := r.resumed + [id], driving := r.driving[id := task])
  }

  lemma ReportGrows(cells: map<string, Cell>, pass: Pass, n: nat)
    requires OnDisk(cells, pass.ids) && n < |pass.ids|
    ensures OnDisk(cells, pass.ids[..n]) && OnDisk(cells, pass.ids[..n + 1])
    ensures var id := pass.ids[n];
            StartupReport(cells, pass.Take(n + 1))
              == Extended(StartupReport(cells, pass.Take(n)), id, cells[id].disk.value.task, pass.Decides(cells[id], id))
  {
    var id := pass.ids[n];
    assert pass.Take(n + 1).Take(n) == pass.Take(n);
    assert pass.ids[..n + 1] == pass.ids[..n] + [id];
    var r, r' := StartupReport(cells, pass.Take(n)), StartupReport(cells, pass.Take(n + 1));
    assert r'.driving == if id !in pass.listed then r.driving else r.driving[id := cells[id].disk.value.task];
  }

  lemma TakeOne(ids: seq<string>, n: nat)
    requires Sorted(ids) && n < |ids|
    ensures ids[n] !in ids[..n] && forall id :: id in ids[..n + 1] <==> id in ids[..n] || id == ids[n]
  {
    assert ids[..n + 1] == ids[..n] + [ids[n]];
    LessIrreflexive(ids[n]);
    forall k | 0 <= k < n ensures ids[k] != ids[n] {
      assert Less(ids[k], ids[n]);
    }
  }

  lemma RestartOne(cells: map<string, Cell>, pass: Pass, n: nat)
    requires Sorted(pass.ids) && OnDisk(cells, pass.ids) && n < |pass.ids|
    ensures var id := pass.ids[n];
            var now := Moved(Restarted, pass.Take(n), cells);
            && id in cells && now[id] == cells[id].(up := true)
            && Moved(Restarted, pass.Take(n + 1), cells)
                 == now[id := Initialized(cells[id], id in pass.listed, id in pass.answering)]
  {
    TakeOne(pass.ids, n);
  }

  /** The loop of `init_from_disk`. */
  method ResumeAll(cells: map<string, Cell>, pass: Pass) returns (now: map<string, Cell>, report: InitReport)
    requires Sorted(pass.ids) && OnDisk(cells, pass.ids)
    ensures now == Moved(Restarted, pass, cells) && report == StartupReport(cells, pass)
  {
    now, report := map id | id in cells :: cells[id].(up := true), InitReport([], [], [], [], map[]);
    for n := 0 to |pass.ids|
      invariant OnDisk(cells, pass.ids[..n])
      invariant now == Moved(Restarted, pass.Take(n), cells) && report == StartupReport(cells, pass.Take(n))
    {
      var id := pass.ids[n];
      RestartOne(cells, pass, n);
      ReportGrows(cells, pass, n);
      var c, d := Resuming(now[id], id in pass.listed, id in pass.answering);
      report := Noted(report, id, c.disk.value.task, d);
      now := now[id := c];
    }
    assert pass.Take(|pass.ids|) == pass;
  }

  lemma {:induction false} DecidingMembers(cells: map<string, Cell>, pass: Pass, d: Resume, id: string)
    requires OnDisk(cells, pass.ids)
    ensures id in Deciding(cells, pass, d) <==> id in pass.ids && pass.Decides(cells[id], id) == d
    decreases |pass.ids|
  {
    if pass.ids != [] {
      var n := |pass.ids| - 1;
      DecidingMembers(cells, pass.Take(n), d, id);
      assert pass.ids == pass.ids[..n] + [pass.ids[n]];
    }
  }

  lemma {:induction false} DecidingCounts(cells: map<string, Cell>, pass: Pass)
    requires OnDisk(cells, pass.ids)
    ensures |Deciding(cells, pass, Replay)| + |Deciding(cells, pass, Reattach)| + |Deciding(cells, pass, DiedWhileDown)|
          + |Deciding(cells, pass, ResumeRemove)| == |pass.ids|
    decreases |pass.ids|
  {
    if pass.ids != [] {
      DecidingCounts(cells, pass.Take(|pass.ids| - 1));
    }
  }

  /** Startup accounts for every record exactly once; it drives exactly the tasks
      it does not remove; it re-attaches exactly the assigned RUNNING tasks whose
      jail lives, and fails exactly the other assigned RUNNING ones. */
  lemma ReportIsAPartition(cells: map<string, Cell>, pass: Pass, id: string)
    requires OnDisk(cells, pass.ids) && id in pass.ids
    ensures var r := StartupReport(cells, pass);
            var running := id in pass.listed && cells[id].disk.value.state.Running?;
            var live := id in pass.answering && cells[id].res.jail.HasPid();
            && (id in r.removed <==> id !in pass.listed)
            && (id in r.driving <==> id in pass.listed)
            && (id in pass.listed ==> r.driving[id] == cells[id].disk.value.task)
            && (id in r.reattached <==> running && live)
            && (id in r.diedWhileDown <==> running && !live)
            && (id in r.resumed <==> id in pass.listed && !running)
            && |r.resumed| + |r.reattached| + |r.diedWhileDown| + |r.removed| == |pass.ids|
  {
    DecidingCounts(cells, pass);
    DecidingMembers(cells, pass, Replay, id);
    DecidingMembers(cells, pass, Reattach, id);
    DecidingMembers(cells, pass, DiedWhileDown, id);
    DecidingMembers(cells, pass, ResumeRemove, id);
  }

  // ---- The worker ----------------------------------------------------------

  class Worker {
    /** What is fixed per task by its spec, for every task the node ever hears
        of. */
    const configs: map<string, Config>
    var cells: map<string, Cell>

    ghost predicate Valid()
      reads this
    {
      AllSafe(configs, cells)
    }

    constructor (configs: map<string, Config>)
      requires forall id | id in configs :: configs[id].Valid()
      ensures Valid() && this.configs == configs && cells == map id | id in configs :: Fresh
    {
      this.configs := configs;
      this.cells := map id | id in configs :: Fresh;
      new;
      AllFresh(configs);
    }

    /** `apply`: persist the definition, then hand it to the live manager or
        start one; a definition that cannot be persisted is not acted on. */
    method Apply(id: string, task: TaskDef, seed: TaskState, ok: bool) returns (r: bool)
      requires Valid() && id in cells && Enabled(cells[id], Assign(task, seed, ok))
      modifies this
      ensures Valid() && r == ok
      ensures cells == old(cells)[id := if ok then Applied(old(cells)[id], task, seed) else old(cells)[id]]
    {
      AppliedSafe(configs, cells, id, task, seed, ok);
      var c := cells[id];
      if ok {
        c := Persisting(c, task, seed);
      }
      cells := cells[id := c];
      r := ok;
    }

    /** `remove`. */
    method Remove(id: string)
      requires Valid() && id in cells && Enabled(cells[id], Unassign)
      modifies this
      ensures Valid() && cells == old(cells)[id := Unassigned(old(cells)[id])]
    {
      AllSafeKept(configs, cells, id, Unassign);
      var c := Releasing(cells[id]);
      cells := cells[id := c];
    }

    /** Any other step of one task: its manager's loop, its container, its
        prober, the writers and commands its dropped steps left behind. */
    method Step(id: string, e: Event)
      requires Valid() && id in configs && id in cells && Enabled(cells[id], e)
      modifies this
      ensures Valid() && cells == old(cells)[id := Next(configs[id], old(cells)[id], e)]
    {
      AllSafeKept(configs, cells, id, e);
      cells := cells[id := Next(configs[id], cells[id], e)];
    }

    /** The daemon dies: every manager at once, and no resource with it. */
    method Crash()
      requires Valid()
      modifies this
      ensures Valid() && cells == Moved(Dead, (), old(cells))
    {
      CrashKeeps();
      AllMoved(SafeTask, AnyTime, Dead, (), configs, cells);
      cells := Moved(Dead, (), cells);
    }

    /** `init_from_disk`. */
    method InitFromDisk(pass: Pass) returns (report: InitReport)
      requires Valid() && Sorted(pass.ids) && OnDisk(cells, pass.ids)
      requires forall id | id in cells :: Down(pass, id, cells[id])
      modifies this
      ensures Valid() && cells == Moved(Restarted, pass, old(cells))
      ensures OnDisk(old(cells), pass.ids) && report == StartupReport(old(cells), pass)
    {
      RestartKeeps(pass);
      AllMoved(SafeTask, Down, Restarted, pass, configs, cells);
      cells, report := ResumeAll(cells, pass);
    }
  }
}
