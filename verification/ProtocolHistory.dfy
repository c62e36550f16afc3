/** What the history of a life says: each mark under which a theorem promises less
    is set only when what it stands for has happened. */
module ProtocolHistory {
  import opened TaskStates
  import opened Controller
  import opened Protocol
  import opened Leftovers
  import D = DoStep

  /** How many rules are in force. */
  function InForce(res: Resources): nat { |res.rules.memory| + |res.rules.cpu| }

  /** A status write is said to have failed only if one has. */
  ghost predicate WritesMarked(c: Cell, e: Event, c': Cell)
  {
    c.life.writesOk && !c'.life.writesOk ==>
      e.Tick? && !e.outcome.Okay? && c.manager.Some? && c.manager.value.pc.Persist? && c'.disk == c.disk
  }

  /** Every change of the state on disk is counted, and nothing else. */
  ghost predicate AdvancesCounted(c: Cell, c': Cell)
  {
    c.disk.Some? && c'.disk.Some? ==>
      c'.life.advances == c.life.advances + if c'.disk.value.state == c.disk.value.state then 0 else 1
  }

  /** Rules are said to be left behind only by a removal whose `rctl -r` failed. */
  ghost predicate RulesMarked(cfg: Config, c: Cell, e: Event, c': Cell)
  {
    c'.res.rulesLeft && !c.res.rulesLeft ==>
      && cfg.racct && e.Tick? && !e.outcome.Okay? && c.manager.Some? && c.manager.value.pc == Removing(XLimits)
      && c'.res.rules == c.res.rules
  }

  /** A bundle is said to be lost only if it was deleted under a created jail. */
  ghost predicate BundleMarked(cfg: Config, c: Cell, e: Event, c': Cell)
  {
    c'.life.bundleLost && !c.life.bundleLost ==>
      && e.Tick? && e.outcome.Okay? && c.manager.Some? && c.manager.value.pc == Removing(XBundle)
      && c.res.jail.Created? && c'.res.files == c.res.files - cfg.ConfigPaths()
  }

  /** A container is said to be bare only if it was adopted, with payloads to come,
      by a `prepare` that found no rootfs. */
  ghost predicate BareMarked(cfg: Config, c: Cell, e: Event, c': Cell)
  {
    c'.res.bare && !c.res.bare ==>
      && e.Tick? && c.manager.Some? && c.manager.value.pc == Working(InPrepare(PAdopt)) && c.res.jail.Created?
      && !c.res.rootfs && (cfg.configs != [] || cfg.secrets != [])
  }

  /** A writer is said to be left over only if one is at work. */
  ghost predicate LeftoversMarked(c: Cell, e: Event, c': Cell)
  {
    c'.life.leftovers && !c.life.leftovers ==> (e.Interrupt? || e.Assign?) && AtWork(c'.res.stray)
  }

  /** A rule is said to come late only if an overtaken one came into force. */
  ghost predicate LateMarked(c: Cell, e: Event, c': Cell)
  {
    (c'.life.lateRule && !c.life.lateRule) || (c'.res.rulesLate && !c.res.rulesLate) ==>
      e.OrphanEnds? && e.ok && e.x.IsAdd() && e.x.late && InForce(c'.res) == InForce(c.res) + 1
  }

  /** A life is said to be overrun only if a create took effect after its removal had
      begun, or a start of an earlier record. */
  ghost predicate OverrunMarked(c: Cell, e: Event, c': Cell)
  {
    c'.life.overrun && !c.life.overrun ==>
      && e.OrphanEnds? && e.ok
      && ((c.life.removal && c'.res.log == c.res.log + [DidCreate])
          || (e.x == JailStart(true) && c'.res.log == c.res.log + [DidStart]))
  }

  /** A removal is said to have begun only if it was asked for. */
  ghost predicate RemovalMarked(c: Cell, e: Event, c': Cell)
    requires Enabled(c, e)
  {
    c'.life.removal && !c.life.removal ==>
      && c'.manager.Some? && c'.manager.value.pc == Removing(XStop)
      && match e
         case Unassign => true
         case Init(_, listed, _) => !listed
         case Interrupt => c.manager.value.queue[0].Remove?
         case _ => false
  }

  ghost predicate Marked(cfg: Config, c: Cell, e: Event, c': Cell)
    requires Enabled(c, e)
  {
    && WritesMarked(c, e, c') && AdvancesCounted(c, c') && RulesMarked(cfg, c, e, c')
    && BundleMarked(cfg, c, e, c') && BareMarked(cfg, c, e, c') && LeftoversMarked(c, e, c')
    && LateMarked(c, e, c') && OverrunMarked(c, e, c') && RemovalMarked(c, e, c')
  }

  /** Every step of any kind. */
  lemma MarksAreTrue(cfg: Config, c: Cell, e: Event)
    requires Enabled(c, e)
    ensures Marked(cfg, c, e, Next(cfg, c, e))
  {
    match e
    case Tick(o) => MarkedByTick(cfg, c, c.manager.value, o);
    case OrphanEnds(x, ok) => MarkedByOrphan(cfg, c, x, ok);
    case Interrupt => MarkedByInterrupt(cfg, c, c.manager.value);
    case _ => MarkedByWorker(cfg, c, e);
  }

  lemma MarkedByWorker(cfg: Config, c: Cell, e: Event)
    requires Enabled(c, e) && !e.Tick? && !e.OrphanEnds? && !e.Interrupt?
    ensures Marked(cfg, c, e, Next(cfg, c, e))
  {
  }

  lemma MarkedByInterrupt(cfg: Config, c: Cell, m: Manager)
    requires c.manager == Some(m) && Enabled(c, Interrupt)
    ensures Marked(cfg, c, Interrupt, Commanded(c, m))
  {
    DroppedWriters(c, m);
    ObeyingBeginsRemovals(Dropped(c, m), m.(pc := Begin));
  }

  /** A command changes nothing else on the node or in the history. */
  lemma ObeyingBeginsRemovals(c: Cell, m: Manager)
    requires m.queue != []
    ensures var c' := Obeyed(c, m);
            && c'.res == c.res && c'.disk == c.disk && c'.life == c.life.(removal := c'.life.removal)
            && (c'.life.removal && !c.life.removal ==>
                  m.queue[0].Remove? && c'.manager.Some? && c'.manager.value.pc == Removing(XStop))
  {
  }

  /** Only the writer of the dropped step joins those left over. */
  lemma DroppedWriters(c: Cell, m: Manager)
    ensures var d := Dropped(c, m);
            && d.life == c.life.(leftovers := d.life.leftovers)
            && d.res == c.res.(stray := d.res.stray, orphans := d.res.orphans)
            && (d.life.leftovers && !c.life.leftovers ==> AtWork(d.res.stray))
  {
    var writers := if m.pc.Working? then WriterOf(m.pc.op) else [];
    if AtWork(writers) {
      var i :| 0 <= i < |writers| && writers[i].Running();
      assert (c.res.stray + writers)[|c.res.stray| + i].Running();
    }
  }

  lemma MarkedByOrphan(cfg: Config, c: Cell, x: Orphan, ok: bool)
    requires c.res.orphans.Has(x)
    ensures Marked(cfg, c, OrphanEnds(x, ok), if ok then OrphanLanded(cfg, c, x) else OrphanLost(c, x))
  {
    if x.IsAdd() && cfg.racct {
      LandingConserves(cfg, c.res, x);
    }
  }

  lemma MarkedByTick(cfg: Config, c: Cell, m: Manager, o: Outcome)
    requires c.manager == Some(m) && Enabled(c, Tick(o))
    ensures Marked(cfg, c, Tick(o), Ticked(cfg, c, m, o))
  {
    match m.pc
    case Begin => DispatchMarksNothing(c, m, D.Dispatch(m.status, m.task.desired));
    case Working(op) =>
      MarksOfStep(cfg, c.res, m.local, m.task.Caps(), op, o);
      MarkedByStep(cfg, c, m, op, o);
    case Removing(pc) => MarkedByRemoval(cfg, c, m, pc, o);
    case _ => MarkedByPublishing(cfg, c, m, o);
  }

  lemma DispatchMarksNothing(c: Cell, m: Manager, action: D.Action)
    ensures var c' := Dispatched(c, m, action); c'.life == c.life.(calls := c'.life.calls) && c'.res == c.res
  {
    match action
    case Idle =>
    case Move(to) =>
    case Invoke(call) => OpeningLeavesTheNode(call, c.res, m.local);
  }

  lemma OpeningLeavesTheNode(call: D.Call, res: Resources, local: Local)
    ensures Opened(call, res, local).res == res
  {
  }

  lemma MarkedByStep(cfg: Config, c: Cell, m: Manager, op: OpPc, o: Outcome)
    requires c.manager == Some(m) && m.pc == Working(op) && Enabled(c, Tick(o))
    requires StepMarks(cfg, c.res, Stepped(cfg, c.res, m.local, m.task.Caps(), op, o).res, op)
    ensures Marked(cfg, c, Tick(o), Ticked(cfg, c, m, o))
  {
  }

  lemma MarkedByRemoval(cfg: Config, c: Cell, m: Manager, pc: RemovePc, o: Outcome)
    requires c.manager == Some(m) && m.pc == Removing(pc) && Enabled(c, Tick(o))
    ensures Marked(cfg, c, Tick(o), Removed(cfg, c, m, pc, o))
  {
  }

  lemma MarkedByPublishing(cfg: Config, c: Cell, m: Manager, o: Outcome)
    requires c.manager == Some(m) && (m.pc.Persist? || m.pc.Report? || m.pc.Backoff?) && Enabled(c, Tick(o))
    ensures Marked(cfg, c, Tick(o), Ticked(cfg, c, m, o))
  {
  }

  /** What a step of an operation may set. */
  predicate StepMarks(cfg: Config, res: Resources, after: Resources, op: OpPc)
  {
    && after.rulesLeft == res.rulesLeft && after.rulesLate == res.rulesLate
    && (after.bare && !res.bare ==>
          op == InPrepare(PAdopt) && res.jail.Created? && !res.rootfs && (cfg.configs != [] || cfg.secrets != []))
  }

  lemma MarksOfStep(cfg: Config, res: Resources, local: Local, limits: Limits, op: OpPc, o: Outcome)
    ensures StepMarks(cfg, res, Stepped(cfg, res, local, limits, op, o).res, op)
  {
    match op
    case InPrepare(pc) => MarksOfPrepare(cfg, res, local, limits, pc, o);
    case InStart(pc) => MarksOfStart(cfg, res, local, pc, o);
    case InWait(pc) => MarksOfWait(cfg, res, local, limits, pc, o);
    case InStop(pc) =>
  }

  lemma MarksOfPrepare(cfg: Config, res: Resources, local: Local, limits: Limits, pc: PreparePc, o: Outcome)
    ensures StepMarks(cfg, res, PrepareTick(cfg, res, local, limits, pc, o).res, InPrepare(pc))
  {
  }

  lemma MarksOfStart(cfg: Config, res: Resources, local: Local, pc: StartPc, o: Outcome)
    ensures StepMarks(cfg, res, StartTick(cfg, res, local, pc, o).res, InStart(pc))
  {
  }

  lemma MarksOfWait(cfg: Config, res: Resources, local: Local, limits: Limits, pc: WaitPc, o: Outcome)
    ensures StepMarks(cfg, res, WaitTick(cfg, res, local, limits, pc, o).res, InWait(pc))
  {
  }

  /** A daemon that dies, or a command that drops a step, leaves behind what was
      launched last: of a removal its `rctl -r`, which then clears the rules as if it
      had been waited for. */
  lemma RemovalLeavesItsClearing(cfg: Config, c: Cell, m: Manager)
    requires c.manager == Some(m) && m.pc == Removing(XLimits) && cfg.racct
    ensures var c' := Next(cfg, c, Crash);
            && Enabled(c', OrphanEnds(RuleClear, true))
            && Next(cfg, c', OrphanEnds(RuleClear, true)).res.rules == NoRules
  {
  }

  lemma StepLeavesItsCommand(cfg: Config, c: Cell, m: Manager, op: OpPc)
    requires c.manager == Some(m) && m.pc == Working(op)
    ensures Next(cfg, c, Crash).res.orphans == Abandoned(c.res.orphans, m.task.Caps(), op)
    ensures m.queue != [] ==>
              Enabled(c, Interrupt) && Next(cfg, c, Interrupt).res.orphans == Abandoned(c.res.orphans, m.task.Caps(), op)
  {
  }
}
