/** The rctl rules that name the jail: what one record's life adds to what it
    inherited, and the bound that holds of every state as long as no removal's
    `rctl -r` has failed and no overtaken `rctl -a` has taken effect.  Rules that
    are there and rules that a command left running has still to add are counted
    together. */
module ProtocolRules {
  import opened TaskStates
  import opened Controller
  import opened Protocol
  import opened ProtocolControl
  import opened ProtocolJail
  import D = DoStep

  /** At most one memory and one CPU rule more than `base`, what is still to be
      added included. */
  predicate OneMore(rules: Rules, adds: Rules, base: Rules)
  {
    && |rules.memory| + |adds.memory| <= |base.memory| + 1
    && |rules.cpu| + |adds.cpu| <= |base.cpu| + 1
  }

  /** What an operation in flight knows about the rules, `before` being those
      that were there before the container. */
  predicate RulesSeen(cfg: Config, res: Resources, before: Rules, op: OpPc)
  {
    var rules, adds := res.rules, res.orphans.adds;
    match op
    case InPrepare(pc) =>
      && (pc.PSecrets? || pc.PMemory? ==> rules == before && adds == NoRules)
      && (pc.PCpu? ==> rules.cpu == before.cpu && adds.cpu == [])
    case InWait(pc) =>
      && (pc.WMemory? ==> adds == NoRules && (cfg.racct ==> rules == NoRules))
      && (pc.WCpu? ==> adds.cpu == [] && (cfg.racct ==> rules.cpu == []))
    case _ => true
  }

  // ==== Within one life =====================================================

  predicate RulesOk(cfg: Config, res: Resources, inherited: Rules)
  {
    && (res.jail.Absent? ==> res.rules == inherited && res.orphans.adds == NoRules)
    && OneMore(res.rules, res.orphans.adds, inherited)
    && |res.orphans.adds.memory| <= 1 && |res.orphans.adds.cpu| <= 1
    && (!cfg.racct ==> res.rules == NoRules)
  }

  predicate RulesInv(cfg: Config, c: Cell)
  {
    c.disk.Some? && !c.life.removal && !c.life.lateRule ==>
      && RulesOk(cfg, c.res, c.life.inherited)
      && (c.manager.Some? && c.manager.value.pc.Working? ==>
            RulesSeen(cfg, c.res, c.life.inherited, c.manager.value.pc.op))
  }

  lemma RulesStep(cfg: Config, res: Resources, local: Local, limits: Limits, op: OpPc, o: Outcome, inherited: Rules)
    requires JailSeen(res.jail, op)
    requires op.InWait? ==> !res.jail.Absent?
    requires RulesOk(cfg, res, inherited) && RulesSeen(cfg, res, inherited, op)
    ensures var e := Stepped(cfg, res, local, limits, op, o);
            && RulesOk(cfg, e.res, inherited)
            && (e.onward.Goto? ==> RulesSeen(cfg, e.res, inherited, e.onward.op))
  {
    match op
    case InPrepare(pc) => RulesOfPrepare(cfg, res, local, limits, pc, o);
    case InStart(pc) => StartLeavesRules(cfg, res, local, pc, o);
    case InWait(pc) => RulesOfWait(cfg, res, local, limits, pc, o);
    case InStop(pc) =>
  }

  /** What a step of `prepare` does to the rules: its last two awaits add the
      limits, and the others touch none. */
  predicate PrepareAdds(cfg: Config, rules: Rules, limits: Limits, pc: PreparePc, e: Effect)
  {
    && (e.res.rules == rules
        || (pc.PMemory? && e.res.rules == rules.Plus(MemoryRules(cfg, limits)) && e.onward == Goto(InPrepare(PCpu)))
        || (pc.PCpu? && e.res.rules == rules.Plus(CpuRules(cfg, limits)) && e.onward == Answer(D.Done)))
    && (e.onward.Goto? ==>
          && e.onward.op.InPrepare?
          && (e.onward.op.prepare.PSecrets? ==> pc.PSecrets? || pc.PCreate?)
          && (e.onward.op.prepare.PMemory? ==> pc.PSecrets?)
          && (e.onward.op.prepare.PCpu? ==> pc.PMemory?))
  }

  predicate SameFlags(res: Resources, after: Resources)
  {
    after.rulesLeft == res.rulesLeft && after.rulesLate == res.rulesLate
  }

  lemma RulesOfPrepare(cfg: Config, res: Resources, local: Local, limits: Limits, pc: PreparePc, o: Outcome)
    ensures var e := PrepareTick(cfg, res, local, limits, pc, o);
            && PrepareAdds(cfg, res.rules, limits, pc, e) && SameFlags(res, e.res) && e.res.orphans == res.orphans
            && (e.res.jail == res.jail || (pc.PCreate? && res.jail.Absent? && e.res.jail.Created?))
            && (e.onward.Goto? && e.onward.op.prepare.PSecrets? ==> pc.PSecrets? || res.jail.Absent?)
  {
    LogPrepare(cfg, res, local, limits, pc, o);
    FlagsOfPrepare(cfg, res, local, limits, pc, o);
    AddsOfPrepare(cfg, res, local, limits, pc, o);
  }

  lemma AddsOfPrepare(cfg: Config, res: Resources, local: Local, limits: Limits, pc: PreparePc, o: Outcome)
    ensures PrepareAdds(cfg, res.rules, limits, pc, PrepareTick(cfg, res, local, limits, pc, o))
  {
  }

  lemma FlagsOfPrepare(cfg: Config, res: Resources, local: Local, limits: Limits, pc: PreparePc, o: Outcome)
    ensures var e := PrepareTick(cfg, res, local, limits, pc, o);
            && SameFlags(res, e.res)
            && (e.onward.Goto? && e.onward.op.InPrepare? && e.onward.op.prepare.PSecrets? ==>
                  pc.PSecrets? || res.jail.Absent?)
  {
  }

  lemma StartLeavesRules(cfg: Config, res: Resources, local: Local, pc: StartPc, o: Outcome)
    requires JailSeen(res.jail, InStart(pc))
    ensures var e := StartTick(cfg, res, local, pc, o);
            && e.res.rules == res.rules && SameFlags(res, e.res) && e.res.orphans == res.orphans
            && (e.res.jail.Absent? <==> res.jail.Absent?)
            && (e.onward.Goto? ==> e.onward.op.InStart?)
  {
  }

  /** What a step of `wait` does to them: a resize clears, then adds. */
  predicate WaitAdds(cfg: Config, res: Resources, limits: Limits, pc: WaitPc, e: Effect)
  {
    var rules := res.rules;
    && (|| (e.res.rules == rules && e.res.orphans == res.orphans)
        || (pc.WClear? && e.res.rules == Cleared(cfg, rules) && e.res.orphans == res.orphans.Overtake()
            && e.onward == Goto(InWait(WMemory)))
        || (pc.WMemory? && e.res.rules == rules.Plus(MemoryRules(cfg, limits)) && e.res.orphans == res.orphans
            && e.onward == Goto(InWait(WCpu)))
        || (pc.WCpu? && e.res.rules == rules.Plus(CpuRules(cfg, limits)) && e.res.orphans == res.orphans
            && e.onward == Goto(InWait(WProber))))
    && (e.onward.Goto? ==>
          && e.onward.op.InWait?
          && (e.onward.op.wait.WMemory? ==>
                e.res.rules == Cleared(cfg, rules) && e.res.orphans == res.orphans.Overtake())
          && (e.onward.op.wait.WCpu? ==> pc.WMemory? && e.res.rules == rules.Plus(MemoryRules(cfg, limits))))
  }

  lemma RulesOfWait(cfg: Config, res: Resources, local: Local, limits: Limits, pc: WaitPc, o: Outcome)
    ensures var e := WaitTick(cfg, res, local, limits, pc, o);
            WaitAdds(cfg, res, limits, pc, e) && SameFlags(res, e.res) && e.res.jail == res.jail
  {
  }

  lemma RulesEffected(cfg: Config, c: Cell, m: Manager, call: D.Call, e: Effect)
    requires RulesInv(cfg, c) && c.manager == Some(m)
    requires c.disk.Some? && !c.life.removal && !c.life.lateRule ==>
               && RulesOk(cfg, e.res, c.life.inherited)
               && (e.onward.Goto? ==> RulesSeen(cfg, e.res, c.life.inherited, e.onward.op))
    ensures RulesInv(cfg, Effected(c, m, call, e))
  {
  }

  lemma RulesDispatched(cfg: Config, c: Cell, m: Manager)
    requires RulesInv(cfg, c) && c.manager == Some(m) && m.pc.Begin?
    ensures RulesInv(cfg, Dispatched(c, m, D.Dispatch(m.status, m.task.desired)))
  {
    match D.Dispatch(m.status, m.task.desired)
    case Idle =>
    case Move(to) =>
    case Invoke(call) =>
      var c' := if call.CallShutdown? then c else c.(life := c.life.(calls := c.life.calls + [call]));
      RulesEffected(cfg, c', m, call, Opened(call, c.res, m.local));
  }

  lemma RulesTicked(cfg: Config, c: Cell, m: Manager, o: Outcome)
    requires Control(c) && JailInv(c) && RulesInv(cfg, c) && c.manager == Some(m) && !m.pc.Park?
    ensures RulesInv(cfg, Ticked(cfg, c, m, o))
  {
    match m.pc
    case Begin => RulesDispatched(cfg, c, m);
    case Working(op) =>
      if !c.life.removal && !c.life.lateRule {
        RulesStep(cfg, c.res, m.local, m.task.Caps(), op, o, c.life.inherited);
      }
      RulesEffected(cfg, c, m, op.Call(), Stepped(cfg, c.res, m.local, m.task.Caps(), op, o));
    case _ =>
  }

  lemma RulesApplied(cfg: Config, c: Cell, task: TaskDef, seed: TaskState)
    requires Control(c) && RulesInv(cfg, c) && Enabled(c, Assign(task, seed, true))
    requires !cfg.racct ==> c.res.rules == NoRules
    ensures RulesInv(cfg, Applied(c, task, seed))
  {
  }

  /** A dropped step adds its pending rule to what is still to come, and the
      count stays the same. */
  lemma RulesDropped(cfg: Config, c: Cell, m: Manager)
    requires JailInv(c) && RulesInv(cfg, c) && c.manager == Some(m) && !m.pc.Removing?
    requires Control(c)
    ensures RulesInv(cfg, Dropped(c, m))
  {
    if c.disk.Some? && !c.life.removal && !c.life.lateRule && m.pc.Working? {
      RulesAbandoned(cfg, c.res, m.task.Caps(), m.pc.op, c.life.inherited);
    }
  }

  lemma RulesAbandoned(cfg: Config, res: Resources, limits: Limits, op: OpPc, inherited: Rules)
    requires JailSeen(res.jail, op) && (op.InWait? ==> !res.jail.Absent?)
    requires RulesOk(cfg, res, inherited) && RulesSeen(cfg, res, inherited, op)
    ensures RulesOk(cfg, res.(orphans := Abandoned(res.orphans, limits, op)), inherited)
  {
  }

  lemma RulesObeyed(cfg: Config, c: Cell, m: Manager)
    requires RulesInv(cfg, c) && c.manager == Some(m) && m.queue != [] && m.pc.Begin?
    ensures RulesInv(cfg, Obeyed(c, m))
  {
  }

  lemma RulesCommanded(cfg: Config, c: Cell, m: Manager)
    requires Control(c) && JailInv(c) && RulesInv(cfg, c)
    requires c.manager == Some(m) && m.queue != [] && m.pc.Interruptible()
    ensures RulesInv(cfg, Commanded(c, m))
  {
    RulesDropped(cfg, c, m);
    RulesObeyed(cfg, Dropped(c, m), m.(pc := Begin));
  }

  lemma RulesCrashed(cfg: Config, c: Cell)
    requires Control(c) && JailInv(c) && RulesInv(cfg, c)
    ensures RulesInv(cfg, Crashed(c))
  {
    if c.disk.Some? && !c.life.removal && !c.life.lateRule && c.manager.Some? && c.manager.value.pc.Working? {
      RulesAbandoned(cfg, c.res, c.manager.value.task.Caps(), c.manager.value.pc.op, c.life.inherited);
    }
  }

  /** A rule that was still to be added is there now; one late clear clears what
      was inherited too. */
  lemma RulesLands(cfg: Config, res: Resources, x: Orphan, inherited: Rules)
    requires RulesOk(cfg, res, inherited) && res.orphans.Has(x) && !(x.IsAdd() && x.late && cfg.racct)
    ensures RulesOk(cfg, Landed(cfg, res, x), if x.RuleClear? then Cleared(cfg, inherited) else inherited)
  {
    match x
    case MemoryAdd(i, late) =>
    case CpuAdd(i, late) =>
    case _ =>
  }

  lemma RulesSeenLands(cfg: Config, res: Resources, x: Orphan, before: Rules, op: OpPc)
    requires RulesSeen(cfg, res, before, op) && res.orphans.Has(x) && !(x.IsAdd() && x.late && cfg.racct)
    requires !cfg.racct ==> res.rules == NoRules
    ensures RulesSeen(cfg, Landed(cfg, res, x), if x.RuleClear? then Cleared(cfg, before) else before, op)
  {
    match x
    case MemoryAdd(i, late) =>
    case CpuAdd(i, late) =>
    case _ =>
  }

  lemma RulesLanded(cfg: Config, c: Cell, x: Orphan)
    requires RulesInv(cfg, c) && c.res.orphans.Has(x)
    ensures RulesInv(cfg, OrphanLanded(cfg, c, x))
  {
    if c.disk.Some? && !c.life.removal && !c.life.lateRule && !(x.IsAdd() && x.late && cfg.racct) {
      RulesLands(cfg, c.res, x, c.life.inherited);
      if c.manager.Some? && c.manager.value.pc.Working? {
        RulesSeenLands(cfg, c.res, x, c.life.inherited, c.manager.value.pc.op);
      }
    }
  }

  lemma RulesLost(cfg: Config, c: Cell, x: Orphan)
    requires RulesInv(cfg, c) && c.res.orphans.Has(x)
    ensures RulesInv(cfg, OrphanLost(c, x))
  {
  }

  lemma RulesInitialized(cfg: Config, c: Cell, listed: bool, query: bool)
    requires RulesInv(cfg, c)
    ensures RulesInv(cfg, Initialized(c, listed, query))
  {
  }

  lemma RulesKept(cfg: Config, c: Cell, e: Event)
    requires Control(c) && JailInv(c) && RulesInv(cfg, c) && LeanInv(cfg, c) && Enabled(c, e)
    ensures RulesInv(cfg, Next(cfg, c, e))
  {
    match e
    case Assign(task, seed, ok) => if ok { RulesApplied(cfg, c, task, seed); }
    case Unassign =>
    case CloseDown =>
    case Crash => RulesCrashed(cfg, c);
    case Init(read, listed, query) => if read { RulesInitialized(cfg, c, listed, query); }
    case Interrupt => RulesCommanded(cfg, c, c.manager.value);
    case Tick(o) => RulesTicked(cfg, c, c.manager.value, o);
    case ContainerExits =>
    case Probe(result) =>
    case StrayStep(i, ok) =>
    case OrphanEnds(x, ok) => if ok { RulesLanded(cfg, c, x); } else { RulesLost(cfg, c, x); }
  }

  // ==== Across lives ========================================================

  /** At most one rule of each kind; none without a jail, unless a task on record
      as RUNNING had its limits resized after its jail was gone. */
  predicate LeanOk(cfg: Config, res: Resources, recorded: bool)
  {
    && OneMore(res.rules, res.orphans.adds, NoRules) && (!cfg.racct ==> res.rules == NoRules)
    && (res.jail.Absent? ==> NoneAtAll(res) || recorded)
  }

  /** No rule is there, and none is still to be added in time. */
  predicate NoneAtAll(res: Resources) { res.rules == NoRules && res.orphans.adds == NoRules }

  /** No rule has been left behind by a removal, and none has come too late. */
  predicate Orderly(res: Resources) { !res.rulesLeft && !res.rulesLate }

  /** The awaits of a removal after its `rctl -r`. */
  predicate Purged(pc: RemovePc) { !pc.XStop? && !pc.XLimits? }

  predicate LeanInv(cfg: Config, c: Cell)
  {
    && (!cfg.racct ==> c.res.rules == NoRules)
    && (c.disk.Some? && c.life.inherited != NoRules ==> !Orderly(c.res))
    && (Orderly(c.res) ==>
          && (c.disk.None? ==> NoneAtAll(c.res))
          && LeanOk(cfg, c.res, c.disk.Some? && Recorded(c.disk.value.state))
          && (c.manager.Some? ==>
                && (c.manager.value.pc.Removing? && Purged(c.manager.value.pc.remove) ==> NoneAtAll(c.res))
                && (c.manager.value.pc.Working? ==> RulesSeen(cfg, c.res, NoRules, c.manager.value.pc.op))))
  }

  lemma LeanStep(cfg: Config, res: Resources, local: Local, limits: Limits, op: OpPc, o: Outcome, recorded: bool)
    requires JailSeen(res.jail, op) && RulesSeen(cfg, res, NoRules, op)
    requires LeanOk(cfg, res, recorded)
    requires op.InPrepare? ==> !recorded
    requires op.InWait? ==> recorded || !res.jail.Absent?
    ensures var e := Stepped(cfg, res, local, limits, op, o);
            && LeanOk(cfg, e.res, recorded)
            && (e.onward.Goto? ==> RulesSeen(cfg, e.res, NoRules, e.onward.op))
  {
    match op
    case InPrepare(pc) => RulesOfPrepare(cfg, res, local, limits, pc, o);
    case InStart(pc) => StartLeavesRules(cfg, res, local, pc, o);
    case InWait(pc) => RulesOfWait(cfg, res, local, limits, pc, o);
    case InStop(pc) =>
  }

  lemma NoRacctStep(cfg: Config, res: Resources, local: Local, limits: Limits, op: OpPc, o: Outcome)
    requires JailSeen(res.jail, op)
    ensures var e := Stepped(cfg, res, local, limits, op, o);
            && SameFlags(res, e.res)
            && (!cfg.racct && res.rules == NoRules ==> e.res.rules == NoRules)
  {
    match op
    case InPrepare(pc) => RulesOfPrepare(cfg, res, local, limits, pc, o);
    case InStart(pc) => StartLeavesRules(cfg, res, local, pc, o);
    case InWait(pc) => RulesOfWait(cfg, res, local, limits, pc, o);
    case InStop(pc) =>
  }

  lemma LeanEffected(cfg: Config, c: Cell, m: Manager, call: D.Call, e: Effect)
    requires c.manager == Some(m) && c.disk.Some? && (!cfg.racct ==> e.res.rules == NoRules)
    requires c.life.inherited != NoRules ==> !Orderly(e.res)
    requires Orderly(e.res) ==>
               && LeanOk(cfg, e.res, c.disk.Some? && Recorded(c.disk.value.state))
               && (e.onward.Goto? ==> RulesSeen(cfg, e.res, NoRules, e.onward.op))
    ensures LeanInv(cfg, Effected(c, m, call, e))
  {
  }

  lemma LeanDispatched(cfg: Config, c: Cell, m: Manager)
    requires Control(c) && LeanInv(cfg, c) && c.manager == Some(m) && m.pc.Begin?
    ensures LeanInv(cfg, Dispatched(c, m, D.Dispatch(m.status, m.task.desired)))
  {
    match D.Dispatch(m.status, m.task.desired)
    case Idle =>
    case Move(to) =>
    case Invoke(call) =>
      var c' := if call.CallShutdown? then c else c.(life := c.life.(calls := c.life.calls + [call]));
      LeanEffected(cfg, c', m, call, Opened(call, c.res, m.local));
  }

  lemma LeanWorked(cfg: Config, c: Cell, m: Manager, op: OpPc, o: Outcome)
    requires Control(c) && JailInv(c) && LeanInv(cfg, c) && c.manager == Some(m) && m.pc == Working(op)
    ensures LeanInv(cfg, Effected(c, m, op.Call(), Stepped(cfg, c.res, m.local, m.task.Caps(), op, o)))
  {
    var recorded := c.disk.Some? && Recorded(c.disk.value.state);
    NoRacctStep(cfg, c.res, m.local, m.task.Caps(), op, o);
    if Orderly(c.res) {
      LeanStep(cfg, c.res, m.local, m.task.Caps(), op, o, recorded);
    }
    LeanEffected(cfg, c, m, op.Call(), Stepped(cfg, c.res, m.local, m.task.Caps(), op, o));
  }

  lemma LeanRemoved(cfg: Config, c: Cell, m: Manager, pc: RemovePc, o: Outcome)
    requires Control(c) && LeanInv(cfg, c) && c.manager == Some(m) && m.pc == Removing(pc)
    ensures LeanInv(cfg, Removed(cfg, c, m, pc, o))
  {
  }

  lemma LeanPersisted(cfg: Config, c: Cell, m: Manager, retry: bool, ok: bool)
    requires Control(c) && LeanInv(cfg, c) && c.manager == Some(m) && m.pc == Persist(retry)
    ensures LeanInv(cfg, Persisted(c, m, retry, ok))
  {
  }

  lemma LeanTicked(cfg: Config, c: Cell, m: Manager, o: Outcome)
    requires Control(c) && JailInv(c) && LeanInv(cfg, c) && c.manager == Some(m) && !m.pc.Park?
    ensures LeanInv(cfg, Ticked(cfg, c, m, o))
  {
    match m.pc
    case Begin => LeanDispatched(cfg, c, m);
    case Working(op) => LeanWorked(cfg, c, m, op, o);
    case Persist(retry) => LeanPersisted(cfg, c, m, retry, o.Okay?);
    case Removing(pc) => LeanRemoved(cfg, c, m, pc, o);
    case _ =>
  }

  lemma LeanApplied(cfg: Config, c: Cell, task: TaskDef, seed: TaskState)
    requires Control(c) && LeanInv(cfg, c) && Enabled(c, Assign(task, seed, true))
    ensures LeanInv(cfg, Applied(c, task, seed))
  {
  }

  lemma LeanAbandoned(cfg: Config, res: Resources, limits: Limits, op: OpPc, recorded: bool)
    requires JailSeen(res.jail, op) && RulesSeen(cfg, res, NoRules, op) && LeanOk(cfg, res, recorded)
    requires op.InWait? ==> recorded || !res.jail.Absent?
    ensures LeanOk(cfg, res.(orphans := Abandoned(res.orphans, limits, op)), recorded)
  {
  }

  lemma LeanDropped(cfg: Config, c: Cell, m: Manager)
    requires Control(c) && JailInv(c) && LeanInv(cfg, c) && c.manager == Some(m) && m.pc.Interruptible()
    ensures LeanInv(cfg, Dropped(c, m))
  {
    if Orderly(c.res) && m.pc.Working? {
      LeanAbandoned(cfg, c.res, m.task.Caps(), m.pc.op, c.disk.Some? && Recorded(c.disk.value.state));
    }
  }

  lemma LeanObeyed(cfg: Config, c: Cell, m: Manager)
    requires LeanInv(cfg, c) && c.manager == Some(m) && m.queue != [] && m.pc.Begin?
    ensures LeanInv(cfg, Obeyed(c, m))
  {
  }

  lemma LeanCommanded(cfg: Config, c: Cell, m: Manager)
    requires Control(c) && JailInv(c) && LeanInv(cfg, c)
    requires c.manager == Some(m) && m.queue != [] && m.pc.Interruptible()
    ensures LeanInv(cfg, Commanded(c, m))
  {
    LeanDropped(cfg, c, m);
    LeanObeyed(cfg, Dropped(c, m), m.(pc := Begin));
  }

  lemma LeanCrashed(cfg: Config, c: Cell)
    requires Control(c) && JailInv(c) && LeanInv(cfg, c)
    ensures LeanInv(cfg, Crashed(c))
  {
    if Orderly(c.res) && c.manager.Some? && c.manager.value.pc.Working? {
      LeanAbandoned(cfg, c.res, c.manager.value.task.Caps(), c.manager.value.pc.op,
                    c.disk.Some? && Recorded(c.disk.value.state));
    }
  }

  lemma LeanLanded(cfg: Config, c: Cell, x: Orphan)
    requires LeanInv(cfg, c) && c.res.orphans.Has(x)
    ensures LeanInv(cfg, OrphanLanded(cfg, c, x))
  {
    if x.IsAdd() {
      LeanAdded(cfg, c, x);
    } else if x.RuleClear? {
      LeanCleared(cfg, c);
    } else {
      LeanUntouched(cfg, c, x);
    }
  }

  /** A rule that was counted before it came. */
  lemma LeanAdded(cfg: Config, c: Cell, x: Orphan)
    requires LeanInv(cfg, c) && x.IsAdd() && c.res.orphans.Has(x)
    ensures LeanInv(cfg, OrphanLanded(cfg, c, x))
  {
    if Orderly(OrphanLanded(cfg, c, x).res) && c.manager.Some? && c.manager.value.pc.Working? {
      RulesSeenLands(cfg, c.res, x, NoRules, c.manager.value.pc.op);
    }
  }

  lemma LeanCleared(cfg: Config, c: Cell)
    requires LeanInv(cfg, c) && c.res.orphans.Has(RuleClear)
    ensures LeanInv(cfg, OrphanLanded(cfg, c, RuleClear))
  {
  }

  lemma LeanUntouched(cfg: Config, c: Cell, x: Orphan)
    requires LeanInv(cfg, c) && !x.IsAdd() && !x.RuleClear? && c.res.orphans.Has(x)
    ensures LeanInv(cfg, OrphanLanded(cfg, c, x))
  {
    LandsBeside(cfg, c.res, x);
    LeanAlike(cfg, c, OrphanLanded(cfg, c, x));
  }

  /** What happens to the jail and its rootfs leaves the rules alone. */
  lemma LandsBeside(cfg: Config, res: Resources, x: Orphan)
    requires res.orphans.Has(x) && !x.IsAdd() && !x.RuleClear?
    ensures var after := Landed(cfg, res, x);
            && after.rules == res.rules && after.orphans.adds == res.orphans.adds && SameFlags(res, after)
            && (after.jail.Absent? ==> res.jail.Absent?)
  {
  }

  lemma LeanAlike(cfg: Config, c: Cell, c': Cell)
    requires LeanInv(cfg, c) && c'.disk == c.disk && c'.manager == c.manager && c'.life.inherited == c.life.inherited
    requires c'.res.rules == c.res.rules && c'.res.orphans.adds == c.res.orphans.adds && SameFlags(c.res, c'.res)
    requires c'.res.jail.Absent? ==> c.res.jail.Absent?
    ensures LeanInv(cfg, c')
  {
  }

  lemma LeanLost(cfg: Config, c: Cell, x: Orphan)
    requires LeanInv(cfg, c) && c.res.orphans.Has(x)
    ensures LeanInv(cfg, OrphanLost(c, x))
  {
  }

  lemma LeanInitialized(cfg: Config, c: Cell, listed: bool, query: bool)
    requires Control(c) && LeanInv(cfg, c) && !c.up
    ensures LeanInv(cfg, Initialized(c, listed, query))
  {
  }

  lemma LeanKept(cfg: Config, c: Cell, e: Event)
    requires Control(c) && JailInv(c) && LeanInv(cfg, c) && Enabled(c, e)
    ensures LeanInv(cfg, Next(cfg, c, e))
  {
    match e
    case Assign(task, seed, ok) => if ok { LeanApplied(cfg, c, task, seed); }
    case Unassign =>
    case CloseDown =>
    case Crash => LeanCrashed(cfg, c);
    case Init(read, listed, query) => if read { LeanInitialized(cfg, c, listed, query); }
    case Interrupt => LeanCommanded(cfg, c, c.manager.value);
    case Tick(o) => LeanTicked(cfg, c, c.manager.value, o);
    case ContainerExits =>
    case Probe(result) =>
    case StrayStep(i, ok) =>
    case OrphanEnds(x, ok) => if ok { LeanLanded(cfg, c, x); } else { LeanLost(cfg, c, x); }
  }
}
