/** Commands that a dropped step leaves running (`runner.rs` of the runtime,
    `rctl.rs`): which step leaves which, and what becomes of them. */
module Leftovers {
  import opened TaskStates
  import opened Controller

  /** The command of a dropped step is left running whenever the step could have
      changed the jail, the rootfs or the rules; and if it takes effect at once,
      they are what the step would have made of them. */
  lemma DroppedCommandsLandAsAwaited(cfg: Config, res: Resources, local: Local, limits: Limits, op: OpPc, now: int)
    returns (x: Orphan)
    requires var after := Stepped(cfg, res, local, limits, op, Okay(now)).res;
             after.jail != res.jail || after.rootfs != res.rootfs || after.rules != res.rules
    ensures var left := res.(orphans := Abandoned(res.orphans, limits, op));
            && left.orphans.Has(x)
            && var after, late := Stepped(cfg, res, local, limits, op, Okay(now)).res, Landed(cfg, left, x);
            && late.jail == after.jail && late.rootfs == after.rootfs && late.rules == after.rules
            && late.log == after.log && late.files == after.files
  {
    match op
    case InPrepare(pc) => x := DroppedPrepare(cfg, res, local, limits, pc, now);
    case InStart(pc) => x := DroppedStart(cfg, res, local, limits, pc, now);
    case InWait(pc) => x := DroppedWait(cfg, res, local, limits, pc, now);
  }

  lemma DroppedPrepare(cfg: Config, res: Resources, local: Local, limits: Limits, pc: PreparePc, now: int)
    returns (x: Orphan)
    requires var after := PrepareTick(cfg, res, local, limits, pc, Okay(now)).res;
             after.jail != res.jail || after.rootfs != res.rootfs || after.rules != res.rules
    ensures var left := res.(orphans := Abandoned(res.orphans, limits, InPrepare(pc)));
            && left.orphans.Has(x)
            && var after, late := PrepareTick(cfg, res, local, limits, pc, Okay(now)).res, Landed(cfg, left, x);
            && late.jail == after.jail && late.rootfs == after.rootfs && late.rules == after.rules
            && late.log == after.log && late.files == after.files
  {
    match pc
    case PLayers => x := RootfsClone;
    case PCreate => x := JailCreate;
    case PMemory => x := MemoryAdd(|res.orphans.adds.memory|, false);
    case PCpu => x := CpuAdd(|res.orphans.adds.cpu|, false);
  }

  lemma DroppedStart(cfg: Config, res: Resources, local: Local, limits: Limits, pc: StartPc, now: int)
    returns (x: Orphan)
    requires var after := StartTick(cfg, res, local, pc, Okay(now)).res;
             after.jail != res.jail || after.rootfs != res.rootfs || after.rules != res.rules
    ensures var left := res.(orphans := Abandoned(res.orphans, limits, InStart(pc)));
            && left.orphans.Has(x)
            && var after, late := StartTick(cfg, res, local, pc, Okay(now)).res, Landed(cfg, left, x);
            && late.jail == after.jail && late.rootfs == after.rootfs && late.rules == after.rules
            && late.log == after.log && late.files == after.files
  {
    x := JailStart(false);
  }

  lemma DroppedWait(cfg: Config, res: Resources, local: Local, limits: Limits, pc: WaitPc, now: int)
    returns (x: Orphan)
    requires var after := WaitTick(cfg, res, local, limits, pc, Okay(now)).res;
             after.jail != res.jail || after.rootfs != res.rootfs || after.rules != res.rules
    ensures var left := res.(orphans := Abandoned(res.orphans, limits, InWait(pc)));
            && left.orphans.Has(x)
            && var after, late := WaitTick(cfg, res, local, limits, pc, Okay(now)).res, Landed(cfg, left, x);
            && late.jail == after.jail && late.rootfs == after.rootfs && late.rules == after.rules
            && late.log == after.log && late.files == after.files
  {
    match pc
    case WClear => x := RuleClear;
    case WMemory => x := MemoryAdd(|res.orphans.adds.memory|, false);
    case WCpu => x := CpuAdd(|res.orphans.adds.cpu|, false);
  }

  /** Every rule of a kind, those still to be added counted. */
  function Memories(res: Resources): multiset<int>
  {
    multiset(res.rules.memory) + multiset(res.orphans.adds.memory) + multiset(res.orphans.overtaken.memory)
  }

  function Cpus(res: Resources): multiset<int>
  {
    multiset(res.rules.cpu) + multiset(res.orphans.adds.cpu) + multiset(res.orphans.overtaken.cpu)
  }

  /** A late command is one command.  An `rctl -a` that takes effect is one rule more
      among those in force and one less among those to come. */
  lemma LandingConserves(cfg: Config, res: Resources, x: Orphan)
    requires res.orphans.Has(x) && x.IsAdd() && cfg.racct
    ensures var after := Landed(cfg, res, x);
            && Memories(after) == Memories(res) && Cpus(after) == Cpus(res)
            && |after.rules.memory| + |after.rules.cpu| == |res.rules.memory| + |res.rules.cpu| + 1
  {
    if x.MemoryAdd? {
      MemoryLands(cfg, res, x.i, x.late);
    } else {
      CpuLands(cfg, res, x.i, x.late);
    }
  }

  lemma MemoryLands(cfg: Config, res: Resources, i: nat, late: bool)
    requires res.orphans.Has(MemoryAdd(i, late)) && cfg.racct
    ensures var after := Landed(cfg, res, MemoryAdd(i, late));
            && Memories(after) == Memories(res) && Cpus(after) == Cpus(res)
            && |after.rules.memory| == |res.rules.memory| + 1 && after.rules.cpu == res.rules.cpu
  {
    var from := if late then res.orphans.overtaken.memory else res.orphans.adds.memory;
    TakenOut(from, i);
    assert Landed(cfg, res, MemoryAdd(i, late)).rules.memory == res.rules.memory + [from[i]];
  }

  lemma CpuLands(cfg: Config, res: Resources, i: nat, late: bool)
    requires res.orphans.Has(CpuAdd(i, late)) && cfg.racct
    ensures var after := Landed(cfg, res, CpuAdd(i, late));
            && Memories(after) == Memories(res) && Cpus(after) == Cpus(res)
            && |after.rules.cpu| == |res.rules.cpu| + 1 && after.rules.memory == res.rules.memory
  {
    var from := if late then res.orphans.overtaken.cpu else res.orphans.adds.cpu;
    TakenOut(from, i);
    assert Landed(cfg, res, CpuAdd(i, late)).rules.cpu == res.rules.cpu + [from[i]];
  }

  /** Of the other kinds one less is outstanding. */
  lemma LandingCounts(cfg: Config, res: Resources, x: Orphan)
    requires res.orphans.Has(x)
    ensures Landed(cfg, res, x).orphans == res.orphans.Without(x)
    ensures var o, o' := res.orphans, res.orphans.Without(x);
            && (!x.IsAdd() ==> o'.adds == o.adds && o'.overtaken == o.overtaken)
            && o'.clears + (if x.RuleClear? then 1 else 0) == o.clears
            && o'.creates + (if x.JailCreate? then 1 else 0) == o.creates
            && o'.starts + (if x == JailStart(false) then 1 else 0) == o.starts
            && o'.oldStarts + (if x == JailStart(true) then 1 else 0) == o.oldStarts
            && o'.clones + (if x.RootfsClone? then 1 else 0) == o.clones
  {
  }

  lemma TakenOut(s: seq<int>, i: nat)
    requires i < |s|
    ensures multiset(Drop(s, i)) + multiset{s[i]} == multiset(s)
  {
    assert s == s[..i] + ([s[i]] + s[i + 1..]);
  }
}
