/** All invariants of the protocol together, kept by every event. */
module ProtocolSafety {
  import opened Controller
  import opened Protocol
  import opened ProtocolControl
  import opened ProtocolJail
  import opened ProtocolRules
  import opened ProtocolFiles

  ghost predicate Safe(cfg: Config, c: Cell)
  {
    && Control(c) && JailInv(c) && StartInv(c) && GateInv(cfg, c) && ExitInv(c)
    && RulesInv(cfg, c) && LeanInv(cfg, c) && CrewInv(cfg, c) && FilesInv(cfg, c)
  }

  lemma SafeKept(cfg: Config, c: Cell, e: Event)
    requires cfg.Valid() && Safe(cfg, c) && Enabled(c, e)
    ensures Safe(cfg, Next(cfg, c, e))
  {
    ControlKept(cfg, c, e);
    JailKept(cfg, c, e);
    StartKept(cfg, c, e);
    GateKept(cfg, c, e);
    ExitKept(cfg, c, e);
    RulesKept(cfg, c, e);
    LeanKept(cfg, c, e);
    CrewKept(cfg, c, e);
    FilesKept(cfg, c, e);
  }

  lemma FreshIsSafe(cfg: Config)
    requires cfg.Valid()
    ensures Safe(cfg, Fresh)
  {
    assert Crew(Fresh) == [];
  }
}
