/** Concurrent calls on the task database.  The worker's `put_task`, a task
    manager's `put_status` and a removal are not serialized against each other:
    each is a read, a staging write and a rename, and other calls may fall in
    between.  So may a `list`, which deletes staging files one by one, those of
    calls in flight among them. */
module TaskDbRaces {
  import opened TaskStates
  import opened Protocol
  import opened TaskDb
  import Controller
  import Rctl

  datatype Op =
    | SetTask(id: string, task: TaskDef, seed: TaskState)
    | SetStatus(id: string, status: TaskState)
    | Delete(id: string)

  /** Where a call stands; `record` is what it will write. */
  datatype Stage = ToRead | ToStage(record: Record) | Half(record: Record) | ToRename(record: Record) | Finished {
    predicate HasRead() { ToStage? || Half? || ToRename? }
  }

  datatype Flight = Flight(op: Op, stage: Stage)

  /** The calls of one process; a call's place in `flights` is its staging
      counter. */
  datatype Sys = Sys(pid: nat, dir: Dir, flights: seq<Flight>)

  datatype Event = Begin(op: Op) | Advance(i: nat) | Fail(i: nat) | Sweep(name: string) | Crash(pid: nat)

  predicate Enabled(s: Sys, e: Event)
  {
    match e
    case Begin(op) => Rctl.IsId(op.id)
    case Advance(i) => i < |s.flights| && !s.flights[i].stage.Finished?
    case Fail(i) => i < |s.flights|
    case Sweep(name) => IsStaging(name)
    case Crash(_) => true
  }

  function Tmp(s: Sys, i: nat): string
    requires i < |s.flights|
  {
    StagingName(s.flights[i].op.id, s.pid, i)
  }

  /** What a call would write, were it to act on these records at once. */
  function Wanted(records: map<string, Record>, op: Op): Option<Record>
  {
    match op
    case SetTask(id, task, seed) => Some(Record(task, if id in records then records[id].state else seed))
    case SetStatus(id, status) => if id in records then Some(records[id].(state := status)) else None
    case Delete(_) => None
  }

  /** The call as one atomic update. */
  function Atomically(records: map<string, Record>, op: Op): map<string, Record>
  {
    if op.Delete? then records - {op.id}
    else if Wanted(records, op).Some? then records[op.id := Wanted(records, op).value]
    else records
  }

  function Next(s: Sys, e: Event): Sys
    requires Enabled(s, e)
  {
    match e
    case Begin(op) => s.(flights := s.flights + [Flight(op, ToRead)])
    case Advance(i) => Advanced(s, i)
    case Fail(i) => Moved(s, i, Finished)
    case Sweep(name) => s.(dir := s.dir - {name})
    case Crash(pid) => Sys(pid, s.dir, [])
  }

  function Moved(s: Sys, i: nat, stage: Stage): Sys
    requires i < |s.flights|
  {
    s.(flights := s.flights[i := s.flights[i].(stage := stage)])
  }

  function Advanced(s: Sys, i: nat): Sys
    requires i < |s.flights| && !s.flights[i].stage.Finished?
  {
    var op := s.flights[i].op;
    match s.flights[i].stage
    case ToRead =>
      if op.Delete? then Moved(s.(dir := s.dir - {op.id}), i, Finished)
      else if Wanted(Records(s.dir), op).Some? then Moved(s, i, ToStage(Wanted(Records(s.dir), op).value))
      else Moved(s, i, Finished)
    case ToStage(r) => Moved(s.(dir := Staged(s.dir, Tmp(s, i), Torn)), i, Half(r))
    case Half(r) =>
      // The bytes of a file that was deleted meanwhile are nowhere.
      Moved(s.(dir := if InPlace(s, i) then Staged(s.dir, Tmp(s, i), Whole(op.id, r)) else s.dir), i, ToRename(r))
    case ToRename(_) => Moved(s.(dir := if InPlace(s, i) then Renamed(s.dir, Tmp(s, i), op.id) else s.dir), i, Finished)
  }

  /** The call's staging file is there. */
  predicate InPlace(s: Sys, i: nat)
    requires i < |s.flights|
  {
    Tmp(s, i) in s.dir
  }

  // ---- Records are always whole --------------------------------------------

  /** Every record file holds a whole record of its own task. */
  ghost predicate AllWhole(dir: Dir)
  {
    forall name | name in dir && !IsStaging(name) :: dir[name].Whole? && dir[name].id == name
  }

  /** A call about to rename finds its own record in its staging file, or none. */
  ghost predicate StagedOk(s: Sys, i: nat)
    requires i < |s.flights|
  {
    && Rctl.IsId(s.flights[i].op.id)
    && (s.flights[i].stage.ToRename? && InPlace(s, i) ==>
          s.dir[Tmp(s, i)] == Whole(s.flights[i].op.id, s.flights[i].stage.record))
  }

  ghost predicate Inv(s: Sys)
  {
    AllWhole(s.dir) && forall i :: 0 <= i < |s.flights| ==> StagedOk(s, i)
  }

  /** No step of one call disturbs what another has staged. */
  lemma OthersStayStaged(s: Sys, i: nat, j: nat)
    requires Inv(s) && i < |s.flights| && !s.flights[i].stage.Finished? && j < |s.flights| && i != j
    ensures StagedOk(Advanced(s, i), j)
  {
    assert StagedOk(s, i) && StagedOk(s, j);
    StagingNamesDiffer(s.flights[i].op.id, s.flights[j].op.id, s.pid, i, j);
    StagingNamesDiffer(s.flights[j].op.id, s.flights[i].op.id, s.pid, j, i);
    RecordsAreNotStaging(s.flights[i].op.id);
    assert Tmp(Advanced(s, i), j) == Tmp(s, j);
  }

  /** What a step does to the records: nothing, until the rename or the delete. */
  lemma StepIsAllOrNothing(s: Sys, i: nat)
    requires Inv(s) && i < |s.flights| && !s.flights[i].stage.Finished?
    ensures var s' := Advanced(s, i);
            var op := s.flights[i].op;
            && AllWhole(s'.dir) && StagedOk(s', i)
            && Records(s'.dir) == match s.flights[i].stage {
                 case ToRename(r) => if InPlace(s, i) then Records(s.dir)[op.id := r] else Records(s.dir)
                 case ToRead => if op.Delete? then Records(s.dir) - {op.id} else Records(s.dir)
                 case _ => Records(s.dir)
               }
  {
    assert StagedOk(s, i);
    var op := s.flights[i].op;
    RecordsAreNotStaging(op.id);
    StagingNamesDiffer(op.id, op.id, s.pid, i, i);
  }

  lemma InvKept(s: Sys, e: Event)
    requires Inv(s) && Enabled(s, e)
    ensures Inv(Next(s, e))
  {
    var s' := Next(s, e);
    match e {
      case Advance(i) =>
        StepIsAllOrNothing(s, i);
        forall j | 0 <= j < |s'.flights| ensures StagedOk(s', j) {
          if j != i {
            OthersStayStaged(s, i, j);
          }
        }
      case Begin(op) =>
        forall j | 0 <= j < |s'.flights| ensures StagedOk(s', j) {
          assert j < |s.flights| ==> StagedOk(s, j);
        }
      case Fail(i) =>
        forall j | 0 <= j < |s'.flights| ensures StagedOk(s', j) {
          assert StagedOk(s, j);
        }
      case Sweep(name) =>
        forall j | 0 <= j < |s'.flights| ensures StagedOk(s', j) {
          assert StagedOk(s, j) && Tmp(s', j) == Tmp(s, j);
        }
      case Crash(_) =>
    }
  }

  /** A sweep touches no record. */
  lemma SweepLeavesRecords(s: Sys, name: string)
    requires IsStaging(name)
    ensures Records(Next(s, Sweep(name)).dir) == Records(s.dir)
  {
  }

  // ---- Runs ----------------------------------------------------------------

  ghost predicate Runs(s: Sys, events: seq<Event>)
    decreases |events|
  {
    events != [] ==> Enabled(s, events[0]) && Runs(Next(s, events[0]), events[1..])
  }

  ghost function After(s: Sys, events: seq<Event>): Sys
    requires Runs(s, events)
    decreases |events|
  {
    if events == [] then s else After(Next(s, events[0]), events[1..])
  }

  /** However calls and sweeps interleave, fail or are cut short by crashes, no
      reader ever finds a torn or misplaced record. */
  lemma {:induction false} RecordsStayWhole(s: Sys, events: seq<Event>)
    requires Inv(s) && Runs(s, events)
    ensures Inv(After(s, events))
    decreases |events|
  {
    if events != [] {
      InvKept(s, events[0]);
      RecordsStayWhole(Next(s, events[0]), events[1..]);
    }
  }

  // ---- When calls are atomic -----------------------------------------------

  /** The rename of a call that has something to change is the atomic update it
      stands for exactly if what it read is still what it would read and its file
      is still there.  Without the file it changes nothing. */
  lemma RenameIsAtomicExactlyIfFresh(s: Sys, i: nat)
    requires Inv(s) && i < |s.flights| && s.flights[i].stage.ToRename? && !s.flights[i].op.Delete?
    ensures var records, op := Records(s.dir), s.flights[i].op;
            var after := Records(Advanced(s, i).dir);
            && (Atomically(records, op) != records ==>
                  (after == Atomically(records, op) <==>
                     Wanted(records, op) == Some(s.flights[i].stage.record) && InPlace(s, i)))
            && (InPlace(s, i) ==>
                  (after == Atomically(records, op) <==> Wanted(records, op) == Some(s.flights[i].stage.record)))
            && (!InPlace(s, i) ==> after == records)
  {
    StepIsAllOrNothing(s, i);
    var records, op, r := Records(s.dir), s.flights[i].op, s.flights[i].stage.record;
    var racy, atomic := records[op.id := r], Atomically(records, op);
    if racy == atomic {
      assert racy[op.id] == r && op.id in atomic;
    }
  }

  /** A sweep between staging and rename loses the write of any call whatever. */
  lemma SweepLosesTheWrite(s: Sys, i: nat)
    requires Inv(s) && i < |s.flights| && s.flights[i].stage.ToRename?
    ensures Enabled(s, Sweep(Tmp(s, i)))
    ensures var swept := Next(s, Sweep(Tmp(s, i)));
            && i < |swept.flights| && swept.flights[i].stage.ToRename?
            && Records(Advanced(swept, i).dir) == Records(s.dir) && Advanced(swept, i).flights[i].stage.Finished?
  {
    assert StagedOk(s, i);
    StagingNamesDiffer(s.flights[i].op.id, s.flights[i].op.id, s.pid, i, i);
    SweepLeavesRecords(s, Tmp(s, i));
    InvKept(s, Sweep(Tmp(s, i)));
    StepIsAllOrNothing(Next(s, Sweep(Tmp(s, i))), i);
  }

  /** At most one unfinished call per task. */
  ghost predicate Serial(s: Sys)
  {
    forall i, j :: 0 <= i < j < |s.flights| && !s.flights[i].stage.Finished? && !s.flights[j].stage.Finished? ==>
      s.flights[i].op.id != s.flights[j].op.id
  }

  ghost predicate FreshAt(s: Sys, i: nat)
    requires i < |s.flights|
  {
    s.flights[i].stage.HasRead() ==>
      !s.flights[i].op.Delete? && Wanted(Records(s.dir), s.flights[i].op) == Some(s.flights[i].stage.record)
  }

  ghost predicate AllFresh(s: Sys)
  {
    forall i :: 0 <= i < |s.flights| ==> FreshAt(s, i)
  }

  lemma FreshKept(s: Sys, i: nat, j: nat)
    requires Inv(s) && Serial(s) && AllFresh(s) && i < |s.flights| && !s.flights[i].stage.Finished? && j < |s.flights|
    ensures FreshAt(Advanced(s, i), j)
  {
    StepIsAllOrNothing(s, i);
    assert FreshAt(s, i) && FreshAt(s, j);
  }

  /** A run in which calls on one task never overlap. */
  ghost predicate SerialRun(s: Sys, events: seq<Event>)
    requires Runs(s, events)
    decreases |events|
  {
    Serial(s) && (events != [] ==> SerialRun(Next(s, events[0]), events[1..]))
  }

  lemma AllFreshKept(s: Sys, e: Event)
    requires Inv(s) && Serial(s) && AllFresh(s) && Enabled(s, e)
    ensures AllFresh(Next(s, e))
  {
    var s' := Next(s, e);
    forall j | 0 <= j < |s'.flights| ensures FreshAt(s', j) {
      match e {
        case Advance(i) => FreshKept(s, i, j);
        case Begin(op) => assert j < |s.flights| ==> FreshAt(s, j);
        case Fail(i) => assert FreshAt(s, j);
        case Sweep(name) =>
          SweepLeavesRecords(s, name);
          assert FreshAt(s, j);
        case Crash(_) =>
      }
    }
  }

  lemma {:induction false} FreshAfter(s: Sys, events: seq<Event>)
    requires Inv(s) && AllFresh(s) && Runs(s, events) && SerialRun(s, events)
    ensures Inv(After(s, events)) && AllFresh(After(s, events))
    decreases |events|
  {
    if events != [] {
      InvKept(s, events[0]);
      AllFreshKept(s, events[0]);
      FreshAfter(Next(s, events[0]), events[1..]);
    }
  }

  /** If calls on one task never overlap, every rename is the atomic update of
      its call unless its file was swept, and then it changes nothing: a status on
      disk is kept by `put_task`, and a removed record is not brought back by
      `put_status`. */
  lemma SerialRunsAreAtomic(s: Sys, events: seq<Event>, i: nat)
    requires Inv(s) && AllFresh(s) && Runs(s, events) && SerialRun(s, events)
    requires i < |After(s, events).flights| && After(s, events).flights[i].stage.ToRename?
    ensures var s' := After(s, events);
            Records(Advanced(s', i).dir)
              == if InPlace(s', i) then Atomically(Records(s'.dir), s'.flights[i].op) else Records(s'.dir)
  {
    FreshAfter(s, events);
    var s' := After(s, events);
    assert FreshAt(s', i);
    RenameIsAtomicExactlyIfFresh(s', i);
  }

  // ---- What an overlap can do ----------------------------------------------

  /** A call's read and its two staging writes, undisturbed. */
  function Staging(s: Sys, i: nat): Sys
    requires i < |s.flights| && s.flights[i].stage.ToRead? && !s.flights[i].op.Delete?
    requires Wanted(Records(s.dir), s.flights[i].op).Some?
  {
    Advanced(Advanced(Advanced(s, i), i), i)
  }

  lemma StagingReaches(s: Sys, i: nat)
    requires Inv(s) && i < |s.flights| && s.flights[i].stage.ToRead? && !s.flights[i].op.Delete?
    requires Wanted(Records(s.dir), s.flights[i].op).Some?
    ensures var s' := Staging(s, i);
            && Inv(s') && Records(s'.dir) == Records(s.dir) && |s'.flights| == |s.flights|
            && s'.flights == s.flights[i := Flight(s.flights[i].op, ToRename(Wanted(Records(s.dir), s.flights[i].op).value))]
            && InPlace(s', i) && (forall j :: 0 <= j < |s.flights| && InPlace(s, j) ==> InPlace(s', j))
  {
    var s1 := Advanced(s, i);
    StepIsAllOrNothing(s, i);
    InvKept(s, Advance(i));
    StepIsAllOrNothing(s1, i);
    InvKept(s1, Advance(i));
    StepIsAllOrNothing(Advanced(s1, i), i);
    InvKept(Advanced(s1, i), Advance(i));
  }

  /** No step of one call takes another's staging file away. */
  lemma OthersStayInPlace(s: Sys, i: nat, j: nat)
    requires Inv(s) && i < |s.flights| && !s.flights[i].stage.Finished? && j < |s.flights| && i != j
    ensures InPlace(s, j) ==> InPlace(Advanced(s, i), j)
  {
    assert StagedOk(s, i) && StagedOk(s, j);
    StagingNamesDiffer(s.flights[i].op.id, s.flights[j].op.id, s.pid, i, j);
    StagingNamesDiffer(s.flights[j].op.id, s.flights[i].op.id, s.pid, j, i);
    RecordsAreNotStaging(s.flights[i].op.id);
  }

  function Both(s: Sys, a: Op, b: Op): Sys { Sys(s.pid, s.dir, [Flight(a, ToRead), Flight(b, ToRead)]) }

  /** A `put_task` that reads before a `put_status` is renamed puts the old state
      back, whatever the two states are: the state on disk moves backwards
      whenever the status was an advance. */
  lemma OverlapRegressesTheDisk(s: Sys, id: string, task: TaskDef, seed: TaskState, status: TaskState)
    requires Inv(s) && Rctl.IsId(id) && id in Records(s.dir)
    ensures var s0 := Both(s, SetTask(id, task, seed), SetStatus(id, status));
            var staged := Staging(Staging(s0, 0), 1);
            var reported := Advanced(staged, 1);
            var final := Advanced(reported, 0);
            && id in Records(reported.dir) && Records(reported.dir)[id].state == status
            && id in Records(final.dir) && Records(final.dir)[id] == Record(task, Records(s.dir)[id].state)
  {
    var s0 := Both(s, SetTask(id, task, seed), SetStatus(id, status));
    assert forall i :: 0 <= i < |s0.flights| ==> StagedOk(s0, i);
    StagingReaches(s0, 0);
    var s1 := Staging(s0, 0);
    StagingReaches(s1, 1);
    OneAfterTheOther(Staging(s1, 1));
  }

  /** Two staged calls are renamed, the second one first. */
  lemma OneAfterTheOther(s: Sys)
    requires Inv(s) && |s.flights| == 2 && s.flights[0].stage.ToRename? && s.flights[1].stage.ToRename?
    requires InPlace(s, 0) && InPlace(s, 1) && s.flights[0].op.id == s.flights[1].op.id
    ensures var s' := Advanced(s, 1);
            && s'.flights[0] == s.flights[0]
            && Records(s'.dir) == Records(s.dir)[s.flights[1].op.id := s.flights[1].stage.record]
            && Records(Advanced(s', 0).dir) == Records(s'.dir)[s.flights[0].op.id := s.flights[0].stage.record]
  {
    StepIsAllOrNothing(s, 1);
    InvKept(s, Advance(1));
    OthersStayInPlace(s, 1, 0);
    StepIsAllOrNothing(Advanced(s, 1), 0);
  }

  /** A `put_status` that reads before the record is deleted brings it back. */
  lemma OverlapResurrects(s: Sys, id: string, status: TaskState)
    requires Inv(s) && Rctl.IsId(id) && id in Records(s.dir)
    ensures var s0 := Both(s, SetStatus(id, status), Delete(id));
            var deleted := Advanced(Staging(s0, 0), 1);
            id !in Records(deleted.dir) && id in Records(Advanced(deleted, 0).dir)
  {
    var s0 := Both(s, SetStatus(id, status), Delete(id));
    assert forall i :: 0 <= i < |s0.flights| ==> StagedOk(s0, i);
    StagingReaches(s0, 0);
    var staged := Staging(s0, 0);
    StepIsAllOrNothing(staged, 1);
    InvKept(staged, Advance(1));
    StepIsAllOrNothing(Advanced(staged, 1), 0);
  }
}
