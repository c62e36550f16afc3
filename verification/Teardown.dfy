/** `destroy_rootfs` (`controller.rs`): retry the destruction of a container's
    dataset while a dying jail keeps it busy, for a bounded time. */
module Teardown {
  const RETRY: int := 250
  const BUDGET: int := 30_000
  const UNEXPLAINED: int := 5_000
  const MAX_RETRIES: int := BUDGET / RETRY

  /** What one turn of the loop would find: whether the dataset is there, how
      its destruction ends, whether a prison is seen (a `jls` that fails counts
      as none), and the clock in milliseconds when the prison was looked for,
      when the time without one is measured, and when the budget is checked. */
  datatype Turn = Turn(dataset: Dataset, destroy: Destroy, jail: bool, since: int, looked: int, checked: int) {
    predicate Busy() { dataset.Present? && destroy.StillBusy? }
  }

  datatype Dataset = Absent | Present | Unknown

  datatype Destroy = Destroyed | StillBusy | Refused

  /** The clock never runs backwards, and a turn sleeps before the next. */
  predicate InTime(started: int, turns: seq<Turn>, i: nat)
    requires i < |turns|
  {
    && turns[i].since <= turns[i].looked <= turns[i].checked
    && (if i == 0 then started else turns[i - 1].checked + RETRY) <= turns[i].since
  }

  ghost predicate Timed(started: int, turns: seq<Turn>)
  {
    forall i :: 0 <= i < |turns| ==> InTime(started, turns, i)
  }

  /** The first turn of the stretch without a prison that ends at turn `i`. */
  function GoneFrom(turns: seq<Turn>, i: nat): (k: nat)
    requires i < |turns| && !turns[i].jail
    ensures k <= i && (forall j :: k <= j <= i ==> !turns[j].jail) && (k > 0 ==> turns[k - 1].jail)
  {
    if i == 0 || turns[i - 1].jail then i else GoneFrom(turns, i - 1)
  }

  /** Busy for five seconds with no prison in sight. */
  predicate Unexplained(turns: seq<Turn>, i: nat)
    requires i < |turns|
  {
    !turns[i].jail && turns[i].looked - turns[GoneFrom(turns, i)].since >= UNEXPLAINED
  }

  predicate OverBudget(started: int, turns: seq<Turn>, i: nat)
    requires i < |turns|
  {
    turns[i].checked - started >= BUDGET
  }

  datatype Outcome = Gone | Failed | Deferred

  /** Turn `i` is not the end: the dataset is busy and there is reason to wait. */
  predicate Waits(started: int, turns: seq<Turn>, i: nat)
    requires i < |turns|
  {
    turns[i].Busy() && !Unexplained(turns, i) && !OverBudget(started, turns, i)
  }

  predicate Ends(started: int, turns: seq<Turn>, r: Outcome, last: nat)
    requires last < |turns|
  {
    && (forall i :: 0 <= i < last ==> Waits(started, turns, i))
    && !Waits(started, turns, last)
    && var turn := turns[last];
       match r
       case Gone => turn.dataset.Absent? || (turn.dataset.Present? && turn.destroy.Destroyed?)
       case Failed => turn.dataset.Unknown? || (turn.dataset.Present? && turn.destroy.Refused?)
       case Deferred => turn.Busy()
  }

  /** `destroy_rootfs`: it ends at turn `last`, the first turn that is not busy
      or at which it gives up, within 121 turns.  A busy dataset is deferred,
      never an error. */
  method DestroyRootfs(started: int, turns: seq<Turn>) returns (r: Outcome, last: nat)
    requires Timed(started, turns) && |turns| > MAX_RETRIES
    ensures last <= 120 && Ends(started, turns, r, last)
  {
    last := 0;
    var goneSince: int := 0;
    var gone := false;
    while true
      invariant last <= MAX_RETRIES
      invariant forall i :: 0 <= i < last ==> Waits(started, turns, i)
      invariant gone <==> last > 0 && !turns[last - 1].jail
      invariant gone ==> goneSince == turns[GoneFrom(turns, last - 1)].since
      decreases MAX_RETRIES - last
    {
      var turn := turns[last];
      if turn.dataset.Unknown? {
        return Failed, last;
      }
      if turn.dataset.Absent? {
        return Gone, last;
      }
      match turn.destroy {
        case Destroyed => return Gone, last;
        case Refused => return Failed, last;
        case StillBusy =>
      }
      if turn.jail {
        gone := false;
      } else {
        if !gone {
          gone, goneSince := true, turn.since;
        }
        if turn.looked - goneSince >= UNEXPLAINED {
          return Deferred, last;
        }
      }
      if turn.checked - started >= BUDGET {
        return Deferred, last;
      }
      TurnsTakeTime(started, turns, last);
      assert InTime(started, turns, last);
      last := last + 1;
    }
  }

  /** Turn `i` begins at least `i` sleeps after the start. */
  lemma {:induction false} TurnsTakeTime(started: int, turns: seq<Turn>, i: nat)
    requires Timed(started, turns) && i < |turns|
    ensures turns[i].since - started >= i * RETRY
  {
    assert InTime(started, turns, i);
    if i > 0 {
      assert InTime(started, turns, i - 1);
      TurnsTakeTime(started, turns, i - 1);
    }
  }

  /** The end is determined by what the turns find. */
  lemma EndIsUnique(started: int, turns: seq<Turn>, r: Outcome, last: nat, r': Outcome, last': nat)
    requires last < |turns| && last' < |turns| && Ends(started, turns, r, last) && Ends(started, turns, r', last')
    ensures r == r' && last == last'
  {
  }

  /** The cleanup is deferred only for a dataset that was busy to the last, half a
      minute after the start or with no prison in sight for five seconds. */
  lemma DeferredOnlyInNeed(started: int, turns: seq<Turn>, last: nat)
    requires last < |turns| && Ends(started, turns, Deferred, last)
    ensures forall i :: 0 <= i <= last ==> turns[i].dataset.Present? && turns[i].destroy.StillBusy?
    ensures || turns[last].checked - started >= 30_000
            || exists k :: && 0 <= k <= last && turns[last].looked - turns[k].since >= 5_000
                           && forall j :: k <= j <= last ==> !turns[j].jail
  {
    assert turns[last].Busy();
    forall i | 0 <= i < last ensures turns[i].Busy() {
      assert Waits(started, turns, i);
    }
    if Unexplained(turns, last) {
      var k := GoneFrom(turns, last);
      assert turns[last].looked - turns[k].since >= 5_000;
    }
  }

  /** So it takes five seconds at least to be given up. */
  lemma DeferredOnlyInTime(started: int, turns: seq<Turn>, last: nat)
    requires last < |turns| && Timed(started, turns) && Ends(started, turns, Deferred, last)
    ensures turns[last].checked - started >= 5_000
  {
    DeferredOnlyInNeed(started, turns, last);
    assert InTime(started, turns, last);
    if k :| 0 <= k <= last && turns[last].looked - turns[k].since >= 5_000 && forall j :: k <= j <= last ==> !turns[j].jail {
      TurnsTakeTime(started, turns, k);
    }
  }

  /** While a prison is seen the dataset is given the whole budget: a rootfs that
      comes free within it is destroyed at that turn, not deferred. */
  lemma DyingJailsAreWaitedFor(started: int, turns: seq<Turn>, free: nat, r: Outcome, last: nat)
    requires free < |turns| && last < |turns| && Ends(started, turns, r, last)
    requires forall i :: 0 <= i < free ==> turns[i].Busy() && turns[i].jail && !OverBudget(started, turns, i)
    requires turns[free].dataset.Present? && turns[free].destroy.Destroyed?
    ensures r.Gone? && last == free
  {
    assert forall i :: 0 <= i < free ==> Waits(started, turns, i);
    EndIsUnique(started, turns, r, last, Gone, free);
  }
}
