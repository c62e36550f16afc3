/** The observed and desired task states of SatL and their order
    (`satl-core/src/state.rs`).  Observed states are ordered by the sparse
    numbers of the enum, desired states by declaration order. */
module TaskStates {

  datatype Option<+T> = None | Some(value: T)

  datatype TaskState =
    | New | Pending | Assigned | Accepted | Preparing | Ready | Starting | Running
    | Complete | Shutdown | Failed | Rejected | Remove | Orphaned
  {
    /** The enum discriminant; `<` on states is `<` on these numbers. */
    function Value(): nat
    {
      match this
      case New => 0
      case Pending => 64
      case Assigned => 192
      case Accepted => 256
      case Preparing => 320
      case Ready => 384
      case Starting => 448
      case Running => 512
      case Complete => 576
      case Shutdown => 640
      case Failed => 704
      case Rejected => 768
      case Remove => 800
      case Orphaned => 832
    }

    predicate AtMost(other: TaskState) { Value() <= other.Value() }

    predicate Below(other: TaskState) { Value() < other.Value() }

    predicate IsTerminal()
    {
      Complete? || Shutdown? || Failed? || Rejected? || Orphaned?
    }

    /** How far along the agent's ladder a state is: everything up to ASSIGNED
        is rung 0 and every terminal state is rung 6. */
    function Rung(): (r: nat)
      ensures r <= 6
    {
      match this
      case New => 0
      case Pending => 0
      case Assigned => 0
      case Accepted => 1
      case Preparing => 2
      case Ready => 3
      case Starting => 4
      case Running => 5
      case _ => 6
    }
  }

  /** `TaskState::advance`: a proposed state is taken unless it regresses. */
  function Advance(current: TaskState, proposed: TaskState): (r: Option<TaskState>)
    ensures r.Some? <==> current.AtMost(proposed)
    ensures r.Some? ==> r.value == proposed
  {
    if proposed.Below(current) then None else Some(proposed)
  }

  datatype DesiredState = WantReady | WantRunning | WantComplete | WantShutdown | WantRemove {

    function Rank(): nat
    {
      match this
      case WantReady => 0
      case WantRunning => 1
      case WantComplete => 2
      case WantShutdown => 3
      case WantRemove => 4
    }

    predicate AtMost(other: DesiredState) { Rank() <= other.Rank() }

    predicate WantsStop() { Rank() >= WantShutdown.Rank() }

    function AsTaskState(): TaskState
    {
      match this
      case WantReady => Ready
      case WantRunning => Running
      case WantComplete => Complete
      case WantShutdown => Shutdown
      case WantRemove => Remove
    }
  }

  /** Distinct states never share a number, so `Value` orders them totally. */
  lemma ValueInjective(a: TaskState, b: TaskState)
    requires a.Value() == b.Value()
    ensures a == b
  {
  }
}
