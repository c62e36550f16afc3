/** The one-step task state machine (`satl-agent/src/do_step.rs`): which single
    operation the agent performs for an (observed, desired) pair, and what its
    outcome makes of the reported status. */
module DoStep {
  import opened TaskStates

  datatype Call = CallPrepare | CallStart | CallWait | CallShutdown

  /** What `do_step` decides before it awaits anything. */
  datatype Action = Idle | Move(to: TaskState) | Invoke(call: Call)

  /** How a controller call ends: done (for `wait`: exit code 0), a container
      exit that is not code 0 (only `wait`), or an error. */
  datatype Reply = Done | BadExit | Broke(temporary: bool)

  /** `Step`, reduced to the state it carries. */
  datatype Verdict = Advanced(state: TaskState) | Noop | Retry

  /** The decision order of `do_step`. */
  function Dispatch(observed: TaskState, desired: DesiredState): Action
  {
    if desired.WantsStop() then
      if Complete.AtMost(observed) then Idle else Invoke(CallShutdown)
    else if desired.AsTaskState().Below(observed) then
      Idle
    else if observed == Preparing then
      Invoke(CallPrepare)
    else if observed == Starting then
      Invoke(CallStart)
    else if observed == Running then
      Invoke(CallWait)
    else if desired.AsTaskState().AtMost(observed) then
      Idle
    else
      match observed
      case New => Move(Accepted)
      case Pending => Move(Accepted)
      case Assigned => Move(Accepted)
      case Accepted => Move(Preparing)
      case Ready => Move(Starting)
      case _ => Idle
  }

  /** `transition`: refuse a regression, otherwise advance. */
  function Transition(from: TaskState, to: TaskState): Verdict
  {
    match Advance(from, to)
    case Some(state) => Advanced(state)
    case None => Noop
  }

  /** `fatal`: a temporary error retries, anything else is terminal. */
  function Fatal(observed: TaskState, temporary: bool): Verdict
  {
    if temporary then Retry
    else Transition(observed, if observed.Below(Starting) then Rejected else Failed)
  }

  /** What the reply of a controller call turns into. */
  function Conclude(observed: TaskState, call: Call, reply: Reply): Verdict
  {
    match reply
    case Broke(temporary) => Fatal(observed, temporary)
    case BadExit => Transition(observed, Failed)
    case Done =>
      Transition(observed,
                 match call
                 case CallPrepare => Ready
                 case CallStart => TaskState.Running
                 case CallWait => Complete
                 case CallShutdown => TaskState.Shutdown)
  }

  /** The only reply a call other than `wait` cannot give is a container exit. */
  predicate Answers(call: Call, reply: Reply)
  {
    reply.BadExit? ==> call.CallWait?
  }

  /** One whole step, the reply of the controller given. */
  function Step(observed: TaskState, desired: DesiredState, reply: Reply): Verdict
  {
    match Dispatch(observed, desired)
    case Idle => Noop
    case Move(to) => Transition(observed, to)
    case Invoke(call) => Conclude(observed, call, reply)
  }

  // ---- What the decision table amounts to ----------------------------------

  /** The state each controller call belongs to. */
  function HomeOf(call: Call): TaskState
    requires !call.CallShutdown?
  {
    match call
    case CallPrepare => Preparing
    case CallStart => Starting
    case CallWait => Running
  }

  /** The edges of the agent's state graph. */
  predicate Edge(from: TaskState, to: TaskState)
  {
    match from
    case New => to.Accepted? || to.Shutdown? || to.Rejected?
    case Pending => to.Accepted? || to.Shutdown? || to.Rejected?
    case Assigned => to.Accepted? || to.Shutdown? || to.Rejected?
    case Accepted => to.Preparing? || to.Shutdown? || to.Rejected?
    case Preparing => to.Ready? || to.Shutdown? || to.Rejected?
    case Ready => to.Starting? || to.Shutdown? || to.Rejected?
    case Starting => to.Running? || to.Shutdown? || to.Failed?
    case Running => to.Complete? || to.Shutdown? || to.Failed?
    case _ => false
  }

  /** A call is made only where it belongs: `shutdown` below COMPLETE, the others
      in their own state; a bookkeeping move is an edge. */
  lemma DispatchFits(observed: TaskState, desired: DesiredState)
    ensures var a := Dispatch(observed, desired);
            && (a.Move? ==> Edge(observed, a.to))
            && (a.Invoke? ==> Fits(observed, a.call))
  {
  }

  predicate Fits(observed: TaskState, call: Call)
  {
    if call.CallShutdown? then observed.Below(Complete) else observed == HomeOf(call)
  }

  lemma ConcludeFollowsAnEdge(observed: TaskState, call: Call, reply: Reply)
    requires Fits(observed, call) && Answers(call, reply)
    ensures var v := Conclude(observed, call, reply); v.Advanced? ==> Edge(observed, v.state)
  {
  }

  /** Whatever the desired state and the reply, a step that advances follows an
      edge of the graph: exactly one rung up, or to a terminal state. */
  lemma StepFollowsAnEdge(observed: TaskState, desired: DesiredState, reply: Reply)
    requires Dispatch(observed, desired).Invoke? ==> Answers(Dispatch(observed, desired).call, reply)
    ensures Step(observed, desired, reply).Advanced? ==>
              Edge(observed, Step(observed, desired, reply).state)
  {
    DispatchFits(observed, desired);
    var a := Dispatch(observed, desired);
    if a.Invoke? {
      ConcludeFollowsAnEdge(observed, a.call, reply);
    }
  }

  lemma EdgeClimbs(from: TaskState, to: TaskState)
    requires Edge(from, to)
    ensures from.Below(to) && from.Rung() < to.Rung()
    ensures to.Rung() == from.Rung() + 1 || to.IsTerminal()
    ensures to.AtMost(Rejected) && to != TaskState.Remove
  {
  }

  /** Every edge of the graph is taken by some desired state and some reply. */
  lemma EveryEdgeIsTaken(from: TaskState, to: TaskState) returns (desired: DesiredState, reply: Reply)
    requires Edge(from, to)
    ensures Step(from, desired, reply) == Advanced(to)
    ensures Dispatch(from, desired).Invoke? ==> Answers(Dispatch(from, desired).call, reply)
  {
    if to == TaskState.Shutdown {
      desired, reply := WantShutdown, Done;
    } else if to.Rejected? || to.Failed? {
      desired, reply := WantShutdown, Broke(false);
    } else {
      desired, reply := WantRunning, Done;
    }
  }

  /** A step does nothing exactly for a finished task, or below the stop states
      for one that has reached the desired state and is not in flight. */
  lemma IdleExactlyWhenParked(observed: TaskState, desired: DesiredState)
    ensures Dispatch(observed, desired).Idle? <==>
              Complete.AtMost(observed)
              || (!desired.WantsStop() && desired.AsTaskState().Below(observed))
              || (!desired.WantsStop() && desired.AsTaskState() == observed && observed == Ready)
  {
    ValueInjectiveAll();
  }

  lemma ValueInjectiveAll()
    ensures forall a: TaskState, b: TaskState :: a.Value() == b.Value() ==> a == b
  {
    forall a: TaskState, b: TaskState | a.Value() == b.Value() ensures a == b {
      ValueInjective(a, b);
    }
  }

  /** A stop request outranks everything else: the only call is `shutdown`, and
      the only way on is a terminal state. */
  lemma StopWins(observed: TaskState, desired: DesiredState, reply: Reply)
    requires desired.WantsStop() && !reply.BadExit?
    ensures Dispatch(observed, desired) == Idle || Dispatch(observed, desired) == Invoke(CallShutdown)
    ensures Step(observed, desired, reply).Advanced? ==> Step(observed, desired, reply).state.IsTerminal()
  {
  }

  /** And only SHUTDOWN and REMOVE are stop requests: `shutdown` is called exactly
      then, of a task that is not finished. */
  lemma StopExactly(observed: TaskState, desired: DesiredState)
    ensures Dispatch(observed, desired) == Invoke(CallShutdown) <==>
              (desired.WantShutdown? || desired.WantRemove?) && observed.Rung() < 6
  {
  }

  // ---- Failures ------------------------------------------------------------

  /** A step is tried again exactly if a call is made and meets a temporary error. */
  lemma RetryExactly(observed: TaskState, desired: DesiredState, reply: Reply)
    ensures Step(observed, desired, reply) == Retry <==> Dispatch(observed, desired).Invoke? && reply == Broke(true)
  {
    DispatchFits(observed, desired);
  }

  /** A call that is made ends the task for any other error, REJECTED if it has not
      come to STARTING and FAILED if it has, and for a bad exit FAILED. */
  lemma FailureExactly(observed: TaskState, desired: DesiredState)
    requires Dispatch(observed, desired).Invoke?
    ensures Step(observed, desired, Broke(false))
         == Advanced(if observed == Starting || observed == Running then Failed else Rejected)
    ensures Dispatch(observed, desired).call.CallWait? ==> Step(observed, desired, BadExit) == Advanced(Failed)
  {
    DispatchFits(observed, desired);
  }

  // ---- A controller that always succeeds -----------------------------------

  function Settle(observed: TaskState, desired: DesiredState, steps: nat): TaskState
    decreases steps
  {
    if steps == 0 then observed
    else
      match Step(observed, desired, Done)
      case Advanced(next) => Settle(next, desired, steps - 1)
      case _ => observed
  }

  /** Where a task ends up: parked at READY while that is what is wanted,
      otherwise run to completion, or stopped. */
  function RestingState(observed: TaskState, desired: DesiredState): TaskState
  {
    if Complete.AtMost(observed) then observed
    else if desired.WantsStop() then TaskState.Shutdown
    else if desired == WantReady then (if observed.AtMost(Ready) then Ready else observed)
    else Complete
  }

  lemma RestIsStable(observed: TaskState, desired: DesiredState)
    ensures Step(RestingState(observed, desired), desired, Done) == Noop
  {
    var rest := RestingState(observed, desired);
    if desired.WantsStop() {
      StopRests(rest, desired);
    } else {
      RunSteps(rest, desired);
    }
  }

  lemma StepsKeepTheirRest(observed: TaskState, desired: DesiredState)
    ensures var step := Step(observed, desired, Done);
            RestingState(observed, desired) == if step.Advanced? then RestingState(step.state, desired) else observed
  {
    if desired.WantsStop() {
      StopRests(observed, desired);
    } else {
      RunRests(observed, desired);
    }
  }

  lemma StopRests(observed: TaskState, desired: DesiredState)
    requires desired.WantsStop()
    ensures Step(observed, desired, Done) == if Complete.AtMost(observed) then Noop else Advanced(TaskState.Shutdown)
  {
  }

  /** The next state up the ladder. */
  function Successor(observed: TaskState): TaskState
  {
    match observed
    case Accepted => Preparing
    case Preparing => Ready
    case Ready => Starting
    case Starting => TaskState.Running
    case Running => Complete
    case _ => Accepted
  }

  predicate Rests(observed: TaskState, desired: DesiredState)
  {
    Complete.AtMost(observed) || (desired.WantReady? && Ready.AtMost(observed))
  }

  lemma RunDispatches(observed: TaskState, desired: DesiredState)
    requires !desired.WantsStop()
    ensures Dispatch(observed, desired) ==
              if Rests(observed, desired) then Idle
              else match observed
                   case Preparing => Invoke(CallPrepare)
                   case Starting => Invoke(CallStart)
                   case Running => Invoke(CallWait)
                   case _ => Move(Successor(observed))
  {
  }

  lemma RunSteps(observed: TaskState, desired: DesiredState)
    requires !desired.WantsStop()
    ensures Step(observed, desired, Done) == if Rests(observed, desired) then Noop else Advanced(Successor(observed))
  {
    RunDispatches(observed, desired);
  }

  lemma RunRests(observed: TaskState, desired: DesiredState)
    requires !desired.WantsStop()
    ensures var step := Step(observed, desired, Done);
            RestingState(observed, desired) == if step.Advanced? then RestingState(step.state, desired) else observed
  {
    RunSteps(observed, desired);
  }

  /** From any state and for any desired state, six successful steps reach the
      resting state, and no further step moves it. */
  lemma {:induction false} SettlesWithinSixSteps(observed: TaskState, desired: DesiredState, steps: nat)
    requires steps >= 6 - observed.Rung()
    ensures Settle(observed, desired, steps) == RestingState(observed, desired)
    ensures Step(RestingState(observed, desired), desired, Done) == Noop
    decreases 6 - observed.Rung()
  {
    RestIsStable(observed, desired);
    StepsKeepTheirRest(observed, desired);
    var step := Step(observed, desired, Done);
    if step.Advanced? {
      StepFollowsAnEdge(observed, desired, Done);
      EdgeClimbs(observed, step.state);
      SettlesWithinSixSteps(step.state, desired, steps - 1);
    } else {
      SettleStops(observed, desired, steps);
    }
  }

  lemma SettleStops(observed: TaskState, desired: DesiredState, steps: nat)
    requires !Step(observed, desired, Done).Advanced?
    ensures Settle(observed, desired, steps) == observed
  {
  }
}
