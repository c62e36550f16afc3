/** `do_step` with the whole status it edits (`do_step.rs`): message, error and
    harvested runtime status beside the state. */
module StatusStep {
  import opened TaskStates
  import D = DoStep

  /** `TaskStatus`; `container` and `ports` are whatever the controller reports,
      and `applied` stands for the two fields only the manager sets. */
  datatype TaskStatus = TaskStatus(
    state: TaskState, message: string, err: Option<string>, container: Option<string>, ports: seq<string>,
    timestamp: int, applied: Option<string>)

  datatype Step = Advanced(status: TaskStatus) | Noop | Retry(status: TaskStatus)

  /** What the controller answers during one step: the reply of the call it
      makes, the text of its error or exit, and what it then says of itself. */
  datatype Answer = Answer(reply: D.Reply, text: string, container: Option<string>, ports: seq<string>, note: Option<string>)

  /** `harvest`. */
  function Harvest(status: TaskStatus, a: Answer): TaskStatus
  {
    if status.state.Below(Starting) then status
    else
      var s := if a.container.Some? then status.(container := a.container) else status;
      if a.ports != [] then s.(ports := a.ports) else s
  }

  /** `transition`. */
  method Transition(status: TaskStatus, state: TaskState, message: string, a: Answer) returns (step: Step)
    ensures D.Transition(status.state, state) == Reduced(step)
    ensures step.Advanced? ==> step.status == Harvest(status.(
              state := state, message := Noted(message, a),
              err := if state.Failed? || state.Rejected? then status.err else None), a)
  {
    var next := status;
    match Advance(status.state, state) {
      case None => return Noop;
      case Some(to) =>
        next := next.(state := to);
        next := next.(message := message);
        if !to.Failed? && !to.Rejected? {
          next := next.(err := None);
        }
        if a.note.Some? {
          next := next.(message := message + " (" + a.note.value + ")");
        }
        next := Harvest(next, a);
    }
    step := Advanced(next);
  }

  function Noted(message: string, a: Answer): string
  {
    if a.note.Some? then message + " (" + a.note.value + ")" else message
  }

  /** What each state is announced as. */
  function MessageOf(state: TaskState): string
  {
    match state
    case Accepted => "accepted"
    case Preparing => "preparing"
    case Ready => "prepared"
    case Starting => "starting"
    case Running => "started"
    case Complete => "finished"
    case Shutdown => "shutdown"
    case Failed => "failed"
    case Rejected => "rejected"
    case _ => ""
  }

  /** A step as the state machine sees it. */
  function Reduced(step: Step): D.Verdict
  {
    match step
    case Advanced(s) => D.Advanced(s.state)
    case Noop => D.Noop
    case Retry(_) => D.Retry
  }

  /** `fatal`. */
  method Fatal(status: TaskStatus, a: Answer) returns (step: Step)
    requires a.reply.Broke? && status.state.Below(Complete)
    ensures Reduced(step) == D.Fatal(status.state, a.reply.temporary)
    ensures step.Retry? <==> a.reply.temporary
    ensures !a.reply.temporary ==> step.Advanced? && step.status.state == if status.state.Rung() < 4 then Rejected else Failed
    ensures step.Advanced? ==> Published(status, step.status, a) && step.status.err == Some(a.text)
    ensures step.Retry? ==> step.status == Harvest(status.(err := Some(a.text)), a)
  {
    var next := status.(err := Some(a.text));
    if Starting.AtMost(next.state) {
      next := Harvest(next, a);
    }
    if a.reply.temporary {
      return Retry(next);
    }
    var terminal := if status.state.Below(Starting) then Rejected else Failed;
    step := Transition(next, terminal, if terminal.Rejected? then "rejected" else "failed", a);
  }

  /** An advanced status against the one before it: runtime status is taken from
      the controller at STARTING and beyond, where it has any, and kept
      otherwise; the manager's marks are as `before` has them. */
  ghost predicate Published(before: TaskStatus, after: TaskStatus, a: Answer)
  {
    && after.message == Noted(MessageOf(after.state), a)
    && after.container == (if Starting.AtMost(after.state) && a.container.Some? then a.container else before.container)
    && after.ports == (if Starting.AtMost(after.state) && a.ports != [] then a.ports else before.ports)
    && after.timestamp == before.timestamp && after.applied == before.applied
  }

  /** The match on a controller call's result. */
  method Called(next: TaskStatus, call: D.Call, a: Answer) returns (step: Step)
    requires D.Fits(next.state, call) && D.Answers(call, a.reply)
    ensures Reduced(step) == D.Conclude(next.state, call, a.reply)
    ensures step.Retry? <==> a.reply == D.Broke(true)
    ensures step.Advanced? ==> Published(next, step.status, a) && step.status.err == ErrOf(step.status.state, a)
    ensures step.Retry? ==> step.status == Harvest(next.(err := Some(a.text)), a)
  {
    match a.reply {
      case Broke(_) => step := Fatal(next, a);
      case BadExit => step := Transition(next.(err := Some(a.text)), Failed, "failed", a);
      case Done =>
        match call {
          case CallPrepare => step := Transition(next, Ready, "prepared", a);
          case CallStart => step := Transition(next, TaskState.Running, "started", a);
          case CallWait => step := Transition(next, Complete, "finished", a);
          case CallShutdown => step := Transition(next, TaskState.Shutdown, "shutdown", a);
        }
    }
  }

  /** The error an advanced status carries. */
  function ErrOf(state: TaskState, a: Answer): Option<string>
  {
    if state.Failed? || state.Rejected? then Some(a.text) else None
  }

  /** `do_step`: its state is that of the state machine; an advanced status
      carries an error exactly if it is FAILED or REJECTED, and then it is the
      controller's; a retried one keeps state, message and adds the error. */
  method DoStep(status: TaskStatus, desired: DesiredState, now: int, a: Answer) returns (step: Step)
    requires D.Dispatch(status.state, desired).Invoke? ==> D.Answers(D.Dispatch(status.state, desired).call, a.reply)
    ensures Reduced(step) == D.Step(status.state, desired, a.reply)
    ensures step.Retry? <==> D.Dispatch(status.state, desired).Invoke? && a.reply == D.Broke(true)
    ensures step.Advanced? ==>
              && Published(status.(timestamp := now, applied := None), step.status, a)
              && step.status.err == ErrOf(step.status.state, a)
    ensures step.Retry? ==>
              step.status == Harvest(status.(timestamp := now, applied := None, err := Some(a.text)), a)
  {
    var next := status.(timestamp := now, applied := None);
    var observed := status.state;
    D.DispatchFits(observed, desired);
    if desired.WantsStop() {
      if Complete.AtMost(observed) {
        return Noop;
      }
      step := Called(next, D.CallShutdown, a);
    } else if desired.AsTaskState().Below(observed) {
      return Noop;
    } else if observed.Preparing? {
      step := Called(next, D.CallPrepare, a);
    } else if observed.Starting? {
      step := Called(next, D.CallStart, a);
    } else if observed.Running? {
      step := Called(next, D.CallWait, a);
    } else if desired.AsTaskState().AtMost(observed) {
      return Noop;
    } else {
      match observed {
        case New => step := Transition(next, Accepted, "accepted", a);
        case Pending => step := Transition(next, Accepted, "accepted", a);
        case Assigned => step := Transition(next, Accepted, "accepted", a);
        case Accepted => step := Transition(next, Preparing, "preparing", a);
        case Ready => step := Transition(next, Starting, "starting", a);
        case _ => step := Noop;
      }
    }
  }
}
