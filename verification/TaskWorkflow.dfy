/**
 The workflow loop.  Between two awaits it is a function of the state: it pops a command and hands
 it to a child workflow, or takes the child's outcome, or takes the outcome of an execution poll.
 Commands may be delivered at every await, in particular while another command is in flight.
 */
module TaskWorkflow {
  import opened Common
  import opened CommandQueue
  import opened TransitionEngine

  datatype Phase =
    | Ready
    | InFlight(command: TaskCommand)
    | Polling
    | Finished
    | Failed(error: Error)

  /** Where every admitted command went. */
  datatype History = History(
    admitted: seq<TaskCommand>,
    accepted: seq<TaskCommand>,
    skipped: seq<TaskCommand>,
    refused: seq<TaskCommand>)

  datatype Flow = Flow(
    core: Core,
    current: Authority,
    terminal: bool,
    executionActive: bool,
    phase: Phase,
    history: History)

  datatype Outcome =
    | Exhausted
    | Refused(code: string)
    | Accepted(next: Authority)

  datatype ExecutionStatus =
    | PREPARED | RUNNING_STEP | SUCCEEDED | STEP_FAILED | TIMED_OUT | CANCELLED | STEP_KILLED
    | COMPENSATING | COMPENSATED | COMPENSATION_FAILED | UNKNOWN

  function FollowupCommand(status: ExecutionStatus): Option<CommandType> {
    match status
    case PREPARED | RUNNING_STEP | COMPENSATING => None
    case SUCCEEDED => Some(VERIFY)
    case STEP_KILLED => Some(KILL)
    case _ => Some(NEEDS_HUMAN)
  }

  function Start(initial: Authority): Flow {
    Flow(EmptyCore, initial, false, false, Ready, History([], [], [], []))
  }

  /** The points at which the loop awaits, so that a delivery may arrive. */
  predicate Open(f: Flow) {
    (f.phase.Ready? && !f.terminal) || f.phase.InFlight? || f.phase.Polling?
  }

  function LowerName(t: CommandType): string {
    match t
    case START => "start" case PAUSE => "pause" case RESUME => "resume" case CANCEL => "cancel"
    case KILL => "kill" case CHECKPOINT => "checkpoint" case VERIFY => "verify"
    case COMPLETE => "complete" case NEEDS_HUMAN => "needs_human"
  }

  function InternalCommand(a: Authority, t: CommandType, now: int): TaskCommand {
    var id := "system:" + LowerName(t) + ":" + a.actionId;
    TaskCommand("agenttrust.orchestrator-command.v1", id, id, a.tenantId, a.taskId, t, a.cursor,
                PayloadOf(t), "service:durable-worker", now)
  }

  // ---------- steps ----------

  /** A command arrives from outside; an error is reported to the caller and changes nothing. */
  function AfterDeliver(f: Flow, c: TaskCommand, now: int): Flow
    requires Open(f)
  {
    var e := AfterCommand(f.core, c, now);
    f.(core := e.core, history := Enqueued(f, c, e.core))
  }

  function Enqueued(f: Flow, c: TaskCommand, core: Core): History {
    if core == f.core then f.history else f.history.(admitted := f.history.admitted + [c])
  }

  /** `_enqueue_internal`: here an error ends the run. */
  function AfterEnqueueInternal(f: Flow, t: CommandType, now: int): Flow {
    var c := InternalCommand(f.current, t, now);
    var e := AfterCommand(f.core, c, now);
    f.(core := e.core,
       phase := if e.raised.Some? then Failed(e.raised.value) else f.phase,
       history := Enqueued(f, c, e.core))
  }

  /** The loop from its head to the next await. */
  function AfterAdvance(f: Flow): Flow
    requires f.phase.Ready?
  {
    if f.terminal then f.(phase := Finished)
    else if f.core.commands == [] then f.(phase := if f.executionActive then Polling else Ready)
    else
      var c := f.core.commands[0];
      var popped := f.(core := Remove(f.core, 0));
      if c.commandId in f.current.processed then
        if f.current.processed[c.commandId] != FingerprintOf(c) then popped.(phase := Failed(IdempotencyConflict))
        else popped.(history := f.history.(skipped := f.history.skipped + [c]))
      else if c.requestKey in f.current.processedKeys then
        if f.current.processedKeys[c.requestKey] != FingerprintOf(c) then popped.(phase := Failed(IdempotencyConflict))
        else popped.(history := f.history.(skipped := f.history.skipped + [c]))
      else popped.(phase := InFlight(c))
  }

  function AfterReject(f: Flow, c: TaskCommand, code: string, now: int): Flow {
    var e := AfterRejection(f.core, c, code, now);
    if e.raised.Some? then f.(core := e.core, phase := Failed(e.raised.value))
    else f.(core := e.core, phase := Ready, history := f.history.(refused := f.history.refused + [c]))
  }

  /** The in-flight command was applied: the new state, and the queue drained if it is terminal. */
  function AfterInstall(f: Flow, c: TaskCommand, next: Authority, now: int): Flow {
    var installed := f.(current := next, terminal := next.terminal, phase := Ready,
                        history := f.history.(accepted := f.history.accepted + [c]));
    if !next.terminal then installed
    else
      var e := AfterRejectingQueued(f.core, now);
      if e.raised.Some? then installed.(core := e.core, phase := Failed(e.raised.value))
      else installed.(core := e.core,
                      history := installed.history.(refused := f.history.refused + f.core.commands))
  }

  function ExecutionFlag(active: bool, c: CommandType, status: Status): bool {
    if c in {PAUSE, CANCEL, KILL, NEEDS_HUMAN} then false
    else if c in {START, RESUME} && status == RUNNING then true
    else active
  }

  /** The child workflow of the in-flight command ends. */
  function AfterComplete(f: Flow, outcome: Outcome, now: int): Flow
    requires f.phase.InFlight?
  {
    var c := f.phase.command;
    match outcome
    case Exhausted => AfterReject(f, c, "ORCHESTRATOR_TRANSITION_DEPENDENCY_EXHAUSTED", now)
    case Refused(code) => AfterReject(f, c, code, now)
    case Accepted(next) =>
      var installed := AfterInstall(f, c, next, now);
      if installed.phase.Failed? then installed
      else
        var flagged := installed.(executionActive := ExecutionFlag(f.executionActive, c.commandType, next.status));
        if c.commandType == VERIFY && next.status == VERIFYING then AfterEnqueueInternal(flagged, COMPLETE, now)
        else flagged
  }

  /** An execution poll ends; None is a failed attempt. */
  function AfterPolled(f: Flow, status: Option<ExecutionStatus>, now: int): Flow
    requires f.phase.Polling?
  {
    var ready := f.(phase := Ready);
    if status.None? || FollowupCommand(status.value).None? then ready
    else AfterEnqueueInternal(ready.(executionActive := false), FollowupCommand(status.value).value, now)
  }

  // ---------- the workflow object ----------

  class Workflow {
    const core: TaskWorkflowCore
    var current: Authority
    var terminal: bool
    var executionActive: bool
    var phase: Phase
    ghost var history: History

    ghost function View(): Flow
      reads this, core
    {
      Flow(core.View(), current, terminal, executionActive, phase, history)
    }

    constructor (initial: Authority)
      ensures View() == Start(initial)
      ensures fresh(core)
    {
      core := new TaskWorkflowCore();
      current, terminal, executionActive, phase := initial, false, false, Ready;
      history := History([], [], [], []);
    }

    method Deliver(c: TaskCommand, now: int) returns (raised: Option<Error>)
      requires Open(View())
      modifies this, core
      ensures View() == AfterDeliver(old(View()), c, now)
      ensures raised == AfterCommand(old(core.View()), c, now).raised
    {
      ghost var before := View();
      raised := core.Command(c, now);
      history := Enqueued(before, c, core.View());
    }

    method EnqueueInternal(t: CommandType, now: int)
      modifies this, core
      ensures View() == AfterEnqueueInternal(old(View()), t, now)
    {
      ghost var before := View();
      var c := InternalCommand(current, t, now);
      var raised := core.Command(c, now);
      if raised.Some? {
        phase := Failed(raised.value);
      }
      history := Enqueued(before, c, core.View());
    }

    method Advance()
      requires phase.Ready?
      modifies this, core
      ensures View() == AfterAdvance(old(View()))
    {
      if terminal {
        phase := Finished;
        return;
      }
      if core.commands == [] {
        if executionActive {
          phase := Polling;
        }
        return;
      }
      var c := core.PopLeft();
      var f := FingerprintOf(c);
      if c.commandId in current.processed {
        if current.processed[c.commandId] != f {
          phase := Failed(IdempotencyConflict);
          return;
        }
        history := history.(skipped := history.skipped + [c]);
        return;
      }
      if c.requestKey in current.processedKeys {
        if current.processedKeys[c.requestKey] != f {
          phase := Failed(IdempotencyConflict);
          return;
        }
        history := history.(skipped := history.skipped + [c]);
        return;
      }
      phase := InFlight(c);
    }

    method Reject(c: TaskCommand, code: string, now: int)
      modifies this, core
      ensures View() == AfterReject(old(View()), c, code, now)
    {
      var raised := core.RecordRejection(c, code, now);
      if raised.Some? {
        phase := Failed(raised.value);
      } else {
        phase := Ready;
        history := history.(refused := history.refused + [c]);
      }
    }

    method Install(c: TaskCommand, next: Authority, now: int)
      modifies this, core
      ensures View() == AfterInstall(old(View()), c, next, now)
    {
      terminal := next.terminal;
      current := next;
      phase := Ready;
      history := history.(accepted := history.accepted + [c]);
      if terminal {
        ghost var drained := core.commands;
        var raised := core.RejectQueuedAfterTerminal(now);
        if raised.Some? {
          phase := Failed(raised.value);
        } else {
          history := history.(refused := history.refused + drained);
        }
      }
    }

    method Complete(outcome: Outcome, now: int)
      requires phase.InFlight?
      modifies this, core
      ensures View() == AfterComplete(old(View()), outcome, now)
    {
      var c := phase.command;
      match outcome {
        case Exhausted =>
          Reject(c, "ORCHESTRATOR_TRANSITION_DEPENDENCY_EXHAUSTED", now);
        case Refused(code) =>
          Reject(c, code, now);
        case Accepted(next) =>
          ghost var before := View();
          Install(c, next, now);
          if phase.Failed? {
            return;
          }
          if c.commandType in {START, RESUME} && next.status == RUNNING {
            executionActive := true;
          }
          if c.commandType in {PAUSE, CANCEL, KILL, NEEDS_HUMAN} {
            executionActive := false;
          }
          assert executionActive == ExecutionFlag(before.executionActive, c.commandType, next.status);
          if c.commandType == VERIFY && next.status == VERIFYING {
            EnqueueInternal(COMPLETE, now);
          }
      }
    }

    method Polled(status: Option<ExecutionStatus>, now: int)
      requires phase.Polling?
      modifies this, core
      ensures View() == AfterPolled(old(View()), status, now)
    {
      phase := Ready;
      if status.None? {
        return;
      }
      var followup := FollowupCommand(status.value);
      if followup.None? {
        return;
      }
      executionActive := false;
      EnqueueInternal(followup.value, now);
    }
  }
}
