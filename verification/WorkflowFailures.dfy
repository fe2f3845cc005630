/**
 When a run of the workflow loop raises, and with which error.  A delivery never ends the run; what
 does is a popped or refused command that contradicts what is recorded under its id or key, a full
 history, or an internal command that is not admitted.
 */
module WorkflowFailures {
  import opened Common
  import opened CommandQueue
  import opened CommandQueueLaws
  import opened TransitionEngine
  import opened TaskWorkflow
  import opened TaskWorkflowLaws
  import opened WorkflowQueue

  // ---------- the conditions ----------

  /** Another command was applied under the id, or else under the key. */
  predicate ClashesWithApplied(a: Authority, c: TaskCommand) {
    if c.commandId in a.processed then a.processed[c.commandId] != FingerprintOf(c)
    else Conflicts(a.processedKeys, c.requestKey, FingerprintOf(c))
  }

  /** Another command is recorded as rejected under the id or the key. */
  predicate ClashesWithRejected(core: Core, c: TaskCommand) {
    Conflicts(core.rejected, c.commandId, FingerprintOf(c)) || Conflicts(core.rejectedKeys, c.requestKey, FingerprintOf(c))
  }

  /** Why a command is not admitted. */
  function AdmissionError(core: Core, c: TaskCommand, now: int): Option<Error> {
    if !ValidCommand(c, now) then Some(CommandInvalid)
    else if IsQueued(core, c) then (if QueuedAs(core, c) then None else Some(IdempotencyConflict))
    else if IsRejected(core, c) then Some(if RejectedAs(core, c) then PreviouslyRejected else IdempotencyConflict)
    else if Saturated(core, c) then Some(HistorySaturated)
    else None
  }

  function RefusalError(f: Flow): Option<Error>
    requires f.phase.InFlight?
  {
    if ClashesWithRejected(f.core, f.phase.command) then Some(IdempotencyConflict)
    else if |f.core.rejected| >= 1024 && !IsRejected(f.core, f.phase.command) then Some(HistoryInvariantBroken)
    else None
  }

  function DrainError(core: Core): Option<Error> {
    if exists i :: 0 <= i < |core.commands| && ClashesWithRejected(core, core.commands[i]) then Some(IdempotencyConflict)
    else None
  }

  /** The error, if any, that an event ends the run with. */
  function FailureOf(f: Flow, e: Event): Option<Error>
    requires Enabled(f, e)
  {
    match e
    case Delivery(_, _) => None
    case Loop =>
      if !f.terminal && f.core.commands != [] && ClashesWithApplied(f.current, f.core.commands[0])
      then Some(IdempotencyConflict) else None
    case ChildEnds(Accepted(next), now) =>
      if next.terminal then DrainError(f.core)
      else if f.phase.command.commandType == VERIFY && next.status == VERIFYING then
        AdmissionError(f.core, InternalCommand(next, COMPLETE, now), now)
      else None
    case ChildEnds(_, _) => RefusalError(f)
    case PollEnds(status, now) =>
      if status.None? || FollowupCommand(status.value).None? then None
      else AdmissionError(f.core, InternalCommand(f.current, FollowupCommand(status.value).value, now), now)
  }

  // ---------- one operation at a time ----------

  lemma AdmissionRaises(core: Core, c: TaskCommand, now: int)
    requires CoreAgrees(core)
    ensures AfterCommand(core, c, now).raised == AdmissionError(core, c, now)
  {
    EvictionIsUnreachable(core, c, now);
    KnownOfAny(core, c);
  }

  lemma RecordRaises(core: Core, c: TaskCommand, code: string, at: int)
    requires RejectedAgrees(core)
    ensures AfterRejection(core, c, code, at).raised
      == if ClashesWithRejected(core, c) then Some(IdempotencyConflict)
         else if |core.rejected| >= 1024 && !IsRejected(core, c) then Some(HistoryInvariantBroken)
         else None
  {
    RejectedSizes(core);
    RejectedLinks(core);
  }

  /** What is recorded of one queued command does not concern the others. */
  lemma RecordKeepsClashes(core: Core, c: TaskCommand, d: TaskCommand, code: string, at: int)
    requires AfterRejection(core, c, code, at).raised.None?
    requires c.commandId != d.commandId && c.requestKey != d.requestKey
    ensures ClashesWithRejected(AfterRejection(core, c, code, at).core, d) <==> ClashesWithRejected(core, d)
  {
  }

  lemma {:induction false} HeadIsDistinct(cs: seq<TaskCommand>, i: nat)
    requires Distinct(cs) && 0 < i < |cs|
    ensures cs[0].commandId != cs[i].commandId && cs[0].requestKey != cs[i].requestKey
  {
    MapMembers(cs[1..]);
    assert cs[1..][i - 1] == cs[i];
  }

  lemma HeadKeepsClashes(core: Core, at: int)
    requires CoreAgrees(core) && core.commands != []
    requires RejectHead(core, "ORCHESTRATOR_TASK_TERMINATED", at).raised.None?
    ensures var next := RejectHead(core, "ORCHESTRATOR_TASK_TERMINATED", at).core;
      next.commands == core.commands[1..]
      && forall i | 0 <= i < |next.commands| ::
           ClashesWithRejected(next, next.commands[i]) <==> ClashesWithRejected(core, core.commands[i + 1])
  {
    PoppedAgrees(core, at);
    var next := RejectHead(core, "ORCHESTRATOR_TASK_TERMINATED", at).core;
    forall i | 0 <= i < |next.commands|
      ensures ClashesWithRejected(next, next.commands[i]) <==> ClashesWithRejected(core, core.commands[i + 1])
    {
      HeadIsDistinct(core.commands, i + 1);
      RecordKeepsClashes(Remove(core, 0), core.commands[0], core.commands[i + 1], "ORCHESTRATOR_TASK_TERMINATED", at);
    }
  }

  lemma HeadCapacity(core: Core, at: int)
    requires CoreAgrees(core) && core.commands != [] && RejectionCapacity(core) <= 1024
    ensures RejectHead(core, "ORCHESTRATOR_TASK_TERMINATED", at).raised
      == if ClashesWithRejected(core, core.commands[0]) then Some(IdempotencyConflict) else None
    ensures var e := RejectHead(core, "ORCHESTRATOR_TASK_TERMINATED", at);
      e.raised.None? ==> CoreAgrees(e.core) && RejectionCapacity(e.core) <= 1024
  {
    var rest := Remove(core, 0);
    PopEffect(core);
    RecordRaises(rest, core.commands[0], "ORCHESTRATOR_TASK_TERMINATED", at);
    if RejectHead(core, "ORCHESTRATOR_TASK_TERMINATED", at).raised.None? {
      RecordEffect(rest, core.commands[0], "ORCHESTRATOR_TASK_TERMINATED", at);
      PoppedAgrees(core, at);
    }
  }

  /** With at most 1024 slots taken, a drain fails exactly on a queued command that contradicts a
      rejected one. */
  lemma {:induction false} DrainRaises(core: Core, at: int)
    requires CoreAgrees(core) && RejectionCapacity(core) <= 1024
    ensures AfterRejectingQueued(core, at).raised == DrainError(core)
    decreases |core.commands|
  {
    if core.commands != [] {
      HeadCapacity(core, at);
      var next := RejectHead(core, "ORCHESTRATOR_TASK_TERMINATED", at).core;
      if ClashesWithRejected(core, core.commands[0]) {
        assert DrainError(core).Some?;
      } else {
        HeadKeepsClashes(core, at);
        DrainOne(core, at);
        DrainRaises(next, at);
        DrainErrorOfRest(core, next);
      }
    }
  }

  lemma DrainErrorOfRest(core: Core, next: Core)
    requires core.commands != [] && !ClashesWithRejected(core, core.commands[0])
    requires next.commands == core.commands[1..]
    requires forall i | 0 <= i < |next.commands| ::
      ClashesWithRejected(next, next.commands[i]) <==> ClashesWithRejected(core, core.commands[i + 1])
    ensures DrainError(next) == DrainError(core)
  {
    if i :| 0 <= i < |core.commands| && ClashesWithRejected(core, core.commands[i]) {
      assert ClashesWithRejected(next, next.commands[i - 1]);
    }
  }

  // ---------- one event ----------

  /** An event ends the run with the error that `FailureOf` names. */
  predicate FailsWith(g: Flow, error: Option<Error>) {
    if error.Some? then g.phase == Failed(error.value) else !g.phase.Failed?
  }

  lemma AdvanceFailsWith(f: Flow)
    requires f.phase.Ready?
    ensures FailsWith(AfterAdvance(f), FailureOf(f, Loop))
  {
  }

  lemma FollowFailsWith(f: Flow, t: CommandType, now: int)
    requires CoreAgrees(f.core) && !f.phase.Failed?
    ensures FailsWith(AfterEnqueueInternal(f, t, now), AdmissionError(f.core, InternalCommand(f.current, t, now), now))
  {
    AdmissionRaises(f.core, InternalCommand(f.current, t, now), now);
  }

  lemma RejectFailsWith(f: Flow, code: string, now: int)
    requires f.phase.InFlight? && CoreAgrees(f.core)
    ensures FailsWith(AfterReject(f, f.phase.command, code, now), RefusalError(f))
  {
    RecordRaises(f.core, f.phase.command, code, now);
  }

  lemma InstallFailsWith(f: Flow, next: Authority, now: int)
    requires f.phase.InFlight? && CoreAgrees(f.core) && RejectionCapacity(f.core) <= 1024
    ensures var g := AfterInstall(f, f.phase.command, next, now);
      && FailsWith(g, if next.terminal then DrainError(f.core) else None)
      && g.current == next && (!next.terminal ==> g.core == f.core)
  {
    if next.terminal {
      DrainRaises(f.core, now);
    }
  }

  lemma AcceptFailsWith(f: Flow, next: Authority, now: int)
    requires f.phase.InFlight? && CoreAgrees(f.core) && RejectionCapacity(f.core) <= 1024
    requires next.status == VERIFYING ==> !next.terminal
    requires Enabled(f, ChildEnds(Accepted(next), now))
    ensures FailsWith(AfterComplete(f, Accepted(next), now), FailureOf(f, ChildEnds(Accepted(next), now)))
  {
    InstallFailsWith(f, next, now);
    var g := AfterInstall(f, f.phase.command, next, now);
    if !g.phase.Failed? && f.phase.command.commandType == VERIFY && next.status == VERIFYING {
      var flagged := g.(executionActive := ExecutionFlag(f.executionActive, VERIFY, next.status));
      assert AfterComplete(f, Accepted(next), now) == AfterEnqueueInternal(flagged, COMPLETE, now);
      FollowFailsWith(flagged, COMPLETE, now);
    }
  }

  lemma NextFailsWith(f: Flow, e: Event)
    requires Enabled(f, e) && CoreInv(f) && OnceInv(f)
    ensures FailsWith(Next(f, e), FailureOf(f, e))
  {
    match e
    case Delivery(_, _) =>
    case Loop => AdvanceFailsWith(f);
    case ChildEnds(Exhausted, now) => RejectFailsWith(f, "ORCHESTRATOR_TRANSITION_DEPENDENCY_EXHAUSTED", now);
    case ChildEnds(Refused(code), now) => RejectFailsWith(f, code, now);
    case ChildEnds(Accepted(next), now) =>
      FreshAnswer(f.current, f.phase.command, next);
      AcceptFailsWith(f, next, now);
    case PollEnds(status, now) =>
      if status.Some? && FollowupCommand(status.value).Some? {
        FollowFailsWith(f.(phase := Ready, executionActive := false), FollowupCommand(status.value).value, now);
      }
  }

  // ---------- every run ----------

  /** The k-th event of the run ends it with this error. */
  predicate FailsAt(initial: Authority, events: seq<Event>, k: nat, error: Error)
    requires k < |events|
  {
    var f := RunFlow(initial, events[..k]);
    Enabled(f, events[k]) && FailureOf(f, events[k]) == Some(error)
  }

  lemma FailsEarlier(initial: Authority, events: seq<Event>, k: nat, error: Error)
    requires k + 1 < |events|
    ensures FailsAt(initial, events[..|events| - 1], k, error) <==> FailsAt(initial, events, k, error)
  {
    assert events[..|events| - 1][..k] == events[..k];
  }

  lemma {:induction false} FailsLast(initial: Authority, events: seq<Event>, error: Error)
    requires Initial(initial) && events != []
    ensures RunFlow(initial, events).phase == Failed(error)
      <==> RunFlow(initial, events[..|events| - 1]).phase == Failed(error) || FailsAt(initial, events, |events| - 1, error)
  {
    var front := events[..|events| - 1];
    var f, e := RunFlow(initial, front), events[|events| - 1];
    if Enabled(f, e) {
      EveryRunConserves(initial, front);
      EveryRunOnce(initial, front);
      NextFailsWith(f, e);
    }
  }

  /** A run has raised an error exactly when one of its events ends it with that error. */
  lemma {:induction false} RunRaisesIff(initial: Authority, events: seq<Event>, error: Error)
    requires Initial(initial)
    ensures RunFlow(initial, events).phase == Failed(error)
      <==> exists k :: 0 <= k < |events| && FailsAt(initial, events, k, error)
    decreases |events|
  {
    if events != [] {
      var last := |events| - 1;
      RunRaisesIff(initial, events[..last], error);
      FailsLast(initial, events, error);
      forall k | 0 <= k < last
        ensures FailsAt(initial, events[..last], k, error) <==> FailsAt(initial, events, k, error)
      {
        FailsEarlier(initial, events, k, error);
      }
    }
  }
}
