/**
 What a client of the workflow can learn from it: a command it acknowledges, and every command its
 state says was processed, was admitted to its queue; and while the transition log still holds the
 event of a processed command, the log proves the version that command named.
 */
module WorkflowAdmission {
  import opened Common
  import opened CommandQueue
  import opened TransitionEngine
  import opened TaskWorkflow
  import opened TaskWorkflowLaws

  predicate Admits(f: Flow, p: Fingerprint) {
    Somewhere(f.history.admitted, p)
  }

  predicate QueueAdmitted(core: Core, admitted: seq<TaskCommand>) {
    && (forall i | 0 <= i < |core.commands| :: Somewhere(admitted, FingerprintOf(core.commands[i])))
    && (forall id | id in core.queued :: Somewhere(admitted, FingerprintOf(core.queued[id])))
    && (forall key | key in core.queuedKeys :: Somewhere(admitted, core.queuedKeys[key]))
  }

  predicate ProcessedAdmitted(a: Authority, admitted: seq<TaskCommand>) {
    && (forall id | id in a.processed :: Somewhere(admitted, a.processed[id]))
    && (forall key | key in a.processedKeys :: Somewhere(admitted, a.processedKeys[key]))
  }

  predicate Traced(f: Flow) {
    && QueueAdmitted(f.core, f.history.admitted)
    && ProcessedAdmitted(f.current, f.history.admitted)
    && (f.phase.InFlight? ==> Admits(f, FingerprintOf(f.phase.command)))
  }

  // ---------- one step ----------

  lemma SomewhereInLonger(cs: seq<TaskCommand>, more: seq<TaskCommand>)
    requires cs <= more
    ensures forall p | Somewhere(cs, p) :: Somewhere(more, p)
  {
    forall p | Somewhere(cs, p)
      ensures Somewhere(more, p)
    {
      var i :| 0 <= i < |cs| && FingerprintOf(cs[i]) == p;
      assert FingerprintOf(more[i]) == p;
    }
  }

  lemma RecordKeepsQueue(core: Core, c: TaskCommand, code: string, at: int)
    ensures var next := AfterRejection(core, c, code, at).core;
      next.commands == core.commands && next.queued == core.queued && next.queuedKeys == core.queuedKeys
  {
  }

  lemma RemoveAdmitted(core: Core, i: nat, admitted: seq<TaskCommand>)
    requires i < |core.commands| && QueueAdmitted(core, admitted)
    ensures QueueAdmitted(Remove(core, i), admitted)
  {
  }

  lemma EnqueueAdmitted(core: Core, c: TaskCommand, admitted: seq<TaskCommand>)
    requires QueueAdmitted(core, admitted)
    ensures QueueAdmitted(Enqueue(core, c), admitted + [c])
  {
    SomewhereGrows(admitted, c);
    forall i | 0 <= i < |Enqueue(core, c).commands|
      ensures Somewhere(admitted + [c], FingerprintOf(Enqueue(core, c).commands[i]))
    {
      assert Enqueue(core, c).commands[i] == c || Enqueue(core, c).commands[i] in core.commands;
    }
  }

  /** The core after the eviction of the first command that is not a KILL. */
  function Evicted(core: Core, now: int): Core
    requires FirstNonKill(core.commands) < |core.commands|
  {
    var i := FirstNonKill(core.commands);
    AfterRejection(Remove(core, i), core.commands[i], "ORCHESTRATOR_COMMAND_PREEMPTED_BY_KILL", now).core
  }

  lemma CommandCases(core: Core, c: TaskCommand, now: int)
    ensures var next := AfterCommand(core, c, now).core;
      || next == core
      || next == Enqueue(core, c)
      || (FirstNonKill(core.commands) < |core.commands|
          && (next == Evicted(core, now) || next == Enqueue(Evicted(core, now), c)))
  {
  }

  lemma EvictAdmitted(core: Core, now: int, admitted: seq<TaskCommand>)
    requires FirstNonKill(core.commands) < |core.commands| && QueueAdmitted(core, admitted)
    ensures QueueAdmitted(Evicted(core, now), admitted)
  {
    var i := FirstNonKill(core.commands);
    RemoveAdmitted(core, i, admitted);
    RecordKeepsQueue(Remove(core, i), core.commands[i], "ORCHESTRATOR_COMMAND_PREEMPTED_BY_KILL", now);
  }

  lemma QueueAdmittedGrows(core: Core, c: TaskCommand, admitted: seq<TaskCommand>)
    requires QueueAdmitted(core, admitted)
    ensures QueueAdmitted(core, admitted + [c])
  {
    SomewhereGrows(admitted, c);
  }

  lemma CommandAdmitted(core: Core, c: TaskCommand, now: int, admitted: seq<TaskCommand>)
    requires QueueAdmitted(core, admitted)
    ensures var next := AfterCommand(core, c, now).core;
      QueueAdmitted(next, if next == core then admitted else admitted + [c])
  {
    CommandCases(core, c, now);
    EnqueueAdmitted(core, c, admitted);
    if FirstNonKill(core.commands) < |core.commands| {
      EvictAdmitted(core, now, admitted);
      QueueAdmittedGrows(Evicted(core, now), c, admitted);
      EnqueueAdmitted(Evicted(core, now), c, admitted);
    }
  }

  /** A delivery that raised nothing leaves its command admitted. */
  lemma DeliverTraced(f: Flow, c: TaskCommand, now: int)
    requires Traced(f) && Open(f)
    ensures Traced(AfterDeliver(f, c, now))
    ensures AfterCommand(f.core, c, now).raised.None? ==> Admits(AfterDeliver(f, c, now), FingerprintOf(c))
  {
    CommandAdmitted(f.core, c, now, f.history.admitted);
    SomewhereGrows(f.history.admitted, c);
    if AfterCommand(f.core, c, now).core == f.core && AfterCommand(f.core, c, now).raised.None? {
      AcknowledgedUnchanged(f.core, c, now, f.history.admitted);
    }
  }

  lemma AcknowledgedUnchanged(core: Core, c: TaskCommand, now: int, admitted: seq<TaskCommand>)
    requires QueueAdmitted(core, admitted)
    requires AfterCommand(core, c, now) == Effect(core, None)
    ensures Somewhere(admitted, FingerprintOf(c))
  {
    if Known(core, c).None? {
      CommandCasesEnqueue(core, c, now);
      assert false;
    }
  }

  lemma CommandCasesEnqueue(core: Core, c: TaskCommand, now: int)
    requires Known(core, c).None? && AfterCommand(core, c, now).raised.None?
    ensures c.commandId !in core.queued && c.commandId in AfterCommand(core, c, now).core.queued
  {
  }

  lemma EnqueueInternalTraced(f: Flow, t: CommandType, now: int)
    requires Traced(f) && !f.phase.InFlight?
    ensures Traced(AfterEnqueueInternal(f, t, now))
  {
    var c := InternalCommand(f.current, t, now);
    CommandAdmitted(f.core, c, now, f.history.admitted);
    SomewhereGrows(f.history.admitted, c);
  }

  lemma RejectTraced(f: Flow, code: string, now: int)
    requires Traced(f) && f.phase.InFlight?
    ensures Traced(AfterReject(f, f.phase.command, code, now))
  {
    RecordKeepsQueue(f.core, f.phase.command, code, now);
  }

  lemma {:induction false} DrainAdmitted(core: Core, at: int, admitted: seq<TaskCommand>)
    requires QueueAdmitted(core, admitted)
    ensures QueueAdmitted(AfterRejectingQueued(core, at).core, admitted)
    decreases |core.commands|
  {
    if core.commands != [] {
      RemoveAdmitted(core, 0, admitted);
      RecordKeepsQueue(Remove(core, 0), core.commands[0], "ORCHESTRATOR_TASK_TERMINATED", at);
      DrainAdmitted(AfterRejection(Remove(core, 0), core.commands[0], "ORCHESTRATOR_TASK_TERMINATED", at).core, at, admitted);
    }
  }

  lemma AnswerAdmitted(a: Authority, c: TaskCommand, next: Authority, admitted: seq<TaskCommand>)
    requires ProcessedAdmitted(a, admitted) && MayAnswer(a, c, next) && Somewhere(admitted, FingerprintOf(c))
    ensures ProcessedAdmitted(next, admitted)
  {
  }

  lemma InstallTraced(f: Flow, next: Authority, now: int)
    requires Traced(f) && f.phase.InFlight? && MayAnswer(f.current, f.phase.command, next)
    ensures Traced(AfterInstall(f, f.phase.command, next, now))
  {
    AnswerAdmitted(f.current, f.phase.command, next, f.history.admitted);
    DrainAdmitted(f.core, now, f.history.admitted);
  }

  lemma NextTraced(f: Flow, e: Event)
    requires Traced(f) && Enabled(f, e)
    ensures Traced(Next(f, e))
    ensures f.history.admitted <= Next(f, e).history.admitted
  {
    match e
    case Delivery(c, now) => DeliverTraced(f, c, now);
    case Loop => AdvanceTraced(f);
    case PollEnds(status, now) => PollTraced(f, status, now);
    case ChildEnds(outcome, now) => CompleteTraced(f, outcome, now);
  }

  lemma AdvanceTraced(f: Flow)
    requires Traced(f) && f.phase.Ready?
    ensures Traced(AfterAdvance(f)) && AfterAdvance(f).history.admitted == f.history.admitted
  {
    if f.core.commands != [] {
      RemoveAdmitted(f.core, 0, f.history.admitted);
    }
  }

  lemma PollTraced(f: Flow, status: Option<ExecutionStatus>, now: int)
    requires Traced(f) && f.phase.Polling?
    ensures Traced(AfterPolled(f, status, now))
    ensures f.history.admitted <= AfterPolled(f, status, now).history.admitted
  {
    if status.Some? && FollowupCommand(status.value).Some? {
      TracedFrame(f, f.(phase := Ready, executionActive := false));
      EnqueueInternalTraced(f.(phase := Ready, executionActive := false), FollowupCommand(status.value).value, now);
    }
  }

  lemma CompleteTraced(f: Flow, outcome: Outcome, now: int)
    requires Traced(f) && Enabled(f, ChildEnds(outcome, now))
    ensures Traced(AfterComplete(f, outcome, now))
    ensures f.history.admitted <= AfterComplete(f, outcome, now).history.admitted
  {
    match outcome
    case Exhausted => RejectTraced(f, "ORCHESTRATOR_TRANSITION_DEPENDENCY_EXHAUSTED", now);
    case Refused(code) => RejectTraced(f, code, now);
    case Accepted(next) =>
      InstallTraced(f, next, now);
      FollowTraced(f, AfterInstall(f, f.phase.command, next, now), next, now);
  }

  lemma FollowTraced(f: Flow, installed: Flow, next: Authority, now: int)
    requires f.phase.InFlight? && installed == AfterInstall(f, f.phase.command, next, now) && Traced(installed)
    ensures Traced(AfterComplete(f, Accepted(next), now))
    ensures f.history.admitted <= AfterComplete(f, Accepted(next), now).history.admitted
  {
    if !installed.phase.Failed? {
      var flagged := installed.(executionActive := ExecutionFlag(f.executionActive, f.phase.command.commandType, next.status));
      TracedFrame(installed, flagged);
      EnqueueInternalTraced(flagged, COMPLETE, now);
    }
  }

  /** Only the queue, the state, the history and the command in flight matter. */
  lemma TracedFrame(f: Flow, g: Flow)
    requires Traced(f) && !g.phase.InFlight?
    requires g.core == f.core && g.current == f.current && g.history == f.history
    ensures Traced(g)
  {
  }

  // ---------- every run ----------

  /** The state every workflow is started with, with an empty transition log. */
  predicate Fresh(a: Authority) {
    Initial(a) && a.events == []
  }

  lemma {:induction false} EveryRunTraced(initial: Authority, log: seq<Event>)
    requires Initial(initial)
    ensures Traced(RunFlow(initial, log))
  {
    if log != [] {
      var f := RunFlow(initial, log[..|log| - 1]);
      EveryRunTraced(initial, log[..|log| - 1]);
      if Enabled(f, log[|log| - 1]) {
        NextTraced(f, log[|log| - 1]);
      }
    }
  }

  /** Nothing that was admitted is ever forgotten by the history. */
  lemma {:induction false} AdmittedStays(initial: Authority, log: seq<Event>, more: seq<Event>)
    requires Initial(initial) && log <= more
    ensures RunFlow(initial, log).history.admitted <= RunFlow(initial, more).history.admitted
    decreases |more|
  {
    if log == more {
    } else {
      var front := more[..|more| - 1];
      AdmittedStays(initial, log, front);
      EveryRunTraced(initial, front);
      if Enabled(RunFlow(initial, front), more[|more| - 1]) {
        NextTraced(RunFlow(initial, front), more[|more| - 1]);
      }
    }
  }

  lemma AdmitsStays(initial: Authority, log: seq<Event>, more: seq<Event>, p: Fingerprint)
    requires Initial(initial) && log <= more && Admits(RunFlow(initial, log), p)
    ensures Admits(RunFlow(initial, more), p)
  {
    AdmittedStays(initial, log, more);
    SomewhereInLonger(RunFlow(initial, log).history.admitted, RunFlow(initial, more).history.admitted);
  }

  // ---------- the transition log ----------

  /** The log is the last 1024 applied commands: contiguous cursors ending at the recovery cursor, each
      event under its command's id and one version above the version the command named. */
  predicate LogOf(a: Authority, accepted: seq<TaskCommand>) {
    && a.cursor == |accepted|
    && |a.events| == (if |accepted| <= MAX_EVENTS then |accepted| else MAX_EVENTS)
    && forall i | 0 <= i < |a.events| ::
         && a.events[i].cursor == a.cursor - |a.events| + i + 1
         && a.events[i].commandId == accepted[a.events[i].cursor - 1].commandId
  }

  lemma ApplyKeepsLog(a: Authority, accepted: seq<TaskCommand>, c: TaskCommand, next: Authority)
    requires LogOf(a, accepted) && MayAnswer(a, c, next)
    requires c.commandId !in a.processed && c.requestKey !in a.processedKeys
    ensures LogOf(next, accepted + [c])
  {
    var more := accepted + [c];
    forall i | 0 <= i < |next.events|
      ensures next.events[i].cursor == next.cursor - |next.events| + i + 1
           && next.events[i].commandId == more[next.events[i].cursor - 1].commandId
    {
      if i < |next.events| - 1 {
        assert next.events[i] == a.events[if |a.events| >= MAX_EVENTS then i + 1 else i];
      }
    }
  }

  lemma {:induction false} EveryRunLogs(initial: Authority, log: seq<Event>)
    requires Fresh(initial)
    ensures LogOf(RunFlow(initial, log).current, RunFlow(initial, log).history.accepted)
  {
    if log != [] {
      var f := RunFlow(initial, log[..|log| - 1]);
      EveryRunLogs(initial, log[..|log| - 1]);
      EveryRunOnce(initial, log[..|log| - 1]);
      if Enabled(f, log[|log| - 1]) {
        NextLogs(f, log[|log| - 1]);
      }
    }
  }

  lemma NextLogs(f: Flow, e: Event)
    requires Enabled(f, e) && OnceInv(f) && LogOf(f.current, f.history.accepted)
    ensures LogOf(Next(f, e).current, Next(f, e).history.accepted)
  {
    if Applies(e) {
      AnswerApplies(f, e);
      ApplyKeepsLog(f.current, f.history.accepted, f.phase.command, e.outcome.next);
    } else {
      OnlyAnswersApply(f, e);
    }
  }
}
