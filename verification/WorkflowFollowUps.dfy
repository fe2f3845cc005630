/**
 What the workflow does on its own, over every run: which commands it enqueues for itself and when,
 and when it executes.  The end of a poll leads to VERIFY, KILL or NEEDS_HUMAN by the status that it
 reports, an accepted VERIFY leads to COMPLETE, and nothing else adds a command from within.
 */
module WorkflowFollowUps {
  import opened Common
  import opened CommandQueue
  import opened CommandQueueLaws
  import opened TransitionEngine
  import opened TaskWorkflow
  import opened TaskWorkflowLaws
  import Queue = WorkflowQueue

  // ---------- one command of the workflow's own ----------

  /** The command that the workflow gives itself, in a given state. */
  function Own(a: Authority, name: string, t: CommandType, now: int): TaskCommand {
    TaskCommand("agenttrust.orchestrator-command.v1", "system:" + name + ":" + a.actionId, "system:" + name + ":" + a.actionId,
                a.tenantId, a.taskId, t, a.cursor, PayloadOf(t), "service:durable-worker", now)
  }

  lemma OwnIds(id: string)
    ensures "system:" + "verify" + ":" + id == "system:verify:" + id && "system:" + "kill" + ":" + id == "system:kill:" + id
    ensures "system:" + "needs_human" + ":" + id == "system:needs_human:" + id
    ensures "system:" + "complete" + ":" + id == "system:complete:" + id
  {
    assert "system:" + "verify" + ":" == "system:verify:" && "system:" + "kill" + ":" == "system:kill:";
    assert "system:" + "needs_human" + ":" == "system:needs_human:" && "system:" + "complete" + ":" == "system:complete:";
  }

  /** What is queued under a key is queued under its id. */
  lemma KeyIsQueued(core: Core, key: string)
    requires QueueAgrees(core) && key in core.queuedKeys
    ensures var p := core.queuedKeys[key]; p.commandId in core.queued && FingerprintOf(core.queued[p.commandId]) == p
  {
    KeyMembers(core.commands);
    IdMembers(core.commands);
    var i :| 0 <= i < |core.commands| && core.commands[i].requestKey == key
             && KeyMap(core.commands)[key] == FingerprintOf(core.commands[i]);
  }

  /** An acknowledged command is queued. */
  lemma AcknowledgedIsQueued(core: Core, c: TaskCommand, now: int)
    requires CoreAgrees(core) && AfterCommand(core, c, now).raised.None?
    ensures var next := AfterCommand(core, c, now).core;
      c.commandId in next.queued && FingerprintOf(next.queued[c.commandId]) == FingerprintOf(c)
  {
    CommandEffect(core, c, now);
    if c.requestKey in core.queuedKeys {
      KeyIsQueued(core, c.requestKey);
    }
  }

  /** The command `c` is queued and nothing else happens; or it may not be admitted, which ends the run. */
  predicate Enqueues(f: Flow, g: Flow, c: TaskCommand) {
    && g.current == f.current && g.terminal == f.terminal
    && (if g.phase.Failed? then g.core == f.core && g.history == f.history
        else && g.phase.Ready?
             && c.commandId in g.core.queued && FingerprintOf(g.core.queued[c.commandId]) == FingerprintOf(c)
             && (g.history == f.history || g.history == f.history.(admitted := f.history.admitted + [c])))
  }

  lemma OwnIsEnqueued(f: Flow, name: string, t: CommandType, now: int)
    requires CoreAgrees(f.core) && f.phase.Ready? && name == LowerName(t)
    ensures Enqueues(f, AfterEnqueueInternal(f, t, now), Own(f.current, name, t, now))
    ensures AfterEnqueueInternal(f, t, now).executionActive == f.executionActive
    ensures AfterEnqueueInternal(f, t, now).phase.Failed? || AfterEnqueueInternal(f, t, now).phase.Ready?
  {
    var c := Own(f.current, name, t, now);
    assert c == InternalCommand(f.current, t, now);
    CommandEffect(f.core, c, now);
    if AfterCommand(f.core, c, now).raised.None? {
      AcknowledgedIsQueued(f.core, c, now);
    }
  }

  // ---------- polls ----------

  /** The name and the kind of the command that answers a status. */
  function AnswerTo(status: ExecutionStatus): Option<(string, CommandType)> {
    match status
    case PREPARED | RUNNING_STEP | COMPENSATING => None
    case SUCCEEDED => Some(("verify", VERIFY))
    case STEP_KILLED => Some(("kill", KILL))
    case STEP_FAILED | TIMED_OUT | CANCELLED | COMPENSATED | COMPENSATION_FAILED | UNKNOWN => Some(("needs_human", NEEDS_HUMAN))
  }

  /** What a poll that reports a status leads to. */
  predicate Answers(f: Flow, g: Flow, status: ExecutionStatus, now: int) {
    match AnswerTo(status)
    case None => g == f.(phase := Ready)
    case Some((name, t)) => !g.executionActive && Enqueues(f, g, Own(f.current, name, t, now))
  }

  lemma PollAnswers(f: Flow, status: ExecutionStatus, now: int)
    requires CoreAgrees(f.core) && f.phase.Polling?
    ensures Answers(f, AfterPolled(f, Some(status), now), status, now)
  {
    if AnswerTo(status).Some? {
      var (name, t) := AnswerTo(status).value;
      OwnIsEnqueued(f.(phase := Ready, executionActive := false), name, t, now);
    }
  }

  lemma {:induction false} PollFollows(initial: Authority, events: seq<Event>, status: ExecutionStatus, now: int)
    requires RunFlow(initial, events).phase.Polling?
    ensures Answers(RunFlow(initial, events), RunFlow(initial, events + [PollEnds(Some(status), now)]), status, now)
  {
    Extend(initial, events, PollEnds(Some(status), now));
    Queue.EveryRunAgrees(initial, events);
    PollAnswers(RunFlow(initial, events), status, now);
  }

  /** In every run, a poll that fails, or finds the step still running, changes nothing, ... */
  lemma {:induction false} RunningGoesOn(initial: Authority, events: seq<Event>, status: Option<ExecutionStatus>, now: int)
    requires RunFlow(initial, events).phase.Polling?
    requires status in {None, Some(PREPARED), Some(RUNNING_STEP), Some(COMPENSATING)}
    ensures RunFlow(initial, events + [PollEnds(status, now)]) == RunFlow(initial, events).(phase := Ready)
  {
    Extend(initial, events, PollEnds(status, now));
  }

  /** ... success leads to VERIFY, ... */
  lemma {:induction false} SuccessIsVerified(initial: Authority, events: seq<Event>, status: ExecutionStatus, now: int)
    requires RunFlow(initial, events).phase.Polling?
    requires status == SUCCEEDED
    ensures var f := RunFlow(initial, events); var g := RunFlow(initial, events + [PollEnds(Some(status), now)]);
      var id := "system:verify:" + f.current.actionId;
      && !g.executionActive
      && Enqueues(f, g, TaskCommand("agenttrust.orchestrator-command.v1", id, id, f.current.tenantId, f.current.taskId, VERIFY,
                                    f.current.cursor, PayloadOf(VERIFY), "service:durable-worker", now))
  {
    PollFollows(initial, events, status, now);
    OwnIds(RunFlow(initial, events).current.actionId);
  }

  /** ... a killed step to KILL, ... */
  lemma {:induction false} KilledIsContained(initial: Authority, events: seq<Event>, status: ExecutionStatus, now: int)
    requires RunFlow(initial, events).phase.Polling?
    requires status == STEP_KILLED
    ensures var f := RunFlow(initial, events); var g := RunFlow(initial, events + [PollEnds(Some(status), now)]);
      var id := "system:kill:" + f.current.actionId;
      && !g.executionActive
      && Enqueues(f, g, TaskCommand("agenttrust.orchestrator-command.v1", id, id, f.current.tenantId, f.current.taskId, KILL,
                                    f.current.cursor, PayloadOf(KILL), "service:durable-worker", now))
  {
    PollFollows(initial, events, status, now);
    OwnIds(RunFlow(initial, events).current.actionId);
  }

  /** ... and every other end to NEEDS_HUMAN. */
  lemma {:induction false} FailureNeedsHuman(initial: Authority, events: seq<Event>, status: ExecutionStatus, now: int)
    requires RunFlow(initial, events).phase.Polling?
    requires status in {STEP_FAILED, TIMED_OUT, CANCELLED, COMPENSATED, COMPENSATION_FAILED, UNKNOWN}
    ensures var f := RunFlow(initial, events); var g := RunFlow(initial, events + [PollEnds(Some(status), now)]);
      var id := "system:needs_human:" + f.current.actionId;
      && !g.executionActive
      && Enqueues(f, g, TaskCommand("agenttrust.orchestrator-command.v1", id, id, f.current.tenantId, f.current.taskId, NEEDS_HUMAN,
                                    f.current.cursor, PayloadOf(NEEDS_HUMAN), "service:durable-worker", now))
  {
    PollFollows(initial, events, status, now);
    OwnIds(RunFlow(initial, events).current.actionId);
  }

  /** The loop at its head, without a command: it polls exactly while it executes. */
  lemma {:induction false} LoopPolls(initial: Authority, events: seq<Event>)
    requires var f := RunFlow(initial, events); f.phase.Ready? && !f.terminal && f.core.commands == []
    ensures var f := RunFlow(initial, events);
      RunFlow(initial, events + [Loop]) == f.(phase := if f.executionActive then Polling else Ready)
  {
    Extend(initial, events, Loop);
  }

  // ---------- the end of a child ----------

  /** The command in flight was accepted into this state. */
  predicate AcceptedInto(f: Flow, x: Event, next: Authority) {
    Enabled(f, x) && x.ChildEnds? && x.outcome == Accepted(next)
  }

  /** An accepted command installs the state it led to.  A START or RESUME that led to RUNNING starts execution;
      a PAUSE, CANCEL, KILL or NEEDS_HUMAN stops it; a VERIFY that led to VERIFYING is followed by COMPLETE, at
      the new version, and nothing else is followed by anything. */
  lemma {:induction false} AcceptedFollows(initial: Authority, events: seq<Event>, next: Authority, now: int)
    requires Enabled(RunFlow(initial, events), ChildEnds(Accepted(next), now)) && !next.terminal
    ensures var f := RunFlow(initial, events); var c := f.phase.command;
      var g := RunFlow(initial, events + [ChildEnds(Accepted(next), now)]);
      g.executionActive <==>
        || (c.commandType in {START, RESUME} && next.status == RUNNING)
        || (c.commandType !in {PAUSE, CANCEL, KILL, NEEDS_HUMAN} && f.executionActive)
    ensures var f := RunFlow(initial, events); var c := f.phase.command;
      var g := RunFlow(initial, events + [ChildEnds(Accepted(next), now)]);
      var installed := f.(current := next, terminal := false, phase := Ready, executionActive := g.executionActive,
                          history := f.history.(accepted := f.history.accepted + [c]));
      var id := "system:complete:" + next.actionId;
      if c.commandType == VERIFY && next.status == VERIFYING
      then Enqueues(installed, g, TaskCommand("agenttrust.orchestrator-command.v1", id, id, next.tenantId, next.taskId, COMPLETE,
                                              next.cursor, PayloadOf(COMPLETE), "service:durable-worker", now))
      else g == installed
  {
    var f := RunFlow(initial, events);
    Extend(initial, events, ChildEnds(Accepted(next), now));
    Queue.EveryRunAgrees(initial, events);
    var installed := f.(current := next, terminal := false, phase := Ready,
                        executionActive := ExecutionFlag(f.executionActive, f.phase.command.commandType, next.status),
                        history := f.history.(accepted := f.history.accepted + [f.phase.command]));
    OwnIsEnqueued(installed, "complete", COMPLETE, now);
    OwnIds(next.actionId);
  }

  // ---------- where admitted commands come from ----------

  /** The event brings the command: it was delivered, or is the workflow's own answer to a poll or to its
      VERIFY. */
  predicate Brings(f: Flow, x: Event, c: TaskCommand) {
    && Enabled(f, x)
    && match x
       case Delivery(d, _) => c == d
       case Loop => false
       case PollEnds(status, now) =>
         && status.Some? && AnswerTo(status.value).Some?
         && c == Own(f.current, AnswerTo(status.value).value.0, AnswerTo(status.value).value.1, now)
       case ChildEnds(outcome, now) =>
         && outcome.Accepted? && f.phase.command.commandType == VERIFY && outcome.next.status == VERIFYING
         && c == Own(outcome.next, "complete", COMPLETE, now)
  }

  predicate Brought(f: Flow, x: Event, g: Flow) {
    || g.history.admitted == f.history.admitted
    || (&& |g.history.admitted| == |f.history.admitted| + 1 && f.history.admitted < g.history.admitted
        && Brings(f, x, g.history.admitted[|f.history.admitted|]))
  }

  lemma OwnIsAdmitted(f: Flow, name: string, t: CommandType, now: int)
    requires name == LowerName(t)
    ensures var g := AfterEnqueueInternal(f, t, now);
      g.history.admitted == f.history.admitted || g.history.admitted == f.history.admitted + [Own(f.current, name, t, now)]
  {
    assert Own(f.current, name, t, now) == InternalCommand(f.current, t, now);
  }

  lemma OneIsBrought(f: Flow, x: Event, g: Flow, c: TaskCommand)
    requires Brings(f, x, c)
    requires g.history.admitted == f.history.admitted || g.history.admitted == f.history.admitted + [c]
    ensures Brought(f, x, g)
  {
  }

  lemma PollBrings(f: Flow, status: Option<ExecutionStatus>, now: int)
    requires f.phase.Polling?
    ensures Brought(f, PollEnds(status, now), AfterPolled(f, status, now))
  {
    if status.Some? && AnswerTo(status.value).Some? {
      var (name, t) := AnswerTo(status.value).value;
      OwnIsAdmitted(f.(phase := Ready, executionActive := false), name, t, now);
      OneIsBrought(f, PollEnds(status, now), AfterPolled(f, status, now), Own(f.current, name, t, now));
    }
  }

  lemma ChildBrings(f: Flow, outcome: Outcome, now: int)
    requires Enabled(f, ChildEnds(outcome, now))
    ensures Brought(f, ChildEnds(outcome, now), AfterComplete(f, outcome, now))
  {
    if outcome.Accepted? {
      var installed := AfterInstall(f, f.phase.command, outcome.next, now);
      assert installed.history.admitted == f.history.admitted && installed.current == outcome.next;
      OwnIsAdmitted(installed.(executionActive := ExecutionFlag(f.executionActive, f.phase.command.commandType, outcome.next.status)),
                    "complete", COMPLETE, now);
    }
  }

  lemma DeliveryBrings(f: Flow, c: TaskCommand, now: int)
    requires Open(f)
    ensures Brought(f, Delivery(c, now), AfterDeliver(f, c, now))
  {
  }

  lemma EventBrings(f: Flow, x: Event)
    requires Enabled(f, x)
    ensures Brought(f, x, Next(f, x))
  {
    match x
    case Delivery(c, now) => DeliveryBrings(f, c, now);
    case Loop => AdvanceCases(f);
    case ChildEnds(outcome, now) => ChildBrings(f, outcome, now);
    case PollEnds(status, now) => PollBrings(f, status, now);
  }

  predicate BroughtAt(initial: Authority, events: seq<Event>, m: nat, c: TaskCommand)
    requires m < |events|
  {
    Brings(RunFlow(initial, events[..m]), events[m], c)
  }

  lemma BroughtEarlier(initial: Authority, events: seq<Event>, m: nat, c: TaskCommand)
    requires m + 1 < |events| && BroughtAt(initial, events[..|events| - 1], m, c)
    ensures BroughtAt(initial, events, m, c)
  {
    assert events[..|events| - 1][..m] == events[..m];
  }

  lemma BroughtLast(initial: Authority, events: seq<Event>, k: nat)
    requires events != [] && k < |RunFlow(initial, events).history.admitted|
    ensures var last := |events| - 1; var before, after := RunFlow(initial, events[..last]).history, RunFlow(initial, events).history;
      if k < |before.admitted| then after.admitted[k] == before.admitted[k] else BroughtAt(initial, events, last, after.admitted[k])
  {
    var last := |events| - 1;
    if Enabled(RunFlow(initial, events[..last]), events[last]) {
      EventBrings(RunFlow(initial, events[..last]), events[last]);
    }
  }

  /** Every admitted command of a run was brought by an event of it. */
  lemma {:induction false} EveryAdmissionIsBrought(initial: Authority, events: seq<Event>, k: nat) returns (m: nat)
    requires k < |RunFlow(initial, events).history.admitted|
    ensures m < |events| && BroughtAt(initial, events, m, RunFlow(initial, events).history.admitted[k])
  {
    var front := events[..|events| - 1];
    BroughtLast(initial, events, k);
    if k < |RunFlow(initial, front).history.admitted| {
      m := EveryAdmissionIsBrought(initial, front, k);
      BroughtEarlier(initial, events, m, RunFlow(initial, events).history.admitted[k]);
    } else {
      m := |events| - 1;
    }
  }

  // ---------- when it executes ----------

  /** The event starts execution: a START or RESUME led to RUNNING. */
  predicate Starts(f: Flow, x: Event) {
    && Enabled(f, x) && x.ChildEnds? && x.outcome.Accepted?
    && f.phase.command.commandType in {START, RESUME} && x.outcome.next.status == RUNNING
  }

  /** The event stops it: a PAUSE, CANCEL, KILL or NEEDS_HUMAN was accepted, or a poll reported the end. */
  predicate Stops(f: Flow, x: Event) {
    && Enabled(f, x)
    && (|| (x.ChildEnds? && x.outcome.Accepted? && f.phase.command.commandType in {PAUSE, CANCEL, KILL, NEEDS_HUMAN})
        || (x.PollEnds? && x.status.Some? && AnswerTo(x.status.value).Some?))
  }

  lemma FlagChanges(f: Flow, x: Event)
    requires Enabled(f, x) && !Next(f, x).phase.Failed?
    ensures Next(f, x).executionActive <==> Starts(f, x) || (f.executionActive && !Stops(f, x))
  {
    match x
    case Delivery(c, now) =>
    case Loop => AdvanceCases(f);
    case ChildEnds(outcome, now) =>
    case PollEnds(status, now) =>
  }

  predicate StartsAt(initial: Authority, events: seq<Event>, m: nat)
    requires m < |events|
  {
    Starts(RunFlow(initial, events[..m]), events[m])
  }

  predicate StopsAt(initial: Authority, events: seq<Event>, m: nat)
    requires m < |events|
  {
    Stops(RunFlow(initial, events[..m]), events[m])
  }

  predicate RunsFrom(initial: Authority, events: seq<Event>, m: nat)
    requires m < |events|
  {
    StartsAt(initial, events, m) && forall n | m < n < |events| :: !StopsAt(initial, events, n)
  }

  /** Execution was started and has not been stopped since. */
  predicate Executes(initial: Authority, events: seq<Event>) {
    exists m :: 0 <= m < |events| && RunsFrom(initial, events, m)
  }

  lemma RunsOn(initial: Authority, events: seq<Event>, m: nat)
    requires m + 1 < |events|
    ensures var last := |events| - 1;
      RunsFrom(initial, events, m) <==> RunsFrom(initial, events[..last], m) && !StopsAt(initial, events, last)
  {
    var last := |events| - 1;
    var front := events[..last];
    forall n: nat | n < last
      ensures StartsAt(initial, front, n) == StartsAt(initial, events, n) && StopsAt(initial, front, n) == StopsAt(initial, events, n)
    {
      SameBefore(initial, events, n);
    }
  }

  lemma SameBefore(initial: Authority, events: seq<Event>, n: nat)
    requires n + 1 < |events|
    ensures var front := events[..|events| - 1];
      StartsAt(initial, front, n) == StartsAt(initial, events, n) && StopsAt(initial, front, n) == StopsAt(initial, events, n)
  {
    assert events[..|events| - 1][..n] == events[..n];
  }

  lemma ExecutesNext(initial: Authority, events: seq<Event>)
    requires events != []
    ensures var last := |events| - 1;
      Executes(initial, events) <==> StartsAt(initial, events, last) || (Executes(initial, events[..last]) && !StopsAt(initial, events, last))
  {
    var last := |events| - 1;
    forall m: nat | m < last
      ensures RunsFrom(initial, events, m) <==> RunsFrom(initial, events[..last], m) && !StopsAt(initial, events, last)
    {
      RunsOn(initial, events, m);
    }
    assert RunsFrom(initial, events, last) <==> StartsAt(initial, events, last);
  }

  lemma FailedBefore(initial: Authority, events: seq<Event>)
    requires events != [] && !RunFlow(initial, events).phase.Failed?
    ensures !RunFlow(initial, events[..|events| - 1]).phase.Failed?
  {
  }

  /** In every run that goes on, the workflow executes exactly when it was started and not stopped since. */
  lemma {:induction false} ExecutesIff(initial: Authority, events: seq<Event>)
    requires !RunFlow(initial, events).phase.Failed?
    ensures RunFlow(initial, events).executionActive <==> Executes(initial, events)
  {
    if events != [] {
      var front, x := events[..|events| - 1], events[|events| - 1];
      FailedBefore(initial, events);
      ExecutesIff(initial, front);
      ExecutesNext(initial, events);
      if Enabled(RunFlow(initial, front), x) {
        FlagChanges(RunFlow(initial, front), x);
      }
    }
  }

  /** It polls only while it executes. */
  lemma {:induction false} PollsWhileExecuting(initial: Authority, events: seq<Event>)
    ensures RunFlow(initial, events).phase.Polling? ==> RunFlow(initial, events).executionActive
  {
    if events != [] {
      var f, x := RunFlow(initial, events[..|events| - 1]), events[|events| - 1];
      PollsWhileExecuting(initial, events[..|events| - 1]);
      if Enabled(f, x) && x.ChildEnds? {
        ChildLeavesReady(f, x.outcome, x.now);
      }
    }
  }

  lemma ChildLeavesReady(f: Flow, outcome: Outcome, now: int)
    requires f.phase.InFlight?
    ensures !AfterComplete(f, outcome, now).phase.Polling?
  {
  }
}
