/**
 What the workflow lets in and what it reports: a command is admitted only in the form that the
 protocol demands, and the log of rejections, which callers read, says of every refused command what it
 was, why it was refused and when.
 */
module RejectionLog {
  import opened Common
  import opened CommandQueue
  import opened TransitionEngine
  import opened TaskWorkflow
  import opened TaskWorkflowLaws
  import Queue = WorkflowQueue

  // ---------- what may be admitted ----------

  lemma TokenIff(s: string)
    ensures Token(s) <==>
      1 <= |s| <= 256 && forall k | 0 <= k < |s| ::
        'A' <= s[k] <= 'Z' || 'a' <= s[k] <= 'z' || '0' <= s[k] <= '9' || s[k] == '.' || s[k] == '_' || s[k] == ':' || s[k] == '-'
  {
  }

  /** A command is refused as invalid exactly when some field is not in the form demanded, or its time is more
      than five minutes ahead. */
  lemma InvalidIff(core: Core, c: TaskCommand, now: int)
    ensures AfterCommand(core, c, now).raised == Some(CommandInvalid) <==>
      !(&& c.schemaVersion == "agenttrust.orchestrator-command.v1"
        && Token(c.commandId) && Token(c.requestKey)
        && |c.tenantId| > 0 && |c.taskId| > 0 && c.expectedStateVersion >= 0
        && c.payloadDigest == PayloadOf(c.commandType) && 1 <= |c.requestedBy| <= 512
        && c.requestedAt <= now + 300_000_000)
  {
  }

  /** In every run, an admitted command had this form. */
  lemma {:induction false} AdmittedIsValid(initial: Authority, events: seq<Event>, k: nat)
    requires k < |RunFlow(initial, events).history.admitted|
    ensures var c := RunFlow(initial, events).history.admitted[k];
      && c.schemaVersion == "agenttrust.orchestrator-command.v1" && Token(c.commandId) && Token(c.requestKey)
      && |c.tenantId| > 0 && |c.taskId| > 0 && c.expectedStateVersion >= 0
      && c.payloadDigest == PayloadOf(c.commandType) && 1 <= |c.requestedBy| <= 512
  {
    var f, x := RunFlow(initial, events[..|events| - 1]), events[|events| - 1];
    if Enabled(f, x) {
      NewIsValid(f, x);
    }
    if k < |f.history.admitted| {
      AdmittedIsValid(initial, events[..|events| - 1], k);
    }
  }

  predicate Formed(c: TaskCommand) {
    ValidCommand(c, c.requestedAt)
  }

  lemma ChangeIsValid(core: Core, c: TaskCommand, now: int)
    requires AfterCommand(core, c, now).core != core
    ensures ValidCommand(c, now)
  {
  }

  /** What is added to the admitted commands is valid. */
  predicate AddsValid(f: Flow, g: Flow) {
    f.history.admitted <= g.history.admitted
    && forall k | |f.history.admitted| <= k < |g.history.admitted| :: Formed(g.history.admitted[k])
  }

  lemma OneIsValid(f: Flow, c: TaskCommand, now: int)
    ensures AddsValid(f, f.(history := Enqueued(f, c, AfterCommand(f.core, c, now).core)))
  {
    if AfterCommand(f.core, c, now).core != f.core {
      ChangeIsValid(f.core, c, now);
    }
  }

  lemma InternalIsValid(f: Flow, t: CommandType, now: int)
    ensures AddsValid(f, AfterEnqueueInternal(f, t, now))
  {
    OneIsValid(f, InternalCommand(f.current, t, now), now);
  }

  lemma ChildIsValid(f: Flow, outcome: Outcome, now: int)
    requires f.phase.InFlight?
    ensures AddsValid(f, AfterComplete(f, outcome, now))
  {
    if outcome.Accepted? {
      var installed := AfterInstall(f, f.phase.command, outcome.next, now);
      assert installed.history.admitted == f.history.admitted;
      InternalIsValid(installed.(executionActive := ExecutionFlag(f.executionActive, f.phase.command.commandType, outcome.next.status)),
                      COMPLETE, now);
    }
  }

  lemma PollIsValid(f: Flow, status: Option<ExecutionStatus>, now: int)
    requires f.phase.Polling?
    ensures AddsValid(f, AfterPolled(f, status, now))
  {
    if status.Some? && FollowupCommand(status.value).Some? {
      InternalIsValid(f.(phase := Ready, executionActive := false), FollowupCommand(status.value).value, now);
    }
  }

  lemma NewIsValid(f: Flow, x: Event)
    requires Enabled(f, x)
    ensures AddsValid(f, Next(f, x))
  {
    match x
    case Delivery(c, now) => OneIsValid(f, c, now);
    case Loop => AdvanceCases(f);
    case ChildEnds(outcome, now) => ChildIsValid(f, outcome, now);
    case PollEnds(status, now) => PollIsValid(f, status, now);
  }

  // ---------- the log ----------

  /** The entry for a command that is refused. */
  function EntryFor(c: TaskCommand, code: string, at: int): Rejection {
    Rejection(c.taskId, c.commandId, c.requestKey, c.commandType, c.expectedStateVersion, code, at)
  }

  /** The last 1024 entries of a log. */
  function Latest(log: seq<Rejection>): seq<Rejection> {
    if |log| <= 1024 then log else log[|log| - 1024..]
  }

  lemma LatestNext(log: seq<Rejection>, x: Rejection)
    ensures BoundedAppend(Latest(log), x) == Latest(log + [x])
  {
  }

  lemma RecordLogs(core: Core, c: TaskCommand, code: string, at: int)
    requires |core.rejections| <= 1024
    ensures var e := AfterRejection(core, c, code, at);
      && |e.core.rejections| <= 1024
      && (e.raised.None? ==>
            e.core.rejections == Latest(core.rejections + [EntryFor(c, if "ORCHESTRATOR_" <= code && |code| <= 128 then code else "ORCHESTRATOR_TRANSITION_REJECTED", at)]))
  {
    LatestNext(core.rejections, EntryFor(c, SafeErrorCode(code), at));
  }

  /** The entries of the commands that a termination finds queued. */
  function Terminated(cs: seq<TaskCommand>, at: int): seq<Rejection> {
    seq(|cs|, i requires 0 <= i < |cs| => EntryFor(cs[i], "ORCHESTRATOR_TASK_TERMINATED", at))
  }

  lemma LatestTwice(log: seq<Rejection>, more: seq<Rejection>)
    ensures Latest(Latest(log) + more) == Latest(log + more)
  {
    if |log| > 1024 {
      var a, b := Latest(log) + more, log + more;
      forall k | 0 <= k < 1024
        ensures Latest(a)[k] == Latest(b)[k]
      {
        assert Latest(a)[k] == a[|a| - 1024 + k] && Latest(b)[k] == b[|b| - 1024 + k];
      }
    }
  }

  lemma TerminatedFirst(log: seq<Rejection>, cs: seq<TaskCommand>, at: int)
    requires cs != []
    ensures Latest(Latest(log + [EntryFor(cs[0], "ORCHESTRATOR_TASK_TERMINATED", at)]) + Terminated(cs[1..], at))
      == Latest(log + Terminated(cs, at))
  {
    var first := EntryFor(cs[0], "ORCHESTRATOR_TASK_TERMINATED", at);
    assert Terminated(cs, at) == [first] + Terminated(cs[1..], at);
    LatestTwice(log + [first], Terminated(cs[1..], at));
    assert log + ([first] + Terminated(cs[1..], at)) == log + [first] + Terminated(cs[1..], at);
  }

  /** The log that a drain leaves, if nothing stops it. */
  predicate DrainLogged(core: Core, e: Effect, at: int) {
    |e.core.rejections| <= 1024 && (e.raised.None? ==> e.core.rejections == Latest(core.rejections + Terminated(core.commands, at)))
  }

  lemma DrainLogsFirst(core: Core, middle: Core, e: Effect, at: int)
    requires core.commands != [] && middle.commands == core.commands[1..]
    requires middle.rejections == Latest(core.rejections + [EntryFor(core.commands[0], "ORCHESTRATOR_TASK_TERMINATED", at)])
    requires DrainLogged(middle, e, at)
    ensures DrainLogged(core, e, at)
  {
    TerminatedFirst(core.rejections, core.commands, at);
  }

  lemma HeadLogs(core: Core, at: int)
    requires core.commands != [] && |core.rejections| <= 1024
    ensures var e := AfterRejection(Remove(core, 0), core.commands[0], "ORCHESTRATOR_TASK_TERMINATED", at);
      && |e.core.rejections| <= 1024
      && (e.raised.None? ==>
            && e.core.commands == core.commands[1..]
            && e.core.rejections == Latest(core.rejections + [EntryFor(core.commands[0], "ORCHESTRATOR_TASK_TERMINATED", at)]))
  {
    RecordLogs(Remove(core, 0), core.commands[0], "ORCHESTRATOR_TASK_TERMINATED", at);
    assert core.commands[..0] + core.commands[1..] == core.commands[1..];
  }

  lemma {:induction false} DrainLogs(core: Core, at: int)
    requires |core.rejections| <= 1024
    ensures DrainLogged(core, AfterRejectingQueued(core, at), at)
    decreases |core.commands|
  {
    if core.commands == [] {
      assert core.rejections + Terminated(core.commands, at) == core.rejections;
    } else {
      var e := AfterRejection(Remove(core, 0), core.commands[0], "ORCHESTRATOR_TASK_TERMINATED", at);
      HeadLogs(core, at);
      if e.raised.None? {
        DrainLogs(e.core, at);
        DrainLogsFirst(core, e.core, AfterRejectingQueued(e.core, at), at);
      }
    }
  }

  lemma DeliveryLogs(core: Core, c: TaskCommand, now: int)
    requires CoreAgrees(core)
    ensures AfterCommand(core, c, now).core.rejections == core.rejections
  {
    CommandEffect(core, c, now);
  }

  lemma InternalLogs(f: Flow, t: CommandType, now: int)
    requires CoreAgrees(f.core)
    ensures AfterEnqueueInternal(f, t, now).core.rejections == f.core.rejections
  {
    DeliveryLogs(f.core, InternalCommand(f.current, t, now), now);
  }

  lemma InstallLogs(f: Flow, c: TaskCommand, next: Authority, now: int)
    requires |f.core.rejections| <= 1024 && CoreAgrees(f.core)
    ensures var g := AfterInstall(f, c, next, now);
      && |g.core.rejections| <= 1024 && CoreAgrees(g.core)
      && (!g.phase.Failed? ==>
            g.core.rejections == if next.terminal then Latest(f.core.rejections + Terminated(f.core.commands, now)) else f.core.rejections)
  {
    DrainLogs(f.core, now);
    var gone := Queue.DrainAgrees(f.core, now);
  }

  lemma RejectLogs(f: Flow, c: TaskCommand, code: string, now: int)
    requires |f.core.rejections| <= 1024
    ensures var g := AfterReject(f, c, code, now);
      && |g.core.rejections| <= 1024
      && (!g.phase.Failed? && "ORCHESTRATOR_" <= code && |code| <= 128 ==>
            g.core.rejections == Latest(f.core.rejections + [EntryFor(c, code, now)]))
      && (!g.phase.Failed? && !("ORCHESTRATOR_" <= code && |code| <= 128) ==>
            g.core.rejections == Latest(f.core.rejections + [EntryFor(c, "ORCHESTRATOR_TRANSITION_REJECTED", now)]))
  {
    RecordLogs(f.core, c, code, now);
  }

  lemma AcceptLogs(f: Flow, next: Authority, now: int)
    requires f.phase.InFlight? && |f.core.rejections| <= 1024 && CoreAgrees(f.core)
    ensures var g := AfterComplete(f, Accepted(next), now);
      && |g.core.rejections| <= 1024
      && (!g.phase.Failed? ==>
            g.core.rejections == if next.terminal then Latest(f.core.rejections + Terminated(f.core.commands, now)) else f.core.rejections)
  {
    InstallLogs(f, f.phase.command, next, now);
    var installed := AfterInstall(f, f.phase.command, next, now);
    InternalLogs(installed.(executionActive := ExecutionFlag(f.executionActive, f.phase.command.commandType, next.status)), COMPLETE, now);
  }

  lemma ChildBounds(f: Flow, outcome: Outcome, now: int)
    requires f.phase.InFlight? && |f.core.rejections| <= 1024 && CoreAgrees(f.core)
    ensures |AfterComplete(f, outcome, now).core.rejections| <= 1024
  {
    match outcome
    case Exhausted => RejectLogs(f, f.phase.command, "ORCHESTRATOR_TRANSITION_DEPENDENCY_EXHAUSTED", now);
    case Refused(code) => RejectLogs(f, f.phase.command, code, now);
    case Accepted(next) => AcceptLogs(f, next, now);
  }

  /** Nothing but the end of a child is logged. */
  lemma OthersLogNothing(f: Flow, x: Event)
    requires Enabled(f, x) && !x.ChildEnds? && CoreAgrees(f.core)
    ensures Next(f, x).core.rejections == f.core.rejections
  {
    match x
    case Delivery(c, now) => DeliveryLogs(f.core, c, now);
    case Loop => AdvanceCases(f);
    case PollEnds(status, now) =>
      if status.Some? && FollowupCommand(status.value).Some? {
        InternalLogs(f.(phase := Ready, executionActive := false), FollowupCommand(status.value).value, now);
      }
  }

  lemma {:induction false} LogIsBounded(initial: Authority, events: seq<Event>)
    ensures |RunFlow(initial, events).core.rejections| <= 1024
  {
    if events != [] {
      var f, x := RunFlow(initial, events[..|events| - 1]), events[|events| - 1];
      LogIsBounded(initial, events[..|events| - 1]);
      Queue.EveryRunAgrees(initial, events[..|events| - 1]);
      if Enabled(f, x) && x.ChildEnds? {
        ChildBounds(f, x.outcome, x.now);
      } else if Enabled(f, x) {
        OthersLogNothing(f, x);
      }
    }
  }

  /** In every run that goes on, the end of a child is logged with its reason, the queued commands that a
      termination refuses one by one and in their order, and nothing else; the log keeps the last 1024. */
  lemma {:induction false} EveryRefusalIsLogged(initial: Authority, events: seq<Event>, x: Event)
    requires Enabled(RunFlow(initial, events), x) && !RunFlow(initial, events + [x]).phase.Failed?
    ensures var f := RunFlow(initial, events); var log := RunFlow(initial, events + [x]).core.rejections;
      && (!x.ChildEnds? ==> log == f.core.rejections)
      && (x.ChildEnds? && x.outcome.Exhausted? ==>
            log == Latest(f.core.rejections + [EntryFor(f.phase.command, "ORCHESTRATOR_TRANSITION_DEPENDENCY_EXHAUSTED", x.now)]))
      && (x.ChildEnds? && x.outcome.Refused? && "ORCHESTRATOR_" <= x.outcome.code && |x.outcome.code| <= 128 ==>
            log == Latest(f.core.rejections + [EntryFor(f.phase.command, x.outcome.code, x.now)]))
      && (x.ChildEnds? && x.outcome.Accepted? && x.outcome.next.terminal ==>
            log == Latest(f.core.rejections + Terminated(f.core.commands, x.now)))
      && (x.ChildEnds? && x.outcome.Accepted? && !x.outcome.next.terminal ==> log == f.core.rejections)
  {
    var f := RunFlow(initial, events);
    Extend(initial, events, x);
    LogIsBounded(initial, events);
    Queue.EveryRunAgrees(initial, events);
    match x
    case ChildEnds(Exhausted, now) => RejectLogs(f, f.phase.command, "ORCHESTRATOR_TRANSITION_DEPENDENCY_EXHAUSTED", now);
    case ChildEnds(Refused(code), now) => RejectLogs(f, f.phase.command, code, now);
    case ChildEnds(Accepted(next), now) => AcceptLogs(f, next, now);
    case _ => OthersLogNothing(f, x);
  }
}
