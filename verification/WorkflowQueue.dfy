/**
 What the queue keeps in the workflow loop, where a command may be in flight while others arrive.
 The deque and the queued maps agree in every run, which settles the order of the deque and what a
 reuse of a queued id does.  What a reuse of a rejected id does depends on whether the id was also
 redelivered in flight: the admission guards do not look at the command in flight.
 */
module WorkflowQueue {
  import opened Common
  import opened CommandQueue
  import opened CommandQueueLaws
  import opened TransitionEngine
  import opened TaskWorkflow
  import opened TaskWorkflowLaws

  // ---------- agreement, in every run ----------

  lemma RecordAgrees(core: Core, c: TaskCommand, code: string, at: int)
    requires CoreAgrees(core)
    ensures CoreAgrees(AfterRejection(core, c, code, at).core)
    ensures AfterRejection(core, c, code, at).core.commands == core.commands
  {
    if AfterRejection(core, c, code, at).raised.None? {
      RecordEffect(core, c, code, at);
    }
  }

  lemma PoppedAgrees(core: Core, at: int)
    requires CoreAgrees(core) && core.commands != []
    ensures CoreAgrees(RejectHead(core, "ORCHESTRATOR_TASK_TERMINATED", at).core)
    ensures RejectHead(core, "ORCHESTRATOR_TASK_TERMINATED", at).core.commands == core.commands[1..]
  {
    PopEffect(core);
    RecordAgrees(Remove(core, 0), core.commands[0], "ORCHESTRATOR_TASK_TERMINATED", at);
  }

  /** A drain, finished or not, takes commands from the front. */
  lemma {:induction false} DrainAgrees(core: Core, at: int) returns (gone: nat)
    requires CoreAgrees(core)
    ensures CoreAgrees(AfterRejectingQueued(core, at).core)
    ensures gone <= |core.commands| && AfterRejectingQueued(core, at).core.commands == core.commands[gone..]
    decreases |core.commands|
  {
    gone := 0;
    if core.commands != [] {
      PoppedAgrees(core, at);
      var recorded := RejectHead(core, "ORCHESTRATOR_TASK_TERMINATED", at);
      gone := 1;
      if recorded.raised.None? {
        DrainOne(core, at);
        var more := DrainAgrees(recorded.core, at);
        gone := more + 1;
      }
    }
  }

  lemma CommandAgrees(core: Core, c: TaskCommand, now: int)
    requires CoreAgrees(core)
    ensures CoreAgrees(AfterCommand(core, c, now).core)
  {
    CommandEffect(core, c, now);
    if AfterCommand(core, c, now).core != core {
      EnqueueEffect(core, c);
    }
  }

  /** What is left of `cs`, with `c` put in its place when there is one. */
  function Placed(rest: seq<TaskCommand>, c: Option<TaskCommand>): seq<TaskCommand> {
    if c.None? then rest else if c.value.commandType == KILL then [c.value] + rest else rest + [c.value]
  }

  /** One event takes commands from the front of the deque and then admits at most one. */
  predicate Turns(f: Flow, g: Flow, gone: nat, c: Option<TaskCommand>) {
    && gone <= |f.core.commands|
    && g.core.commands == Placed(f.core.commands[gone..], c)
    && g.history.admitted == f.history.admitted + if c.None? then [] else [c.value]
  }

  lemma AdmissionTurns(f: Flow, c: TaskCommand, now: int) returns (put: Option<TaskCommand>)
    requires CoreAgrees(f.core)
    ensures var e := AfterCommand(f.core, c, now);
      && CoreAgrees(e.core)
      && e.core.commands == Placed(f.core.commands, put)
      && Enqueued(f, c, e.core).admitted == f.history.admitted + if put.None? then [] else [put.value]
  {
    CommandAgrees(f.core, c, now);
    CommandEffect(f.core, c, now);
    put := if AfterCommand(f.core, c, now).core == f.core then None else Some(c);
  }

  /** An internal command is admitted like any other, after what happened before it. */
  lemma FollowTurns(f: Flow, g: Flow, gone: nat, t: CommandType, now: int) returns (put: Option<TaskCommand>)
    requires CoreAgrees(g.core) && Turns(f, g, gone, None)
    ensures var h := AfterEnqueueInternal(g, t, now); CoreAgrees(h.core) && Turns(f, h, gone, put)
  {
    put := AdmissionTurns(g, InternalCommand(g.current, t, now), now);
  }

  lemma RejectTurns(f: Flow, c: TaskCommand, code: string, now: int)
    requires CoreAgrees(f.core)
    ensures var g := AfterReject(f, c, code, now); CoreAgrees(g.core) && Turns(f, g, 0, None)
  {
    RecordAgrees(f.core, c, code, now);
  }

  lemma InstallTurns(f: Flow, c: TaskCommand, next: Authority, now: int) returns (gone: nat)
    requires CoreAgrees(f.core)
    ensures var g := AfterInstall(f, c, next, now); CoreAgrees(g.core) && Turns(f, g, gone, None)
  {
    gone := 0;
    if next.terminal {
      gone := DrainAgrees(f.core, now);
    }
  }

  lemma AcceptTurns(f: Flow, next: Authority, now: int) returns (gone: nat, put: Option<TaskCommand>)
    requires CoreAgrees(f.core) && f.phase.InFlight?
    ensures var g := AfterComplete(f, Accepted(next), now); CoreAgrees(g.core) && Turns(f, g, gone, put)
  {
    var c := f.phase.command;
    var g := AfterInstall(f, c, next, now);
    gone := InstallTurns(f, c, next, now);
    put := None;
    if !g.phase.Failed? && c.commandType == VERIFY && next.status == VERIFYING {
      var flagged := g.(executionActive := ExecutionFlag(f.executionActive, c.commandType, next.status));
      put := FollowTurns(f, flagged, gone, COMPLETE, now);
    }
  }

  lemma PollTurns(f: Flow, status: Option<ExecutionStatus>, now: int) returns (put: Option<TaskCommand>)
    requires CoreAgrees(f.core) && f.phase.Polling?
    ensures var g := AfterPolled(f, status, now); CoreAgrees(g.core) && Turns(f, g, 0, put)
  {
    put := None;
    if status.Some? && FollowupCommand(status.value).Some? {
      put := FollowTurns(f, f.(phase := Ready, executionActive := false), 0, FollowupCommand(status.value).value, now);
    }
  }

  /** The head of the loop pops one command, or none. */
  lemma AdvancePops(f: Flow)
    requires f.phase.Ready?
    ensures var g := AfterAdvance(f);
      && g.core == (if f.terminal || f.core.commands == [] then f.core else Remove(f.core, 0))
      && g.history.admitted == f.history.admitted
  {
  }

  lemma AdvanceTurns(f: Flow) returns (gone: nat)
    requires CoreAgrees(f.core) && f.phase.Ready?
    ensures CoreAgrees(AfterAdvance(f).core) && Turns(f, AfterAdvance(f), gone, None)
  {
    AdvancePops(f);
    gone := 0;
    if !f.terminal && f.core.commands != [] {
      PopEffect(f.core);
      gone := 1;
    }
  }

  lemma NextTurns(f: Flow, e: Event) returns (gone: nat, put: Option<TaskCommand>)
    requires CoreAgrees(f.core) && Enabled(f, e)
    ensures CoreAgrees(Next(f, e).core) && Turns(f, Next(f, e), gone, put)
  {
    gone, put := 0, None;
    match e {
      case Delivery(c, now) => put := AdmissionTurns(f, c, now);
      case Loop => gone := AdvanceTurns(f);
      case PollEnds(status, now) => put := PollTurns(f, status, now);
      case ChildEnds(outcome, now) =>
        match outcome {
          case Exhausted => RejectTurns(f, f.phase.command, "ORCHESTRATOR_TRANSITION_DEPENDENCY_EXHAUSTED", now);
          case Refused(code) => RejectTurns(f, f.phase.command, code, now);
          case Accepted(next) => gone, put := AcceptTurns(f, next, now);
        }
    }
  }

  /** In every run, raised or not, deque and queued maps describe the same commands, and so do the two
      rejected maps. */
  lemma {:induction false} EveryRunAgrees(initial: Authority, events: seq<Event>)
    ensures CoreAgrees(RunFlow(initial, events).core)
  {
    if events != [] {
      var f := RunFlow(initial, events[..|events| - 1]);
      EveryRunAgrees(initial, events[..|events| - 1]);
      if Enabled(f, events[|events| - 1]) {
        var gone, put := NextTurns(f, events[|events| - 1]);
      }
    }
  }

  // ---------- order ----------

  /** The deque holds admitted commands: KILLs first, the latest admitted in front, then the others in
      order of admission.  `arrivals` says which admission each of them is. */
  predicate ArrivalOrder(cs: seq<TaskCommand>, admitted: seq<TaskCommand>, arrivals: seq<nat>) {
    && |arrivals| == |cs|
    && (forall i | 0 <= i < |cs| :: arrivals[i] < |admitted| && admitted[arrivals[i]] == cs[i])
    && forall i, j {:trigger cs[i], cs[j]} | 0 <= i < j < |cs| :: Ahead(cs[i], arrivals[i], cs[j], arrivals[j])
  }

  predicate Ahead(c: TaskCommand, m: nat, d: TaskCommand, n: nat) {
    if c.commandType == KILL then d.commandType != KILL || m > n else d.commandType != KILL && m < n
  }

  lemma AppendedKeepsOrder(cs: seq<TaskCommand>, admitted: seq<TaskCommand>, arrivals: seq<nat>, c: TaskCommand)
    requires ArrivalOrder(cs, admitted, arrivals) && c.commandType != KILL
    ensures ArrivalOrder(cs + [c], admitted + [c], arrivals + [|admitted|])
  {
    forall i, j | 0 <= i < j < |cs| + 1
      ensures Ahead((cs + [c])[i], (arrivals + [|admitted|])[i], (cs + [c])[j], (arrivals + [|admitted|])[j])
    {
      if j < |cs| {
        assert Ahead(cs[i], arrivals[i], cs[j], arrivals[j]);
      }
    }
  }

  lemma PrependedKeepsOrder(cs: seq<TaskCommand>, admitted: seq<TaskCommand>, arrivals: seq<nat>, c: TaskCommand)
    requires ArrivalOrder(cs, admitted, arrivals) && c.commandType == KILL
    ensures ArrivalOrder([c] + cs, admitted + [c], [|admitted|] + arrivals)
  {
    forall i, j | 0 <= i < j < |cs| + 1
      ensures Ahead(([c] + cs)[i], ([|admitted|] + arrivals)[i], ([c] + cs)[j], ([|admitted|] + arrivals)[j])
    {
      if i > 0 {
        assert Ahead(cs[i - 1], arrivals[i - 1], cs[j - 1], arrivals[j - 1]);
      }
    }
  }

  lemma DroppedKeepsOrder(cs: seq<TaskCommand>, admitted: seq<TaskCommand>, arrivals: seq<nat>, gone: nat)
    requires ArrivalOrder(cs, admitted, arrivals) && gone <= |cs|
    ensures ArrivalOrder(cs[gone..], admitted, arrivals[gone..])
  {
  }

  lemma TurnKeepsOrder(f: Flow, g: Flow, gone: nat, put: Option<TaskCommand>, arrivals: seq<nat>)
    returns (after: seq<nat>)
    requires Turns(f, g, gone, put) && ArrivalOrder(f.core.commands, f.history.admitted, arrivals)
    ensures ArrivalOrder(g.core.commands, g.history.admitted, after)
  {
    DroppedKeepsOrder(f.core.commands, f.history.admitted, arrivals, gone);
    after := arrivals[gone..];
    if put.Some? && put.value.commandType == KILL {
      PrependedKeepsOrder(f.core.commands[gone..], f.history.admitted, after, put.value);
      after := [|f.history.admitted|] + after;
    } else if put.Some? {
      AppendedKeepsOrder(f.core.commands[gone..], f.history.admitted, after, put.value);
      after := after + [|f.history.admitted|];
    }
  }

  lemma {:induction false} EveryRunKeepsOrder(initial: Authority, events: seq<Event>) returns (arrivals: seq<nat>)
    ensures ArrivalOrder(RunFlow(initial, events).core.commands, RunFlow(initial, events).history.admitted, arrivals)
  {
    arrivals := [];
    if events != [] {
      var f := RunFlow(initial, events[..|events| - 1]);
      var e := events[|events| - 1];
      arrivals := EveryRunKeepsOrder(initial, events[..|events| - 1]);
      EveryRunAgrees(initial, events[..|events| - 1]);
      if Enabled(f, e) {
        var gone, put := NextTurns(f, e);
        arrivals := TurnKeepsOrder(f, Next(f, e), gone, put, arrivals);
      }
    }
  }

  // ---------- reuse of a queued id ----------

  /** Any reuse of a queued id or key leaves the state alone; it is silent exactly when only the
      request time differs, and a conflict otherwise. */
  lemma {:induction false} ReuseOfQueued(initial: Authority, events: seq<Event>, q: TaskCommand, c: TaskCommand, now: int)
    requires q in RunFlow(initial, events).core.commands
    requires ValidCommand(c, now)
    requires c.commandId == q.commandId || c.requestKey == q.requestKey
    ensures AfterCommand(RunFlow(initial, events).core, c, now)
      == Effect(RunFlow(initial, events).core,
                if c == q.(requestedAt := c.requestedAt) then None else Some(IdempotencyConflict))
  {
    EveryRunAgrees(initial, events);
    SameFingerprint(c, q);
    KnownOfQueued(RunFlow(initial, events).core, q, c);
  }

  // ---------- reuse of a rejected id ----------

  /** The very command is queued, or recorded as rejected. */
  predicate QueuedAs(core: Core, c: TaskCommand) {
    c.commandId in core.queued && FingerprintOf(core.queued[c.commandId]) == FingerprintOf(c)
  }

  predicate RejectedAs(core: Core, c: TaskCommand) {
    c.commandId in core.rejected && core.rejected[c.commandId] == FingerprintOf(c)
  }

  predicate IsQueued(core: Core, c: TaskCommand) {
    c.commandId in core.queued || c.requestKey in core.queuedKeys
  }

  predicate IsRejected(core: Core, c: TaskCommand) {
    c.commandId in core.rejected || c.requestKey in core.rejectedKeys
  }

  lemma KnownOfAny(core: Core, c: TaskCommand)
    requires CoreAgrees(core)
    ensures Known(core, c) ==
      if IsQueued(core, c) then Some(if QueuedAs(core, c) then None else Some(IdempotencyConflict))
      else if IsRejected(core, c) then Some(Some(if RejectedAs(core, c) then PreviouslyRejected else IdempotencyConflict))
      else None
  {
    MapMembers(core.commands);
    RejectedLinks(core);
    if c.commandId !in core.queued && c.requestKey in core.queuedKeys {
      var i :| 0 <= i < |core.commands| && core.commands[i].requestKey == c.requestKey
            && core.queuedKeys[c.requestKey] == FingerprintOf(core.commands[i]);
      assert core.commands[i].commandId in core.queued;
    }
  }

  /** A rejected id or key never changes the state.  It is reported as previously rejected exactly when
      the command is the rejected one and neither its id nor its key is queued; it is acknowledged as
      if it were new exactly when the command is queued again. */
  lemma {:induction false} ReuseOfRejectedIff(initial: Authority, events: seq<Event>, c: TaskCommand, now: int)
    requires ValidCommand(c, now) && IsRejected(RunFlow(initial, events).core, c)
    ensures var core := RunFlow(initial, events).core; var e := AfterCommand(core, c, now);
      && e.core == core
      && (e.raised == Some(PreviouslyRejected) <==> RejectedAs(core, c) && !IsQueued(core, c))
      && (e.raised == None <==> QueuedAs(core, c))
      && (e.raised.Some? && e.raised != Some(PreviouslyRejected) ==> e.raised == Some(IdempotencyConflict))
  {
    EveryRunAgrees(initial, events);
    KnownOfAny(RunFlow(initial, events).core, c);
  }

  // ---------- how an id comes to be both queued and rejected ----------

  /** No id or key is queued or in flight while it is recorded as rejected. */
  predicate Separate(f: Flow) {
    Disjoint(f.core) && (f.phase.InFlight? ==> !IsRejected(f.core, f.phase.command))
  }

  /** Nor is the id or key of the command in flight queued again. */
  predicate Apart(f: Flow) {
    Separate(f) && (f.phase.InFlight? ==> !IsQueued(f.core, f.phase.command))
  }

  lemma PopSeparates(f: Flow)
    requires CoreAgrees(f.core) && f.phase.Ready? && Disjoint(f.core)
    ensures AfterAdvance(f).phase.Failed? || Apart(AfterAdvance(f))
  {
    if f.core.commands != [] {
      var c := f.core.commands[0];
      PopAgrees(f.core);
      assert c.commandId in f.core.queued && c.requestKey in f.core.queuedKeys;
    }
  }

  lemma EnqueueSeparates(core: Core, c: TaskCommand, now: int)
    requires CoreAgrees(core) && Disjoint(core)
    ensures Disjoint(AfterCommand(core, c, now).core)
    ensures AfterCommand(core, c, now).core.rejected == core.rejected
    ensures AfterCommand(core, c, now).core.rejectedKeys == core.rejectedKeys
  {
    CommandEffect(core, c, now);
    KnownOfAny(core, c);
  }

  lemma RecordedKeys(core: Core, c: TaskCommand, code: string, at: int)
    requires AfterRejection(core, c, code, at).raised.None?
    ensures var next := AfterRejection(core, c, code, at).core;
      && next.queued == core.queued && next.queuedKeys == core.queuedKeys
      && next.rejected.Keys == core.rejected.Keys + {c.commandId}
      && next.rejectedKeys.Keys == core.rejectedKeys.Keys + {c.requestKey}
  {
    UpdatedKeys(core.rejected, c.commandId, FingerprintOf(c));
    UpdatedKeys(core.rejectedKeys, c.requestKey, FingerprintOf(c));
  }

  lemma UpdatedKeys(m: map<string, Fingerprint>, key: string, p: Fingerprint)
    ensures m[key := p].Keys == m.Keys + {key}
  {
  }

  lemma RecordSeparatesIff(core: Core, c: TaskCommand, code: string, at: int)
    requires Disjoint(core) && AfterRejection(core, c, code, at).raised.None?
    ensures Disjoint(AfterRejection(core, c, code, at).core) <==> !IsQueued(core, c)
  {
    RecordedKeys(core, c, code, at);
    var next := AfterRejection(core, c, code, at).core;
    assert c.commandId in next.rejected.Keys && c.requestKey in next.rejectedKeys.Keys;
    assert c.commandId in core.queued <==> c.commandId in next.queued.Keys;
    assert c.requestKey in core.queuedKeys <==> c.requestKey in next.queuedKeys.Keys;
  }

  predicate Refusal(e: Event) {
    e.ChildEnds? && !e.outcome.Accepted?
  }

  lemma InstallSeparates(f: Flow, c: TaskCommand, next: Authority, now: int)
    requires CoreAgrees(f.core) && Disjoint(f.core)
    ensures var g := AfterInstall(f, c, next, now);
      g.phase.Failed? || (g.phase.Ready? && CoreAgrees(g.core) && Disjoint(g.core) && g.current == next)
    ensures !next.terminal ==> AfterInstall(f, c, next, now).core == f.core
  {
    if next.terminal && AfterRejectingQueued(f.core, now).raised.None? {
      DrainEffect(f.core, now);
    }
  }

  lemma FollowSeparates(f: Flow, t: CommandType, now: int)
    requires CoreAgrees(f.core) && Disjoint(f.core) && !f.phase.InFlight?
    ensures Separate(AfterEnqueueInternal(f, t, now))
    ensures AfterEnqueueInternal(f, t, now).core.rejected == f.core.rejected
    ensures AfterEnqueueInternal(f, t, now).current == f.current
  {
    EnqueueSeparates(f.core, InternalCommand(f.current, t, now), now);
  }

  /** An accepted outcome installs the new state and then, perhaps, enqueues COMPLETE. */
  lemma AcceptedCases(f: Flow, next: Authority, now: int) returns (flagged: Flow)
    requires f.phase.InFlight?
    ensures var g := AfterInstall(f, f.phase.command, next, now);
      && flagged == g.(executionActive := flagged.executionActive)
      && if g.phase.Failed? then AfterComplete(f, Accepted(next), now) == g
         else AfterComplete(f, Accepted(next), now) == flagged
              || AfterComplete(f, Accepted(next), now) == AfterEnqueueInternal(flagged, COMPLETE, now)
  {
    var g := AfterInstall(f, f.phase.command, next, now);
    flagged := g.(executionActive := ExecutionFlag(f.executionActive, f.phase.command.commandType, next.status));
  }

  lemma InstallCurrent(f: Flow, c: TaskCommand, next: Authority, now: int)
    ensures AfterInstall(f, c, next, now).current == next
  {
  }

  lemma AcceptedSeparates(f: Flow, next: Authority, now: int)
    requires f.phase.InFlight? && CoreAgrees(f.core) && Disjoint(f.core)
    ensures var g := AfterComplete(f, Accepted(next), now); g.phase.Failed? || Separate(g)
    ensures !next.terminal ==> AfterComplete(f, Accepted(next), now).core.rejected == f.core.rejected
    ensures AfterComplete(f, Accepted(next), now).current == next
  {
    var g := AfterInstall(f, f.phase.command, next, now);
    InstallSeparates(f, f.phase.command, next, now);
    InstallCurrent(f, f.phase.command, next, now);
    var flagged := AcceptedCases(f, next, now);
    if !g.phase.Failed? {
      FollowSeparates(flagged, COMPLETE, now);
    }
  }

  /** The state stops being separate exactly when the command in flight is refused while its id or key
      has been queued again. */
  lemma {:induction false} SeparationLostIff(initial: Authority, events: seq<Event>, e: Event)
    requires var f := RunFlow(initial, events); Enabled(f, e) && Separate(f) && !Next(f, e).phase.Failed?
    ensures var f := RunFlow(initial, events);
      !Separate(Next(f, e)) <==> Refusal(e) && IsQueued(f.core, f.phase.command)
  {
    EveryRunAgrees(initial, events);
    StepSeparates(RunFlow(initial, events), e);
  }

  lemma StepSeparates(f: Flow, e: Event)
    requires CoreAgrees(f.core) && Enabled(f, e) && Separate(f) && !Next(f, e).phase.Failed?
    ensures !Separate(Next(f, e)) <==> Refusal(e) && IsQueued(f.core, f.phase.command)
  {
    match e
    case Delivery(c, now) => EnqueueSeparates(f.core, c, now);
    case Loop => PopSeparates(f);
    case ChildEnds(outcome, now) =>
      match outcome {
        case Exhausted => RecordSeparatesIff(f.core, f.phase.command, "ORCHESTRATOR_TRANSITION_DEPENDENCY_EXHAUSTED", now);
        case Refused(code) => RecordSeparatesIff(f.core, f.phase.command, code, now);
        case Accepted(next) => AcceptedSeparates(f, next, now);
      }
    case PollEnds(status, now) =>
      if status.Some? && FollowupCommand(status.value).Some? {
        EnqueueSeparates(f.core, InternalCommand(f.current, FollowupCommand(status.value).value, now), now);
      }
  }

  // ---------- runs without redelivery in flight ----------

  predicate ReusesInFlight(f: Flow, e: Event) {
    e.Delivery? && f.phase.InFlight?
    && (e.c.commandId == f.phase.command.commandId || e.c.requestKey == f.phase.command.requestKey)
  }

  predicate NeverReuses(initial: Authority, events: seq<Event>) {
    forall k {:trigger events[k]} | 0 <= k < |events| :: !ReusesInFlight(RunFlow(initial, events[..k]), events[k])
  }

  lemma DeliverIsApart(f: Flow, c: TaskCommand, now: int)
    requires CoreAgrees(f.core) && Open(f) && Apart(f) && !ReusesInFlight(f, Delivery(c, now))
    ensures Apart(AfterDeliver(f, c, now))
  {
    CommandEffect(f.core, c, now);
    EnqueueSeparates(f.core, c, now);
  }

  lemma NextIsApart(f: Flow, e: Event)
    requires CoreAgrees(f.core) && Enabled(f, e) && Apart(f) && !ReusesInFlight(f, e)
    ensures Next(f, e).phase.Failed? || Apart(Next(f, e))
  {
    if !Next(f, e).phase.Failed? {
      match e
      case Delivery(c, now) => DeliverIsApart(f, c, now);
      case Loop => PopSeparates(f);
      case ChildEnds(_, _) => StepSeparates(f, e); NotInFlight(f, e);
      case PollEnds(_, _) => StepSeparates(f, e); NotInFlight(f, e);
    }
  }

  lemma NotInFlight(f: Flow, e: Event)
    requires Enabled(f, e) && (e.ChildEnds? || e.PollEnds?)
    ensures !Next(f, e).phase.InFlight?
  {
  }

  /** No applied command is recorded as rejected. */
  predicate AppliedNotRejected(f: Flow) {
    f.current.processed.Keys !! f.core.rejected.Keys
  }

  lemma RejectAppliedNotRejected(f: Flow, code: string, now: int)
    requires f.phase.InFlight? && f.phase.command.commandId !in f.current.processed && AppliedNotRejected(f)
    ensures AppliedNotRejected(AfterReject(f, f.phase.command, code, now))
  {
    if AfterRejection(f.core, f.phase.command, code, now).raised.None? {
      RecordedKeys(f.core, f.phase.command, code, now);
    }
  }

  lemma CompleteAppliedNotRejected(f: Flow, outcome: Outcome, now: int)
    requires CoreAgrees(f.core) && Enabled(f, ChildEnds(outcome, now)) && Apart(f) && OnceInv(f)
    requires !f.terminal && AppliedNotRejected(f)
    ensures var g := AfterComplete(f, outcome, now);
      g.phase.Failed? || (outcome.Accepted? && outcome.next.terminal) || AppliedNotRejected(g)
  {
    match outcome
    case Exhausted => RejectAppliedNotRejected(f, "ORCHESTRATOR_TRANSITION_DEPENDENCY_EXHAUSTED", now);
    case Refused(code) => RejectAppliedNotRejected(f, code, now);
    case Accepted(next) =>
      FreshAnswer(f.current, f.phase.command, next);
      AcceptedSeparates(f, next, now);
  }

  lemma AcceptedTerminal(f: Flow, next: Authority, now: int)
    requires f.phase.InFlight?
    ensures AfterComplete(f, Accepted(next), now).terminal == next.terminal
  {
  }

  lemma NextAppliedNotRejected(f: Flow, e: Event)
    requires CoreAgrees(f.core) && Enabled(f, e) && Apart(f) && OnceInv(f)
    requires !f.terminal && AppliedNotRejected(f)
    ensures var g := Next(f, e); g.phase.Failed? || g.terminal || AppliedNotRejected(g)
  {
    match e
    case Delivery(c, now) => EnqueueSeparates(f.core, c, now);
    case Loop => AdvancePops(f);
    case ChildEnds(outcome, now) =>
      CompleteAppliedNotRejected(f, outcome, now);
      if outcome.Accepted? { AcceptedTerminal(f, outcome.next, now); }
    case PollEnds(status, now) =>
      if status.Some? && FollowupCommand(status.value).Some? {
        FollowSeparates(f.(phase := Ready, executionActive := false), FollowupCommand(status.value).value, now);
      }
  }

  /** Unless an id or key is reused while it is in flight, none is ever queued, in flight and rejected at
      once, and until the task ends no applied command is recorded as rejected. */
  lemma {:induction false} EveryOrderlyRun(initial: Authority, events: seq<Event>)
    requires Initial(initial) && NeverReuses(initial, events)
    ensures var f := RunFlow(initial, events);
      f.phase.Failed? || (Apart(f) && (f.terminal || AppliedNotRejected(f)))
    decreases |events|
  {
    if events != [] {
      var front := events[..|events| - 1];
      var f := RunFlow(initial, front);
      var e := events[|events| - 1];
      forall k | 0 <= k < |front|
        ensures !ReusesInFlight(RunFlow(initial, front[..k]), front[k])
      {
        assert front[..k] == events[..k] && front[k] == events[k];
      }
      EveryOrderlyRun(initial, front);
      EveryRunAgrees(initial, front);
      EveryRunOnce(initial, front);
      if Enabled(f, e) {
        assert !ReusesInFlight(f, events[|events| - 1]);
        NextIsApart(f, e);
        if f.terminal {
          assert e.Loop?;
        } else {
          NextAppliedNotRejected(f, e);
        }
      }
    }
  }

  // ---------- a run that applies a rejected command ----------

  /** The one command `c` is queued, or not, with `rejected` beside it. */
  predicate Holds(f: Flow, initial: Authority, queue: seq<TaskCommand>, rejected: map<string, Fingerprint>,
                  rejectedKeys: map<string, Fingerprint>, phase: Phase)
  {
    && f.core.commands == queue && f.core.queued == IdMap(queue) && f.core.queuedKeys == KeyMap(queue)
    && f.core.rejected == rejected && f.core.rejectedKeys == rejectedKeys
    && f.current == initial && !f.terminal && f.phase == phase
  }

  lemma OneQueued(c: TaskCommand)
    ensures IdMap([c]) == map[c.commandId := c] && KeyMap([c]) == map[c.requestKey := FingerprintOf(c)]
    ensures [c][..0] + [c][1..] == []
  {
    assert [c][1..] == [];
  }

  lemma DeliverOne(f: Flow, initial: Authority, c: TaskCommand, now: int, phase: Phase)
    requires ValidCommand(c, now) && Holds(f, initial, [], map[], map[], phase) && (phase.Ready? || phase.InFlight?)
    ensures Holds(AfterDeliver(f, c, now), initial, [c], map[], map[], phase)
  {
    OneQueued(c);
  }

  lemma PopOne(f: Flow, initial: Authority, c: TaskCommand, rejected: map<string, Fingerprint>, keys: map<string, Fingerprint>)
    requires Initial(initial) && Holds(f, initial, [c], rejected, keys, Ready)
    ensures Holds(AfterAdvance(f), initial, [], rejected, keys, InFlight(c))
  {
    OneQueued(c);
  }

  /** A command delivered again while it is in flight, and then refused. */
  function Redelivered(c: TaskCommand, now: int): seq<Event> {
    [Delivery(c, now), Loop, Delivery(c, now), ChildEnds(Exhausted, now)]
  }

  lemma RedeliveredHolds(initial: Authority, c: TaskCommand, now: int)
    requires Initial(initial) && ValidCommand(c, now)
    ensures Holds(RunFlow(initial, Redelivered(c, now)), initial, [c],
                  map[c.commandId := FingerprintOf(c)], map[c.requestKey := FingerprintOf(c)], Ready)
    ensures c in RunFlow(initial, Redelivered(c, now)).history.refused
  {
    var events: seq<Event> := [];
    Extend(initial, events, Delivery(c, now));
    DeliverOne(RunFlow(initial, events), initial, c, now, Ready);
    events := events + [Delivery(c, now)];
    Extend(initial, events, Loop);
    PopOne(RunFlow(initial, events), initial, c, map[], map[]);
    events := events + [Loop];
    Extend(initial, events, Delivery(c, now));
    DeliverOne(RunFlow(initial, events), initial, c, now, InFlight(c));
    events := events + [Delivery(c, now)];
    Extend(initial, events, ChildEnds(Exhausted, now));
    events := events + [ChildEnds(Exhausted, now)];
    assert events == Redelivered(c, now);
  }

  /** After it the command is recorded as rejected and acknowledged all the same; the loop then runs it
      a second time, and it may be applied. */
  lemma RejectedIsApplied(initial: Authority, c: TaskCommand, now: int) returns (later: seq<Event>)
    requires Initial(initial) && initial.status == CREATED
    requires ValidCommand(c, now) && c.commandType == START && c.expectedStateVersion == 0
    requires c.tenantId == initial.tenantId && c.taskId == initial.taskId
    ensures var f := RunFlow(initial, Redelivered(c, now));
      && RejectedAs(f.core, c) && AfterCommand(f.core, c, now) == Effect(f.core, None)
      && f.phase.Ready? && AfterAdvance(f).phase == InFlight(c)
    ensures Redelivered(c, now) <= later
    ensures var g := RunFlow(initial, later);
      c in g.history.refused && c in g.history.accepted && RejectedAs(g.core, c) && c.commandId in g.current.processed
  {
    var events := Redelivered(c, now);
    RedeliveredHolds(initial, c, now);
    var f := RunFlow(initial, events);
    PopOne(f, initial, c, f.core.rejected, f.core.rejectedKeys);
    assert IdMap([c])[c.commandId] == c by { OneQueued(c); }
    Extend(initial, events, Loop);
    var waiting := RunFlow(initial, events + [Loop]);
    var granted := ChildEnds(Accepted(Applied(initial, c, RUNNING)), now);
    Extend(initial, events + [Loop], granted);
    later := events + [Loop] + [granted];
    assert waiting.history.refused == f.history.refused;
    assert RunFlow(initial, later).history.accepted[|waiting.history.accepted|] == c;
  }
}
