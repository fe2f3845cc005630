/**
 What every run of the workflow loop keeps, over every interleaving of deliveries with the loop:
 no admitted command is lost, the rejection history stays within 1025 counting the command in
 flight, and every command is applied at most once, against exactly the version it names.
 */
module TaskWorkflowLaws {
  import opened Common
  import opened CommandQueue
  import opened CommandQueueLaws
  import opened TransitionEngine
  import opened TaskWorkflow

  // ---------- runs ----------

  datatype Event =
    | Delivery(c: TaskCommand, now: int)
    | Loop
    | ChildEnds(outcome: Outcome, now: int)
    | PollEnds(status: Option<ExecutionStatus>, now: int)

  predicate Enabled(f: Flow, e: Event) {
    match e
    case Delivery(c, now) => Open(f)
    case Loop => f.phase.Ready?
    case ChildEnds(outcome, now) =>
      && f.phase.InFlight?
      && (outcome.Accepted? ==>
            && MayAnswer(f.current, f.phase.command, outcome.next)
            && AnswerChecked(f.current, f.phase.command, outcome.next))
    case PollEnds(status, now) => f.phase.Polling?
  }

  function Next(f: Flow, e: Event): Flow
    requires Enabled(f, e)
  {
    match e
    case Delivery(c, now) => AfterDeliver(f, c, now)
    case Loop => AfterAdvance(f)
    case ChildEnds(outcome, now) => AfterComplete(f, outcome, now)
    case PollEnds(status, now) => AfterPolled(f, status, now)
  }

  /** Events that cannot happen in a state are passed over. */
  function RunFlow(initial: Authority, events: seq<Event>): Flow {
    if events == [] then Start(initial)
    else
      var f := RunFlow(initial, events[..|events| - 1]);
      var e := events[|events| - 1];
      if Enabled(f, e) then Next(f, e) else f
  }

  lemma Extend(initial: Authority, events: seq<Event>, e: Event)
    requires Enabled(RunFlow(initial, events), e)
    ensures RunFlow(initial, events + [e]) == Next(RunFlow(initial, events), e)
  {
    assert (events + [e])[..|events|] == events;
  }

  /** The state every workflow is started with. */
  predicate Initial(a: Authority) {
    a.cursor == 0 && !a.terminal && a.processed == map[] && a.processedKeys == map[]
  }

  // ---------- operations on the core, without the atomicity assumption ----------

  predicate CoreAgrees(core: Core) {
    QueueAgrees(core) && RejectedAgrees(core)
  }

  /** A command that changes the core was unknown to it, did not saturate it, and was enqueued. */
  predicate Admitted(core: Core, c: TaskCommand) {
    Known(core, c).None? && !Saturated(core, c) && |core.commands| < QUEUE_CAPACITY
  }

  lemma CommandEffect(core: Core, c: TaskCommand, now: int)
    requires QueueAgrees(core)
    ensures var e := AfterCommand(core, c, now);
      e.core == core || (Admitted(core, c) && e == Effect(Enqueue(core, c), None))
  {
    EvictionIsUnreachable(core, c, now);
    if !Saturated(core, c) {
      NeverFull(core, c);
    }
  }

  lemma EnqueueEffect(core: Core, c: TaskCommand)
    requires CoreAgrees(core) && Admitted(core, c)
    ensures CoreAgrees(Enqueue(core, c))
    ensures |Enqueue(core, c).queued| == |core.queued| + 1
    ensures RejectionCapacity(Enqueue(core, c)) <= 1024
    ensures multiset(Enqueue(core, c).commands) == multiset(core.commands) + multiset{c}
    ensures Enqueue(core, c).rejected == core.rejected
  {
    EnqueueAgrees(core, c);
  }

  predicate Extends(m: map<string, Fingerprint>, n: map<string, Fingerprint>) {
    forall k | k in m :: k in n && n[k] == m[k]
  }

  lemma RecordEffect(core: Core, c: TaskCommand, code: string, at: int)
    requires RejectedAgrees(core) && AfterRejection(core, c, code, at).raised == None
    ensures var next := AfterRejection(core, c, code, at).core;
      && RejectedAgrees(next)
      && next.commands == core.commands && next.queued == core.queued && next.queuedKeys == core.queuedKeys
      && |next.rejected| <= |core.rejected| + 1
      && Extends(core.rejected, next.rejected)
      && c.commandId in next.rejected && next.rejected[c.commandId] == FingerprintOf(c)
  {
    RejectedLinks(core);
    if c.commandId in core.rejected {
      RepeatedRecord(core, c, code, at);
    } else {
      RejectedSizes(core);
      RecordFresh(core, c, code, at);
    }
  }

  lemma RepeatedRecord(core: Core, c: TaskCommand, code: string, at: int)
    requires RejectedAgrees(core) && AfterRejection(core, c, code, at).raised == None
    requires c.commandId in core.rejected
    ensures var next := AfterRejection(core, c, code, at).core;
      next == core.(rejections := next.rejections)
  {
    RejectedLinks(core);
    var next := AfterRejection(core, c, code, at).core;
    assert next.rejected == core.rejected && next.rejectedKeys == core.rejectedKeys;
  }

  lemma PopEffect(core: Core)
    requires CoreAgrees(core) && core.commands != []
    ensures CoreAgrees(Remove(core, 0))
    ensures |Remove(core, 0).queued| + 1 == |core.queued|
    ensures Remove(core, 0).commands == core.commands[1..]
    ensures multiset(core.commands) == multiset(Remove(core, 0).commands) + multiset{core.commands[0]}
    ensures Remove(core, 0).rejected == core.rejected
  {
    PopAgrees(core);
    MapSizes(core.commands);
    MapSizes(core.commands[1..]);
    assert core.commands == [core.commands[0]] + core.commands[1..];
  }

  predicate Recorded(cs: seq<TaskCommand>, rejected: map<string, Fingerprint>) {
    forall i | 0 <= i < |cs| :: cs[i].commandId in rejected && rejected[cs[i].commandId] == FingerprintOf(cs[i])
  }

  lemma {:induction false} DrainEffect(core: Core, at: int)
    requires CoreAgrees(core) && AfterRejectingQueued(core, at).raised == None
    ensures var next := AfterRejectingQueued(core, at).core;
      && CoreAgrees(next) && next.commands == []
      && RejectionCapacity(next) <= RejectionCapacity(core)
      && Extends(core.rejected, next.rejected)
      && Recorded(core.commands, next.rejected)
    decreases |core.commands|
  {
    if core.commands != [] {
      var c := core.commands[0];
      var rest := Remove(core, 0);
      PopEffect(core);
      RecordEffect(rest, c, "ORCHESTRATOR_TASK_TERMINATED", at);
      var middle := AfterRejection(rest, c, "ORCHESTRATOR_TASK_TERMINATED", at).core;
      DrainEffect(middle, at);
      DrainRecorded(core, middle, AfterRejectingQueued(middle, at).core);
    }
  }

  lemma DrainRecorded(core: Core, middle: Core, last: Core)
    requires core.commands != [] && middle.commands == core.commands[1..]
    requires core.commands[0].commandId in middle.rejected
          && middle.rejected[core.commands[0].commandId] == FingerprintOf(core.commands[0])
    requires Extends(middle.rejected, last.rejected) && Recorded(middle.commands, last.rejected)
    ensures Recorded(core.commands, last.rejected)
  {
    forall i | 0 <= i < |core.commands|
      ensures core.commands[i].commandId in last.rejected
           && last.rejected[core.commands[i].commandId] == FingerprintOf(core.commands[i])
    {
      if i > 0 {
        assert core.commands[i] == middle.commands[i - 1];
      }
    }
  }

  // ---------- conservation and the bound of 1025 ----------

  function Flying(f: Flow): multiset<TaskCommand> {
    if f.phase.InFlight? then multiset{f.phase.command} else multiset{}
  }

  function Slots(f: Flow): nat {
    RejectionCapacity(f.core) + |Flying(f)|
  }

  predicate Conserved(f: Flow) {
    multiset(f.history.admitted)
      == multiset(f.core.commands) + Flying(f) + multiset(f.history.accepted)
         + multiset(f.history.skipped) + multiset(f.history.refused)
  }

  predicate CoreInv(f: Flow) {
    && CoreAgrees(f.core)
    && Slots(f) <= 1025
    && Conserved(f)
    && Recorded(f.history.refused, f.core.rejected)
    && (f.terminal && f.phase.Ready? ==> f.core.commands == [])
    && (f.phase.Finished? ==> f.core.commands == [])
  }

  lemma DeliverKeeps(f: Flow, c: TaskCommand, now: int)
    requires Open(f) && CoreInv(f)
    ensures CoreInv(AfterDeliver(f, c, now))
  {
    CommandEffect(f.core, c, now);
    if AfterCommand(f.core, c, now).core != f.core {
      EnqueueEffect(f.core, c);
    }
  }

  lemma EnqueueInternalKeeps(f: Flow, t: CommandType, now: int)
    requires f.phase.Ready? && !f.terminal && CoreInv(f)
    ensures var next := AfterEnqueueInternal(f, t, now); next.phase.Failed? || CoreInv(next)
  {
    var c := InternalCommand(f.current, t, now);
    DeliverKeeps(f, c, now);
    if AfterCommand(f.core, c, now).raised.None? {
      assert AfterEnqueueInternal(f, t, now) == AfterDeliver(f, c, now);
    }
  }

  /** Moving one command from the queue to the place `to` gives it. */
  lemma PopKeeps(f: Flow, to: Flow)
    requires f.phase.Ready? && !f.terminal && CoreInv(f) && f.core.commands != []
    requires to.core == Remove(f.core, 0)
    requires || to == f.(core := to.core, phase := InFlight(f.core.commands[0]))
             || to == f.(core := to.core, history := f.history.(skipped := f.history.skipped + [f.core.commands[0]]))
    ensures CoreInv(to)
  {
    PopEffect(f.core);
    assert multiset(f.history.skipped + [f.core.commands[0]])
      == multiset(f.history.skipped) + multiset{f.core.commands[0]};
  }

  lemma AdvanceCases(f: Flow)
    requires f.phase.Ready?
    ensures var g := AfterAdvance(f);
      if f.terminal || f.core.commands == [] then g == f.(phase := g.phase) && !g.phase.InFlight?
      else g.phase.Failed?
           || g == f.(core := Remove(f.core, 0), phase := InFlight(f.core.commands[0]))
           || g == f.(core := Remove(f.core, 0), history := f.history.(skipped := f.history.skipped + [f.core.commands[0]]))
  {
  }

  lemma AdvanceKeeps(f: Flow)
    requires f.phase.Ready? && CoreInv(f)
    ensures AfterAdvance(f).phase.Failed? || CoreInv(AfterAdvance(f))
  {
    AdvanceCases(f);
    if !f.terminal && f.core.commands != [] && !AfterAdvance(f).phase.Failed? {
      PopKeeps(f, AfterAdvance(f));
    }
  }

  lemma ExtendsRecorded(cs: seq<TaskCommand>, m: map<string, Fingerprint>, n: map<string, Fingerprint>)
    requires Recorded(cs, m) && Extends(m, n)
    ensures Recorded(cs, n)
  {
  }

  lemma RejectKeeps(f: Flow, code: string, now: int)
    requires f.phase.InFlight? && CoreInv(f)
    requires !f.terminal
    ensures var next := AfterReject(f, f.phase.command, code, now); next.phase.Failed? || CoreInv(next)
  {
    var c := f.phase.command;
    if AfterRejection(f.core, c, code, now).raised.None? {
      RecordEffect(f.core, c, code, now);
      ExtendsRecorded(f.history.refused, f.core.rejected, AfterRejection(f.core, c, code, now).core.rejected);
      RefusedKeeps(f, AfterReject(f, c, code, now));
    }
  }

  /** The command in flight lands in `refused`. */
  lemma RefusedKeeps(f: Flow, to: Flow)
    requires f.phase.InFlight? && CoreInv(f) && !f.terminal
    requires to == f.(core := to.core, phase := Ready,
                      history := f.history.(refused := f.history.refused + [f.phase.command]))
    requires CoreAgrees(to.core) && to.core.commands == f.core.commands && to.core.queued == f.core.queued
    requires |to.core.rejected| <= |f.core.rejected| + 1
    requires Recorded(to.history.refused, to.core.rejected)
    ensures CoreInv(to)
  {
    assert multiset(to.history.refused) == multiset(f.history.refused) + multiset{f.phase.command};
  }

  lemma InstallKeeps(f: Flow, next: Authority, now: int)
    requires f.phase.InFlight? && CoreInv(f)
    ensures var after := AfterInstall(f, f.phase.command, next, now);
      after.phase.Failed? || (after.phase.Ready? && CoreInv(after))
  {
    var after := AfterInstall(f, f.phase.command, next, now);
    if next.terminal && AfterRejectingQueued(f.core, now).raised.None? {
      DrainEffect(f.core, now);
      ExtendsRecorded(f.history.refused, f.core.rejected, after.core.rejected);
      DrainedKeeps(f, after);
    } else if !next.terminal {
      assert multiset(after.history.accepted) == multiset(f.history.accepted) + multiset{f.phase.command};
    }
  }

  lemma RecordedConcat(a: seq<TaskCommand>, b: seq<TaskCommand>, m: map<string, Fingerprint>)
    requires Recorded(a, m) && Recorded(b, m)
    ensures Recorded(a + b, m)
  {
  }

  lemma DrainedConserves(f: Flow, to: Flow)
    requires f.phase.InFlight? && to.phase.Ready? && Conserved(f) && to.core.commands == []
    requires to.history == f.history.(accepted := f.history.accepted + [f.phase.command],
                                      refused := f.history.refused + f.core.commands)
    ensures Conserved(to)
  {
    assert multiset(to.history.accepted) == multiset(f.history.accepted) + multiset{f.phase.command};
    assert multiset(to.history.refused) == multiset(f.history.refused) + multiset(f.core.commands);
  }

  /** The command in flight lands in `accepted`, and the queue behind it in `refused`. */
  lemma DrainedKeeps(f: Flow, to: Flow)
    requires f.phase.InFlight? && CoreInv(f)
    requires to == f.(core := to.core, phase := Ready, current := to.current, terminal := to.terminal,
                      history := f.history.(accepted := f.history.accepted + [f.phase.command],
                                            refused := f.history.refused + f.core.commands))
    requires CoreAgrees(to.core) && to.core.commands == []
    requires RejectionCapacity(to.core) <= RejectionCapacity(f.core)
    requires Recorded(f.history.refused, to.core.rejected) && Recorded(f.core.commands, to.core.rejected)
    ensures CoreInv(to)
  {
    DrainedConserves(f, to);
    RecordedConcat(f.history.refused, f.core.commands, to.core.rejected);
  }

  lemma CompleteKeeps(f: Flow, outcome: Outcome, now: int)
    requires f.phase.InFlight? && CoreInv(f) && !f.terminal
    requires outcome.Accepted? ==> (outcome.next.status == VERIFYING ==> !outcome.next.terminal)
    ensures var next := AfterComplete(f, outcome, now); next.phase.Failed? || CoreInv(next)
  {
    match outcome
    case Exhausted => RejectKeeps(f, "ORCHESTRATOR_TRANSITION_DEPENDENCY_EXHAUSTED", now);
    case Refused(code) => RejectKeeps(f, code, now);
    case Accepted(next) =>
      InstallKeeps(f, next, now);
      var c := f.phase.command;
      var installed := AfterInstall(f, c, next, now);
      if !installed.phase.Failed? {
        var flagged := installed.(executionActive := ExecutionFlag(f.executionActive, c.commandType, next.status));
        assert CoreInv(flagged);
        if c.commandType == VERIFY && next.status == VERIFYING {
          EnqueueInternalKeeps(flagged, COMPLETE, now);
        }
      }
  }

  // ---------- at most once ----------

  /** The state is the initial one with `accepted` applied in order. */
  predicate AppliedInv(a: Authority, accepted: seq<TaskCommand>) {
    && a.cursor == |accepted|
    && (forall i | 0 <= i < |accepted| ::
          && accepted[i].expectedStateVersion == i
          && accepted[i].commandId in a.processed && a.processed[accepted[i].commandId] == FingerprintOf(accepted[i])
          && accepted[i].requestKey in a.processedKeys
          && a.processedKeys[accepted[i].requestKey] == FingerprintOf(accepted[i]))
    && (forall id {:trigger Somewhere(accepted, a.processed[id])} | id in a.processed :: Somewhere(accepted, a.processed[id]))
    && (forall key {:trigger Somewhere(accepted, a.processedKeys[key])} | key in a.processedKeys ::
          Somewhere(accepted, a.processedKeys[key]))
    && (forall i, j | 0 <= i < j < |accepted| ::
          accepted[i].commandId != accepted[j].commandId && accepted[i].requestKey != accepted[j].requestKey)
  }

  predicate Somewhere(cs: seq<TaskCommand>, f: Fingerprint) {
    exists i :: 0 <= i < |cs| && FingerprintOf(cs[i]) == f
  }

  predicate OnceInv(f: Flow) {
    && AppliedInv(f.current, f.history.accepted)
    && (forall i | 0 <= i < |f.history.skipped| :: Somewhere(f.history.accepted, FingerprintOf(f.history.skipped[i])))
    && (f.phase.InFlight? ==>
          && f.phase.command.commandId !in f.current.processed
          && f.phase.command.requestKey !in f.current.processedKeys)
    && f.terminal == f.current.terminal
    && (f.terminal ==> f.phase.Ready? || f.phase.Finished?)
  }

  lemma SomewhereGrows(cs: seq<TaskCommand>, c: TaskCommand)
    ensures forall f | Somewhere(cs, f) :: Somewhere(cs + [c], f)
    ensures Somewhere(cs + [c], FingerprintOf(c))
  {
    forall f | Somewhere(cs, f)
      ensures Somewhere(cs + [c], f)
    {
      var i :| 0 <= i < |cs| && FingerprintOf(cs[i]) == f;
      assert FingerprintOf((cs + [c])[i]) == f;
    }
    assert FingerprintOf((cs + [c])[|cs|]) == FingerprintOf(c);
  }

  lemma ApplyKeeps(a: Authority, accepted: seq<TaskCommand>, c: TaskCommand, next: Authority)
    requires AppliedInv(a, accepted)
    requires c.commandId !in a.processed && c.requestKey !in a.processedKeys
    requires MayAnswer(a, c, next)
    ensures AppliedInv(next, accepted + [c])
  {
    FreshAnswer(a, c, next);
    SomewhereGrows(accepted, c);
    forall id | id in next.processed
      ensures Somewhere(accepted + [c], next.processed[id])
    {
      if id != c.commandId { assert Somewhere(accepted, a.processed[id]); }
    }
    forall key | key in next.processedKeys
      ensures Somewhere(accepted + [c], next.processedKeys[key])
    {
      if key != c.requestKey { assert Somewhere(accepted, a.processedKeys[key]); }
    }
    AppliedDistinct(a, accepted, c);
  }

  lemma AppliedDistinct(a: Authority, accepted: seq<TaskCommand>, c: TaskCommand)
    requires AppliedInv(a, accepted) && c.commandId !in a.processed && c.requestKey !in a.processedKeys
    ensures forall i | 0 <= i < |accepted| :: accepted[i].commandId != c.commandId && accepted[i].requestKey != c.requestKey
  {
  }

  lemma AdvanceKeepsOnce(f: Flow)
    requires f.phase.Ready? && OnceInv(f)
    ensures AfterAdvance(f).phase.Failed? || OnceInv(AfterAdvance(f))
  {
  }

  lemma InstallKeepsOnce(f: Flow, next: Authority, now: int)
    requires f.phase.InFlight? && OnceInv(f) && MayAnswer(f.current, f.phase.command, next)
    ensures var after := AfterInstall(f, f.phase.command, next, now);
      after.phase.Failed? || (after.phase.Ready? && OnceInv(after) && after.terminal == next.terminal)
  {
    ApplyKeeps(f.current, f.history.accepted, f.phase.command, next);
    SomewhereGrows(f.history.accepted, f.phase.command);
    assert AfterInstall(f, f.phase.command, next, now).history.skipped == f.history.skipped;
  }

  /** What is enqueued and whether an execution runs does not matter. */
  lemma FollowKeepsOnce(f: Flow, t: CommandType, active: bool, now: int)
    requires f.phase.Ready? && OnceInv(f)
    ensures var after := AfterEnqueueInternal(f.(executionActive := active), t, now); after.phase.Failed? || OnceInv(after)
    ensures OnceInv(f.(executionActive := active))
  {
  }

  lemma CompleteKeepsOnce(f: Flow, outcome: Outcome, now: int)
    requires f.phase.InFlight? && OnceInv(f)
    requires Enabled(f, ChildEnds(outcome, now))
    ensures var after := AfterComplete(f, outcome, now); after.phase.Failed? || OnceInv(after)
  {
    if outcome.Accepted? {
      var installed := AfterInstall(f, f.phase.command, outcome.next, now);
      InstallKeepsOnce(f, outcome.next, now);
      if installed.phase.Ready? {
        FollowKeepsOnce(installed, COMPLETE, ExecutionFlag(f.executionActive, f.phase.command.commandType, outcome.next.status), now);
      }
    }
  }

  // ---------- every run ----------

  lemma {:induction false} EveryRunOnce(initial: Authority, events: seq<Event>)
    requires Initial(initial)
    ensures var f := RunFlow(initial, events); f.phase.Failed? || OnceInv(f)
    decreases |events|
  {
    if events != [] {
      var f := RunFlow(initial, events[..|events| - 1]);
      var e := events[|events| - 1];
      EveryRunOnce(initial, events[..|events| - 1]);
      if Enabled(f, e) {
        match e
        case Delivery(c, now) =>
        case Loop => AdvanceKeepsOnce(f);
        case ChildEnds(outcome, now) => CompleteKeepsOnce(f, outcome, now);
        case PollEnds(status, now) =>
      }
    }
  }

  predicate Applies(e: Event) {
    e.ChildEnds? && e.outcome.Accepted?
  }

  /** Only an accepted answer changes the state and the list of accepted commands. */
  lemma OnlyAnswersApply(f: Flow, e: Event)
    requires Enabled(f, e) && !Applies(e)
    ensures Next(f, e).current == f.current && Next(f, e).history.accepted == f.history.accepted
  {
    if e.Loop? {
      PopAppliesNothing(f);
    }
  }

  lemma PopAppliesNothing(f: Flow)
    requires f.phase.Ready?
    ensures AfterAdvance(f).current == f.current && AfterAdvance(f).history.accepted == f.history.accepted
  {
  }

  lemma AnswerApplies(f: Flow, e: Event)
    requires Enabled(f, e) && Applies(e)
    ensures Next(f, e).current == e.outcome.next
    ensures Next(f, e).history.accepted == f.history.accepted + [f.phase.command]
  {
  }

  lemma NextApplied(f: Flow, e: Event)
    requires Enabled(f, e) && OnceInv(f)
    ensures AppliedInv(Next(f, e).current, Next(f, e).history.accepted)
  {
    if Applies(e) {
      AnswerApplies(f, e);
      ApplyKeeps(f.current, f.history.accepted, f.phase.command, e.outcome.next);
    } else {
      OnlyAnswersApply(f, e);
    }
  }

  /** In every run, raised or not, the state is the initial one with the accepted commands applied. */
  lemma {:induction false} EveryRunApplied(initial: Authority, events: seq<Event>)
    requires Initial(initial)
    ensures AppliedInv(RunFlow(initial, events).current, RunFlow(initial, events).history.accepted)
  {
    if events != [] {
      var f := RunFlow(initial, events[..|events| - 1]);
      EveryRunApplied(initial, events[..|events| - 1]);
      EveryRunOnce(initial, events[..|events| - 1]);
      if Enabled(f, events[|events| - 1]) {
        NextApplied(f, events[|events| - 1]);
      }
    }
  }

  lemma {:induction false} EveryRunConserves(initial: Authority, events: seq<Event>)
    requires Initial(initial)
    ensures var f := RunFlow(initial, events); f.phase.Failed? || CoreInv(f)
    decreases |events|
  {
    if events != [] {
      var f := RunFlow(initial, events[..|events| - 1]);
      var e := events[|events| - 1];
      EveryRunConserves(initial, events[..|events| - 1]);
      EveryRunOnce(initial, events[..|events| - 1]);
      if Enabled(f, e) && !f.phase.Failed? {
        match e
        case Delivery(c, now) => DeliverKeeps(f, c, now);
        case Loop => AdvanceKeeps(f);
        case ChildEnds(outcome, now) =>
          if outcome.Accepted? { FreshAnswer(f.current, f.phase.command, outcome.next); }
          CompleteKeeps(f, outcome, now);
        case PollEnds(status, now) => PollKeeps(f, status, now);
      }
    }
  }

  lemma PollKeeps(f: Flow, status: Option<ExecutionStatus>, now: int)
    requires f.phase.Polling? && CoreInv(f) && !f.terminal
    ensures var next := AfterPolled(f, status, now); next.phase.Failed? || CoreInv(next)
  {
    if status.Some? && FollowupCommand(status.value).Some? {
      var ready := f.(phase := Ready, executionActive := false);
      assert CoreInv(ready);
      EnqueueInternalKeeps(ready, FollowupCommand(status.value).value, now);
    }
  }

  /** Unless the run raised, every admitted command is queued, in flight, accepted, skipped as the
      repeat of an accepted one, or recorded as rejected; and the history stays within 1025 slots. */
  lemma {:induction false} Conservation(initial: Authority, events: seq<Event>)
    requires Initial(initial) && !RunFlow(initial, events).phase.Failed?
    ensures var f := RunFlow(initial, events);
      && Conserved(f)
      && |f.core.rejected| + |f.core.queued| + |Flying(f)| <= 1025
      && Recorded(f.history.refused, f.core.rejected)
      && (forall i | 0 <= i < |f.history.skipped| ::
            Somewhere(f.history.accepted, FingerprintOf(f.history.skipped[i])))
      && (f.phase.Finished? ==>
            multiset(f.history.admitted) == multiset(f.history.accepted) + multiset(f.history.skipped) + multiset(f.history.refused))
  {
    EveryRunConserves(initial, events);
    EveryRunOnce(initial, events);
  }

  /** No id and no request key is accepted twice, however often it is redelivered and whether or not the
      run raised; the k-th accepted command names version k, and the cursor counts the accepted commands. */
  lemma {:induction false} AtMostOnce(initial: Authority, events: seq<Event>)
    requires Initial(initial)
    ensures var f := RunFlow(initial, events);
      && f.current.cursor == |f.history.accepted|
      && (forall k | 0 <= k < |f.history.accepted| :: f.history.accepted[k].expectedStateVersion == k)
      && (forall i, j | 0 <= i < j < |f.history.accepted| ::
            && f.history.accepted[i].commandId != f.history.accepted[j].commandId
            && f.history.accepted[i].requestKey != f.history.accepted[j].requestKey)
  {
    EveryRunApplied(initial, events);
  }
}
