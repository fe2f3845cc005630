/**
 The last slot of the rejection history is meant for an emergency KILL.  The admission guard counts
 what is queued and rejected but not the command in flight, so an ordinary command can take that
 slot.  Here is when it does, and when the first KILL is still admitted.
 */
module KillReserve {
  import opened Common
  import opened CommandQueue
  import opened CommandQueueLaws
  import opened TransitionEngine
  import opened TaskWorkflow
  import opened TaskWorkflowLaws
  import opened WorkflowQueue
  import opened HistoryOverflow

  /** No KILL is queued, in flight or recorded as rejected. */
  predicate NoKill(f: Flow) {
    && (forall i | 0 <= i < |f.core.commands| :: f.core.commands[i].commandType != KILL)
    && (forall id | id in f.core.rejected :: f.core.rejected[id].commandType != KILL)
    && (f.phase.InFlight? ==> f.phase.command.commandType != KILL)
  }

  /** Without a KILL the slots, the command in flight included, stay within 1024. */
  predicate Within(f: Flow) {
    NoKill(f) ==> Slots(f) <= 1024
  }

  /** An ordinary command takes the slot of the one in flight and the last slot with it. */
  predicate Spends(f: Flow, e: Event) {
    && e.Delivery? && f.phase.InFlight?
    && ValidCommand(e.c, e.now) && e.c.commandType != KILL && Known(f.core, e.c).None?
    && RejectionCapacity(f.core) == 1022
  }

  // ---------- slots, one event at a time ----------

  /** What an admission does to the slots. */
  lemma AdmissionSlots(core: Core, c: TaskCommand, now: int)
    requires CoreAgrees(core)
    ensures var next := AfterCommand(core, c, now).core;
      && next.rejected == core.rejected
      && (next == core || (next.commands == Placed(core.commands, Some(c))
                           && RejectionCapacity(next) == RejectionCapacity(core) + 1
                           && !Saturated(core, c) && ValidCommand(c, now) && Known(core, c).None?))
      && (next == core ==> !ValidCommand(c, now) || Known(core, c).Some? || Saturated(core, c))
  {
    EvictionIsUnreachable(core, c, now);
    if ValidCommand(c, now) && Known(core, c).None? && !Saturated(core, c) {
      NeverFull(core, c);
      EnqueueEffect(core, c);
    }
  }

  lemma DeliverSlots(f: Flow, c: TaskCommand, now: int)
    requires CoreAgrees(f.core) && Open(f) && Within(f)
    ensures Within(AfterDeliver(f, c, now))
    ensures NoKill(f) && Slots(f) <= 1023 ==>
      (NoKill(AfterDeliver(f, c, now)) && Slots(AfterDeliver(f, c, now)) == 1024 <==> Spends(f, Delivery(c, now)))
  {
    var g := AfterDeliver(f, c, now);
    AdmissionSlots(f.core, c, now);
    if g.core != f.core {
      PlacedKill(f, g, c);
    }
  }

  lemma PlacedKill(f: Flow, g: Flow, c: TaskCommand)
    requires g.core.commands == Placed(f.core.commands, Some(c))
    requires g.core.rejected == f.core.rejected && g.phase == f.phase
    ensures NoKill(g) <==> NoKill(f) && c.commandType != KILL
  {
    assert c in g.core.commands;
    assert forall i | 0 <= i < |f.core.commands| :: f.core.commands[i] in g.core.commands;
    assert forall i | 0 <= i < |g.core.commands| :: g.core.commands[i] == c || g.core.commands[i] in f.core.commands;
  }

  /** Outside of a flight an internal command leaves the last slot alone. */
  lemma FollowSlots(f: Flow, t: CommandType, now: int)
    requires CoreAgrees(f.core) && f.phase.Ready? && Within(f)
    ensures var g := AfterEnqueueInternal(f, t, now); g.phase.Failed? || Within(g)
    ensures var g := AfterEnqueueInternal(f, t, now);
      Slots(f) <= 1023 ==> g.phase.Failed? || !NoKill(g) || Slots(g) <= 1023
  {
    var c := InternalCommand(f.current, t, now);
    var g := AfterEnqueueInternal(f, t, now);
    AdmissionSlots(f.core, c, now);
    if g.core != f.core && !g.phase.Failed? {
      PlacedKill(f, g, c);
    }
  }

  /** The popped command flies, or is skipped and leaves its slot. */
  lemma AdvanceFlies(f: Flow)
    requires f.phase.Ready? && !f.terminal && f.core.commands != []
    ensures var g := AfterAdvance(f); g.phase.Failed? || g.phase.Ready? || g.phase == InFlight(f.core.commands[0])
  {
  }

  lemma PoppedKill(f: Flow, g: Flow)
    requires f.core.commands != [] && f.phase.Ready? && g.phase == InFlight(f.core.commands[0])
    requires g.core.commands == f.core.commands[1..] && g.core.rejected == f.core.rejected
    ensures NoKill(g) ==> NoKill(f)
  {
    assert f.core.commands == [f.core.commands[0]] + g.core.commands;
  }

  lemma PopSlots(f: Flow)
    requires CoreAgrees(f.core) && f.phase.Ready? && Slots(f) <= 1025 && Within(f)
    ensures var g := AfterAdvance(f); g.phase.Failed? || (Within(g) && Slots(g) <= Slots(f))
  {
    AdvancePops(f);
    if !f.terminal && f.core.commands != [] {
      PopEffect(f.core);
      AdvanceFlies(f);
      if AfterAdvance(f).phase.InFlight? {
        PoppedKill(f, AfterAdvance(f));
      }
    }
  }

  lemma RejectSlots(f: Flow, code: string, now: int)
    requires CoreAgrees(f.core) && f.phase.InFlight? && Within(f)
    ensures var g := AfterReject(f, f.phase.command, code, now); g.phase.Failed? || (Within(g) && Slots(g) <= Slots(f))
  {
    var c := f.phase.command;
    if AfterRejection(f.core, c, code, now).raised.None? {
      RecordEffect(f.core, c, code, now);
      var g := AfterReject(f, c, code, now);
      assert g.core.rejected[c.commandId].commandType == c.commandType;
    }
  }

  lemma InstallSlots(f: Flow, next: Authority, now: int)
    requires CoreAgrees(f.core) && f.phase.InFlight?
    ensures var g := AfterInstall(f, f.phase.command, next, now);
      g.phase.Failed? || (g.phase.Ready? && CoreAgrees(g.core) && Slots(g) + 1 <= Slots(f))
  {
    if next.terminal && AfterRejectingQueued(f.core, now).raised.None? {
      DrainEffect(f.core, now);
    }
  }

  lemma CompleteSlots(f: Flow, outcome: Outcome, now: int)
    requires CoreAgrees(f.core) && f.phase.InFlight? && Slots(f) <= 1025 && Within(f)
    ensures var g := AfterComplete(f, outcome, now);
      g.phase.Failed? || (Within(g) && (Slots(f) <= 1023 ==> !NoKill(g) || Slots(g) <= 1023))
  {
    match outcome
    case Exhausted => RejectSlots(f, "ORCHESTRATOR_TRANSITION_DEPENDENCY_EXHAUSTED", now);
    case Refused(code) => RejectSlots(f, code, now);
    case Accepted(next) =>
      InstallSlots(f, next, now);
      var flagged := AcceptedCases(f, next, now);
      if !flagged.phase.Failed? {
        FollowSlots(flagged, COMPLETE, now);
      }
  }

  lemma PollSlots(f: Flow, status: Option<ExecutionStatus>, now: int)
    requires CoreAgrees(f.core) && f.phase.Polling? && Within(f)
    ensures var g := AfterPolled(f, status, now);
      g.phase.Failed? || (Within(g) && (Slots(f) <= 1023 ==> !NoKill(g) || Slots(g) <= 1023))
  {
    if status.Some? && FollowupCommand(status.value).Some? {
      FollowSlots(f.(phase := Ready, executionActive := false), FollowupCommand(status.value).value, now);
    }
  }

  lemma NextSlots(f: Flow, e: Event)
    requires CoreAgrees(f.core) && Enabled(f, e) && Slots(f) <= 1025 && Within(f)
    ensures var g := Next(f, e); g.phase.Failed? || Within(g)
    ensures var g := Next(f, e);
      NoKill(f) && Slots(f) <= 1023 && !g.phase.Failed? ==> (NoKill(g) && Slots(g) == 1024 <==> Spends(f, e))
  {
    match e
    case Delivery(c, now) => DeliverSlots(f, c, now);
    case Loop => PopSlots(f);
    case ChildEnds(outcome, now) => CompleteSlots(f, outcome, now);
    case PollEnds(status, now) => PollSlots(f, status, now);
  }

  // ---------- every run ----------

  lemma {:induction false} EveryRunWithin(initial: Authority, events: seq<Event>)
    requires Initial(initial)
    ensures var f := RunFlow(initial, events); f.phase.Failed? || Within(f)
    decreases |events|
  {
    if events != [] {
      var f := RunFlow(initial, events[..|events| - 1]);
      EveryRunWithin(initial, events[..|events| - 1]);
      EveryRunConserves(initial, events[..|events| - 1]);
      EveryRunAgrees(initial, events[..|events| - 1]);
      if Enabled(f, events[|events| - 1]) {
        NextSlots(f, events[|events| - 1]);
      }
    }
  }

  /** While no KILL is queued, in flight or recorded, a new KILL is admitted exactly when a command is in
      flight or at most 1023 slots are taken; otherwise it is refused as saturated. */
  lemma {:induction false} FirstKillAdmittedIff(initial: Authority, events: seq<Event>, c: TaskCommand, now: int)
    requires Initial(initial) && Open(RunFlow(initial, events)) && NoKill(RunFlow(initial, events))
    requires c.commandType == KILL && ValidCommand(c, now) && Known(RunFlow(initial, events).core, c).None?
    ensures var f := RunFlow(initial, events); var raised := AfterCommand(f.core, c, now).raised;
      && (raised == None <==> f.phase.InFlight? || Slots(f) <= 1023)
      && (raised == Some(HistorySaturated) <==> !f.phase.InFlight? && Slots(f) == 1024)
  {
    var f := RunFlow(initial, events);
    EveryRunWithin(initial, events);
    EveryRunAgrees(initial, events);
    EvictionIsUnreachable(f.core, c, now);
  }

  /** The slot kept for the first KILL is lost exactly when an ordinary command is admitted beside one in
      flight while 1022 others are queued or recorded. */
  lemma {:induction false} ReserveLostIff(initial: Authority, events: seq<Event>, e: Event)
    requires Initial(initial) && Enabled(RunFlow(initial, events), e)
    requires NoKill(RunFlow(initial, events)) && Slots(RunFlow(initial, events)) <= 1023
    requires !RunFlow(initial, events + [e]).phase.Failed?
    ensures var g := RunFlow(initial, events + [e]);
      NoKill(g) && Slots(g) == 1024 <==> Spends(RunFlow(initial, events), e)
  {
    EveryRunAgrees(initial, events);
    Extend(initial, events, e);
    NextSlots(RunFlow(initial, events), e);
  }

  // ---------- a KILL once admitted stays until the task ends ----------

  predicate NoKillApplied(a: Authority) {
    && (forall id | id in a.processed :: a.processed[id].commandType != KILL)
    && (forall key | key in a.processedKeys :: a.processedKeys[key].commandType != KILL)
  }

  lemma AnswerAppliesNoKill(a: Authority, c: TaskCommand, next: Authority)
    requires NoKillApplied(a) && MayAnswer(a, c, next) && !next.terminal
    requires c.commandId !in a.processed && c.requestKey !in a.processedKeys
    ensures c.commandType != KILL && NoKillApplied(next)
  {
  }

  lemma AdmissionKeepsKill(f: Flow, g: Flow, c: TaskCommand, now: int)
    requires CoreAgrees(f.core) && !NoKill(f)
    requires g.core == AfterCommand(f.core, c, now).core && g.phase == f.phase
    ensures !NoKill(g)
  {
    AdmissionSlots(f.core, c, now);
    if g.core != f.core {
      PlacedKill(f, g, c);
    }
  }

  lemma PopKeepsKill(f: Flow)
    requires f.phase.Ready? && !f.terminal && !NoKill(f) && NoKillApplied(f.current)
    ensures AfterAdvance(f).phase.Failed? || !NoKill(AfterAdvance(f))
  {
    AdvancePops(f);
    if f.core.commands != [] {
      AdvanceFlies(f);
      var g := AfterAdvance(f);
      assert f.core.commands == [f.core.commands[0]] + g.core.commands;
      assert g.phase.Ready? ==> f.core.commands[0].commandType != KILL;
    }
  }

  lemma RejectKeepsKill(f: Flow, code: string, now: int)
    requires CoreAgrees(f.core) && f.phase.InFlight? && !NoKill(f)
    ensures var g := AfterReject(f, f.phase.command, code, now); g.phase.Failed? || !NoKill(g)
  {
    var c := f.phase.command;
    if AfterRejection(f.core, c, code, now).raised.None? {
      RecordEffect(f.core, c, code, now);
      var next := AfterRejection(f.core, c, code, now).core;
      assert next.rejected[c.commandId].commandType == c.commandType;
      if id :| id in f.core.rejected && f.core.rejected[id].commandType == KILL {
        assert id in next.rejected;
      }
    }
  }

  lemma AcceptKeepsKill(f: Flow, next: Authority, now: int)
    requires CoreAgrees(f.core) && f.phase.InFlight? && !NoKill(f) && f.phase.command.commandType != KILL
    requires !next.terminal
    ensures var g := AfterComplete(f, Accepted(next), now); g.phase.Failed? || !NoKill(g)
  {
    var flagged := AcceptedCases(f, next, now);
    var g := AfterEnqueueInternal(flagged, COMPLETE, now);
    if !g.phase.Failed? {
      AdmissionKeepsKill(flagged, g, InternalCommand(flagged.current, COMPLETE, now), now);
    }
  }

  lemma PollKeepsKill(f: Flow, status: Option<ExecutionStatus>, now: int)
    requires CoreAgrees(f.core) && f.phase.Polling? && !NoKill(f)
    ensures var g := AfterPolled(f, status, now); g.phase.Failed? || !NoKill(g)
  {
    if status.Some? && FollowupCommand(status.value).Some? {
      var ready := f.(phase := Ready, executionActive := false);
      var g := AfterEnqueueInternal(ready, FollowupCommand(status.value).value, now);
      if !g.phase.Failed? {
        AdmissionKeepsKill(ready, g, InternalCommand(ready.current, FollowupCommand(status.value).value, now), now);
      }
    }
  }

  lemma AnswerApplied(f: Flow, next: Authority, now: int)
    requires f.phase.InFlight?
    ensures AfterComplete(f, Accepted(next), now).current == next
  {
    InstallCurrent(f, f.phase.command, next, now);
    var flagged := AcceptedCases(f, next, now);
  }

  /** The run is over, or no KILL was applied yet. */
  predicate Undecided(f: Flow) {
    f.phase.Failed? || f.terminal || NoKillApplied(f.current)
  }

  lemma NextKeepsKill(f: Flow, e: Event)
    requires CoreAgrees(f.core) && Enabled(f, e) && OnceInv(f) && !f.terminal && NoKillApplied(f.current)
    ensures Undecided(Next(f, e))
    ensures var g := Next(f, e); !NoKill(f) ==> g.phase.Failed? || g.terminal || !NoKill(g)
  {
    match e
    case Delivery(c, now) => if !NoKill(f) { AdmissionKeepsKill(f, Next(f, e), c, now); }
    case Loop => if !NoKill(f) { PopKeepsKill(f); }
    case PollEnds(status, now) => if !NoKill(f) { PollKeepsKill(f, status, now); }
    case ChildEnds(outcome, now) =>
      if outcome.Accepted? {
        AcceptedTerminal(f, outcome.next, now);
        AnswerApplied(f, outcome.next, now);
        if !outcome.next.terminal {
          AnswerAppliesNoKill(f.current, f.phase.command, outcome.next);
          if !NoKill(f) { AcceptKeepsKill(f, outcome.next, now); }
        }
      } else if !NoKill(f) {
        RejectKeepsKill(f, if outcome.Exhausted? then "ORCHESTRATOR_TRANSITION_DEPENDENCY_EXHAUSTED" else outcome.code, now);
      }
  }

  /** Some event of the run gave the last slot away. */
  predicate WasSpent(initial: Authority, events: seq<Event>) {
    exists k {:trigger events[k]} :: 0 <= k < |events| && Spends(RunFlow(initial, events[..k]), events[k])
  }

  lemma WasSpentGrows(initial: Authority, events: seq<Event>)
    requires events != [] && WasSpent(initial, events[..|events| - 1])
    ensures WasSpent(initial, events)
  {
    var front := events[..|events| - 1];
    var k :| 0 <= k < |front| && Spends(RunFlow(initial, front[..k]), front[k]);
    assert front[..k] == events[..k] && front[k] == events[k];
  }

  lemma {:induction false} EveryRunSpends(initial: Authority, events: seq<Event>)
    requires Initial(initial)
    ensures var f := RunFlow(initial, events);
      && Undecided(f)
      && (f.phase.Failed? || f.terminal || !NoKill(f) || Slots(f) <= 1023 || WasSpent(initial, events))
    decreases |events|
  {
    if events != [] {
      var front, e := events[..|events| - 1], events[|events| - 1];
      var f := RunFlow(initial, front);
      EveryRunSpends(initial, front);
      EveryRunAgrees(initial, front);
      EveryRunOnce(initial, front);
      EveryRunWithin(initial, front);
      EveryRunConserves(initial, front);
      if WasSpent(initial, front) {
        WasSpentGrows(initial, events);
      }
      if Enabled(f, e) && !f.terminal {
        NextKeepsKill(f, e);
        NextSlots(f, e);
        assert Spends(f, e) ==> Spends(RunFlow(initial, events[..|events| - 1]), events[|events| - 1]);
      }
    }
  }

  /** A KILL is refused as saturated only if another KILL is held, or the run admitted an ordinary command
      beside one in flight when 1022 others were queued or recorded. */
  lemma {:induction false} KillRefusedOnlyIf(initial: Authority, events: seq<Event>, c: TaskCommand, now: int)
    requires Initial(initial) && Open(RunFlow(initial, events)) && c.commandType == KILL
    requires AfterCommand(RunFlow(initial, events).core, c, now).raised == Some(HistorySaturated)
    ensures !NoKill(RunFlow(initial, events)) || WasSpent(initial, events)
  {
    EveryRunSpends(initial, events);
    EveryRunAgrees(initial, events);
    EveryRunOnce(initial, events);
    SaturatedForKill(RunFlow(initial, events).core, c, now);
  }

  // ---------- a run that loses it ----------

  lemma {:induction false} RefusedStarts(k: nat)
    requires k <= 1023
    ensures forall id | id in RefusedMap(k) :: RefusedMap(k)[id].commandType == START
  {
    if k > 0 {
      RefusedStarts(k - 1);
    }
  }

  lemma SampleUnknown(core: Core)
    requires core.queued == IdMap([Sample(1023, START)]) && core.queuedKeys == KeyMap([Sample(1023, START)])
    requires core.rejected == RefusedMap(1023) && core.rejectedKeys == RefusedMap(1023)
    ensures Known(core, Sample(1024, KILL)).None? && RejectionCapacity(core) == 1024
  {
    RefusedMapKeys(1023);
    NamesDiffer(1023, 1024);
    OneQueued(Sample(1023, START));
  }

  lemma SaturatedKill(core: Core, c: TaskCommand, now: int)
    requires ValidCommand(c, now) && Known(core, c).None? && RejectionCapacity(core) == 1024
    ensures AfterCommand(core, c, now) == Effect(core, Some(HistorySaturated))
  {
  }

  /** 1022 refusals, a START in flight and another admitted beside it: once the first is refused, the
      first KILL of the run is turned away. */
  lemma FirstKillIsRefused(initial: Authority) returns (events: seq<Event>)
    requires Initial(initial)
    ensures var f := RunFlow(initial, events);
      && Open(f) && NoKill(f)
      && AfterCommand(f.core, Sample(1024, KILL), 0) == Effect(f.core, Some(HistorySaturated))
  {
    var first, second := Sample(1022, START), Sample(1023, START);
    events := Fill(initial, 1022);
    events := RunDeliver(initial, events, 1022, 1022, START, Ready);
    events := RunPop(initial, events, 1022, first);
    events := RunDeliver(initial, events, 1022, 1023, START, InFlight(first));
    events := RunRefuse(initial, events, 1022, [second], START);
    RefusedStarts(1023);
    SampleUnknown(RunFlow(initial, events).core);
    SaturatedKill(RunFlow(initial, events).core, Sample(1024, KILL), 0);
  }
}
