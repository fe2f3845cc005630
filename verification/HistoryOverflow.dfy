/**
 The admission guard does not count the command in flight, so the slot it frees can be given away
 twice.  Here is a run of the workflow loop that therefore ends in the broken-history error, and
 the condition under which a refusal cannot raise it.
 */
module HistoryOverflow {
  import opened Common
  import opened CommandQueue
  import opened CommandQueueLaws
  import opened TransitionEngine
  import opened TaskWorkflow
  import opened TaskWorkflowLaws

  /** A refusal breaks the history exactly when it is full and does not know the command. */
  lemma RefusalBreaksHistoryIff(f: Flow, code: string, now: int)
    requires f.phase.InFlight? && CoreInv(f)
    ensures AfterReject(f, f.phase.command, code, now).phase == Failed(HistoryInvariantBroken)
      <==> |f.core.rejected| >= 1024 && f.phase.command.commandId !in f.core.rejected
                                     && f.phase.command.requestKey !in f.core.rejectedKeys
  {
    RejectedSizes(f.core);
    RejectedLinks(f.core);
  }

  /** With the command in flight counted within the 1024 slots, a refusal never breaks the history. */
  lemma SafeWithinSlots(f: Flow, code: string, now: int)
    requires f.phase.InFlight? && CoreInv(f) && Slots(f) <= 1024
    ensures AfterReject(f, f.phase.command, code, now).phase != Failed(HistoryInvariantBroken)
  {
    RefusalBreaksHistoryIff(f, code, now);
  }

  // ---------- a run that breaks it ----------

  /** Distinct valid ids for k below 1280: a letter for k / 256, repeated k % 256 + 1 times. */
  function Name(k: nat): (s: string)
    requires k < 1280
    ensures Token(s)
  {
    seq(k % 256 + 1, _ => (97 + k / 256) as char)
  }

  lemma NamesDiffer(i: nat, j: nat)
    requires i < 1280 && j < 1280 && i != j
    ensures Name(i) != Name(j)
  {
    if i % 256 == j % 256 {
      assert i / 256 != j / 256;
      assert Name(i)[0] != Name(j)[0];
    } else {
      assert |Name(i)| != |Name(j)|;
    }
  }

  function Sample(k: nat, t: CommandType): (c: TaskCommand)
    requires k < 1280
    ensures ValidCommand(c, 0)
  {
    TaskCommand("agenttrust.orchestrator-command.v1", Name(k), Name(k), "tenant", "task", t, 0,
                PayloadOf(t), "service:test", 0)
  }

  function RefusedMap(k: nat): (m: map<string, Fingerprint>)
    requires k <= 1024
  {
    if k == 0 then map[] else RefusedMap(k - 1)[Name(k - 1) := FingerprintOf(Sample(k - 1, if k == 1024 then KILL else START))]
  }

  lemma {:induction false} RefusedMapKeys(k: nat)
    requires k <= 1024
    ensures forall i | k <= i < 1280 :: Name(i) !in RefusedMap(k)
    ensures |RefusedMap(k)| == k
  {
    if k > 0 {
      RefusedMapKeys(k - 1);
      forall i | k <= i < 1280
        ensures Name(i) !in RefusedMap(k)
      {
        NamesDiffer(i, k - 1);
      }
    }
  }

  /** k samples refused, and possibly one command in flight or queued beside them. */
  predicate At(f: Flow, initial: Authority, k: nat, queue: seq<TaskCommand>, phase: Phase)
    requires k <= 1024
  {
    && f.core.commands == queue && f.core.queued == IdMap(queue) && f.core.queuedKeys == KeyMap(queue)
    && f.core.rejected == RefusedMap(k) && f.core.rejectedKeys == RefusedMap(k)
    && f.current == initial && !f.terminal && f.phase == phase
  }

  lemma DeliverSample(f: Flow, initial: Authority, k: nat, i: nat, t: CommandType, phase: Phase)
    requires k <= i < 1280 && k <= 1023 && (k <= 1022 || t == KILL)
    requires At(f, initial, k, [], phase) && (phase.Ready? || phase.InFlight?)
    ensures At(AfterDeliver(f, Sample(i, t), 0), initial, k, [Sample(i, t)], phase)
  {
    RefusedMapKeys(k);
    var c := Sample(i, t);
    assert Known(f.core, c).None? && !Saturated(f.core, c);
    assert [c][1..] == [];
    assert IdMap([c]) == map[c.commandId := c] && KeyMap([c]) == map[c.requestKey := FingerprintOf(c)];
  }

  lemma PopSample(f: Flow, initial: Authority, k: nat, c: TaskCommand)
    requires k <= 1024 && Initial(initial) && At(f, initial, k, [c], Ready)
    ensures At(AfterAdvance(f), initial, k, [], InFlight(c))
  {
    assert [c][1..] == [] && [c][..0] + [c][1..] == [];
    assert IdMap([c]) == map[c.commandId := c] && KeyMap([c]) == map[c.requestKey := FingerprintOf(c)];
  }

  lemma RefuseSample(f: Flow, initial: Authority, k: nat, queue: seq<TaskCommand>, t: CommandType)
    requires k <= 1023 && t == (if k == 1023 then KILL else START)
    requires At(f, initial, k, queue, InFlight(Sample(k, t)))
    ensures At(AfterReject(f, Sample(k, t), "ORCHESTRATOR_TRANSITION_DENIED", 0), initial, k + 1, queue, Ready)
  {
    RefusedMapKeys(k);
  }

  lemma RunDeliver(initial: Authority, events: seq<Event>, k: nat, i: nat, t: CommandType, phase: Phase)
    returns (longer: seq<Event>)
    requires k <= i < 1280 && k <= 1023 && (k <= 1022 || t == KILL) && (phase.Ready? || phase.InFlight?)
    requires At(RunFlow(initial, events), initial, k, [], phase)
    ensures At(RunFlow(initial, longer), initial, k, [Sample(i, t)], phase)
  {
    DeliverSample(RunFlow(initial, events), initial, k, i, t, phase);
    Extend(initial, events, Delivery(Sample(i, t), 0));
    longer := events + [Delivery(Sample(i, t), 0)];
  }

  lemma RunPop(initial: Authority, events: seq<Event>, k: nat, c: TaskCommand) returns (longer: seq<Event>)
    requires k <= 1024 && Initial(initial) && At(RunFlow(initial, events), initial, k, [c], Ready)
    ensures At(RunFlow(initial, longer), initial, k, [], InFlight(c))
  {
    PopSample(RunFlow(initial, events), initial, k, c);
    Extend(initial, events, Loop);
    longer := events + [Loop];
  }

  lemma RunRefuse(initial: Authority, events: seq<Event>, k: nat, queue: seq<TaskCommand>, t: CommandType)
    returns (longer: seq<Event>)
    requires k <= 1023 && t == (if k == 1023 then KILL else START)
    requires At(RunFlow(initial, events), initial, k, queue, InFlight(Sample(k, t)))
    ensures At(RunFlow(initial, longer), initial, k + 1, queue, Ready)
  {
    RefuseSample(RunFlow(initial, events), initial, k, queue, t);
    Extend(initial, events, ChildEnds(Refused("ORCHESTRATOR_TRANSITION_DENIED"), 0));
    longer := events + [ChildEnds(Refused("ORCHESTRATOR_TRANSITION_DENIED"), 0)];
  }

  lemma {:induction false} Fill(initial: Authority, k: nat) returns (events: seq<Event>)
    requires k <= 1023 && Initial(initial)
    ensures At(RunFlow(initial, events), initial, k, [], Ready)
  {
    if k == 0 {
      events := [];
    } else {
      events := Fill(initial, k - 1);
      events := RunDeliver(initial, events, k - 1, k - 1, START, Ready);
      events := RunPop(initial, events, k - 1, Sample(k - 1, START));
      events := RunRefuse(initial, events, k - 1, [], START);
    }
  }

  lemma RunBreaks(initial: Authority, events: seq<Event>, c: TaskCommand) returns (longer: seq<Event>)
    requires At(RunFlow(initial, events), initial, 1024, [], InFlight(c))
    requires c.commandId !in RefusedMap(1024) && c.requestKey !in RefusedMap(1024)
    ensures RunFlow(initial, longer).phase == Failed(HistoryInvariantBroken)
  {
    RefusedMapKeys(1024);
    Extend(initial, events, ChildEnds(Refused("ORCHESTRATOR_TRANSITION_DENIED"), 0));
    longer := events + [ChildEnds(Refused("ORCHESTRATOR_TRANSITION_DENIED"), 0)];
  }

  /** 1023 refusals, a KILL in flight, a second KILL admitted into the slot the first one left: when
      both are refused the run raises the error that the guard was meant to exclude. */
  lemma BrokenHistoryIsReachable(initial: Authority) returns (events: seq<Event>)
    requires Initial(initial)
    ensures RunFlow(initial, events).phase == Failed(HistoryInvariantBroken)
  {
    var first, second := Sample(1023, KILL), Sample(1024, KILL);
    events := Fill(initial, 1023);
    events := RunDeliver(initial, events, 1023, 1023, KILL, Ready);
    events := RunPop(initial, events, 1023, first);
    events := RunDeliver(initial, events, 1023, 1024, KILL, InFlight(first));
    events := RunRefuse(initial, events, 1023, [second], KILL);
    events := RunPop(initial, events, 1024, second);
    RefusedMapKeys(1024);
    events := RunBreaks(initial, events, second);
  }
}
