/**
 Two runs in which every call of a submission succeeds, the row becomes START_REQUESTED and the START
 event is stored and answered for.  In the first its clock is more than five minutes ahead of the
 workflow's, and the workflow that was started for it has admitted nothing.  In the second its start
 joined a running workflow, which is bound to something else.
 */
module StartSkew {
  import opened Common
  import opened CommandQueue
  import opened TaskWorkflow
  import Engine = TransitionEngine
  import Laws = TaskWorkflowLaws
  import opened WorkflowAdmission
  import opened ActionStore
  import opened IngressProtocol
  import opened IngressLaws
  import opened IngressGuarantees

  /** A submission, its two clocks, and the workflow that its START was signalled to. */
  datatype Scene = Scene(e: Envelope, clock: int, now: int, wf: Instance, misled: set<Envelope>)

  function Start(s: Scene): TaskCommand {
    StartCommand(s.e, s.clock)
  }

  /** A world with the one row, the one workflow and the one client of the submission. */
  function Stage(s: Scene, status: RowStatus, stream: seq<TaskCommand>, locks: map<string, nat>, pc: Pc): World {
    World([Row(s.e, status)], stream, locks, map[Wid(s.e) := s.wf], map[0 := Client(Submit(s.e), pc)], s.misled)
  }

  lemma RunStep(events: seq<Event>, e: Event)
    ensures RunWorld(events + [e]) == if Happens(RunWorld(events), e) then Next(RunWorld(events), e) else RunWorld(events)
  {
    assert (events + [e])[..|events|] == events;
  }

  /** The client's next call. */
  lemma Moves(s: Scene, status: RowStatus, stream: seq<TaskCommand>, locks: map<string, nat>, pc: Pc, events: seq<Event>)
    returns (longer: seq<Event>)
    requires RunWorld(events) == Stage(s, status, stream, locks, pc) && Proper(RunWorld(events), Client(Submit(s.e), pc))
    requires !Halted(pc) && (pc.Appending? ==> locks == map[])
    ensures RunWorld(longer) == AfterStep(Stage(s, status, stream, locks, pc), 0, s.clock, s.now)
    ensures RunWorld(longer).clients.Keys == {0}
  {
    RunStep(events, Step(0, s.clock, s.now));
    longer := events + [Step(0, s.clock, s.now)];
  }

  lemma OneRow(e: Envelope, status: RowStatus)
    ensures Lookup([Row(e, status)], ACTION, e.tenant, e.action) == Some(0)
  {
    assert Selects([Row(e, status)][0], ACTION, e.tenant, e.action);
  }

  lemma OneEvent(c: TaskCommand)
    ensures Find([c], c.tenantId, c.taskId, c.commandId) == Some(0)
  {
    assert IsEvent([c][0], c.tenantId, c.taskId, c.commandId);
  }

  /** The append of an event takes two calls: the first locks and looks. */
  lemma Locks(s: Scene, status: RowStatus, stream: seq<TaskCommand>, goal: Goal, events: seq<Event>) returns (longer: seq<Event>)
    requires ValidEnvelope(s.e) && stream in {[], [Start(s)]}
    requires RunWorld(events) == Stage(s, status, stream, map[], Appending(Start(s), goal))
    ensures RunWorld(longer) == Stage(s, status, stream, map[StartId(s.e) := 0],
      Inserting(Start(s), if stream == [] then None else Some(0), goal))
  {
    StartIdIsToken(s.e);
    OneEvent(Start(s));
    longer := Moves(s, status, stream, map[], Appending(Start(s), goal), events);
  }

  /** The second inserts and releases. */
  lemma Inserts(s: Scene, status: RowStatus, stream: seq<TaskCommand>, goal: Goal, events: seq<Event>) returns (longer: seq<Event>)
    requires stream in {[], [Start(s)]}
    requires RunWorld(events) == Stage(s, status, stream, map[StartId(s.e) := 0],
      Inserting(Start(s), if stream == [] then None else Some(0), goal))
    ensures RunWorld(longer) == Stage(s, status, [Start(s)], map[],
      if goal == RequestStart then Requesting(Start(s)) else Returned(Evidence(0, Start(s))))
  {
    longer := Moves(s, status, stream, map[StartId(s.e) := 0], Inserting(Start(s), if stream == [] then None else Some(0), goal), events);
    assert RunWorld(longer).locks == map[];
  }

  lemma Marks(s: Scene, status: RowStatus, stream: seq<TaskCommand>, pc: Pc, events: seq<Event>) returns (longer: seq<Event>)
    requires RunWorld(events) == Stage(s, status, stream, map[], pc)
    requires || (status == PENDING_WORKFLOW && pc == Marking(Start(s), true))
             || (status == CREATED && pc == Requesting(Start(s)))
    ensures RunWorld(longer) == if pc.Marking?
      then Stage(s, CREATED, stream, map[], Appending(Start(s), RequestStart))
      else Stage(s, START_REQUESTED, stream, map[], Reading(Start(s)))
  {
    OneRow(s.e, status);
    longer := Moves(s, status, stream, map[], pc, events);
    assert RunWorld(longer).rows == [Row(s.e, if pc.Marking? then CREATED else START_REQUESTED)];
  }

  lemma Reads(s: Scene, events: seq<Event>) returns (longer: seq<Event>)
    requires RunWorld(events) == Stage(s, START_REQUESTED, [Start(s)], map[], Reading(Start(s)))
    ensures RunWorld(longer) == Stage(s, START_REQUESTED, [Start(s)], map[], Appending(Start(s), Answer))
  {
    OneEvent(Start(s));
    longer := Moves(s, START_REQUESTED, [Start(s)], map[], Reading(Start(s)), events);
  }

  /** Once its start is reported as done, a lone submission is answered. */
  lemma Answered(s: Scene, started: seq<Event>) returns (events: seq<Event>)
    requires ValidEnvelope(s.e) && RunWorld(started) == Stage(s, PENDING_WORKFLOW, [], map[], Marking(Start(s), true))
    ensures RunWorld(events) == Stage(s, START_REQUESTED, [Start(s)], map[], Returned(Evidence(0, Start(s))))
  {
    events := Marks(s, PENDING_WORKFLOW, [], Marking(Start(s), true), started);
    events := Locks(s, CREATED, [], RequestStart, events);
    events := Inserts(s, CREATED, [], RequestStart, events);
    events := Marks(s, CREATED, [Start(s)], Requesting(Start(s)), events);
    events := Reads(s, events);
    events := Locks(s, START_REQUESTED, [Start(s)], Answer, events);
    events := Inserts(s, START_REQUESTED, [Start(s)], Answer, events);
  }

  /** The submission arrives and is admitted. */
  lemma Admitted(e: Envelope, clock: int, now: int, before: seq<Event>) returns (events: seq<Event>)
    requires ValidEnvelope(e) && RunWorld(before) == EmptyWorld.(workflows := RunWorld(before).workflows)
    ensures RunWorld(events) == RunWorld(before).(
      rows := [Row(e, PENDING_WORKFLOW)], clients := map[0 := Client(Submit(e), Starting(StartCommand(e, clock)))])
  {
    RunStep(before, Arrive(0, Submit(e)));
    events := before + [Arrive(0, Submit(e))];
    assert RunWorld(events).clients == map[0 := Client(Submit(e), Admitting)];
    RunStep(events, Step(0, clock, now));
    events := events + [Step(0, clock, now)];
    assert RunWorld(events).rows == [Row(e, PENDING_WORKFLOW)];
    assert RunWorld(events).clients == map[0 := Client(Submit(e), Starting(StartCommand(e, clock)))];
  }

  // ---------- a workflow of its own ----------

  /** The workflow that the submission starts, with its first signal. */
  function Signalled(e: Envelope, clock: int, now: int): Instance {
    Delivered(Instance(BindingOf(e), InitialState(e), []), StartCommand(e, clock), now)
  }

  /** The submission starts its workflow. */
  lemma Started(e: Envelope, clock: int, now: int) returns (events: seq<Event>)
    requires ValidEnvelope(e)
    ensures RunWorld(events) == Stage(Scene(e, clock, now, Signalled(e, clock, now), {}), PENDING_WORKFLOW, [], map[],
      Marking(StartCommand(e, clock), true))
  {
    events := Admitted(e, clock, now, []);
    RunStep(events, Step(0, clock, now));
    events := events + [Step(0, clock, now)];
    assert RunWorld(events).clients == map[0 := Client(Submit(e), Marking(StartCommand(e, clock), true))];
    assert RunWorld(events).workflows == map[Wid(e) := Signalled(e, clock, now)];
  }

  lemma SignalledFlow(e: Envelope, clock: int, now: int)
    requires ValidEnvelope(e)
    ensures Open(FlowOf(Signalled(e, clock, now)))
    ensures FlowOf(Signalled(e, clock, now)).history.admitted == [] <==> clock > now + 5 * MINUTE
  {
    var c := StartCommand(e, clock);
    var empty := Instance(BindingOf(e), InitialState(e), []);
    StartIsValid(e, c, now);
    RunExtends(empty, Laws.Delivery(c, now));
  }

  /** A lone submission of any valid envelope is answered with its START event stored and its row
      START_REQUESTED, whatever the two clocks say; the workflow heard the START exactly when the
      ingress clock is at most five minutes ahead, and is waiting for commands either way. */
  lemma AnsweredAlthoughLost(e: Envelope, clock: int, now: int) returns (events: seq<Event>)
    requires ValidEnvelope(e)
    ensures var w := RunWorld(events); var c := StartCommand(e, clock);
      && w.rows == [Row(e, START_REQUESTED)] && w.stream == [c]
      && w.clients == map[0 := Client(Submit(e), Returned(Evidence(0, c)))]
      && w.workflows.Keys == {Wid(e)} && Open(FlowOf(w.workflows[Wid(e)]))
      && (FlowOf(w.workflows[Wid(e)]).history.admitted == [] <==> clock > now + 5 * MINUTE)
      && (Admits(FlowOf(w.workflows[Wid(e)]), FingerprintOf(c)) <==> clock <= now + 5 * MINUTE)
  {
    events := Started(e, clock, now);
    events := Answered(Scene(e, clock, now, Signalled(e, clock, now), {}), events);
    StartHeard(e, StartCommand(e, clock), now);
    SignalledFlow(e, clock, now);
  }

  // ---------- a workflow that was running ----------

  /** A workflow of the same tenant and task runs already, and the start of the submission joins it. */
  lemma Joined(e: Envelope, clock: int, now: int, b: Binding, a: Engine.Authority) returns (events: seq<Event>)
    requires ValidEnvelope(e) && Fresh(a)
    ensures RunWorld(events) == Stage(Scene(e, clock, now, Delivered(Instance(b, a, []), StartCommand(e, clock), now), if b == BindingOf(e) then {} else {e}),
      PENDING_WORKFLOW, [], map[], Marking(StartCommand(e, clock), true))
  {
    RunStep([], Foreign(Wid(e), b, a));
    assert RunWorld([Foreign(Wid(e), b, a)]).workflows == map[Wid(e) := Instance(b, a, [])];
    events := Admitted(e, clock, now, [Foreign(Wid(e), b, a)]);
    RunStep(events, Join(0, now));
    events := events + [Join(0, now)];
    assert RunWorld(events).clients == map[0 := Client(Submit(e), Marking(StartCommand(e, clock), true))];
  }

  /** A lone submission whose start joins a running workflow is answered, with its START event stored and
      its row START_REQUESTED, whatever that workflow is bound to. */
  lemma AnsweredAlthoughForeign(e: Envelope, clock: int, now: int, b: Binding, a: Engine.Authority) returns (events: seq<Event>)
    requires ValidEnvelope(e) && Fresh(a)
    ensures var w := RunWorld(events); var c := StartCommand(e, clock);
      && w.rows == [Row(e, START_REQUESTED)] && w.stream == [c]
      && w.clients == map[0 := Client(Submit(e), Returned(Evidence(0, c)))]
      && w.workflows.Keys == {Wid(e)} && w.workflows[Wid(e)].binding == b
      && (Matches(w.workflows, e) <==> b == BindingOf(e)) && (e in w.misled <==> b != BindingOf(e))
  {
    events := Joined(e, clock, now, b, a);
    events := Answered(Scene(e, clock, now, Delivered(Instance(b, a, []), StartCommand(e, clock), now), if b == BindingOf(e) then {} else {e}), events);
  }
}
