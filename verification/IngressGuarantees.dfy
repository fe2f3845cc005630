/**
 What the ingress promises its callers, over every run: statuses only move forward, an event is
 stored once, every receipt for it is the same, and a lone retry of `submit` succeeds from every
 state that crashes can leave behind, exactly when the workflow still takes its START.
 */
module IngressGuarantees {
  import opened Common
  import opened CommandQueue
  import opened TaskWorkflow
  import Queue = WorkflowQueue
  import Failures = WorkflowFailures
  import opened WorkflowAdmission
  import opened ActionStore
  import opened IngressProtocol
  import opened IngressLaws

  // ---------- status and events ----------

  predicate MayMove(from: RowStatus, to: RowStatus) {
    from == to || (from == PENDING_WORKFLOW && to == CREATED) || (from == CREATED && to == START_REQUESTED)
  }

  predicate OnlyMoves(a: seq<Row>, b: seq<Row>) {
    |a| <= |b| && forall i | 0 <= i < |a| :: b[i].envelope == a[i].envelope && MayMove(a[i].status, b[i].status)
  }

  lemma AdmitMoves(rows: seq<Row>, e: Envelope)
    ensures OnlyMoves(rows, AfterAdmit(rows, e).0)
  {
  }

  lemma MarkMoves(rows: seq<Row>, e: Envelope, from: set<RowStatus>, to: RowStatus)
    requires forall s | s in from :: MayMove(s, to)
    ensures OnlyMoves(rows, AfterMark(rows, e.tenant, e.action, from, to).0)
  {
  }

  lemma RowsMove(w: World, i: nat, clock: int, now: int)
    requires i in w.clients && Proper(w, w.clients[i])
    ensures OnlyMoves(w.rows, AfterStep(w, i, clock, now).rows)
  {
    var r := w.clients[i].request;
    match w.clients[i].pc
    case Admitting => AdmitMoves(w.rows, r.envelope);
    case Marking(_, _) => MarkMoves(w.rows, r.envelope, MAY_START, CREATED);
    case Requesting(_) => MarkMoves(w.rows, r.envelope, MAY_REQUEST, START_REQUESTED);
    case _ => assert AfterStep(w, i, clock, now).rows == w.rows;
  }

  /** One event of a run moves a status by at most one step, forward; no row and no event is lost. */
  lemma StatusMovesForward(events: seq<Event>, e: Event)
    ensures OnlyMoves(RunWorld(events).rows, RunWorld(events + [e]).rows)
    ensures RunWorld(events).stream <= RunWorld(events + [e]).stream
  {
    var w := RunWorld(events);
    EveryWorld(events);
    assert (events + [e])[..|events|] == events;
    if Happens(w, e) {
      NextKeepsInv(w, e);
      if e.Step? {
        RowsMove(w, e.client, e.clock, e.workflowClock);
      }
    }
  }

  /** The start of this envelope joins a workflow that is bound to something else. */
  predicate Misleads(w: World, x: Event, e: Envelope) {
    x.Join? && Enabled(w, x) && w.clients[x.client].request == Submit(e) && Mismatched(w.workflows, e)
  }

  lemma MisledNext(w: World, x: Event, e: Envelope)
    requires Happens(w, x)
    ensures e in Next(w, x).misled <==> e in w.misled || Misleads(w, x, e)
  {
  }

  predicate MisledAt(events: seq<Event>, k: nat, e: Envelope)
    requires k < |events|
  {
    Misleads(RunWorld(events[..k]), events[k], e)
  }

  predicate EverMisled(events: seq<Event>, e: Envelope) {
    exists k :: 0 <= k < |events| && MisledAt(events, k, e)
  }

  lemma MisledEarlier(events: seq<Event>, e: Envelope)
    requires events != []
    ensures EverMisled(events, e)
      <==> EverMisled(events[..|events| - 1], e) || MisledAt(events, |events| - 1, e)
  {
    var front := events[..|events| - 1];
    forall k: nat | k < |front|
      ensures MisledAt(front, k, e) == MisledAt(events, k, e)
    {
      assert front[..k] == events[..k];
    }
  }

  /** The envelopes that are misled in a run are exactly those that some event of it misleads. */
  lemma {:induction false} MisledIff(events: seq<Event>, e: Envelope)
    ensures e in RunWorld(events).misled <==> EverMisled(events, e)
  {
    if events != [] {
      var front, x := events[..|events| - 1], events[|events| - 1];
      MisledIff(front, e);
      MisledEarlier(events, e);
      if Happens(RunWorld(front), x) {
        MisledNext(RunWorld(front), x, e);
      }
    }
  }

  /** A row that is no longer pending has a workflow, which is bound to its envelope unless its start joined
      one that is not; and a START_REQUESTED row has its START stored, exactly once. */
  lemma {:induction false} RowsTellTheTruth(events: seq<Event>, i: nat)
    requires i < |RunWorld(events).rows|
    ensures var w := RunWorld(events); var row := w.rows[i];
      && (row.status != PENDING_WORKFLOW ==>
            && Wid(row.envelope) in w.workflows
            && (w.workflows[Wid(row.envelope)].binding == BindingOf(row.envelope) <==> row.envelope !in w.misled))
      && (row.status == START_REQUESTED ==>
            exists k :: 0 <= k < |w.stream| && Find(w.stream, row.envelope.tenant, row.envelope.task, StartId(row.envelope)) == Some(k)
                        && FingerprintOf(w.stream[k]) == FingerprintOf(StartCommand(row.envelope, 0)))
  {
    var w := RunWorld(events);
    EveryWorld(events);
    assert RowTrue(w, w.rows[i]);
    if w.rows[i].status == START_REQUESTED {
      var e := w.rows[i].envelope;
      var k :| 0 <= k < |w.stream| && FingerprintOf(w.stream[k]) == FingerprintOf(StartCommand(e, 0));
      FindIsOnly(w.stream, k);
    }
  }

  /** Every event is stored once, and its workflow admitted the command it holds, or that is a START which
      the workflow's queue refused as a signal. */
  lemma {:induction false} EventsAreHeard(events: seq<Event>, k: nat)
    requires k < |RunWorld(events).stream|
    ensures var w := RunWorld(events); var c := w.stream[k];
      && (forall j | 0 <= j < |w.stream| && SameSlot(w.stream[j], c) :: j == k)
      && TargetOf(c) in w.workflows
      && (Admits(FlowOf(w.workflows[TargetOf(c)]), FingerprintOf(c)) || LostStart(w.workflows[TargetOf(c)], FingerprintOf(c)))
  {
    EveryWorld(events);
    var w := RunWorld(events);
    assert HeardBy(w.workflows, w.stream[k]);
    forall j | 0 <= j < |w.stream| && SameSlot(w.stream[j], w.stream[k])
      ensures j == k
    {
      FindIsOnly(w.stream, j);
      FindIsOnly(w.stream, k);
    }
  }

  // ---------- receipts ----------

  predicate ReturnedTo(w: World, i: nat) {
    i in w.clients && w.clients[i].pc.Returned?
  }

  lemma SameSlotSameEvidence(w: World, i: nat, j: nat)
    requires Inv(w) && ReturnedTo(w, i) && ReturnedTo(w, j)
    requires SameSlot(w.clients[i].pc.evidence.event, w.clients[j].pc.evidence.event)
    ensures w.clients[i].pc.evidence == w.clients[j].pc.evidence
  {
    assert Facts(w, w.clients[i]) && Facts(w, w.clients[j]);
    FindIsOnly(w.stream, w.clients[i].pc.evidence.sequence);
    FindIsOnly(w.stream, w.clients[j].pc.evidence.sequence);
  }

  /** All answers that tell of the same command are equal, whoever asked. */
  lemma ReceiptsAgree(events: seq<Event>, i: nat, j: nat)
    requires ReturnedTo(RunWorld(events), i) && ReturnedTo(RunWorld(events), j)
    requires SameSlot(RunWorld(events).clients[i].pc.evidence.event, RunWorld(events).clients[j].pc.evidence.event)
    ensures RunWorld(events).clients[i].pc.evidence == RunWorld(events).clients[j].pc.evidence
  {
    EveryWorld(events);
    SameSlotSameEvidence(RunWorld(events), i, j);
  }

  lemma OneRowPerKey(rows: seq<Row>, a: Envelope, b: Envelope)
    requires Unique(rows) && HasRow(rows, a, PENDING_WORKFLOW) && HasRow(rows, b, PENDING_WORKFLOW)
    requires a.tenant == b.tenant && (a.key == b.key || a.action == b.action || a.task == b.task)
    ensures a == b
  {
    var i :| 0 <= i < |rows| && rows[i].envelope == a;
    var j :| 0 <= j < |rows| && rows[j].envelope == b;
    var column := if a.key == b.key then KEY else if a.action == b.action then ACTION else TASK;
    LookupIsOnly(rows, column, i);
    LookupIsOnly(rows, column, j);
  }

  /** Two submissions under one idempotency key that are both accepted had the same envelope and get
      the same answer. */
  lemma {:induction false} SubmissionsAgree(events: seq<Event>, i: nat, j: nat)
    requires ReturnedTo(RunWorld(events), i) && ReturnedTo(RunWorld(events), j)
    requires RunWorld(events).clients[i].request.Submit? && RunWorld(events).clients[j].request.Submit?
    requires var a := RunWorld(events).clients[i].request.envelope; var b := RunWorld(events).clients[j].request.envelope;
      a.tenant == b.tenant && a.key == b.key
    ensures RunWorld(events).clients[i] == RunWorld(events).clients[j]
  {
    var w := RunWorld(events);
    EveryWorld(events);
    assert Facts(w, w.clients[i]) && Facts(w, w.clients[j]);
    HasRowWeaker(w.rows, w.clients[i].request.envelope);
    HasRowWeaker(w.rows, w.clients[j].request.envelope);
    OneRowPerKey(w.rows, w.clients[i].request.envelope, w.clients[j].request.envelope);
    SameSlotSameEvidence(w, i, j);
  }

  lemma HasRowWeaker(rows: seq<Row>, e: Envelope)
    requires HasRow(rows, e, START_REQUESTED)
    ensures HasRow(rows, e, PENDING_WORKFLOW)
  {
    var i :| 0 <= i < |rows| && rows[i].envelope == e && Rank(START_REQUESTED) <= Rank(rows[i].status);
    assert rows[i].envelope == e && Rank(PENDING_WORKFLOW) <= Rank(rows[i].status);
  }

  lemma ControlSlot(w: World, a: Request, b: Request, c: TaskCommand, d: TaskCommand)
    requires Unique(w.rows) && a.Control? && b.Control? && Owned(w, a, c) && Owned(w, b, d)
    requires a.tenant == b.tenant && a.action == b.action && ResolvedId(a) == ResolvedId(b)
    ensures SameSlot(c, d)
  {
    var i :| 0 <= i < |w.rows| && RowFor(w.rows, a, w.rows[i].envelope) && Scoped(w.workflows, w.rows[i].envelope)
             && TargetOf(c) == Wid(w.rows[i].envelope);
    var j :| 0 <= j < |w.rows| && RowFor(w.rows, b, w.rows[j].envelope) && Scoped(w.workflows, w.rows[j].envelope)
             && TargetOf(d) == Wid(w.rows[j].envelope);
    OneRowPerKey(w.rows, w.rows[i].envelope, w.rows[j].envelope);
  }

  /** Two control calls for one action and command id that both succeed get the same answer. */
  lemma {:induction false} ControlsAgree(events: seq<Event>, i: nat, j: nat)
    requires ReturnedTo(RunWorld(events), i) && ReturnedTo(RunWorld(events), j)
    requires RunWorld(events).clients[i].request.Control? && RunWorld(events).clients[j].request.Control?
    requires var a := RunWorld(events).clients[i].request; var b := RunWorld(events).clients[j].request;
      a.tenant == b.tenant && a.action == b.action && ResolvedId(a) == ResolvedId(b)
    ensures RunWorld(events).clients[i].pc == RunWorld(events).clients[j].pc
  {
    var w := RunWorld(events);
    EveryWorld(events);
    assert Facts(w, w.clients[i]) && Facts(w, w.clients[j]);
    ControlSlot(w, w.clients[i].request, w.clients[j].request, w.clients[i].pc.evidence.event, w.clients[j].pc.evidence.event);
    SameSlotSameEvidence(w, i, j);
  }

  // ---------- locks ----------

  predicate LocksOwned(w: World) {
    forall id | id in w.locks ::
      && w.locks[id] in w.clients
      && w.clients[w.locks[id]].pc.Inserting? && w.clients[w.locks[id]].pc.command.commandId == id
  }

  /** The world differs in its tables and in what client i does next. */
  predicate MovesOn(w: World, v: World, i: nat) {
    v.locks == w.locks && i in v.clients && v.clients == w.clients[i := v.clients[i]]
  }

  /** A client that moves without touching the locks. */
  lemma MoveKeepsOwned(w: World, v: World, i: nat)
    requires LocksOwned(w) && i in w.clients && !w.clients[i].pc.Inserting?
    requires MovesOn(w, v, i)
    ensures LocksOwned(v)
  {
  }

  lemma LockKeepsOwned(w: World, i: nat, c: TaskCommand, goal: Goal)
    requires LocksOwned(w) && i in w.clients && w.clients[i].pc == Appending(c, goal) && c.commandId !in w.locks
    ensures LocksOwned(StepLock(w, i, c, goal))
  {
  }

  lemma ReleaseKeepsOwned(w: World, v: World, i: nat)
    requires LocksOwned(w) && i in w.clients && w.clients[i].pc.Inserting?
    requires v.locks == w.locks - {w.clients[i].pc.command.commandId}
    requires i in v.clients && v.clients == w.clients[i := v.clients[i]]
    ensures LocksOwned(v)
  {
  }

  lemma SubmitMovesOn(w: World, i: nat, clock: int, now: int)
    requires i in w.clients && Proper(w, w.clients[i])
    requires !w.clients[i].pc.Appending? && !w.clients[i].pc.Inserting? && !w.clients[i].pc.Updating?
    ensures w.clients[i].request.Submit? ==> MovesOn(w, AfterStep(w, i, clock, now), i)
  {
  }

  lemma UpdateMovesOn(w: World, i: nat, c: TaskCommand, goal: Goal, now: int)
    requires i in w.clients
    ensures MovesOn(w, StepUpdate(w, i, c, goal, now), i)
  {
  }

  lemma OtherMovesOn(w: World, i: nat, clock: int, now: int)
    requires i in w.clients && Proper(w, w.clients[i])
    requires !w.clients[i].pc.Appending? && !w.clients[i].pc.Inserting? && !w.clients[i].pc.Updating?
    ensures !w.clients[i].request.Submit? ==> MovesOn(w, AfterStep(w, i, clock, now), i)
  {
  }

  lemma StepKeepsOwned(w: World, i: nat, clock: int, now: int)
    requires LocksOwned(w) && i in w.clients && Proper(w, w.clients[i]) && !Waits(w, w.clients[i].pc)
    ensures LocksOwned(AfterStep(w, i, clock, now))
  {
    match w.clients[i].pc
    case Appending(c, goal) => LockKeepsOwned(w, i, c, goal);
    case Inserting(c, existing, goal) => ReleaseKeepsOwned(w, StepInsert(w, i, c, existing, goal), i);
    case Updating(c, goal) =>
      UpdateMovesOn(w, i, c, goal, now);
      MoveKeepsOwned(w, AfterStep(w, i, clock, now), i);
    case _ =>
      SubmitMovesOn(w, i, clock, now);
      OtherMovesOn(w, i, clock, now);
      MoveKeepsOwned(w, AfterStep(w, i, clock, now), i);
  }

  lemma OthersKeepOwned(w: World, e: Event)
    requires LocksOwned(w) && Enabled(w, e) && !e.Step?
    ensures LocksOwned(Next(w, e))
  {
  }

  lemma {:induction false} EveryLockIsOwned(events: seq<Event>)
    ensures LocksOwned(RunWorld(events))
  {
    if events != [] {
      var w := RunWorld(events[..|events| - 1]);
      var e := events[|events| - 1];
      EveryLockIsOwned(events[..|events| - 1]);
      if Happens(w, e) {
        if e.Step? {
          StepKeepsOwned(w, e.client, e.clock, e.workflowClock);
        } else {
          OthersKeepOwned(w, e);
        }
      }
    }
  }

  // ---------- a lone retry ----------

  function StepOnce(w: World, i: nat, clock: int, now: int): World {
    if Happens(w, Step(i, clock, now)) then Next(w, Step(i, clock, now)) else w
  }

  predicate Follows(ws: seq<World>, k: nat, i: nat, clock: int, now: int)
    requires k + 1 < |ws|
  {
    ws[k + 1] == StepOnce(ws[k], i, clock, now)
  }

  predicate Trace(ws: seq<World>, i: nat, clock: int, now: int) {
    forall k | 0 <= k && k + 1 < |ws| :: Follows(ws, k, i, clock, now)
  }

  /** The worlds while client i takes n steps and nothing else happens. */
  function Alone(w: World, i: nat, clock: int, now: int, n: nat): (ws: seq<World>)
    ensures |ws| == n + 1 && ws[0] == w
    decreases n
  {
    if n == 0 then [w] else [w] + Alone(StepOnce(w, i, clock, now), i, clock, now, n - 1)
  }

  lemma {:induction false} AloneIsTrace(w: World, i: nat, clock: int, now: int, n: nat)
    ensures Trace(Alone(w, i, clock, now, n), i, clock, now)
    decreases n
  {
    if n > 0 {
      var ws := Alone(w, i, clock, now, n);
      var rest := Alone(StepOnce(w, i, clock, now), i, clock, now, n - 1);
      AloneIsTrace(StepOnce(w, i, clock, now), i, clock, now, n - 1);
      assert ws == [w] + rest;
      forall k | 0 <= k && k + 1 < |ws|
        ensures Follows(ws, k, i, clock, now)
      {
        if k > 0 {
          assert Follows(rest, k - 1, i, clock, now);
        }
      }
    }
  }

  /** A client that has halted stays as it is to the end. */
  lemma {:induction false} Ends(ws: seq<World>, k: nat, i: nat, clock: int, now: int)
    requires Trace(ws, i, clock, now) && k < |ws| && i in ws[k].clients && Halted(ws[k].clients[i].pc)
    ensures ws[|ws| - 1] == ws[k]
    decreases |ws| - k
  {
    if k + 1 < |ws| {
      assert Follows(ws, k, i, clock, now);
      Ends(ws, k + 1, i, clock, now);
    }
  }

  /** A queue takes a START: the clock of the START is at most five minutes ahead, and START is queued
      already, or its id and key are neither queued nor rejected and fewer than 1023 commands are. */
  predicate TakesStart(core: Core, c: TaskCommand, now: int) {
    && c.requestedAt <= now + 5 * MINUTE
    && (Queue.QueuedAs(core, c)
        || (!Queue.IsQueued(core, c) && !Queue.IsRejected(core, c) && |core.rejected| + |core.queued| < 1023))
  }

  /** The workflow is waiting for commands and takes the START. */
  predicate Accepts(w: World, c: TaskCommand, now: int) {
    && TargetOf(c) in w.workflows
    && Open(FlowOf(w.workflows[TargetOf(c)]))
    && TakesStart(FlowOf(w.workflows[TargetOf(c)]).core, c, now)
  }

  /** These are the terms on which the queue of any workflow admits a START. */
  lemma AcceptsStart(wf: Instance, e: Envelope, c: TaskCommand, now: int)
    requires ValidEnvelope(e) && IsStart(e, c)
    ensures AfterCommand(FlowOf(wf).core, c, now).raised.None? <==> TakesStart(FlowOf(wf).core, c, now)
  {
    Queue.EveryRunAgrees(wf.initial, wf.log);
    Failures.AdmissionRaises(FlowOf(wf).core, c, now);
    StartIsValid(e, c, now);
  }

  /** The event table has nothing else under the command's id. */
  predicate SlotFits(stream: seq<TaskCommand>, c: TaskCommand) {
    match Find(stream, c.tenantId, c.taskId, c.commandId)
    case None => true
    case Some(k) => FingerprintOf(stream[k]) == FingerprintOf(c)
  }

  /** Whether the start of a pending submission can be carried through. */
  predicate Startable(w: World, e: Envelope, c: TaskCommand, now: int) {
    && SlotFits(w.stream, c)
    && (Wid(e) !in w.workflows || (w.workflows[Wid(e)].binding == BindingOf(e) && Accepts(w, c, now)))
  }

  /** Whether a lone submission can be answered: it is the one that was admitted, or can be admitted.  While
      it is pending its workflow is still to be started, or is bound to this envelope and takes its START;
      once it is created its workflow takes its START; and as long as START is not recorded as requested
      the event table holds no other command under START's id. */
  predicate Answerable(w: World, e: Envelope, clock: int, now: int) {
    var c := StartCommand(e, clock);
    match Lookup(w.rows, KEY, e.tenant, e.key)
    case None =>
      && Lookup(w.rows, ACTION, e.tenant, e.action).None? && Lookup(w.rows, TASK, e.tenant, e.task).None?
      && Startable(w, e, c, now)
    case Some(k) =>
      w.rows[k].envelope == e
      && match w.rows[k].status
         case PENDING_WORKFLOW => Startable(w, e, c, now)
         case CREATED => SlotFits(w.stream, c) && Accepts(w, c, now)
         case START_REQUESTED => true
  }

  /** Client i alone runs submit, and nobody holds a lock. */
  predicate Solo(w: World, i: nat, e: Envelope, pc: Pc) {
    Inv(w) && i in w.clients && w.clients[i] == Client(Submit(e), pc) && StartId(e) !in w.locks
  }

  lemma SoloStep(w: World, i: nat, e: Envelope, pc: Pc, clock: int, now: int)
    requires Solo(w, i, e, pc) && !Halted(pc)
    ensures Proper(w, w.clients[i])
    ensures StepOnce(w, i, clock, now) == AfterStep(w, i, clock, now)
    ensures Inv(AfterStep(w, i, clock, now))
  {
    assert Facts(w, w.clients[i]) && LockHeld(w, i);
    assert pc.Appending? ==> pc.command.commandId == StartId(e);
    StepKeepsInv(w, i, clock, now);
  }

  lemma StartIdIsToken(e: Envelope)
    requires ValidEnvelope(e)
    ensures Token(StartId(e))
  {
    StartIsValid(e, StartCommand(e, 0), 0);
  }

  // Each call of a lone client, told by where it leads.

  lemma LockNext(w: World, i: nat, e: Envelope, c: TaskCommand, goal: Goal, clock: int, now: int)
    requires Solo(w, i, e, Appending(c, goal)) && c.commandId == StartId(e)
    ensures var v := StepOnce(w, i, clock, now);
      && Inv(v) && v.stream == w.stream
      && v.clients == w.clients[i := Client(Submit(e), Inserting(c, Find(w.stream, c.tenantId, c.taskId, c.commandId), goal))]
  {
    assert Facts(w, w.clients[i]);
    StartIdIsToken(e);
    SoloStep(w, i, e, Appending(c, goal), clock, now);
  }

  /** The outcome of the append: a conflict, or on to the next call. */
  predicate Appended(stream: seq<TaskCommand>, c: TaskCommand, goal: Goal, to: Pc) {
    if !SlotFits(stream, c) then to.Raised? else if goal == RequestStart then to == Requesting(c) else to.Returned?
  }

  lemma InsertNext(w: World, i: nat, e: Envelope, c: TaskCommand, goal: Goal, clock: int, now: int) returns (to: Pc)
    requires Inv(w) && i in w.clients && c.commandId == StartId(e)
    requires w.clients[i] == Client(Submit(e), Inserting(c, Find(w.stream, c.tenantId, c.taskId, c.commandId), goal))
    ensures Solo(StepOnce(w, i, clock, now), i, e, to) && Appended(w.stream, c, goal, to)
  {
    var existing := Find(w.stream, c.tenantId, c.taskId, c.commandId);
    InsertKeepsInv(w, i, Submit(e), c, existing, goal);
    to := StepInsert(w, i, c, existing, goal).clients[i].pc;
    assert StepOnce(w, i, clock, now) == StepInsert(w, i, c, existing, goal);
  }

  lemma UpdateNext(w: World, i: nat, e: Envelope, c: TaskCommand, clock: int, now: int) returns (to: Pc)
    requires Solo(w, i, e, Updating(c, RequestStart))
    ensures var v := StepOnce(w, i, clock, now); Solo(v, i, e, to) && v.stream == w.stream
    ensures if Accepts(w, c, now) then to == Appending(c, RequestStart) else to.Raised?
  {
    assert Facts(w, w.clients[i]);
    if TargetOf(c) in w.workflows {
      AcceptsStart(w.workflows[TargetOf(c)], e, c, now);
    }
    SoloStep(w, i, e, Updating(c, RequestStart), clock, now);
    to := StepUpdate(w, i, c, RequestStart, now).clients[i].pc;
  }

  predicate IsPending(rows: seq<Row>, e: Envelope) {
    exists k :: 0 <= k < |rows| && rows[k] == Row(e, PENDING_WORKFLOW)
  }

  lemma PendingMarks(rows: seq<Row>, e: Envelope)
    requires Unique(rows) && IsPending(rows, e)
    ensures AfterMark(rows, e.tenant, e.action, MAY_START, CREATED).1
  {
    var k :| 0 <= k < |rows| && rows[k] == Row(e, PENDING_WORKFLOW);
    LookupIsOnly(rows, ACTION, k);
  }

  lemma MarkNext(w: World, i: nat, e: Envelope, c: TaskCommand, started: bool, clock: int, now: int)
    requires Solo(w, i, e, Marking(c, started)) && IsPending(w.rows, e)
    ensures var v := StepOnce(w, i, clock, now);
      && Solo(v, i, e, if started then Appending(c, RequestStart) else Updating(c, RequestStart))
      && v.stream == w.stream && v.workflows == w.workflows
  {
    PendingMarks(w.rows, e);
    SoloStep(w, i, e, Marking(c, started), clock, now);
  }

  lemma RequestMarks(rows: seq<Row>, e: Envelope)
    requires Unique(rows) && HasRow(rows, e, CREATED)
    ensures AfterMark(rows, e.tenant, e.action, MAY_REQUEST, START_REQUESTED).1
  {
    var r :| 0 <= r < |rows| && rows[r].envelope == e && Rank(CREATED) <= Rank(rows[r].status);
    LookupIsOnly(rows, ACTION, r);
  }

  lemma RequestNext(w: World, i: nat, e: Envelope, c: TaskCommand, clock: int, now: int)
    requires Solo(w, i, e, Requesting(c))
    ensures Solo(StepOnce(w, i, clock, now), i, e, Reading(c))
  {
    assert Facts(w, w.clients[i]);
    RequestMarks(w.rows, e);
    SoloStep(w, i, e, Requesting(c), clock, now);
  }

  /** The event that a requested row stands for is found, and it is the only one in its slot. */
  lemma RequestedIsFound(w: World, e: Envelope) returns (k: nat)
    requires Inv(w) && HasRow(w.rows, e, START_REQUESTED)
    ensures k < |w.stream| && Find(w.stream, e.tenant, e.task, StartId(e)) == Some(k)
    ensures IsEvent(w.stream[k], e.tenant, e.task, StartId(e))
  {
    var r :| 0 <= r < |w.rows| && w.rows[r].envelope == e && Rank(START_REQUESTED) <= Rank(w.rows[r].status);
    assert RowTrue(w, w.rows[r]);
    k :| 0 <= k < |w.stream| && FingerprintOf(w.stream[k]) == FingerprintOf(StartCommand(e, 0));
    FindIsOnly(w.stream, k);
  }

  lemma ReadNext(w: World, i: nat, e: Envelope, c: TaskCommand, clock: int, now: int) returns (stored: TaskCommand)
    requires Solo(w, i, e, Reading(c))
    ensures var v := StepOnce(w, i, clock, now); Solo(v, i, e, Appending(stored, Answer)) && SlotFits(v.stream, stored)
    ensures stored.commandId == StartId(e)
  {
    assert Facts(w, w.clients[i]);
    var k := RequestedIsFound(w, e);
    stored := w.stream[k];
    SoloStep(w, i, e, Reading(c), clock, now);
  }

  lemma CompareNext(w: World, i: nat, e: Envelope, c: TaskCommand, clock: int, now: int)
    requires Solo(w, i, e, Comparing(c)) && Wid(e) in w.workflows
    ensures var v := StepOnce(w, i, clock, now);
      && Solo(v, i, e, if w.workflows[Wid(e)].binding == BindingOf(e) then Marking(c, false) else Raised(WorkflowConflict))
      && v.rows == w.rows && v.stream == w.stream && v.workflows == w.workflows
  {
    SoloStep(w, i, e, Comparing(c), clock, now);
  }

  lemma StartNext(w: World, i: nat, e: Envelope, c: TaskCommand, clock: int, now: int)
    requires Solo(w, i, e, Starting(c))
    ensures var v := StepOnce(w, i, clock, now);
      && Solo(v, i, e, if Wid(e) in w.workflows then Comparing(c) else Marking(c, true))
      && v.rows == w.rows && v.stream == w.stream && (Wid(e) in w.workflows ==> v.workflows == w.workflows)
  {
    SoloStep(w, i, e, Starting(c), clock, now);
  }

  /** The call that the answer of `admit` leads to. */
  function AdmittedTo(rows: seq<Row>, e: Envelope, clock: int): Pc {
    match AfterAdmit(rows, e).1
    case Err(code) => Raised(Stored(code))
    case Ok(admission) =>
      match admission.status
      case PENDING_WORKFLOW => Starting(StartCommand(e, clock))
      case CREATED => Updating(StartCommand(e, clock), RequestStart)
      case START_REQUESTED => Reading(StartCommand(e, clock))
  }

  lemma AdmitNext(w: World, i: nat, e: Envelope, clock: int, now: int)
    requires Solo(w, i, e, Admitting)
    ensures var v := StepOnce(w, i, clock, now);
      && Solo(v, i, e, AdmittedTo(w.rows, e, clock)) && v.stream == w.stream && v.workflows == w.workflows
      && (AdmittedTo(w.rows, e, clock).Starting? ==> IsPending(v.rows, e))
  {
    SoloStep(w, i, e, Admitting, clock, now);
    if AdmittedTo(w.rows, e, clock).Starting? {
      PendingAfterAdmit(w.rows, e);
    }
  }

  lemma PendingAfterAdmit(rows: seq<Row>, e: Envelope)
    requires var answer := AfterAdmit(rows, e).1; answer.Ok? && answer.value.status == PENDING_WORKFLOW
    ensures IsPending(AfterAdmit(rows, e).0, e)
  {
    var found := Lookup(rows, KEY, e.tenant, e.key);
    assert AfterAdmit(rows, e).0[if found.None? then |rows| else found.value] == Row(e, PENDING_WORKFLOW);
  }

  // From each call to the end.

  lemma FromAppend(ws: seq<World>, k: nat, i: nat, e: Envelope, c: TaskCommand, goal: Goal, clock: int, now: int) returns (to: Pc)
    requires Trace(ws, i, clock, now) && k + 2 < |ws|
    requires Solo(ws[k], i, e, Appending(c, goal)) && c.commandId == StartId(e)
    ensures Solo(ws[k + 2], i, e, to) && Appended(ws[k].stream, c, goal, to)
    ensures Halted(to) ==> ws[|ws| - 1] == ws[k + 2]
  {
    assert Follows(ws, k, i, clock, now) && Follows(ws, k + 1, i, clock, now);
    LockNext(ws[k], i, e, c, goal, clock, now);
    to := InsertNext(ws[k + 1], i, e, c, goal, clock, now);
    if Halted(to) {
      Ends(ws, k + 2, i, clock, now);
    }
  }

  predicate Returns(ws: seq<World>, i: nat) {
    ws != [] && ReturnedTo(ws[|ws| - 1], i)
  }

  /** From the reading of the stored event on nothing can fail. */
  lemma FromRead(ws: seq<World>, k: nat, i: nat, e: Envelope, c: TaskCommand, clock: int, now: int)
    requires Trace(ws, i, clock, now) && k + 3 < |ws| && Solo(ws[k], i, e, Reading(c))
    ensures Returns(ws, i)
  {
    assert Follows(ws, k, i, clock, now);
    var stored := ReadNext(ws[k], i, e, c, clock, now);
    var to := FromAppend(ws, k + 1, i, e, stored, Answer, clock, now);
  }

  lemma FromAppendStart(ws: seq<World>, k: nat, i: nat, e: Envelope, c: TaskCommand, clock: int, now: int)
    requires Trace(ws, i, clock, now) && k + 6 < |ws|
    requires Solo(ws[k], i, e, Appending(c, RequestStart)) && c.commandId == StartId(e)
    ensures Returns(ws, i) <==> SlotFits(ws[k].stream, c)
  {
    var to := FromAppend(ws, k, i, e, c, RequestStart, clock, now);
    if SlotFits(ws[k].stream, c) {
      assert Follows(ws, k + 2, i, clock, now);
      RequestNext(ws[k + 2], i, e, c, clock, now);
      FromRead(ws, k + 3, i, e, c, clock, now);
    }
  }

  lemma FromUpdate(ws: seq<World>, k: nat, i: nat, e: Envelope, c: TaskCommand, clock: int, now: int)
    requires Trace(ws, i, clock, now) && k + 7 < |ws|
    requires Solo(ws[k], i, e, Updating(c, RequestStart)) && c.commandId == StartId(e)
    ensures Returns(ws, i) <==> SlotFits(ws[k].stream, c) && Accepts(ws[k], c, now)
  {
    assert Follows(ws, k, i, clock, now);
    var to := UpdateNext(ws[k], i, e, c, clock, now);
    if Accepts(ws[k], c, now) {
      FromAppendStart(ws, k + 1, i, e, c, clock, now);
    } else {
      Ends(ws, k + 1, i, clock, now);
    }
  }

  lemma FromMark(ws: seq<World>, k: nat, i: nat, e: Envelope, c: TaskCommand, started: bool, clock: int, now: int)
    requires Trace(ws, i, clock, now) && k + 8 < |ws| && IsPending(ws[k].rows, e)
    requires Solo(ws[k], i, e, Marking(c, started)) && c.commandId == StartId(e)
    ensures Returns(ws, i) <==> SlotFits(ws[k].stream, c) && (started || Accepts(ws[k], c, now))
  {
    assert Follows(ws, k, i, clock, now);
    MarkNext(ws[k], i, e, c, started, clock, now);
    if started {
      FromAppendStart(ws, k + 1, i, e, c, clock, now);
    } else {
      FromUpdate(ws, k + 1, i, e, c, clock, now);
    }
  }

  lemma FromCompare(ws: seq<World>, k: nat, i: nat, e: Envelope, c: TaskCommand, clock: int, now: int)
    requires Trace(ws, i, clock, now) && k + 9 < |ws| && IsPending(ws[k].rows, e) && Wid(e) in ws[k].workflows
    requires Solo(ws[k], i, e, Comparing(c)) && c.commandId == StartId(e)
    ensures Returns(ws, i)
      <==> SlotFits(ws[k].stream, c) && ws[k].workflows[Wid(e)].binding == BindingOf(e) && Accepts(ws[k], c, now)
  {
    assert Follows(ws, k, i, clock, now);
    CompareNext(ws[k], i, e, c, clock, now);
    if ws[k].workflows[Wid(e)].binding == BindingOf(e) {
      FromMark(ws, k + 1, i, e, c, false, clock, now);
    } else {
      Ends(ws, k + 1, i, clock, now);
    }
  }

  lemma FromStart(ws: seq<World>, k: nat, i: nat, e: Envelope, c: TaskCommand, clock: int, now: int)
    requires Trace(ws, i, clock, now) && k + 10 < |ws| && IsPending(ws[k].rows, e)
    requires Solo(ws[k], i, e, Starting(c)) && c.commandId == StartId(e)
    ensures Returns(ws, i) <==> Startable(ws[k], e, c, now)
  {
    assert Follows(ws, k, i, clock, now);
    StartNext(ws[k], i, e, c, clock, now);
    if Wid(e) in ws[k].workflows {
      FromCompare(ws, k + 1, i, e, c, clock, now);
    } else {
      FromMark(ws, k + 1, i, e, c, true, clock, now);
    }
  }

  lemma FromAdmit(ws: seq<World>, i: nat, e: Envelope, clock: int, now: int)
    requires Trace(ws, i, clock, now) && 11 < |ws| && Solo(ws[0], i, e, Admitting)
    ensures Returns(ws, i) <==> Answerable(ws[0], e, clock, now)
  {
    assert Follows(ws, 0, i, clock, now);
    AdmitNext(ws[0], i, e, clock, now);
    AdmissionCases(ws[0], e, clock, now);
    match AdmittedTo(ws[0].rows, e, clock)
    case Starting(c) => FromStart(ws, 1, i, e, c, clock, now);
    case Updating(c, goal) => FromUpdate(ws, 1, i, e, c, clock, now);
    case Reading(c) => FromRead(ws, 1, i, e, c, clock, now);
    case Raised(_) => Ends(ws, 1, i, clock, now);
  }

  /** Answerable, told by the call that `admit` leads to. */
  lemma AdmissionCases(w: World, e: Envelope, clock: int, now: int)
    ensures var start := StartCommand(e, clock);
      Answerable(w, e, clock, now) <==>
        match AdmittedTo(w.rows, e, clock)
        case Starting(_) => Startable(w, e, start, now)
        case Updating(_, _) => SlotFits(w.stream, start) && Accepts(w, start, now)
        case Reading(_) => true
        case _ => false
  {
  }

  /** A submission that runs alone from any state that runs and crashes can leave behind, and whose start
      reports an id that is taken, is answered exactly when it is answerable, within eleven calls. */
  lemma LoneRetry(events: seq<Event>, i: nat, e: Envelope, clock: int, now: int)
    requires var w := RunWorld(events);
      && i in w.clients && w.clients[i] == Client(Submit(e), Admitting)
      && forall j | j in w.clients && j != i :: Halted(w.clients[j].pc)
    ensures ReturnedTo(Alone(RunWorld(events), i, clock, now, 11)[11], i) <==> Answerable(RunWorld(events), e, clock, now)
  {
    EveryWorld(events);
    EveryLockIsOwned(events);
    AloneIsTrace(RunWorld(events), i, clock, now, 11);
    FromAdmit(Alone(RunWorld(events), i, clock, now, 11), i, e, clock, now);
  }

  /** One whose start joins a running workflow is answered, within eight calls more, exactly when the event
      table holds no other command under START's id: what the workflow is bound to, and whether it takes
      the START, is not asked. */
  lemma LoneJoin(events: seq<Event>, i: nat, e: Envelope, c: TaskCommand, clock: int, now: int)
    requires var w := RunWorld(events);
      && i in w.clients && w.clients[i] == Client(Submit(e), Starting(c)) && CanJoin(w, w.clients[i]) && IsPending(w.rows, e)
      && forall j | j in w.clients && j != i :: Halted(w.clients[j].pc)
    ensures ReturnedTo(Alone(AfterJoin(RunWorld(events), i, now), i, clock, now, 8)[8], i) <==> SlotFits(RunWorld(events).stream, c)
  {
    var w := RunWorld(events);
    EveryWorld(events);
    EveryLockIsOwned(events);
    assert Facts(w, w.clients[i]);
    JoinKeepsInv(w, i, now);
    var v := AfterJoin(w, i, now);
    AloneIsTrace(v, i, clock, now, 8);
    FromMark(Alone(v, i, clock, now, 8), 0, i, e, c, true, clock, now);
  }
}
