/**
 What every interleaving of clients, crashes, retries and workflow steps keeps: a row's status only
 moves forward and tells the truth about the workflow and the event table, an event is stored at
 most once and only for a command the workflow heard of, and all answers for it are equal.
 */
module IngressLaws {
  import opened Common
  import opened CommandQueue
  import opened TaskWorkflow
  import Laws = TaskWorkflowLaws
  import opened WorkflowAdmission
  import opened ActionStore
  import opened IngressProtocol

  // ---------- facts about a world ----------

  function Rank(s: RowStatus): nat {
    match s case PENDING_WORKFLOW => 0 case CREATED => 1 case START_REQUESTED => 2
  }

  predicate HasRow(rows: seq<Row>, e: Envelope, atLeast: RowStatus) {
    exists i :: 0 <= i < |rows| && rows[i].envelope == e && Rank(atLeast) <= Rank(rows[i].status)
  }

  predicate Matches(workflows: map<WorkflowId, Instance>, e: Envelope) {
    Wid(e) in workflows && workflows[Wid(e)].binding == BindingOf(e)
  }

  /** A delivery of the command that the running workflow's queue refused. */
  predicate RefusedAt(wf: Instance, p: Fingerprint, k: nat)
    requires k < |wf.log|
  {
    var x, f := wf.log[k], Laws.RunFlow(wf.initial, wf.log[..k]);
    x.Delivery? && FingerprintOf(x.c) == p && Open(f) && AfterCommand(f.core, x.c, x.now).raised.Some?
  }

  /** The command is a START, and the workflow's queue refused it as a signal, of which nobody is told. */
  predicate LostStart(wf: Instance, p: Fingerprint) {
    p.commandType == START && exists k :: 0 <= k < |wf.log| && RefusedAt(wf, p, k)
  }

  /** The workflow admitted the command, unless it is a START that was lost. */
  predicate Heard(wf: Instance, p: Fingerprint) {
    Admits(FlowOf(wf), p) || LostStart(wf, p)
  }

  predicate HeardBy(workflows: map<WorkflowId, Instance>, c: TaskCommand) {
    TargetOf(c) in workflows && Heard(workflows[TargetOf(c)], FingerprintOf(c))
  }

  /** The workflow is the envelope's own, unless its start joined another's. */
  predicate Bound(w: World, e: Envelope) {
    e in w.misled || Matches(w.workflows, e)
  }

  /** A workflow runs under the envelope's id, and is bound to something else. */
  predicate Mismatched(workflows: map<WorkflowId, Instance>, e: Envelope) {
    Wid(e) in workflows && workflows[Wid(e)].binding != BindingOf(e)
  }

  predicate IsStart(e: Envelope, c: TaskCommand) {
    c == StartCommand(e, c.requestedAt)
  }

  predicate StartStored(stream: seq<TaskCommand>, e: Envelope) {
    exists k :: 0 <= k < |stream| && FingerprintOf(stream[k]) == FingerprintOf(StartCommand(e, 0))
  }

  /** The row that a request other than submit is about, and that belongs to whoever makes it. */
  predicate OwnRow(rows: seq<Row>, r: Request, e: Envelope) {
    && HasRow(rows, e, PENDING_WORKFLOW)
    && !r.Submit? && e.tenant == r.tenant && e.owner == r.owner
    && (r.Control? ==> e.action == r.action)
    && (r.Bff? ==> e.task == r.task)
  }

  predicate HasOwnRow(rows: seq<Row>, r: Request) {
    exists i :: 0 <= i < |rows| && OwnRow(rows, r, rows[i].envelope)
  }

  predicate RowFor(rows: seq<Row>, r: Request, e: Envelope) {
    OwnRow(rows, r, e) && ValidRequest(r)
  }

  /** The workflow under the row's id is the row's. */
  predicate Scoped(workflows: map<WorkflowId, Instance>, e: Envelope) {
    && Wid(e) in workflows
    && var b := workflows[Wid(e)].binding; (b.tenant, b.task, b.action, b.payload) == (e.tenant, e.task, e.action, e.payload)
  }

  /** The command says what the request says. */
  predicate Says(r: Request, c: TaskCommand) {
    match r
    case Submit(e) => IsEvent(c, e.tenant, e.task, StartId(e))
    case Control(_, owner, _, t, _) =>
      && c.schemaVersion == "agenttrust.orchestrator-command.v1"
      && c.commandId == ResolvedId(r) && c.requestKey == ResolvedId(r) && c.commandType == t && c.requestedBy == owner
    case Bff(tenant, owner, task, t, id, key, version) =>
      && c.schemaVersion == "agenttrust.orchestrator-command.v1"
      && IsEvent(c, tenant, task, id) && c.requestKey == key && c.commandType == t && c.requestedBy == owner
      && c.expectedStateVersion == version && c.payloadDigest == PayloadOf(t)
  }

  /** It goes to the workflow of the request's own row. */
  predicate Aimed(w: World, r: Request, c: TaskCommand) {
    exists i :: 0 <= i < |w.rows| && RowFor(w.rows, r, w.rows[i].envelope)
                && Scoped(w.workflows, w.rows[i].envelope) && TargetOf(c) == Wid(w.rows[i].envelope)
  }

  /** The command fills the slot that the request asks for. */
  predicate Owned(w: World, r: Request, c: TaskCommand) {
    Says(r, c) && (!r.Submit? ==> Aimed(w, r, c))
  }

  predicate GoalFacts(w: World, r: Request, c: TaskCommand, goal: Goal) {
    && Owned(w, r, c)
    && (goal == RequestStart ==> r.Submit? && IsStart(r.envelope, c) && HasRow(w.rows, r.envelope, CREATED))
    && (goal == Answer && r.Submit? ==> HasRow(w.rows, r.envelope, START_REQUESTED))
  }

  predicate MapHeard(wf: Instance, m: map<string, Fingerprint>) {
    forall key | key in m :: Heard(wf, m[key])
  }

  predicate ViewHeard(workflows: map<WorkflowId, Instance>, e: Envelope, view: View) {
    && Wid(e) in workflows
    && MapHeard(workflows[Wid(e)], view.current.processed)
    && MapHeard(workflows[Wid(e)], view.current.processedKeys)
  }

  predicate Facts(w: World, client: Client) {
    var r := client.request;
    && (r.Submit? ==> ValidEnvelope(r.envelope))
    && match client.pc
       case Admitting => r.Submit?
       case Starting(c) => r.Submit? && IsStart(r.envelope, c) && HasRow(w.rows, r.envelope, PENDING_WORKFLOW)
       case Comparing(c) => r.Submit? && IsStart(r.envelope, c) && HasRow(w.rows, r.envelope, PENDING_WORKFLOW)
       case Marking(c, started) =>
         && r.Submit? && IsStart(r.envelope, c) && HasRow(w.rows, r.envelope, PENDING_WORKFLOW)
         && Bound(w, r.envelope)
         && (started ==> HeardBy(w.workflows, c))
       case Updating(c, goal) => GoalFacts(w, r, c, goal)
       case Appending(c, goal) => GoalFacts(w, r, c, goal) && HeardBy(w.workflows, c)
       case Inserting(c, _, goal) => GoalFacts(w, r, c, goal) && HeardBy(w.workflows, c)
       case Requesting(c) =>
         && r.Submit? && IsStart(r.envelope, c) && HasRow(w.rows, r.envelope, CREATED)
         && StartStored(w.stream, r.envelope)
       case Reading(c) => r.Submit? && IsStart(r.envelope, c) && HasRow(w.rows, r.envelope, START_REQUESTED)
       case Getting => !r.Submit?
       case Viewing(e) => RowFor(w.rows, r, e)
       case Looking(e, view) => RowFor(w.rows, r, e) && Scoped(w.workflows, e) && ViewHeard(w.workflows, e, view)
       case Returned(evidence) =>
         && evidence.sequence < |w.stream| && w.stream[evidence.sequence] == evidence.event
         && Owned(w, r, evidence.event)
         && (r.Submit? ==> HasRow(w.rows, r.envelope, START_REQUESTED))
       case Raised(fault) => r.Submit? || fault == NotFound || fault == Crashed || HasOwnRow(w.rows, r)
  }

  /** A CREATED row has its workflow, and a START_REQUESTED row its event. */
  predicate RowTrue(w: World, row: Row) {
    && (Rank(row.status) >= 1 ==> Bound(w, row.envelope))
    && (Rank(row.status) >= 2 ==> StartStored(w.stream, row.envelope))
  }

  predicate LockHeld(w: World, i: nat)
    requires i in w.clients
  {
    var pc := w.clients[i].pc;
    pc.Inserting? ==>
      && pc.command.commandId in w.locks && w.locks[pc.command.commandId] == i
      && pc.existing == Find(w.stream, pc.command.tenantId, pc.command.taskId, pc.command.commandId)
  }

  predicate AllFresh(workflows: map<WorkflowId, Instance>) {
    forall id | id in workflows :: Fresh(workflows[id].initial)
  }

  predicate TablesOk(w: World) {
    && Unique(w.rows)
    && StoredOnce(w.stream)
    && (forall i {:trigger RowTrue(w, w.rows[i])} | 0 <= i < |w.rows| :: RowTrue(w, w.rows[i]))
    && (forall k {:trigger HeardBy(w.workflows, w.stream[k])} | 0 <= k < |w.stream| :: HeardBy(w.workflows, w.stream[k]))
    && (forall e | e in w.misled :: Mismatched(w.workflows, e))
    && AllFresh(w.workflows)
  }

  predicate Inv(w: World) {
    && TablesOk(w)
    && (forall i {:trigger Facts(w, w.clients[i])} | i in w.clients :: Facts(w, w.clients[i]))
    && (forall i {:trigger LockHeld(w, i)} | i in w.clients :: LockHeld(w, i))
  }

  // ---------- what only grows ----------

  predicate RowsGrow(a: seq<Row>, b: seq<Row>) {
    && |a| <= |b|
    && forall i | 0 <= i < |a| :: b[i].envelope == a[i].envelope && Rank(a[i].status) <= Rank(b[i].status)
  }

  predicate WorkflowsGrow(a: map<WorkflowId, Instance>, b: map<WorkflowId, Instance>) {
    forall id | id in a ::
      id in b && b[id].binding == a[id].binding && b[id].initial == a[id].initial && a[id].log <= b[id].log
  }

  predicate Grows(w: World, v: World) {
    && RowsGrow(w.rows, v.rows) && w.stream <= v.stream && WorkflowsGrow(w.workflows, v.workflows)
    && w.misled <= v.misled
  }

  lemma HasRowGrows(a: seq<Row>, b: seq<Row>, e: Envelope, s: RowStatus)
    requires RowsGrow(a, b) && HasRow(a, e, s)
    ensures HasRow(b, e, s)
  {
    var i :| 0 <= i < |a| && a[i].envelope == e && Rank(s) <= Rank(a[i].status);
    assert b[i].envelope == e;
  }

  lemma RowForGrows(a: seq<Row>, b: seq<Row>, r: Request, e: Envelope)
    requires RowsGrow(a, b) && RowFor(a, r, e)
    ensures RowFor(b, r, e)
  {
    HasRowGrows(a, b, e, PENDING_WORKFLOW);
  }

  lemma OwnRowGrows(a: seq<Row>, b: seq<Row>, r: Request)
    requires RowsGrow(a, b) && HasOwnRow(a, r)
    ensures HasOwnRow(b, r)
  {
    var i :| 0 <= i < |a| && OwnRow(a, r, a[i].envelope);
    HasRowGrows(a, b, a[i].envelope, PENDING_WORKFLOW);
    assert OwnRow(b, r, b[i].envelope);
  }

  lemma RowIsOwn(rows: seq<Row>, r: Request, e: Envelope)
    requires OwnRow(rows, r, e)
    ensures HasOwnRow(rows, r)
  {
    var i :| 0 <= i < |rows| && rows[i].envelope == e && Rank(PENDING_WORKFLOW) <= Rank(rows[i].status);
    assert OwnRow(rows, r, rows[i].envelope);
  }

  lemma OwnedHasRow(w: World, r: Request, c: TaskCommand)
    requires Owned(w, r, c) && !r.Submit?
    ensures HasOwnRow(w.rows, r)
  {
  }

  lemma OwnedGrows(w: World, v: World, r: Request, c: TaskCommand)
    requires Grows(w, v) && Owned(w, r, c)
    ensures Owned(v, r, c)
  {
    if !r.Submit? {
      var i :| 0 <= i < |w.rows| && RowFor(w.rows, r, w.rows[i].envelope)
               && Scoped(w.workflows, w.rows[i].envelope) && TargetOf(c) == Wid(w.rows[i].envelope);
      RowForGrows(w.rows, v.rows, r, w.rows[i].envelope);
      assert v.rows[i].envelope == w.rows[i].envelope && Scoped(v.workflows, v.rows[i].envelope);
    }
  }

  lemma HeardGrows(a: Instance, b: Instance, p: Fingerprint)
    requires Fresh(a.initial) && b.initial == a.initial && a.log <= b.log && Heard(a, p)
    ensures Heard(b, p)
  {
    if Admits(FlowOf(a), p) {
      AdmitsStays(a.initial, a.log, b.log, p);
    } else {
      var k :| 0 <= k < |a.log| && RefusedAt(a, p, k);
      assert b.log[..k] == a.log[..k];
      assert RefusedAt(b, p, k);
    }
  }

  lemma MapHeardGrows(a: Instance, b: Instance, m: map<string, Fingerprint>)
    requires Fresh(a.initial) && b.initial == a.initial && a.log <= b.log && MapHeard(a, m)
    ensures MapHeard(b, m)
  {
    forall key | key in m
      ensures Heard(b, m[key])
    {
      HeardGrows(a, b, m[key]);
    }
  }

  lemma HeardByGrows(a: map<WorkflowId, Instance>, b: map<WorkflowId, Instance>, c: TaskCommand)
    requires AllFresh(a) && WorkflowsGrow(a, b) && HeardBy(a, c)
    ensures HeardBy(b, c)
  {
    HeardGrows(a[TargetOf(c)], b[TargetOf(c)], FingerprintOf(c));
  }

  lemma ViewHeardGrows(a: map<WorkflowId, Instance>, b: map<WorkflowId, Instance>, e: Envelope, view: View)
    requires AllFresh(a) && WorkflowsGrow(a, b) && ViewHeard(a, e, view)
    ensures ViewHeard(b, e, view)
  {
    MapHeardGrows(a[Wid(e)], b[Wid(e)], view.current.processed);
    MapHeardGrows(a[Wid(e)], b[Wid(e)], view.current.processedKeys);
  }

  lemma StartStoredGrows(a: seq<TaskCommand>, b: seq<TaskCommand>, e: Envelope)
    requires a <= b && StartStored(a, e)
    ensures StartStored(b, e)
  {
    var k :| 0 <= k < |a| && FingerprintOf(a[k]) == FingerprintOf(StartCommand(e, 0));
    assert b[k] == a[k];
  }

  lemma GoalFactsGrow(w: World, v: World, r: Request, c: TaskCommand, goal: Goal)
    requires Grows(w, v) && GoalFacts(w, r, c, goal)
    ensures GoalFacts(v, r, c, goal)
  {
    OwnedGrows(w, v, r, c);
    if goal == RequestStart {
      HasRowGrows(w.rows, v.rows, r.envelope, CREATED);
    } else if r.Submit? {
      HasRowGrows(w.rows, v.rows, r.envelope, START_REQUESTED);
    }
  }

  /** What a client knows stays true whatever the others do. */
  lemma FactsGrow(w: World, v: World, client: Client)
    requires AllFresh(w.workflows) && Grows(w, v) && Facts(w, client)
    ensures Facts(v, client)
  {
    var r := client.request;
    match client.pc
    case Admitting =>
    case Starting(c) => HasRowGrows(w.rows, v.rows, r.envelope, PENDING_WORKFLOW);
    case Comparing(c) => HasRowGrows(w.rows, v.rows, r.envelope, PENDING_WORKFLOW);
    case Marking(c, started) =>
      HasRowGrows(w.rows, v.rows, r.envelope, PENDING_WORKFLOW);
      if started { HeardByGrows(w.workflows, v.workflows, c); }
    case Updating(c, goal) => GoalFactsGrow(w, v, r, c, goal);
    case Appending(c, goal) =>
      GoalFactsGrow(w, v, r, c, goal);
      HeardByGrows(w.workflows, v.workflows, c);
    case Inserting(c, _, goal) =>
      GoalFactsGrow(w, v, r, c, goal);
      HeardByGrows(w.workflows, v.workflows, c);
    case Requesting(c) =>
      HasRowGrows(w.rows, v.rows, r.envelope, CREATED);
      StartStoredGrows(w.stream, v.stream, r.envelope);
    case Reading(c) => HasRowGrows(w.rows, v.rows, r.envelope, START_REQUESTED);
    case Getting =>
    case Viewing(e) => RowForGrows(w.rows, v.rows, r, e);
    case Looking(e, view) =>
      RowForGrows(w.rows, v.rows, r, e);
      ViewHeardGrows(w.workflows, v.workflows, e, view);
    case Returned(evidence) =>
      OwnedGrows(w, v, r, evidence.event);
      if r.Submit? { HasRowGrows(w.rows, v.rows, r.envelope, START_REQUESTED); }
    case Raised(_) =>
      if HasOwnRow(w.rows, r) { OwnRowGrows(w.rows, v.rows, r); }
  }

  lemma RowTrueGrows(w: World, v: World, row: Row)
    requires Grows(w, v) && RowTrue(w, row)
    ensures RowTrue(v, row)
  {
    if Rank(row.status) >= 2 {
      StartStoredGrows(w.stream, v.stream, row.envelope);
    }
  }

  // ---------- putting a step together ----------

  /** A step of client i changes the tables only upwards and leaves i with true facts. */
  predicate GoodStep(w: World, v: World, i: nat) {
    && v.clients.Keys == w.clients.Keys + {i}
    && (forall j | j in w.clients && j != i :: v.clients[j] == w.clients[j])
    && Grows(w, v)
    && TablesOk(v)
    && Facts(v, v.clients[i])
  }

  predicate LocksKept(w: World, v: World, i: nat) {
    forall j | j in w.clients && j != i && j in v.clients && LockHeld(w, j) && v.clients[j] == w.clients[j] :: LockHeld(v, j)
  }

  lemma Assemble(w: World, v: World, i: nat)
    requires Inv(w) && GoodStep(w, v, i) && LocksKept(w, v, i) && LockHeld(v, i)
    ensures Inv(v)
  {
    forall j | j in v.clients
      ensures Facts(v, v.clients[j]) && LockHeld(v, j)
    {
      if j != i {
        FactsGrow(w, v, w.clients[j]);
      }
    }
  }

  lemma RowsTrueGrow(w: World, v: World)
    requires TablesOk(w) && Grows(w, v) && v.rows == w.rows
    ensures forall i | 0 <= i < |v.rows| :: RowTrue(v, v.rows[i])
  {
    forall i | 0 <= i < |v.rows|
      ensures RowTrue(v, v.rows[i])
    {
      RowTrueGrows(w, v, w.rows[i]);
    }
  }

  lemma StreamHeardGrows(w: World, v: World)
    requires TablesOk(w) && Grows(w, v) && v.stream == w.stream
    ensures forall k {:trigger HeardBy(v.workflows, v.stream[k])} | 0 <= k < |v.stream| :: HeardBy(v.workflows, v.stream[k])
  {
    forall k | 0 <= k < |v.stream|
      ensures HeardBy(v.workflows, v.stream[k])
    {
      assert HeardBy(w.workflows, w.stream[k]);
      HeardByGrows(w.workflows, v.workflows, w.stream[k]);
    }
  }

  /** New or longer workflows leave the tables true. */
  lemma WorkflowsOnly(w: World, v: World)
    requires TablesOk(w) && v.rows == w.rows && v.stream == w.stream && w.misled <= v.misled
    requires WorkflowsGrow(w.workflows, v.workflows) && AllFresh(v.workflows)
    requires forall e | e in v.misled :: e in w.misled || Mismatched(v.workflows, e)
    ensures Grows(w, v) && TablesOk(v)
  {
    RowsTrueGrow(w, v);
    StreamHeardGrows(w, v);
  }

  /** A client that only moves on. */
  lemma Moved(w: World, i: nat, pc: Pc)
    requires Inv(w) && i in w.clients && Facts(w, w.clients[i].(pc := pc)) && !pc.Inserting?
    ensures Inv(At(w, i, pc))
    ensures Grows(w, At(w, i, pc))
  {
    var v := At(w, i, pc);
    WorkflowsOnly(w, v);
    FactsGrow(w, v, v.clients[i]);
    Assemble(w, v, i);
  }

  // ---------- the rows ----------

  lemma HasRowAt(rows: seq<Row>, i: nat, s: RowStatus)
    requires i < |rows| && Rank(s) <= Rank(rows[i].status)
    ensures HasRow(rows, rows[i].envelope, s)
  {
  }

  lemma AdmitTables(w: World, v: World, e: Envelope)
    requires TablesOk(w) && v.rows == AfterAdmit(w.rows, e).0 && v.stream == w.stream && v.workflows == w.workflows && v.misled == w.misled
    ensures Grows(w, v) && TablesOk(v)
  {
    AdmitKeepsUnique(w.rows, e);
    forall k | 0 <= k < |v.rows|
      ensures RowTrue(v, v.rows[k])
    {
      if k < |w.rows| {
        assert RowTrue(w, w.rows[k]);
      }
    }
    StreamHeardGrows(w, v);
  }

  lemma AdmittedRow(rows: seq<Row>, e: Envelope)
    requires AfterAdmit(rows, e).1.Ok?
    ensures HasRow(AfterAdmit(rows, e).0, e, AfterAdmit(rows, e).1.value.status)
  {
    var found := Lookup(rows, KEY, e.tenant, e.key);
    HasRowAt(AfterAdmit(rows, e).0, if found.Some? then found.value else |rows|, AfterAdmit(rows, e).1.value.status);
  }

  lemma AdmitRows(w: World, i: nat, e: Envelope, clock: int)
    requires Inv(w) && i in w.clients && w.clients[i].request == Submit(e) && w.clients[i].pc.Admitting?
    ensures GoodStep(w, StepAdmit(w, i, e, clock), i)
  {
    assert Facts(w, w.clients[i]);
    AdmitTables(w, StepAdmit(w, i, e, clock), e);
    if AfterAdmit(w.rows, e).1.Ok? {
      AdmittedRow(w.rows, e);
    }
  }

  /** A status update finds the row of the envelope, and moves nothing else. */
  lemma MarkRow(rows: seq<Row>, e: Envelope, from: set<RowStatus>, to: RowStatus)
    requires Unique(rows) && HasRow(rows, e, PENDING_WORKFLOW)
    requires forall s | s in from :: Rank(s) <= Rank(to)
    ensures var (next, done) := AfterMark(rows, e.tenant, e.action, from, to);
      && RowsGrow(rows, next) && Unique(next) && |next| == |rows|
      && (done ==> HasRow(next, e, to))
      && (forall k | 0 <= k < |rows| :: next[k] == rows[k] || next[k] == Row(e, to))
  {
    var i :| 0 <= i < |rows| && rows[i].envelope == e;
    LookupIsOnly(rows, ACTION, i);
    var (next, done) := AfterMark(rows, e.tenant, e.action, from, to);
    if done {
      HasRowAt(next, i, to);
    }
    forall j, k | 0 <= j < k < |next|
      ensures Apart(next[j].envelope, next[k].envelope)
    {
      assert Apart(rows[j].envelope, rows[k].envelope);
    }
  }

  lemma MarkTables(w: World, v: World, e: Envelope, to: RowStatus)
    requires TablesOk(w) && RowTrue(w, Row(e, to))
    requires v.stream == w.stream && v.workflows == w.workflows && v.misled == w.misled
    requires RowsGrow(w.rows, v.rows) && Unique(v.rows) && |v.rows| == |w.rows|
    requires forall k | 0 <= k < |v.rows| :: v.rows[k] == w.rows[k] || v.rows[k] == Row(e, to)
    ensures Grows(w, v) && TablesOk(v)
  {
    forall k | 0 <= k < |v.rows|
      ensures RowTrue(v, v.rows[k])
    {
      assert RowTrue(w, v.rows[k]);
    }
    StreamHeardGrows(w, v);
  }

  lemma MarkStep(w: World, i: nat, e: Envelope, c: TaskCommand, started: bool)
    requires Inv(w) && i in w.clients && w.clients[i] == Client(Submit(e), Marking(c, started))
    ensures GoodStep(w, StepMark(w, i, e, c, started), i)
  {
    assert Facts(w, w.clients[i]);
    var v := StepMark(w, i, e, c, started);
    MarkRow(w.rows, e, MAY_START, CREATED);
    assert RowTrue(w, Row(e, CREATED));
    MarkTables(w, v, e, CREATED);
    if started {
      HeardByGrows(w.workflows, v.workflows, c);
    }
  }

  lemma RequestStep(w: World, i: nat, e: Envelope, c: TaskCommand)
    requires Inv(w) && i in w.clients && w.clients[i] == Client(Submit(e), Requesting(c))
    ensures GoodStep(w, StepRequest(w, i, e, c), i)
  {
    assert Facts(w, w.clients[i]);
    RequestTables(w, StepRequest(w, i, e, c), e);
  }

  lemma RequestTables(w: World, v: World, e: Envelope)
    requires TablesOk(w) && HasRow(w.rows, e, CREATED) && StartStored(w.stream, e)
    requires v.rows == AfterMark(w.rows, e.tenant, e.action, MAY_REQUEST, START_REQUESTED).0
    requires v.stream == w.stream && v.workflows == w.workflows && v.misled == w.misled
    ensures Grows(w, v) && TablesOk(v)
    ensures AfterMark(w.rows, e.tenant, e.action, MAY_REQUEST, START_REQUESTED).1 ==> HasRow(v.rows, e, START_REQUESTED)
  {
    var k :| 0 <= k < |w.rows| && w.rows[k].envelope == e && Rank(CREATED) <= Rank(w.rows[k].status);
    assert RowTrue(w, w.rows[k]);
    HasRowAt(w.rows, k, PENDING_WORKFLOW);
    MarkRow(w.rows, e, MAY_REQUEST, START_REQUESTED);
    MarkTables(w, v, e, START_REQUESTED);
  }

  // ---------- the workflows ----------

  lemma RunExtends(wf: Instance, x: Laws.Event)
    ensures var f := FlowOf(wf); var g := FlowOf(wf.(log := wf.log + [x]));
      g == if Laws.Enabled(f, x) then Laws.Next(f, x) else f
  {
    assert (wf.log + [x])[..|wf.log|] == wf.log;
  }

  /** An open workflow that raises nothing has admitted the command. */
  lemma UpdateHeard(wf: Instance, c: TaskCommand, now: int)
    requires Fresh(wf.initial) && Open(FlowOf(wf)) && AfterCommand(FlowOf(wf).core, c, now).raised.None?
    ensures Admits(FlowOf(Delivered(wf, c, now)), FingerprintOf(c))
  {
    EveryRunTraced(wf.initial, wf.log);
    DeliverTraced(FlowOf(wf), c, now);
    RunExtends(wf, Laws.Delivery(c, now));
  }

  /** An open workflow has heard of a START that it is signalled, if only to refuse it. */
  lemma SignalHeard(wf: Instance, c: TaskCommand, now: int)
    requires Fresh(wf.initial) && Open(FlowOf(wf)) && c.commandType == START
    ensures Heard(Delivered(wf, c, now), FingerprintOf(c))
  {
    if AfterCommand(FlowOf(wf).core, c, now).raised.None? {
      UpdateHeard(wf, c, now);
    } else {
      assert Delivered(wf, c, now).log[..|wf.log|] == wf.log;
      assert RefusedAt(Delivered(wf, c, now), FingerprintOf(c), |wf.log|);
    }
  }

  lemma StartIsValid(e: Envelope, c: TaskCommand, now: int)
    requires ValidEnvelope(e) && IsStart(e, c)
    ensures ValidCommand(c, now) <==> c.requestedAt <= now + 5 * MINUTE
  {
    var id := StartId(e);
    assert forall k | 0 <= k < |id| :: TokenChar(id[k]) by {
      forall k | 0 <= k < |id|
        ensures TokenChar(id[k])
      {
        if k >= 6 {
          assert id[k] == e.action[k - 6];
        }
      }
    }
  }

  /** A fresh workflow admits its START exactly when the ingress clock is not five minutes ahead. */
  lemma StartHeard(e: Envelope, c: TaskCommand, now: int)
    requires ValidEnvelope(e) && IsStart(e, c)
    ensures var wf := Delivered(Instance(BindingOf(e), InitialState(e), []), c, now);
      && (Admits(FlowOf(wf), FingerprintOf(c)) <==> c.requestedAt <= now + 5 * MINUTE)
      && Heard(wf, FingerprintOf(c))
  {
    var empty := Instance(BindingOf(e), InitialState(e), []);
    var wf := Delivered(empty, c, now);
    StartIsValid(e, c, now);
    RunExtends(empty, Laws.Delivery(c, now));
    assert wf.log == [Laws.Delivery(c, now)];
    SignalHeard(empty, c, now);
    if c.requestedAt <= now + 5 * MINUTE {
      UpdateHeard(empty, c, now);
    } else {
      assert FlowOf(wf).history.admitted == [];
    }
  }

  /** A new workflow, started with this command. */
  lemma StartedFacts(w: World, v: World, e: Envelope, c: TaskCommand, now: int)
    requires ValidEnvelope(e) && IsStart(e, c) && Wid(e) !in w.workflows
    requires v.workflows == w.workflows[Wid(e) := Delivered(Instance(BindingOf(e), InitialState(e), []), c, now)]
    ensures Bound(v, e) && HeardBy(v.workflows, c)
  {
    StartHeard(e, c, now);
  }

  lemma StartTables(w: World, v: World, e: Envelope, c: TaskCommand, now: int)
    requires TablesOk(w) && v.rows == w.rows && v.stream == w.stream && v.misled == w.misled
    requires v.workflows == w.workflows
      || (Wid(e) !in w.workflows
          && v.workflows == w.workflows[Wid(e) := Delivered(Instance(BindingOf(e), InitialState(e), []), c, now)])
    ensures Grows(w, v) && TablesOk(v)
  {
    assert AllFresh(v.workflows);
    WorkflowsOnly(w, v);
  }

  lemma StartStep(w: World, i: nat, e: Envelope, c: TaskCommand, now: int)
    requires Inv(w) && i in w.clients && w.clients[i] == Client(Submit(e), Starting(c))
    ensures GoodStep(w, StepStart(w, i, e, c, now), i)
  {
    assert Facts(w, w.clients[i]);
    var v := StepStart(w, i, e, c, now);
    StartTables(w, v, e, c, now);
    if Wid(e) !in w.workflows {
      StartedFacts(w, v, e, c, now);
    }
  }

  predicate Reachable(w: World, c: TaskCommand) {
    TargetOf(c) in w.workflows && Open(FlowOf(w.workflows[TargetOf(c)]))
  }

  lemma DeliveryTables(w: World, v: World, c: TaskCommand, now: int)
    requires TablesOk(w) && v.rows == w.rows && v.stream == w.stream && TargetOf(c) in w.workflows && v.misled == w.misled
    requires v.workflows == w.workflows[TargetOf(c) := Delivered(w.workflows[TargetOf(c)], c, now)]
    ensures Grows(w, v) && TablesOk(v)
  {
    assert AllFresh(v.workflows);
    WorkflowsOnly(w, v);
  }

  lemma DeliveryHeard(w: World, v: World, c: TaskCommand, now: int)
    requires TablesOk(w) && Reachable(w, c) && AfterCommand(FlowOf(w.workflows[TargetOf(c)]).core, c, now).raised.None?
    requires v.workflows == w.workflows[TargetOf(c) := Delivered(w.workflows[TargetOf(c)], c, now)]
    ensures HeardBy(v.workflows, c)
  {
    UpdateHeard(w.workflows[TargetOf(c)], c, now);
  }

  lemma UpdateFacts(w: World, v: World, r: Request, c: TaskCommand, goal: Goal, now: int)
    requires TablesOk(w) && Facts(w, Client(r, Updating(c, goal))) && Reachable(w, c) && Grows(w, v)
    requires v.workflows == w.workflows[TargetOf(c) := Delivered(w.workflows[TargetOf(c)], c, now)]
    requires AfterCommand(FlowOf(w.workflows[TargetOf(c)]).core, c, now).raised.None?
    ensures Facts(v, Client(r, Appending(c, goal)))
  {
    GoalFactsGrow(w, v, r, c, goal);
    DeliveryHeard(w, v, c, now);
  }

  lemma UpdateStep(w: World, i: nat, r: Request, c: TaskCommand, goal: Goal, now: int)
    requires Inv(w) && i in w.clients && w.clients[i] == Client(r, Updating(c, goal)) && Reachable(w, c)
    ensures GoodStep(w, StepUpdate(w, i, c, goal, now), i)
  {
    assert Facts(w, w.clients[i]);
    var v := StepUpdate(w, i, c, goal, now);
    DeliveryTables(w, v, c, now);
    if AfterCommand(FlowOf(w.workflows[TargetOf(c)]).core, c, now).raised.None? {
      UpdateFacts(w, v, r, c, goal, now);
    }
  }

  // ---------- the event table ----------

  lemma LockStep(w: World, i: nat, r: Request, c: TaskCommand, goal: Goal)
    requires Inv(w) && i in w.clients && w.clients[i] == Client(r, Appending(c, goal)) && Token(c.commandId)
    ensures GoodStep(w, StepLock(w, i, c, goal), i)
  {
    assert Facts(w, w.clients[i]);
    var v := StepLock(w, i, c, goal);
    WorkflowsOnly(w, v);
    GoalFactsGrow(w, v, r, c, goal);
  }

  /** What is inserted at the end was not there, so the table still holds every event once. */
  lemma InsertTables(w: World, v: World, c: TaskCommand)
    requires TablesOk(w) && HeardBy(w.workflows, c) && v.misled == w.misled
    requires v.rows == w.rows && v.workflows == w.workflows && v.stream == w.stream + [c]
    requires Find(w.stream, c.tenantId, c.taskId, c.commandId).None?
    ensures Grows(w, v) && TablesOk(v)
  {
    RowsTrueGrow(w, v);
    forall k | 0 <= k < |v.stream|
      ensures HeardBy(v.workflows, v.stream[k])
      ensures forall j | 0 <= j < k :: !SameSlot(v.stream[j], v.stream[k])
    {
      if k < |w.stream| {
        assert HeardBy(w.workflows, w.stream[k]);
      } else {
        forall j | 0 <= j < k
          ensures !SameSlot(v.stream[j], v.stream[k])
        {
          assert !IsEvent(w.stream[j], c.tenantId, c.taskId, c.commandId);
        }
      }
    }
  }

  lemma InsertedTables(w: World, v: World, c: TaskCommand)
    requires TablesOk(w) && HeardBy(w.workflows, c) && v.rows == w.rows && v.workflows == w.workflows && v.misled == w.misled
    requires v.stream == AfterInsert(w.stream, c, Find(w.stream, c.tenantId, c.taskId, c.commandId)).0
    ensures Grows(w, v) && TablesOk(v)
  {
    if Find(w.stream, c.tenantId, c.taskId, c.commandId).None? {
      InsertTables(w, v, c);
    } else {
      WorkflowsOnly(w, v);
    }
  }

  lemma InsertFacts(v: World, r: Request, c: TaskCommand, k: nat, goal: Goal)
    requires GoalFacts(v, r, c, goal) && (r.Submit? ==> ValidEnvelope(r.envelope))
    requires k < |v.stream| && FingerprintOf(v.stream[k]) == FingerprintOf(c)
    ensures Facts(v, Client(r, if goal == RequestStart then Requesting(c) else Returned(Evidence(k, v.stream[k]))))
  {
    if goal == RequestStart {
      assert StartStored(v.stream, r.envelope) by {
        assert FingerprintOf(v.stream[k]) == FingerprintOf(StartCommand(r.envelope, 0));
      }
    }
  }

  lemma InsertedFacts(v: World, stream: seq<TaskCommand>, r: Request, c: TaskCommand, goal: Goal)
    requires GoalFacts(v, r, c, goal) && (r.Submit? ==> ValidEnvelope(r.envelope))
    requires v.stream == AfterInsert(stream, c, Find(stream, c.tenantId, c.taskId, c.commandId)).0
    ensures var answer := AfterInsert(stream, c, Find(stream, c.tenantId, c.taskId, c.commandId)).1;
      Facts(v, Client(r, match answer
                         case Err(code) => Raised(Stored(code))
                         case Ok(evidence) => if goal == RequestStart then Requesting(c) else Returned(evidence)))
  {
    var answer := AfterInsert(stream, c, Find(stream, c.tenantId, c.taskId, c.commandId)).1;
    if answer.Ok? {
      InsertFacts(v, r, c, answer.value.sequence, goal);
    }
  }

  lemma InsertStep(w: World, i: nat, r: Request, c: TaskCommand, existing: Option<nat>, goal: Goal)
    requires Inv(w) && i in w.clients && w.clients[i] == Client(r, Inserting(c, existing, goal))
    ensures existing == Find(w.stream, c.tenantId, c.taskId, c.commandId)
    ensures GoodStep(w, StepInsert(w, i, c, existing, goal), i)
  {
    assert Facts(w, w.clients[i]);
    assert LockHeld(w, i);
    var v := StepInsert(w, i, c, existing, goal);
    InsertedTables(w, v, c);
    GoalFactsGrow(w, v, r, c, goal);
    InsertedFacts(v, w.stream, r, c, goal);
  }

  // ---------- locks ----------

  lemma LocksUntouched(w: World, v: World, i: nat)
    requires v.locks == w.locks && v.stream == w.stream
    ensures LocksKept(w, v, i)
  {
  }

  lemma LockTaken(w: World, i: nat, c: TaskCommand, goal: Goal)
    requires Inv(w) && i in w.clients && w.clients[i].pc == Appending(c, goal) && c.commandId !in w.locks
    ensures LocksKept(w, StepLock(w, i, c, goal), i) && LockHeld(StepLock(w, i, c, goal), i)
  {
    assert Facts(w, w.clients[i]);
  }

  /** Nobody else waits with what he found for the id whose lock is released. */
  lemma LockReleased(w: World, v: World, i: nat, c: TaskCommand)
    requires Inv(w) && i in w.clients && w.clients[i].pc.Inserting? && w.clients[i].pc.command == c
    requires v.locks == w.locks - {c.commandId}
    requires v.stream == w.stream || v.stream == w.stream + [c]
    ensures LocksKept(w, v, i)
  {
    assert LockHeld(w, i);
    forall j | j in w.clients && j != i && j in v.clients && v.clients[j] == w.clients[j]
      ensures LockHeld(v, j)
    {
      assert LockHeld(w, j);
      var pc := w.clients[j].pc;
      if pc.Inserting? && v.stream != w.stream {
        FindGrows(w.stream, c, pc.command.tenantId, pc.command.taskId, pc.command.commandId);
      }
    }
  }

  // ---------- the decisions of control and bff_command ----------

  lemma HealHeard(w: World, e: Envelope, c: TaskCommand, key: string, m: map<string, Fingerprint>)
    requires Wid(e) in w.workflows && MapHeard(w.workflows[Wid(e)], m)
    requires key in m && m[key] == FingerprintOf(c) && TargetOf(c) == Wid(e)
    ensures HeardBy(w.workflows, c)
  {
  }

  lemma LookFacts(w: World, i: nat, r: Request, e: Envelope, view: View, clock: int)
    requires Inv(w) && i in w.clients && w.clients[i] == Client(r, Looking(e, view)) && !r.Submit?
    ensures Facts(w, Client(r, if r.Control? then ControlDecision(w, e, r, view, clock) else BffDecision(e, r, view, clock)))
  {
    assert Facts(w, w.clients[i]);
    if r.Control? {
      ControlFacts(w, r, e, view, clock);
    } else {
      BffFacts(w, r, e, view, clock);
    }
  }

  lemma IsAimed(w: World, r: Request, e: Envelope, c: TaskCommand)
    requires RowFor(w.rows, r, e) && Scoped(w.workflows, e) && TargetOf(c) == Wid(e)
    ensures Aimed(w, r, c) && HasOwnRow(w.rows, r)
  {
    var i :| 0 <= i < |w.rows| && w.rows[i].envelope == e && Rank(PENDING_WORKFLOW) <= Rank(w.rows[i].status);
    assert RowFor(w.rows, r, w.rows[i].envelope) && Scoped(w.workflows, w.rows[i].envelope);
  }

  lemma ControlFacts(w: World, r: Request, e: Envelope, view: View, clock: int)
    requires TablesOk(w) && r.Control? && RowFor(w.rows, r, e) && Scoped(w.workflows, e) && ViewHeard(w.workflows, e, view)
    ensures Facts(w, Client(r, ControlDecision(w, e, r, view, clock)))
  {
    var pc := ControlDecision(w, e, r, view, clock);
    RowIsOwn(w.rows, r, e);
    if pc.Appending? {
      ControlAppends(w, r, e, view, clock);
    } else if pc.Updating? {
      IsAimed(w, r, e, pc.command);
    }
  }

  lemma ControlAppends(w: World, r: Request, e: Envelope, view: View, clock: int)
    requires TablesOk(w) && r.Control? && RowFor(w.rows, r, e) && Scoped(w.workflows, e) && ViewHeard(w.workflows, e, view)
    requires ControlDecision(w, e, r, view, clock).Appending?
    ensures Facts(w, Client(r, ControlDecision(w, e, r, view, clock)))
  {
    var pc := ControlDecision(w, e, r, view, clock);
    RowIsOwn(w.rows, r, e);
    IsAimed(w, r, e, pc.command);
    if Find(w.stream, e.tenant, e.task, ResolvedId(r)).None? {
      HealHeard(w, e, pc.command, ResolvedId(r), view.current.processed);
    }
  }

  lemma BffFacts(w: World, r: Request, e: Envelope, view: View, clock: int)
    requires TablesOk(w) && r.Bff? && RowFor(w.rows, r, e) && Scoped(w.workflows, e) && ViewHeard(w.workflows, e, view)
    ensures Facts(w, Client(r, BffDecision(e, r, view, clock)))
  {
    var pc := BffDecision(e, r, view, clock);
    RowIsOwn(w.rows, r, e);
    if pc.Appending? || pc.Updating? {
      IsAimed(w, r, e, pc.command);
    }
    if pc.Appending? {
      if r.id in view.current.processed {
        HealHeard(w, e, pc.command, r.id, view.current.processed);
      } else {
        HealHeard(w, e, pc.command, r.key, view.current.processedKeys);
      }
    }
  }

  lemma ViewFacts(w: World, i: nat, e: Envelope)
    requires Inv(w) && i in w.clients && w.clients[i].pc == Viewing(e) && Wid(e) in w.workflows
    ensures ViewHeard(w.workflows, e, ViewOf(w.workflows[Wid(e)]))
  {
    assert Facts(w, w.clients[i]);
    var wf := w.workflows[Wid(e)];
    EveryRunTraced(wf.initial, wf.log);
  }

  lemma GetFacts(w: World, r: Request)
    requires !r.Submit?
    ensures Facts(w, Client(r, GetDecision(w, r)))
  {
    var found := Lookup(w.rows, if r.Control? then ACTION else TASK, r.tenant, if r.Control? then r.action else r.task);
    if found.Some? && w.rows[found.value].envelope.owner == r.owner {
      HasRowAt(w.rows, found.value, PENDING_WORKFLOW);
      RowIsOwn(w.rows, r, w.rows[found.value].envelope);
    }
  }

  lemma ReadFacts(w: World, e: Envelope, c: TaskCommand)
    requires TablesOk(w) && Facts(w, Client(Submit(e), Reading(c)))
    ensures Facts(w, Client(Submit(e), ReadDecision(w, c)))
  {
    var found := Find(w.stream, c.tenantId, c.taskId, c.commandId);
    if found.Some? {
      assert HeardBy(w.workflows, w.stream[found.value]);
    }
  }

  // ---------- every step, every run ----------

  /** A step that leaves locks and event table alone. */
  lemma Settled(w: World, v: World, i: nat)
    requires Inv(w) && GoodStep(w, v, i) && v.locks == w.locks && v.stream == w.stream
    requires !v.clients[i].pc.Inserting?
    ensures Inv(v) && Grows(w, v)
  {
    LocksUntouched(w, v, i);
    Assemble(w, v, i);
  }

  lemma AdmittingKeepsInv(w: World, i: nat, e: Envelope, clock: int)
    requires Inv(w) && i in w.clients && w.clients[i] == Client(Submit(e), Admitting)
    ensures var v := StepAdmit(w, i, e, clock); Inv(v) && Grows(w, v)
  {
    AdmitRows(w, i, e, clock);
    Settled(w, StepAdmit(w, i, e, clock), i);
  }

  lemma StartingKeepsInv(w: World, i: nat, e: Envelope, c: TaskCommand, now: int)
    requires Inv(w) && i in w.clients && w.clients[i] == Client(Submit(e), Starting(c))
    ensures var v := StepStart(w, i, e, c, now); Inv(v) && Grows(w, v)
  {
    StartStep(w, i, e, c, now);
    Settled(w, StepStart(w, i, e, c, now), i);
  }

  lemma MarkingKeepsInv(w: World, i: nat, e: Envelope, c: TaskCommand, started: bool)
    requires Inv(w) && i in w.clients && w.clients[i] == Client(Submit(e), Marking(c, started))
    ensures var v := StepMark(w, i, e, c, started); Inv(v) && Grows(w, v)
  {
    MarkStep(w, i, e, c, started);
    Settled(w, StepMark(w, i, e, c, started), i);
  }

  lemma RequestingKeepsInv(w: World, i: nat, e: Envelope, c: TaskCommand)
    requires Inv(w) && i in w.clients && w.clients[i] == Client(Submit(e), Requesting(c))
    ensures var v := StepRequest(w, i, e, c); Inv(v) && Grows(w, v)
  {
    RequestStep(w, i, e, c);
    Settled(w, StepRequest(w, i, e, c), i);
  }

  lemma UpdateKeepsInv(w: World, i: nat, r: Request, c: TaskCommand, goal: Goal, now: int)
    requires Inv(w) && i in w.clients && w.clients[i] == Client(r, Updating(c, goal))
    ensures var v := StepUpdate(w, i, c, goal, now); Inv(v) && Grows(w, v)
  {
    if Reachable(w, c) {
      UpdateStep(w, i, r, c, goal, now);
      Settled(w, StepUpdate(w, i, c, goal, now), i);
    } else {
      assert Facts(w, w.clients[i]);
      Moved(w, i, Raised(Unavailable));
    }
  }

  lemma LockKeepsInv(w: World, i: nat, r: Request, c: TaskCommand, goal: Goal)
    requires Inv(w) && i in w.clients && w.clients[i] == Client(r, Appending(c, goal)) && !Waits(w, w.clients[i].pc)
    ensures var v := StepLock(w, i, c, goal); Inv(v) && Grows(w, v)
  {
    if Token(c.commandId) {
      LockStep(w, i, r, c, goal);
      LockTaken(w, i, c, goal);
      Assemble(w, StepLock(w, i, c, goal), i);
    } else {
      assert Facts(w, w.clients[i]);
      Moved(w, i, Raised(Stored(EventInvalid)));
    }
  }

  lemma SharedStepKeepsInv(w: World, i: nat, r: Request, now: int)
    requires Inv(w) && i in w.clients && w.clients[i].request == r && !Waits(w, w.clients[i].pc)
    ensures var pc := w.clients[i].pc;
      && (pc.Updating? ==> var v := StepUpdate(w, i, pc.command, pc.goal, now); Inv(v) && Grows(w, v))
      && (pc.Appending? ==> var v := StepLock(w, i, pc.command, pc.goal); Inv(v) && Grows(w, v))
  {
    var pc := w.clients[i].pc;
    if pc.Updating? {
      UpdateKeepsInv(w, i, r, pc.command, pc.goal, now);
    } else if pc.Appending? {
      LockKeepsInv(w, i, r, pc.command, pc.goal);
    }
  }

  lemma InsertKeepsInv(w: World, i: nat, r: Request, c: TaskCommand, existing: Option<nat>, goal: Goal)
    requires Inv(w) && i in w.clients && w.clients[i] == Client(r, Inserting(c, existing, goal))
    ensures existing == Find(w.stream, c.tenantId, c.taskId, c.commandId)
    ensures var v := StepInsert(w, i, c, existing, goal); Inv(v) && Grows(w, v)
  {
    assert Facts(w, w.clients[i]);
    InsertStep(w, i, r, c, existing, goal);
    LockReleased(w, StepInsert(w, i, c, existing, goal), i, c);
    Assemble(w, StepInsert(w, i, c, existing, goal), i);
  }

  /** The steps of submit that only read. */
  lemma ReadingKeepsInv(w: World, i: nat, e: Envelope, c: TaskCommand)
    requires Inv(w) && i in w.clients
    requires w.clients[i] == Client(Submit(e), Comparing(c)) || w.clients[i] == Client(Submit(e), Reading(c))
    ensures w.clients[i].pc.Comparing? ==> Inv(StepCompare(w, i, e, c)) && Grows(w, StepCompare(w, i, e, c))
    ensures w.clients[i].pc.Reading? ==> Inv(StepRead(w, i, c)) && Grows(w, StepRead(w, i, c))
  {
    assert Facts(w, w.clients[i]);
    if w.clients[i].pc.Comparing? {
      Moved(w, i, CompareDecision(w, e, c));
    } else {
      ReadFacts(w, e, c);
      Moved(w, i, ReadDecision(w, c));
    }
  }

  /** The steps of control and bff_command up to their decision only read. */
  lemma GettingKeepsInv(w: World, i: nat, r: Request)
    requires Inv(w) && i in w.clients && w.clients[i] == Client(r, Getting) && !r.Submit?
    ensures Inv(StepGet(w, i, r)) && Grows(w, StepGet(w, i, r))
  {
    GetFacts(w, r);
    Moved(w, i, GetDecision(w, r));
  }

  lemma ViewingKeepsInv(w: World, i: nat, r: Request, e: Envelope)
    requires Inv(w) && i in w.clients && w.clients[i] == Client(r, Viewing(e)) && !r.Submit?
    ensures Inv(StepView(w, i, e)) && Grows(w, StepView(w, i, e))
  {
    assert Facts(w, w.clients[i]);
    if Wid(e) in w.workflows {
      ViewFacts(w, i, e);
    }
    Moved(w, i, ViewDecision(w, e));
  }

  lemma DecidingKeepsInv(w: World, i: nat, r: Request, e: Envelope, view: View, clock: int)
    requires Inv(w) && i in w.clients && w.clients[i] == Client(r, Looking(e, view)) && !r.Submit?
    ensures Inv(StepLook(w, i, e, r, view, clock)) && Grows(w, StepLook(w, i, e, r, view, clock))
  {
    assert Facts(w, w.clients[i]);
    LookFacts(w, i, r, e, view, clock);
    Moved(w, i, if r.Control? then ControlDecision(w, e, r, view, clock) else BffDecision(e, r, view, clock));
  }

  lemma StepKeepsInv(w: World, i: nat, clock: int, now: int)
    requires Inv(w) && i in w.clients && !Halted(w.clients[i].pc) && !Waits(w, w.clients[i].pc) && Proper(w, w.clients[i])
    ensures Inv(AfterStep(w, i, clock, now)) && Grows(w, AfterStep(w, i, clock, now))
  {
    assert Facts(w, w.clients[i]);
    var r := w.clients[i].request;
    match w.clients[i].pc
    case Admitting => AdmittingKeepsInv(w, i, r.envelope, clock);
    case Starting(c) => StartingKeepsInv(w, i, r.envelope, c, now);
    case Marking(c, started) => MarkingKeepsInv(w, i, r.envelope, c, started);
    case Requesting(c) => RequestingKeepsInv(w, i, r.envelope, c);
    case Updating(_, _) => SharedStepKeepsInv(w, i, r, now);
    case Appending(_, _) => SharedStepKeepsInv(w, i, r, now);
    case Inserting(c, existing, goal) => InsertKeepsInv(w, i, r, c, existing, goal);
    case Comparing(c) => ReadingKeepsInv(w, i, r.envelope, c);
    case Reading(c) => ReadingKeepsInv(w, i, r.envelope, c);
    case Getting => GettingKeepsInv(w, i, r);
    case Viewing(e) => ViewingKeepsInv(w, i, r, e);
    case Looking(e, view) => DecidingKeepsInv(w, i, r, e, view, clock);
  }

  lemma CrashKeepsInv(w: World, i: nat)
    requires Inv(w) && i in w.clients
    ensures Inv(AfterCrash(w, i)) && Grows(w, AfterCrash(w, i))
  {
    assert Facts(w, w.clients[i]);
    var v := AfterCrash(w, i);
    WorkflowsOnly(w, v);
    if w.clients[i].pc.Inserting? {
      LockReleased(w, v, i, w.clients[i].pc.command);
    } else {
      LocksUntouched(w, v, i);
    }
    Assemble(w, v, i);
  }

  /** What happens to the workflows alone. */
  lemma WorkflowStepKeepsInv(w: World, v: World)
    requires Inv(w) && v == w.(workflows := v.workflows)
    requires WorkflowsGrow(w.workflows, v.workflows) && AllFresh(v.workflows)
    ensures Inv(v) && Grows(w, v)
  {
    WorkflowsOnly(w, v);
    forall j | j in v.clients
      ensures Facts(v, v.clients[j]) && LockHeld(v, j)
    {
      FactsGrow(w, v, w.clients[j]);
      assert LockHeld(w, j);
    }
  }

  lemma JoinTables(w: World, v: World, e: Envelope, c: TaskCommand, now: int)
    requires TablesOk(w) && IsStart(e, c) && Wid(e) in w.workflows && Open(FlowOf(w.workflows[Wid(e)]))
    requires v.rows == w.rows && v.stream == w.stream
    requires v.workflows == w.workflows[Wid(e) := Delivered(w.workflows[Wid(e)], c, now)]
    requires v.misled == if w.workflows[Wid(e)].binding == BindingOf(e) then w.misled else w.misled + {e}
    ensures Grows(w, v) && TablesOk(v)
    ensures Bound(v, e) && HeardBy(v.workflows, c)
  {
    SignalHeard(w.workflows[Wid(e)], c, now);
    assert AllFresh(v.workflows);
    WorkflowsOnly(w, v);
  }

  /** A start that joins a running workflow. */
  lemma JoinKeepsInv(w: World, i: nat, now: int)
    requires Inv(w) && i in w.clients && CanJoin(w, w.clients[i])
    ensures Inv(AfterJoin(w, i, now)) && Grows(w, AfterJoin(w, i, now))
  {
    assert Facts(w, w.clients[i]);
    var v := AfterJoin(w, i, now);
    JoinTables(w, v, w.clients[i].request.envelope, w.clients[i].pc.command, now);
    Settled(w, v, i);
  }

  lemma NextKeepsInv(w: World, e: Event)
    requires Inv(w) && Happens(w, e)
    ensures Inv(Next(w, e)) && Grows(w, Next(w, e))
  {
    match e
    case Arrive(i, r) =>
      var v := Next(w, e);
      WorkflowsOnly(w, v);
      LocksUntouched(w, v, i);
      Assemble(w, v, i);
    case Step(i, clock, now) => StepKeepsInv(w, i, clock, now);
    case Join(i, now) => JoinKeepsInv(w, i, now);
    case Crash(i) => CrashKeepsInv(w, i);
    case Foreign(_, _, _) => WorkflowStepKeepsInv(w, Next(w, e));
    case Work(_, _) => WorkflowStepKeepsInv(w, Next(w, e));
  }

  lemma {:induction false} EveryWorld(events: seq<Event>)
    ensures Inv(RunWorld(events))
  {
    if events != [] {
      var w := RunWorld(events[..|events| - 1]);
      EveryWorld(events[..|events| - 1]);
      if Happens(w, events[|events| - 1]) {
        NextKeepsInv(w, events[|events| - 1]);
      }
    }
  }

  /** A client of a reachable world is always at a call that its request makes. */
  lemma {:induction false} AlwaysProper(events: seq<Event>, i: nat)
    requires i in RunWorld(events).clients
    ensures Proper(RunWorld(events), RunWorld(events).clients[i])
  {
    var w := RunWorld(events);
    EveryWorld(events);
    assert Facts(w, w.clients[i]) && LockHeld(w, i);
  }
}
