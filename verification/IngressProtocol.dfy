/**
 The ingress as a transition system: any number of clients run `submit`, `control` and
 `bff_command`, one call on PostgreSQL or Temporal at a time, against shared tables and workflows.
 A client may crash before any of its steps; a retry is another client with the same request.
 */
module IngressProtocol {
  import opened Common
  import opened CommandQueue
  import Engine = TransitionEngine
  import opened TaskWorkflow
  import Laws = TaskWorkflowLaws
  import opened WorkflowAdmission
  import opened ActionStore

  // ---------- workflows ----------

  datatype WorkflowId = WorkflowId(tenant: string, task: string)

  /** The fields of a workflow's state that never change. */
  datatype Binding = Binding(
    tenant: string,
    task: string,
    action: string,
    ingress: Envelope,
    payload: string,
    sideEffects: bool)

  /** A workflow, with everything that has happened to it since it was started. */
  datatype Instance = Instance(binding: Binding, initial: Engine.Authority, log: seq<Laws.Event>)

  function FlowOf(wf: Instance): Flow {
    Laws.RunFlow(wf.initial, wf.log)
  }

  function Delivered(wf: Instance, c: TaskCommand, now: int): Instance {
    wf.(log := wf.log + [Laws.Delivery(c, now)])
  }

  function Wid(e: Envelope): WorkflowId {
    WorkflowId(e.tenant, e.task)
  }

  function TargetOf(c: TaskCommand): WorkflowId {
    WorkflowId(c.tenantId, c.taskId)
  }

  function BindingOf(e: Envelope): Binding {
    Binding(e.tenant, e.task, e.action, e, e.payload, e.sideEffects)
  }

  function InitialState(e: Envelope): Engine.Authority {
    Engine.Authority(e.tenant, e.task, e.action, Engine.CREATED, 0, false, map[], map[], [])
  }

  /** What the `state` query shows of a workflow. */
  datatype View = View(
    binding: Binding,
    current: Engine.Authority,
    rejected: map<string, Fingerprint>,
    rejectedKeys: map<string, Fingerprint>)

  function ViewOf(wf: Instance): View {
    var f := FlowOf(wf);
    View(wf.binding, f.current, f.core.rejected, f.core.rejectedKeys)
  }

  // ---------- clients ----------

  datatype Request =
    | Submit(envelope: Envelope)
    | Control(tenant: string, owner: string, action: string, commandType: CommandType, commandId: Option<string>)
    | Bff(tenant: string, owner: string, task: string, commandType: CommandType, id: string, key: string, version: int)

  datatype Goal = RequestStart | Answer

  datatype Fault =
    | Crashed
    | NotFound
    | Invalid
    | Unavailable
    | WorkflowConflict
    | ScopeMismatch
    | EventMissing
    | EvidenceMissing
    | IdConflict
    | Rejected
    | Concurrent
    | UpdateRefused(error: CommandQueue.Error)
    | Stored(code: StoreError)

  /** The call a client makes next. */
  datatype Pc =
    | Admitting
    | Starting(command: TaskCommand)
    | Comparing(command: TaskCommand)
    | Marking(command: TaskCommand, started: bool)
    | Updating(command: TaskCommand, goal: Goal)
    | Appending(command: TaskCommand, goal: Goal)
    | Inserting(command: TaskCommand, existing: Option<nat>, goal: Goal)
    | Requesting(command: TaskCommand)
    | Reading(command: TaskCommand)
    | Getting
    | Viewing(envelope: Envelope)
    | Looking(envelope: Envelope, view: View)
    | Returned(evidence: Evidence)
    | Raised(fault: Fault)

  datatype Client = Client(request: Request, pc: Pc)

  /** `misled`: the envelopes whose start has joined a running workflow bound to something else. */
  datatype World = World(
    rows: seq<Row>,
    stream: seq<TaskCommand>,
    locks: map<string, nat>,
    workflows: map<WorkflowId, Instance>,
    clients: map<nat, Client>,
    misled: set<Envelope>)

  const EmptyWorld := World([], [], map[], map[], map[], {})

  function At(w: World, i: nat, pc: Pc): World
    requires i in w.clients
  {
    w.(clients := w.clients[i := w.clients[i].(pc := pc)])
  }

  // ---------- commands ----------

  predicate Identifier(s: string) {
    |s| == 36 && Token(s)
  }

  predicate ValidEnvelope(e: Envelope) {
    Identifier(e.tenant) && Identifier(e.action) && Identifier(e.task)
    && Token(e.key) && |e.key| <= 128 && 0 < |e.owner| <= 256
  }

  function MakeCommand(e: Envelope, t: CommandType, owner: string, id: string, key: string, version: int, at: int): TaskCommand {
    TaskCommand("agenttrust.orchestrator-command.v1", id, key, e.tenant, e.task, t, version, PayloadOf(t), owner, at)
  }

  function StartId(e: Envelope): string {
    "start:" + e.action
  }

  function StartCommand(e: Envelope, at: int): TaskCommand {
    MakeCommand(e, START, e.owner, StartId(e), StartId(e), 0, at)
  }

  function ResolvedId(r: Request): string
    requires r.Control?
  {
    match r.commandId case Some(id) => id case None => LowerName(r.commandType) + ":" + r.action
  }

  // ---------- the steps of submit ----------

  function StepAdmit(w: World, i: nat, e: Envelope, clock: int): World
    requires i in w.clients
  {
    var (rows, answer) := AfterAdmit(w.rows, e);
    var command := StartCommand(e, clock);
    At(w.(rows := rows), i,
       match answer
       case Err(code) => Raised(Stored(code))
       case Ok(Admission(status, created)) =>
         if created || status == PENDING_WORKFLOW then Starting(command)
         else if status == CREATED then Updating(command, RequestStart)
         else Reading(command))
  }

  /** A workflow is started with its first signal; an id that is taken is reported, or joined (see `Join`). */
  function StepStart(w: World, i: nat, e: Envelope, c: TaskCommand, now: int): World
    requires i in w.clients
  {
    if Wid(e) in w.workflows then At(w, i, Comparing(c))
    else
      var instance := Instance(BindingOf(e), InitialState(e), []);
      At(w.(workflows := w.workflows[Wid(e) := Delivered(instance, c, now)]), i, Marking(c, true))
  }

  function CompareDecision(w: World, e: Envelope, c: TaskCommand): Pc {
    if Wid(e) !in w.workflows then Raised(Unavailable)
    else if w.workflows[Wid(e)].binding != BindingOf(e) then Raised(WorkflowConflict)
    else Marking(c, false)
  }

  function StepCompare(w: World, i: nat, e: Envelope, c: TaskCommand): World
    requires i in w.clients
  {
    At(w, i, CompareDecision(w, e, c))
  }

  function StepMark(w: World, i: nat, e: Envelope, c: TaskCommand, started: bool): World
    requires i in w.clients
  {
    var (rows, done) := AfterMark(w.rows, e.tenant, e.action, MAY_START, CREATED);
    At(w.(rows := rows), i,
       if !done then Raised(Stored(StartConflict))
       else if started then Appending(c, RequestStart)
       else Updating(c, RequestStart))
  }

  function StepRequest(w: World, i: nat, e: Envelope, c: TaskCommand): World
    requires i in w.clients
  {
    var (rows, done) := AfterMark(w.rows, e.tenant, e.action, MAY_REQUEST, START_REQUESTED);
    At(w.(rows := rows), i, if !done then Raised(Stored(StartConflict)) else Reading(c))
  }

  function ReadDecision(w: World, c: TaskCommand): Pc {
    match Find(w.stream, c.tenantId, c.taskId, c.commandId)
    case None => Raised(EventMissing)
    case Some(k) => Appending(w.stream[k], Answer)
  }

  function StepRead(w: World, i: nat, c: TaskCommand): World
    requires i in w.clients
  {
    At(w, i, ReadDecision(w, c))
  }

  // ---------- the steps they share ----------

  /** `update_exact`: the workflow admits the command, or says why not. */
  function StepUpdate(w: World, i: nat, c: TaskCommand, goal: Goal, now: int): World
    requires i in w.clients
  {
    if TargetOf(c) !in w.workflows || !Open(FlowOf(w.workflows[TargetOf(c)])) then At(w, i, Raised(Unavailable))
    else
      var wf := w.workflows[TargetOf(c)];
      var raised := AfterCommand(FlowOf(wf).core, c, now).raised;
      At(w.(workflows := w.workflows[TargetOf(c) := Delivered(wf, c, now)]), i,
         if raised.Some? then Raised(UpdateRefused(raised.value)) else Appending(c, goal))
  }

  /** The first half of `append_event`: take the advisory lock and look for the event. */
  function StepLock(w: World, i: nat, c: TaskCommand, goal: Goal): World
    requires i in w.clients
  {
    if !Token(c.commandId) then At(w, i, Raised(Stored(EventInvalid)))
    else At(w.(locks := w.locks[c.commandId := i]), i,
            Inserting(c, Find(w.stream, c.tenantId, c.taskId, c.commandId), goal))
  }

  /** The second half: insert unless found, compare, commit and release. */
  function StepInsert(w: World, i: nat, c: TaskCommand, existing: Option<nat>, goal: Goal): World
    requires i in w.clients
    requires existing.Some? ==> existing.value < |w.stream|
  {
    var (stream, answer) := AfterInsert(w.stream, c, existing);
    At(w.(stream := stream, locks := w.locks - {c.commandId}), i,
       match answer
       case Err(code) => Raised(Stored(code))
       case Ok(evidence) => if goal == RequestStart then Requesting(c) else Returned(evidence))
  }

  // ---------- the steps of control and bff_command ----------

  function GetDecision(w: World, r: Request): Pc
    requires !r.Submit?
  {
    match Lookup(w.rows, if r.Control? then ACTION else TASK, r.tenant, if r.Control? then r.action else r.task)
    case None => Raised(NotFound)
    case Some(k) =>
      if w.rows[k].envelope.owner != r.owner then Raised(NotFound)
      else if !ValidRequest(r) then Raised(Invalid)
      else Viewing(w.rows[k].envelope)
  }

  function StepGet(w: World, i: nat, r: Request): World
    requires i in w.clients && !r.Submit?
  {
    At(w, i, GetDecision(w, r))
  }

  predicate ValidRequest(r: Request) {
    match r
    case Submit(e) => ValidEnvelope(e)
    case Control(tenant, owner, action, t, id) => t != NEEDS_HUMAN && (id.Some? ==> Token(id.value))
    case Bff(tenant, owner, task, t, id, key, version) => Token(id) && Token(key) && t != NEEDS_HUMAN && version >= 0
  }

  /** `_bound_state` */
  function ViewDecision(w: World, e: Envelope): Pc {
    if Wid(e) !in w.workflows then Raised(Unavailable)
    else
      var b := w.workflows[Wid(e)].binding;
      if (b.tenant, b.task, b.action, b.payload) != (e.tenant, e.task, e.action, e.payload) then Raised(ScopeMismatch)
      else Looking(e, ViewOf(w.workflows[Wid(e)]))
  }

  function StepView(w: World, i: nat, e: Envelope): World
    requires i in w.clients
  {
    At(w, i, ViewDecision(w, e))
  }

  /** The events of the transition log under one command id. */
  function Candidates(events: seq<Engine.TransitionEvent>, id: string): (found: seq<nat>)
  {
    if events == [] then []
    else (if events[0].commandId == id then [events[0].cursor] else []) + Candidates(events[1..], id)
  }

  /** The command a lost acceptance event must have held, rebuilt from the transition log. */
  function Recovered(e: Envelope, r: Request, view: View, clock: int): Option<TaskCommand>
    requires r.Control?
  {
    var found := Candidates(view.current.events, ResolvedId(r));
    if |found| != 1 || found[0] < 1 then None
    else Some(MakeCommand(e, r.commandType, r.owner, ResolvedId(r), ResolvedId(r), found[0] - 1, clock))
  }

  /** What `control` does once it has seen the workflow's state: first the event table, then the maps. */
  function ControlDecision(w: World, e: Envelope, r: Request, view: View, clock: int): Pc
    requires r.Control?
  {
    var id := ResolvedId(r);
    match Find(w.stream, e.tenant, e.task, id)
    case Some(k) =>
      var c := w.stream[k];
      if c.schemaVersion != "agenttrust.orchestrator-command.v1" || c.requestKey != id
         || c.commandType != r.commandType || c.requestedBy != r.owner then Raised(IdConflict)
      else Appending(c, Answer)
    case None =>
      if id in view.rejected then Raised(Rejected)
      else if id in view.current.processed then
        match Recovered(e, r, view, clock)
        case None => Raised(EvidenceMissing)
        case Some(c) => if FingerprintOf(c) != view.current.processed[id] then Raised(IdConflict) else Appending(c, Answer)
      else Updating(MakeCommand(e, r.commandType, r.owner, id, id, view.current.cursor, clock), Answer)
  }

  predicate Differs(m: map<string, Fingerprint>, key: string, p: Fingerprint) {
    key in m && m[key] != p
  }

  function BffDecision(e: Envelope, r: Request, view: View, clock: int): Pc
    requires r.Bff?
  {
    var c := MakeCommand(e, r.commandType, r.owner, r.id, r.key, r.version, clock);
    var p := FingerprintOf(c);
    var a := view.current;
    if Differs(a.processed, r.id, p) || Differs(a.processedKeys, r.key, p)
       || Differs(view.rejected, r.id, p) || Differs(view.rejectedKeys, r.key, p) then Raised(IdConflict)
    else if r.id in view.rejected || r.key in view.rejectedKeys then Raised(Rejected)
    else if r.id in a.processed || r.key in a.processedKeys then Appending(c, Answer)
    else if a.cursor != r.version then Raised(Concurrent)
    else Updating(c, Answer)
  }

  function StepLook(w: World, i: nat, e: Envelope, r: Request, view: View, clock: int): World
    requires i in w.clients && !r.Submit?
  {
    At(w, i, if r.Control? then ControlDecision(w, e, r, view, clock) else BffDecision(e, r, view, clock))
  }

  // ---------- the transition system ----------

  datatype Event =
    | Arrive(client: nat, request: Request)
    | Step(client: nat, clock: int, workflowClock: int)
    | Join(client: nat, workflowClock: int)
    | Crash(client: nat)
    | Foreign(id: WorkflowId, binding: Binding, initial: Engine.Authority)
    | Work(id: WorkflowId, event: Laws.Event)

  predicate Halted(pc: Pc) {
    pc.Returned? || pc.Raised?
  }

  /** A lock that is held must be waited for. */
  predicate Waits(w: World, pc: Pc) {
    pc.Appending? && pc.command.commandId in w.locks
  }

  /** The workflow that a client would start is taken, and waits for commands. */
  predicate CanJoin(w: World, client: Client) {
    && client.pc.Starting? && client.request.Submit?
    && Wid(client.request.envelope) in w.workflows && Open(FlowOf(w.workflows[Wid(client.request.envelope)]))
  }

  predicate Enabled(w: World, e: Event) {
    match e
    case Arrive(i, r) => i !in w.clients && (r.Submit? ==> ValidRequest(r))
    case Step(i, clock, now) => i in w.clients && !Halted(w.clients[i].pc) && !Waits(w, w.clients[i].pc)
    case Join(i, now) => i in w.clients && CanJoin(w, w.clients[i])
    case Crash(i) => i in w.clients && !Halted(w.clients[i].pc)
    case Foreign(id, b, a) => id !in w.workflows && Fresh(a)
    case Work(id, x) => id in w.workflows
  }

  /** Only the calls a request makes; the others cannot occur. */
  predicate Proper(w: World, client: Client) {
    match client.pc
    case Admitting | Starting(_) | Comparing(_) | Marking(_, _) | Requesting(_) | Reading(_) => client.request.Submit?
    case Getting | Viewing(_) | Looking(_, _) => !client.request.Submit?
    case Inserting(_, existing, _) => existing.Some? ==> existing.value < |w.stream|
    case _ => true
  }

  function AfterStep(w: World, i: nat, clock: int, now: int): World
    requires i in w.clients && Proper(w, w.clients[i])
  {
    var r := w.clients[i].request;
    match w.clients[i].pc
    case Admitting => StepAdmit(w, i, r.envelope, clock)
    case Starting(c) => StepStart(w, i, r.envelope, c, now)
    case Comparing(c) => StepCompare(w, i, r.envelope, c)
    case Marking(c, started) => StepMark(w, i, r.envelope, c, started)
    case Updating(c, goal) => StepUpdate(w, i, c, goal, now)
    case Appending(c, goal) => StepLock(w, i, c, goal)
    case Inserting(c, existing, goal) => StepInsert(w, i, c, existing, goal)
    case Requesting(c) => StepRequest(w, i, r.envelope, c)
    case Reading(c) => StepRead(w, i, c)
    case Getting => StepGet(w, i, r)
    case Viewing(e) => StepView(w, i, e)
    case Looking(e, view) => StepLook(w, i, e, r, view, clock)
    case Returned(_) => w
    case Raised(_) => w
  }

  /** A crash ends the client's transaction, and with it the lock it holds. */
  function AfterCrash(w: World, i: nat): World
    requires i in w.clients
  {
    var pc := w.clients[i].pc;
    At(w.(locks := if pc.Inserting? then w.locks - {pc.command.commandId} else w.locks), i, Raised(Crashed))
  }

  /** The other answer that a start under a taken id may get: the first signal is delivered to the running
      workflow, and the start is reported as done. */
  function AfterJoin(w: World, i: nat, now: int): World
    requires i in w.clients && CanJoin(w, w.clients[i])
  {
    var c, e := w.clients[i].pc.command, w.clients[i].request.envelope;
    var wf := w.workflows[Wid(e)];
    At(w.(workflows := w.workflows[Wid(e) := Delivered(wf, c, now)],
          misled := if wf.binding == BindingOf(e) then w.misled else w.misled + {e}), i, Marking(c, true))
  }

  function Next(w: World, e: Event): World
    requires Enabled(w, e) && (e.Step? ==> Proper(w, w.clients[e.client]))
  {
    match e
    case Arrive(i, r) => w.(clients := w.clients[i := Client(r, if r.Submit? then Admitting else Getting)])
    case Step(i, clock, now) => AfterStep(w, i, clock, now)
    case Join(i, now) => AfterJoin(w, i, now)
    case Crash(i) => AfterCrash(w, i)
    case Foreign(id, b, a) => w.(workflows := w.workflows[id := Instance(b, a, [])])
    case Work(id, x) => w.(workflows := w.workflows[id := w.workflows[id].(log := w.workflows[id].log + [x])])
  }

  /** Events that cannot happen in a state are passed over. */
  predicate Happens(w: World, e: Event) {
    Enabled(w, e) && (e.Step? ==> Proper(w, w.clients[e.client]))
  }

  function RunWorld(events: seq<Event>): World {
    if events == [] then EmptyWorld
    else
      var w := RunWorld(events[..|events| - 1]);
      var e := events[|events| - 1];
      if Happens(w, e) then Next(w, e) else w
  }
}
