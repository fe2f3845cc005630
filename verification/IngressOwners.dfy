/**
 Who may obtain what from the ingress: only the owner of an admitted action reaches its workflow
 through `control` and `bff_command`, with the command that was asked for and nothing else, and only a
 command that was asked for is answered.
 */
module IngressOwners {
  import opened Common
  import opened CommandQueue
  import opened TaskWorkflow
  import Laws = TaskWorkflowLaws
  import opened WorkflowAdmission
  import opened ActionStore
  import opened IngressProtocol
  import opened IngressLaws
  import opened IngressGuarantees

  // ---------- owners ----------

  /** Past the look-up of the row. */
  predicate Past(pc: Pc) {
    !pc.Getting? && pc != Raised(NotFound) && pc != Raised(Crashed)
  }

  /** A client of `control` or `bff_command` that got past the look-up has the row it asked for, as its
      owner. */
  lemma PastIsOwner(events: seq<Event>, i: nat) returns (k: nat)
    requires i in RunWorld(events).clients && !RunWorld(events).clients[i].request.Submit? && Past(RunWorld(events).clients[i].pc)
    ensures var w := RunWorld(events); var r := w.clients[i].request;
      && k < |w.rows| && w.rows[k].envelope.tenant == r.tenant && w.rows[k].envelope.owner == r.owner
      && (r.Control? ==> w.rows[k].envelope.action == r.action)
      && (r.Bff? ==> w.rows[k].envelope.task == r.task)
  {
    var w := RunWorld(events);
    EveryWorld(events);
    assert Facts(w, w.clients[i]);
    PastIsKnown(w, w.clients[i]);
    k :| 0 <= k < |w.rows| && OwnRow(w.rows, w.clients[i].request, w.rows[k].envelope);
  }

  lemma PastIsKnown(w: World, client: Client)
    requires Facts(w, client) && !client.request.Submit? && Past(client.pc)
    ensures HasOwnRow(w.rows, client.request)
  {
    match client.pc
    case Viewing(e) => RowIsOwn(w.rows, client.request, e);
    case Looking(e, _) => RowIsOwn(w.rows, client.request, e);
    case _ =>
  }

  /** The row that a request asks for, whoever owns it. */
  predicate AskedFor(row: Row, r: Request)
    requires !r.Submit?
  {
    && row.envelope.tenant == r.tenant
    && (if r.Control? then row.envelope.action == r.action else row.envelope.task == r.task)
  }

  lemma OnlyRow(rows: seq<Row>, r: Request, k: nat)
    requires Unique(rows) && !r.Submit? && k < |rows| && AskedFor(rows[k], r)
    ensures Lookup(rows, if r.Control? then ACTION else TASK, r.tenant, if r.Control? then r.action else r.task) == Some(k)
    ensures HasOwnRow(rows, r) ==> rows[k].envelope.owner == r.owner
  {
    LookupIsOnly(rows, if r.Control? then ACTION else TASK, k);
    if i :| 0 <= i < |rows| && OwnRow(rows, r, rows[i].envelope) {
      LookupIsOnly(rows, if r.Control? then ACTION else TASK, i);
    }
  }

  /** Anybody else is told that there is no such action or task, and changes nothing. */
  lemma StrangerIsTurnedAway(events: seq<Event>, i: nat, k: nat, clock: int, now: int)
    requires i in RunWorld(events).clients && !RunWorld(events).clients[i].request.Submit?
    requires k < |RunWorld(events).rows| && AskedFor(RunWorld(events).rows[k], RunWorld(events).clients[i].request)
    requires RunWorld(events).rows[k].envelope.owner != RunWorld(events).clients[i].request.owner
    ensures var w := RunWorld(events); var client := w.clients[i];
      && !Past(client.pc)
      && (client.pc == Getting ==>
            RunWorld(events + [Step(i, clock, now)]) == w.(clients := w.clients[i := Client(client.request, Raised(NotFound))]))
  {
    var w := RunWorld(events);
    EveryWorld(events);
    OnlyRow(w.rows, w.clients[i].request, k);
    assert Facts(w, w.clients[i]);
    if Past(w.clients[i].pc) {
      PastIsKnown(w, w.clients[i]);
    }
    assert (events + [Step(i, clock, now)])[..|events|] == events;
  }

  // ---------- what is sent and answered ----------

  predicate Carries(pc: Pc) {
    pc.Updating? || pc.Appending? || pc.Inserting? || pc.Returned?
  }

  function Carried(pc: Pc): TaskCommand
    requires Carries(pc)
  {
    if pc.Returned? then pc.evidence.event else pc.command
  }

  lemma CarriedIsOwned(w: World, client: Client)
    requires Facts(w, client) && Carries(client.pc)
    ensures Owned(w, client.request, Carried(client.pc))
  {
  }

  /** What a client of `control` sends to a workflow, stores, and is answered with is the command it asked for
      in its own name, for the workflow of its own action, which is bound to that action. */
  lemma ControlIsAsked(events: seq<Event>, i: nat)
    requires i in RunWorld(events).clients && RunWorld(events).clients[i].request.Control? && Carries(RunWorld(events).clients[i].pc)
    ensures var w := RunWorld(events); var r := w.clients[i].request; var c := Carried(w.clients[i].pc);
      && c.commandType == r.commandType != NEEDS_HUMAN && c.requestedBy == r.owner
      && c.commandId == c.requestKey == ResolvedId(r)
      && c.tenantId == r.tenant && TargetOf(c) in w.workflows
      && w.workflows[TargetOf(c)].binding.action == r.action && w.workflows[TargetOf(c)].binding.tenant == r.tenant
  {
    var w := RunWorld(events);
    EveryWorld(events);
    assert Facts(w, w.clients[i]);
    CarriedIsOwned(w, w.clients[i]);
  }

  /** For `bff_command` it is in every field, the version included. */
  lemma BffIsAsked(events: seq<Event>, i: nat)
    requires i in RunWorld(events).clients && RunWorld(events).clients[i].request.Bff? && Carries(RunWorld(events).clients[i].pc)
    ensures var w := RunWorld(events); var r := w.clients[i].request; var c := Carried(w.clients[i].pc);
      && r.commandType != NEEDS_HUMAN
      && c == TaskCommand("agenttrust.orchestrator-command.v1", r.id, r.key, r.tenant, r.task, r.commandType, r.version,
                          PayloadOf(r.commandType), r.owner, c.requestedAt)
      && TargetOf(c) in w.workflows && w.workflows[TargetOf(c)].binding.task == r.task
  {
    var w := RunWorld(events);
    EveryWorld(events);
    assert Facts(w, w.clients[i]);
    CarriedIsOwned(w, w.clients[i]);
  }

  /** An accepted submission is answered with the START of its own action, in its owner's name. */
  lemma SubmissionIsAsked(events: seq<Event>, i: nat)
    requires ReturnedTo(RunWorld(events), i) && RunWorld(events).clients[i].request.Submit?
    ensures var e := RunWorld(events).clients[i].request.envelope; var c := RunWorld(events).clients[i].pc.evidence.event;
      c == TaskCommand("agenttrust.orchestrator-command.v1", "start:" + e.action, "start:" + e.action, e.tenant, e.task, START, 0,
                       PayloadOf(START), e.owner, c.requestedAt)
  {
    var w := RunWorld(events);
    EveryWorld(events);
    assert Facts(w, w.clients[i]);
    var e, evidence := w.clients[i].request.envelope, w.clients[i].pc.evidence;
    var k := RequestedIsStart(w, e);
    FindIsOnly(w.stream, evidence.sequence);
  }

  lemma RequestedIsStart(w: World, e: Envelope) returns (k: nat)
    requires Inv(w) && HasRow(w.rows, e, START_REQUESTED)
    ensures k < |w.stream| && Find(w.stream, e.tenant, e.task, StartId(e)) == Some(k)
    ensures FingerprintOf(w.stream[k]) == FingerprintOf(StartCommand(e, 0))
  {
    var r :| 0 <= r < |w.rows| && w.rows[r].envelope == e && Rank(START_REQUESTED) <= Rank(w.rows[r].status);
    assert RowTrue(w, w.rows[r]);
    k :| 0 <= k < |w.stream| && FingerprintOf(w.stream[k]) == FingerprintOf(StartCommand(e, 0));
    FindIsOnly(w.stream, k);
  }

  // ---------- what the workflow's state decides ----------

  /** The entries that a workflow's maps hold for a command id and an idempotency key. */
  function Entries(view: View, id: string, key: string): set<Fingerprint> {
    AcceptedEntries(view, id, key) + RejectedEntries(view, id, key)
  }

  function At(m: map<string, Fingerprint>, key: string): set<Fingerprint> {
    if key in m then {m[key]} else {}
  }

  function AcceptedEntries(view: View, id: string, key: string): set<Fingerprint> {
    At(view.current.processed, id) + At(view.current.processedKeys, key)
  }

  function RejectedEntries(view: View, id: string, key: string): set<Fingerprint> {
    At(view.rejected, id) + At(view.rejectedKeys, key)
  }

  /** `bff_command` sends a command exactly when neither its id nor its key is known and it names the current
      version; it answers an accepted one again, and reports a rejected one, exactly when all that is
      known under its id and key is this very command. */
  lemma BffDecides(w: World, i: nat, e: Envelope, view: View, clock: int)
    requires i in w.clients && w.clients[i].request.Bff?
    ensures var r := w.clients[i].request;
      var next := StepLook(w, i, e, r, view, clock).clients[i].pc;
      var entries := Entries(view, r.id, r.key);
      var p := FingerprintOf(MakeCommand(e, r.commandType, r.owner, r.id, r.key, r.version, 0));
      && (next.Updating? <==> entries == {} && view.current.cursor == r.version)
      && (next == Raised(Concurrent) <==> entries == {} && view.current.cursor != r.version)
      && (next.Appending? <==> entries == {p} && RejectedEntries(view, r.id, r.key) == {})
      && (next == Raised(Rejected) <==> entries == {p} && RejectedEntries(view, r.id, r.key) != {})
      && (next == Raised(IdConflict) <==> !(entries <= {p}))
      && StepLook(w, i, e, r, view, clock).(clients := w.clients) == w
  {
  }

  /** `control` answers a stored event again exactly when it is this operation by this owner; otherwise it
      sends the command, at the version it has seen, exactly when its id is neither rejected nor
      processed. */
  lemma ControlDecides(w: World, i: nat, e: Envelope, view: View, clock: int)
    requires i in w.clients && w.clients[i].request.Control?
    ensures var r := w.clients[i].request; var id := ResolvedId(r);
      var next := StepLook(w, i, e, r, view, clock).clients[i].pc;
      var stored := Find(w.stream, e.tenant, e.task, id);
      && (next.Updating? <==> stored == None && id !in view.rejected && id !in view.current.processed)
      && (next.Updating? ==> next.command == MakeCommand(e, r.commandType, r.owner, id, id, view.current.cursor, clock))
      && (next == Raised(Rejected) <==> stored == None && id in view.rejected)
      && (next == Raised(EvidenceMissing) ==> stored == None && id in view.current.processed)
      && (stored.Some? ==>
            var c := w.stream[stored.value];
            next == if (c.schemaVersion, c.requestKey, c.commandType, c.requestedBy)
                       == ("agenttrust.orchestrator-command.v1", id, r.commandType, r.owner)
                    then Appending(c, Answer) else Raised(IdConflict))
      && StepLook(w, i, e, r, view, clock).(clients := w.clients) == w
  {
  }
}
