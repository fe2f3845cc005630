/**
 The PostgreSQL side of the ingress: the table of admitted actions, whose status only moves forward,
 and the append-only stream of command events.  A digest is modelled as the value it is taken of, so
 a stored envelope equals a supplied one exactly when their digests do.
 */
module ActionStore {
  import opened Common
  import opened CommandQueue

  /** A validated envelope; `rest` holds what only the digest looks at. */
  datatype Envelope = Envelope(
    tenant: string,
    key: string,
    action: string,
    task: string,
    owner: string,
    payload: string,
    sideEffects: bool,
    rest: string)

  datatype RowStatus = PENDING_WORKFLOW | CREATED | START_REQUESTED

  datatype Row = Row(envelope: Envelope, status: RowStatus)

  datatype Column = KEY | ACTION | TASK

  datatype Admission = Admission(status: RowStatus, created: bool)

  /** Where an event is stored and, for its digest, what is stored there. */
  datatype Evidence = Evidence(sequence: nat, event: TaskCommand)

  datatype StoreError =
    | IngressConflict
    | UniqueViolation
    | StartConflict
    | EventInvalid
    | EventConflict

  function Cell(e: Envelope, column: Column): string {
    match column
    case KEY => e.key
    case ACTION => e.action
    case TASK => e.task
  }

  predicate Selects(row: Row, column: Column, tenant: string, value: string) {
    row.envelope.tenant == tenant && Cell(row.envelope, column) == value
  }

  function Lookup(rows: seq<Row>, column: Column, tenant: string, value: string): (found: Option<nat>)
    ensures found.Some? ==> found.value < |rows| && Selects(rows[found.value], column, tenant, value)
    ensures found.Some? ==> forall i | 0 <= i < found.value :: !Selects(rows[i], column, tenant, value)
    ensures found.None? ==> forall i | 0 <= i < |rows| :: !Selects(rows[i], column, tenant, value)
  {
    if rows == [] then None
    else if Selects(rows[0], column, tenant, value) then Some(0)
    else Shift(Lookup(rows[1..], column, tenant, value), 1)
  }

  /** The three uniqueness constraints of the table. */
  predicate Unique(rows: seq<Row>) {
    forall i, j | 0 <= i < j < |rows| :: Apart(rows[i].envelope, rows[j].envelope)
  }

  predicate Apart(a: Envelope, b: Envelope) {
    a.tenant != b.tenant || (a.key != b.key && a.action != b.action && a.task != b.task)
  }

  predicate SameSlot(a: TaskCommand, b: TaskCommand) {
    a.tenantId == b.tenantId && a.taskId == b.taskId && a.commandId == b.commandId
  }

  predicate IsEvent(c: TaskCommand, tenant: string, task: string, id: string) {
    c.tenantId == tenant && c.taskId == task && c.commandId == id
  }

  function Find(stream: seq<TaskCommand>, tenant: string, task: string, id: string): (found: Option<nat>)
    ensures found.Some? ==> found.value < |stream| && IsEvent(stream[found.value], tenant, task, id)
    ensures found.Some? ==> forall i | 0 <= i < found.value :: !IsEvent(stream[i], tenant, task, id)
    ensures found.None? ==> forall i | 0 <= i < |stream| :: !IsEvent(stream[i], tenant, task, id)
  {
    if stream == [] then None
    else if IsEvent(stream[0], tenant, task, id) then Some(0)
    else Shift(Find(stream[1..], tenant, task, id), 1)
  }

  /** At most one event per tenant, task and command id. */
  predicate StoredOnce(stream: seq<TaskCommand>) {
    forall i, j | 0 <= i < j < |stream| :: !SameSlot(stream[i], stream[j])
  }

  // ---------- the transactions ----------

  /** `admit`: an existing row must hold the same envelope; an insertion obeys the constraints. */
  function AfterAdmit(rows: seq<Row>, e: Envelope): (seq<Row>, Result<Admission, StoreError>) {
    match Lookup(rows, KEY, e.tenant, e.key)
    case Some(i) =>
      (rows, if rows[i].envelope != e then Err(IngressConflict) else Ok(Admission(rows[i].status, false)))
    case None =>
      if Lookup(rows, ACTION, e.tenant, e.action).Some? || Lookup(rows, TASK, e.tenant, e.task).Some? then
        (rows, Err(UniqueViolation))
      else
        (rows + [Row(e, PENDING_WORKFLOW)], Ok(Admission(PENDING_WORKFLOW, true)))
  }

  /** An update of one row's status, conditional on the status it has; whether it found the row. */
  function AfterMark(rows: seq<Row>, tenant: string, action: string, from: set<RowStatus>, to: RowStatus): (seq<Row>, bool) {
    match Lookup(rows, ACTION, tenant, action)
    case Some(i) => if rows[i].status in from then (rows[i := rows[i].(status := to)], true) else (rows, false)
    case None => (rows, false)
  }

  const MAY_START: set<RowStatus> := {PENDING_WORKFLOW, CREATED}
  const MAY_REQUEST: set<RowStatus> := {CREATED, START_REQUESTED}

  /** The second half of `append_event`, under the advisory lock: insert unless found, then compare. */
  function AfterInsert(stream: seq<TaskCommand>, c: TaskCommand, existing: Option<nat>): (seq<TaskCommand>, Result<Evidence, StoreError>)
    requires existing.Some? ==> existing.value < |stream|
  {
    match existing
    case Some(k) =>
      (stream, if FingerprintOf(stream[k]) != FingerprintOf(c) then Err(EventConflict) else Ok(Evidence(k, stream[k])))
    case None => (stream + [c], Ok(Evidence(|stream|, c)))
  }

  function AfterAppend(stream: seq<TaskCommand>, c: TaskCommand): (seq<TaskCommand>, Result<Evidence, StoreError>) {
    if !Token(c.commandId) then (stream, Err(EventInvalid))
    else AfterInsert(stream, c, Find(stream, c.tenantId, c.taskId, c.commandId))
  }

  // ---------- what they keep ----------

  /** In a table that obeys its constraints every lookup finds the only such row. */
  lemma LookupIsOnly(rows: seq<Row>, column: Column, i: nat)
    requires Unique(rows) && i < |rows|
    ensures Lookup(rows, column, rows[i].envelope.tenant, Cell(rows[i].envelope, column)) == Some(i)
  {
    var e := rows[i].envelope;
    assert Selects(rows[i], column, e.tenant, Cell(e, column));
  }

  lemma AdmitKeepsUnique(rows: seq<Row>, e: Envelope)
    requires Unique(rows)
    ensures Unique(AfterAdmit(rows, e).0)
  {
    var next := AfterAdmit(rows, e).0;
    if next != rows {
      forall i | 0 <= i < |rows|
        ensures Apart(next[i].envelope, next[|rows|].envelope)
      {
        assert !Selects(rows[i], KEY, e.tenant, e.key) && !Selects(rows[i], ACTION, e.tenant, e.action)
            && !Selects(rows[i], TASK, e.tenant, e.task);
      }
    }
  }

  /** In a stream without repetitions every event is the one found for its id. */
  lemma FindIsOnly(stream: seq<TaskCommand>, k: nat)
    requires StoredOnce(stream) && k < |stream|
    ensures Find(stream, stream[k].tenantId, stream[k].taskId, stream[k].commandId) == Some(k)
  {
    var found := Find(stream, stream[k].tenantId, stream[k].taskId, stream[k].commandId);
    assert IsEvent(stream[k], stream[k].tenantId, stream[k].taskId, stream[k].commandId);
    if found.value < k {
      assert SameSlot(stream[found.value], stream[k]);
    }
  }

  /** Appending something else does not change what is found. */
  lemma FindGrows(stream: seq<TaskCommand>, c: TaskCommand, tenant: string, task: string, id: string)
    requires !IsEvent(c, tenant, task, id)
    ensures Find(stream + [c], tenant, task, id) == Find(stream, tenant, task, id)
  {
    var more := stream + [c];
    var a, b := Find(stream, tenant, task, id), Find(more, tenant, task, id);
    if a.Some? {
      assert IsEvent(more[a.value], tenant, task, id);
    }
    if b.Some? {
      assert IsEvent(stream[b.value], tenant, task, id);
    }
  }

  /** An append stores a new event only when its slot is free, and answers with what the slot holds. */
  lemma AppendKeepsOnce(stream: seq<TaskCommand>, c: TaskCommand)
    requires StoredOnce(stream)
    ensures var (next, answer) := AfterAppend(stream, c);
      && StoredOnce(next) && stream <= next
      && (answer.Ok? ==> && answer.value.sequence < |next|
                         && next[answer.value.sequence] == answer.value.event
                         && FingerprintOf(answer.value.event) == FingerprintOf(c))
  {
    var next := AfterAppend(stream, c).0;
    if next != stream {
      forall i | 0 <= i < |stream|
        ensures !SameSlot(next[i], next[|stream|])
      {
        assert !IsEvent(stream[i], c.tenantId, c.taskId, c.commandId);
      }
    }
  }

  /** An event once answered for is what every later append of the same slot answers with. */
  lemma AppendIsIdempotent(stream: seq<TaskCommand>, c: TaskCommand, later: seq<TaskCommand>, again: TaskCommand)
    requires StoredOnce(stream) && AfterAppend(stream, c).1.Ok?
    requires AfterAppend(stream, c).0 <= later && StoredOnce(later) && SameSlot(again, c)
    ensures AfterAppend(later, again)
         == (later, if FingerprintOf(again) == FingerprintOf(c) then AfterAppend(stream, c).1 else Err(EventConflict))
  {
    AppendKeepsOnce(stream, c);
    FindIsOnly(later, AfterAppend(stream, c).1.value.sequence);
  }

  // ---------- the store object ----------

  class PostgresActionStore {
    var rows: seq<Row>
    var stream: seq<TaskCommand>

    constructor ()
      ensures rows == [] && stream == []
    {
      rows, stream := [], [];
    }

    method LookupRow(column: Column, tenant: string, value: string) returns (found: Option<nat>)
      ensures found == Lookup(rows, column, tenant, value)
    {
      found := None;
      for i := 0 to |rows|
        invariant forall j | 0 <= j < i :: !Selects(rows[j], column, tenant, value)
      {
        if Selects(rows[i], column, tenant, value) {
          return Some(i);
        }
      }
    }

    method Admit(e: Envelope) returns (answer: Result<Admission, StoreError>)
      modifies this`rows
      ensures (rows, answer) == AfterAdmit(old(rows), e)
    {
      var existing := LookupRow(KEY, e.tenant, e.key);
      if existing.Some? {
        if rows[existing.value].envelope != e {
          return Err(IngressConflict);
        }
        return Ok(Admission(rows[existing.value].status, false));
      }
      var sameAction := LookupRow(ACTION, e.tenant, e.action);
      var sameTask := LookupRow(TASK, e.tenant, e.task);
      if sameAction.Some? || sameTask.Some? {
        return Err(UniqueViolation);
      }
      rows := rows + [Row(e, PENDING_WORKFLOW)];
      return Ok(Admission(PENDING_WORKFLOW, true));
    }

    method MarkWorkflowStarted(tenant: string, action: string) returns (raised: Option<StoreError>)
      modifies this`rows
      ensures rows == AfterMark(old(rows), tenant, action, MAY_START, CREATED).0
      ensures raised.None? <==> AfterMark(old(rows), tenant, action, MAY_START, CREATED).1
    {
      var found := LookupRow(ACTION, tenant, action);
      if found.None? || rows[found.value].status !in MAY_START {
        return Some(StartConflict);
      }
      rows := rows[found.value := rows[found.value].(status := CREATED)];
      return None;
    }

    method MarkStartRequested(tenant: string, action: string) returns (raised: Option<StoreError>)
      modifies this`rows
      ensures rows == AfterMark(old(rows), tenant, action, MAY_REQUEST, START_REQUESTED).0
      ensures raised.None? <==> AfterMark(old(rows), tenant, action, MAY_REQUEST, START_REQUESTED).1
    {
      var found := LookupRow(ACTION, tenant, action);
      if found.None? || rows[found.value].status !in MAY_REQUEST {
        return Some(StartConflict);
      }
      rows := rows[found.value := rows[found.value].(status := START_REQUESTED)];
      return None;
    }

    method EventForCommand(tenant: string, task: string, id: string) returns (found: Option<nat>)
      ensures found == Find(stream, tenant, task, id)
    {
      found := None;
      for i := 0 to |stream|
        invariant forall j | 0 <= j < i :: !IsEvent(stream[j], tenant, task, id)
      {
        if IsEvent(stream[i], tenant, task, id) {
          return Some(i);
        }
      }
    }

    method AppendEvent(c: TaskCommand) returns (answer: Result<Evidence, StoreError>)
      modifies this`stream
      ensures (stream, answer) == AfterAppend(old(stream), c)
    {
      if !Token(c.commandId) {
        return Err(EventInvalid);
      }
      var existing := EventForCommand(c.tenantId, c.taskId, c.commandId);
      if existing.None? {
        stream := stream + [c];
        existing := Some(|stream| - 1);
      }
      var persisted := stream[existing.value];
      if FingerprintOf(persisted) != FingerprintOf(c) {
        return Err(EventConflict);
      }
      return Ok(Evidence(existing.value, persisted));
    }
  }
}
