/**
 The durable worker's command queue: admission with an idempotency discipline, a bounded
 rejection history, and a last slot reserved for KILL.  `Core` is the value of the
 `_TaskWorkflowCore` fields; the functions below say what each operation does to it, the class
 carries them out in place, and the lemmas say what every run keeps.
 */
module CommandQueue {
  import opened Common

  const QUEUE_CAPACITY: nat := 1024
  const MINUTE: int := 60_000_000  // timestamps are in microseconds

  datatype CommandType = START | PAUSE | RESUME | CANCEL | KILL | CHECKPOINT | VERIFY | COMPLETE | NEEDS_HUMAN

  /** SHA-256 is modelled as injective: a digest is the value it was taken of. */
  datatype PayloadDigest = PayloadOf(commandType: CommandType) | OtherText(text: string)

  datatype TaskCommand = TaskCommand(
    schemaVersion: string,
    commandId: string,
    requestKey: string,
    tenantId: string,
    taskId: string,
    commandType: CommandType,
    expectedStateVersion: int,
    payloadDigest: PayloadDigest,
    requestedBy: string,
    requestedAt: int)

  /** The digest of every field but `requestedAt`. */
  datatype Fingerprint = Fingerprint(
    schemaVersion: string,
    commandId: string,
    requestKey: string,
    tenantId: string,
    taskId: string,
    commandType: CommandType,
    expectedStateVersion: int,
    payloadDigest: PayloadDigest,
    requestedBy: string)

  function FingerprintOf(c: TaskCommand): Fingerprint {
    Fingerprint(c.schemaVersion, c.commandId, c.requestKey, c.tenantId, c.taskId, c.commandType,
                c.expectedStateVersion, c.payloadDigest, c.requestedBy)
  }

  predicate TokenChar(ch: char) {
    'A' <= ch <= 'Z' || 'a' <= ch <= 'z' || '0' <= ch <= '9' || ch in "._:-"
  }

  predicate Token(s: string) {
    0 < |s| <= 256 && forall i | 0 <= i < |s| :: TokenChar(s[i])
  }

  predicate ValidCommand(c: TaskCommand, now: int) {
    && c.schemaVersion == "agenttrust.orchestrator-command.v1"
    && Token(c.commandId)
    && Token(c.requestKey)
    && c.tenantId != ""
    && c.taskId != ""
    && c.expectedStateVersion >= 0
    && c.payloadDigest == PayloadOf(c.commandType)
    && 0 < |c.requestedBy| <= 512
    && c.requestedAt <= now + 5 * MINUTE
  }

  datatype Rejection = Rejection(
    taskId: string,
    commandId: string,
    requestKey: string,
    commandType: CommandType,
    expectedStateVersion: int,
    errorCode: string,
    rejectedAt: int)

  datatype Core = Core(
    commands: seq<TaskCommand>,
    queued: map<string, TaskCommand>,
    queuedKeys: map<string, Fingerprint>,
    rejected: map<string, Fingerprint>,
    rejectedKeys: map<string, Fingerprint>,
    rejections: seq<Rejection>)

  const EmptyCore := Core([], map[], map[], map[], map[], [])

  datatype Error =
    | CommandInvalid
    | IdempotencyConflict
    | PreviouslyRejected
    | HistorySaturated
    | QueueFull
    | HistoryInvariantBroken

  /** The state an operation leaves behind and, when it raised, the error. */
  datatype Effect = Effect(core: Core, raised: Option<Error>)

  // ---------- bounded deques ----------

  /** `deque(maxlen=1024).append`: a full deque drops its other end. */
  function BoundedAppend<T>(s: seq<T>, x: T): seq<T> {
    if |s| < QUEUE_CAPACITY then s + [x] else s[|s| + 1 - QUEUE_CAPACITY..] + [x]
  }

  function BoundedAppendLeft<T>(s: seq<T>, x: T): seq<T> {
    if |s| < QUEUE_CAPACITY then [x] + s else [x] + s[..QUEUE_CAPACITY - 1]
  }

  // ---------- the operations as functions ----------

  function SafeErrorCode(code: string): string {
    if "ORCHESTRATOR_" <= code && |code| <= 128 then code else "ORCHESTRATOR_TRANSITION_REJECTED"
  }

  predicate Conflicts(m: map<string, Fingerprint>, key: string, f: Fingerprint) {
    key in m && m[key] != f
  }

  function AfterRejection(core: Core, c: TaskCommand, code: string, at: int): Effect {
    var f := FingerprintOf(c);
    if Conflicts(core.rejected, c.commandId, f) || Conflicts(core.rejectedKeys, c.requestKey, f) then
      Effect(core, Some(IdempotencyConflict))
    else if c.commandId !in core.rejected && |core.rejected| >= 1024 then
      Effect(core, Some(HistoryInvariantBroken))
    else if c.requestKey !in core.rejectedKeys && |core.rejectedKeys| >= 1024 then
      Effect(core, Some(HistoryInvariantBroken))
    else
      Effect(core.(rejected := core.rejected[c.commandId := f],
                   rejectedKeys := core.rejectedKeys[c.requestKey := f],
                   rejections := BoundedAppend(core.rejections,
                     Rejection(c.taskId, c.commandId, c.requestKey, c.commandType,
                               c.expectedStateVersion, SafeErrorCode(code), at))),
             None)
  }

  /** Takes a command out of the deque (at `i`) and out of both queued maps. */
  function Remove(core: Core, i: nat): Core
    requires i < |core.commands|
  {
    var c := core.commands[i];
    core.(commands := core.commands[..i] + core.commands[i + 1..],
          queued := core.queued - {c.commandId},
          queuedKeys := core.queuedKeys - {c.requestKey})
  }

  function Enqueue(core: Core, c: TaskCommand): Core {
    core.(commands := if c.commandType == KILL then BoundedAppendLeft(core.commands, c)
                      else BoundedAppend(core.commands, c),
          queued := core.queued[c.commandId := c],
          queuedKeys := core.queuedKeys[c.requestKey := FingerprintOf(c)])
  }

  function FirstNonKill(cs: seq<TaskCommand>): (i: nat)
    ensures i <= |cs|
    ensures i < |cs| ==> cs[i].commandType != KILL
    ensures forall j | 0 <= j < i :: cs[j].commandType == KILL
  {
    if cs == [] || cs[0].commandType != KILL then 0 else 1 + FirstNonKill(cs[1..])
  }

  /** What the idempotency maps say of a command: nothing, a harmless repeat, or an error. */
  function Known(core: Core, c: TaskCommand): Option<Option<Error>> {
    var f := FingerprintOf(c);
    if c.commandId in core.queued then
      Some(if FingerprintOf(core.queued[c.commandId]) != f then Some(IdempotencyConflict) else None)
    else if c.requestKey in core.queuedKeys then
      Some(if core.queuedKeys[c.requestKey] != f then Some(IdempotencyConflict) else None)
    else if c.commandId in core.rejected then
      Some(Some(if core.rejected[c.commandId] != f then IdempotencyConflict else PreviouslyRejected))
    else if c.requestKey in core.rejectedKeys then
      Some(Some(if core.rejectedKeys[c.requestKey] != f then IdempotencyConflict else PreviouslyRejected))
    else
      None
  }

  /** Rejections already recorded plus those every queued command may still become. */
  function RejectionCapacity(core: Core): nat {
    |core.rejected| + |core.queued|
  }

  predicate Saturated(core: Core, c: TaskCommand) {
    RejectionCapacity(core) >= 1023 && (c.commandType != KILL || RejectionCapacity(core) >= 1024)
  }

  /** `command`, with its eviction branch for a full queue. */
  function AfterCommand(core: Core, c: TaskCommand, now: int): Effect {
    if !ValidCommand(c, now) then Effect(core, Some(CommandInvalid))
    else if Known(core, c).Some? then Effect(core, Known(core, c).value)
    else if Saturated(core, c) then Effect(core, Some(HistorySaturated))
    else if |core.commands| == QUEUE_CAPACITY then
      if c.commandType != KILL || FirstNonKill(core.commands) == |core.commands| then
        Effect(core, Some(QueueFull))
      else
        var i := FirstNonKill(core.commands);
        var recorded := AfterRejection(Remove(core, i), core.commands[i],
                                        "ORCHESTRATOR_COMMAND_PREEMPTED_BY_KILL", now);
        if recorded.raised.Some? then recorded else Effect(Enqueue(recorded.core, c), None)
    else Effect(Enqueue(core, c), None)
  }

  /** `reject_queued_after_terminal`: stops at the first rejection that raises. */
  function AfterRejectingQueued(core: Core, at: int): Effect
    decreases |core.commands|
  {
    if core.commands == [] then Effect(core, None)
    else
      var recorded := AfterRejection(Remove(core, 0), core.commands[0], "ORCHESTRATOR_TASK_TERMINATED", at);
      if recorded.raised.Some? then recorded else AfterRejectingQueued(recorded.core, at)
  }

  // ---------- the class ----------

  class TaskWorkflowCore {
    var commands: seq<TaskCommand>
    var queued: map<string, TaskCommand>
    var queuedKeys: map<string, Fingerprint>
    var rejected: map<string, Fingerprint>
    var rejectedKeys: map<string, Fingerprint>
    var rejections: seq<Rejection>

    function View(): Core
      reads this
    {
      Core(commands, queued, queuedKeys, rejected, rejectedKeys, rejections)
    }

    constructor ()
      ensures View() == EmptyCore
    {
      commands, queued, queuedKeys, rejected, rejectedKeys, rejections := [], map[], map[], map[], map[], [];
    }

    method RecordRejection(c: TaskCommand, code: string, at: int) returns (raised: Option<Error>)
      modifies this
      ensures Effect(View(), raised) == AfterRejection(old(View()), c, code, at)
    {
      var errorCode := code;
      if !("ORCHESTRATOR_" <= code) || |code| > 128 {
        errorCode := "ORCHESTRATOR_TRANSITION_REJECTED";
      }
      var f := FingerprintOf(c);
      if (c.commandId in rejected && rejected[c.commandId] != f)
         || (c.requestKey in rejectedKeys && rejectedKeys[c.requestKey] != f) {
        return Some(IdempotencyConflict);
      }
      if c.commandId !in rejected && |rejected| >= 1024 {
        return Some(HistoryInvariantBroken);
      }
      if c.requestKey !in rejectedKeys && |rejectedKeys| >= 1024 {
        return Some(HistoryInvariantBroken);
      }
      rejected := rejected[c.commandId := f];
      rejectedKeys := rejectedKeys[c.requestKey := f];
      rejections := BoundedAppend(rejections,
        Rejection(c.taskId, c.commandId, c.requestKey, c.commandType, c.expectedStateVersion, errorCode, at));
      return None;
    }

    method Command(c: TaskCommand, now: int) returns (raised: Option<Error>)
      modifies this
      ensures Effect(View(), raised) == AfterCommand(old(View()), c, now)
    {
      if !ValidCommand(c, now) {
        return Some(CommandInvalid);
      }
      var f := FingerprintOf(c);
      if c.commandId in queued {
        if FingerprintOf(queued[c.commandId]) != f {
          return Some(IdempotencyConflict);
        }
        return None;
      }
      if c.requestKey in queuedKeys {
        if queuedKeys[c.requestKey] != f {
          return Some(IdempotencyConflict);
        }
        return None;
      }
      if c.commandId in rejected {
        if rejected[c.commandId] != f {
          return Some(IdempotencyConflict);
        }
        return Some(PreviouslyRejected);
      }
      if c.requestKey in rejectedKeys {
        if rejectedKeys[c.requestKey] != f {
          return Some(IdempotencyConflict);
        }
        return Some(PreviouslyRejected);
      }
      var capacity := |rejected| + |queued|;
      if capacity >= 1023 {
        if c.commandType != KILL || capacity >= 1024 {
          return Some(HistorySaturated);
        }
      }
      if |commands| == QUEUE_CAPACITY {
        if c.commandType != KILL {
          return Some(QueueFull);
        }
        var i := FirstNonKill(commands);
        if i == |commands| {
          return Some(QueueFull);
        }
        var evicted := commands[i];
        commands := commands[..i] + commands[i + 1..];
        queued := queued - {evicted.commandId};
        queuedKeys := queuedKeys - {evicted.requestKey};
        var failed := RecordRejection(evicted, "ORCHESTRATOR_COMMAND_PREEMPTED_BY_KILL", now);
        if failed.Some? {
          return failed;
        }
        commands := BoundedAppendLeft(commands, c);
        queued := queued[c.commandId := c];
        queuedKeys := queuedKeys[c.requestKey := f];
        return None;
      }
      if c.commandType == KILL {
        commands := BoundedAppendLeft(commands, c);
      } else {
        commands := BoundedAppend(commands, c);
      }
      queued := queued[c.commandId := c];
      queuedKeys := queuedKeys[c.requestKey := f];
      return None;
    }

    method PopLeft() returns (c: TaskCommand)
      requires commands != []
      modifies this
      ensures c == old(commands)[0]
      ensures View() == Remove(old(View()), 0)
    {
      c := commands[0];
      commands := commands[1..];
      queued := queued - {c.commandId};
      queuedKeys := queuedKeys - {c.requestKey};
    }

    method RejectQueuedAfterTerminal(at: int) returns (raised: Option<Error>)
      modifies this
      ensures Effect(View(), raised) == AfterRejectingQueued(old(View()), at)
    {
      while commands != []
        invariant AfterRejectingQueued(View(), at) == AfterRejectingQueued(old(View()), at)
        decreases |commands|
      {
        var c := PopLeft();
        raised := RecordRejection(c, "ORCHESTRATOR_TASK_TERMINATED", at);
        if raised.Some? {
          return;
        }
      }
      raised := None;
    }
  }
}
