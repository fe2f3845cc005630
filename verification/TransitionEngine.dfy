/**
 The authoritative transition service as the workflow sees it: which answers it may give to a
 command, and the checks the worker's client makes before it passes an answer on.
 */
module TransitionEngine {
  import opened Common
  import opened CommandQueue

  datatype Status =
    | CREATED | PLANNED | POLICY_CHECKED | APPROVED | RUNNING | PAUSE_REQUESTED | PAUSED
    | CANCEL_REQUESTED | CANCELLING | KILL_REQUESTED | KILLED | VERIFYING | COMPLETED | DENIED | FAILED
    | ROLLED_BACK | NEEDS_HUMAN_REVIEW

  const MAX_EVENTS: nat := 1024
  const MAX_ROUTINE_COMMANDS: nat := 10_000
  const MAX_PROCESSED_COMMANDS: nat := 10_257

  datatype TransitionEvent = TransitionEvent(commandId: string, from: Status, to: Status, cursor: nat)

  /** The workflow state.  The set of processed ids is the domain of `processed`. */
  datatype Authority = Authority(
    tenantId: string,
    taskId: string,
    actionId: string,
    status: Status,
    cursor: nat,
    terminal: bool,
    processed: map<string, Fingerprint>,
    processedKeys: map<string, Fingerprint>,
    events: seq<TransitionEvent>)

  predicate Terminal(s: Status) {
    s in {COMPLETED, KILLED, FAILED, ROLLED_BACK, DENIED}
  }

  /** The status a command leads to, or None where no path is defined. */
  function Target(from: Status, command: CommandType): Option<Status> {
    match command
    case START => if from == CREATED then Some(RUNNING) else None
    case RESUME => if from == PAUSED then Some(RUNNING) else None
    case PAUSE => if from == RUNNING then Some(PAUSED) else None
    case CANCEL => if from == RUNNING then Some(CANCELLING) else None
    case KILL => if from in {RUNNING, PAUSED} then Some(KILLED) else None
    case VERIFY => if from == RUNNING then Some(VERIFYING) else None
    case COMPLETE => if from == VERIFYING then Some(COMPLETED) else None
    case NEEDS_HUMAN => if from in {RUNNING, VERIFYING} then Some(NEEDS_HUMAN_REVIEW) else None
    case CHECKPOINT => if from in {RUNNING, PAUSED} then Some(from) else None
  }

  predicate WithinCapacity(a: Authority, command: CommandType) {
    && (command == KILL || |a.processed| < MAX_PROCESSED_COMMANDS - 1)
    && (command !in {START, CHECKPOINT} || |a.processed| < MAX_ROUTINE_COMMANDS)
    && |a.processed| < MAX_PROCESSED_COMMANDS
    && |a.processedKeys| < MAX_PROCESSED_COMMANDS
  }

  /** The state after a command whose transition the service grants. */
  function Applied(a: Authority, c: TaskCommand, to: Status): Authority {
    var next := TransitionEvent(c.commandId, a.status, to, a.cursor + 1);
    a.(status := to,
       cursor := a.cursor + 1,
       terminal := Terminal(to),
       processed := a.processed[c.commandId := FingerprintOf(c)],
       processedKeys := a.processedKeys[c.requestKey := FingerprintOf(c)],
       events := (if |a.events| >= MAX_EVENTS then a.events[1..] else a.events) + [next])
  }

  /** The service may answer `next`.  A known command is answered with the state as it is; a new one
      must name the current version.  The facts it resolves elsewhere may still make it refuse. */
  predicate MayAnswer(a: Authority, c: TaskCommand, next: Authority) {
    && a.tenantId == c.tenantId && a.taskId == c.taskId
    && if c.commandId in a.processed then
         a.processed[c.commandId] == FingerprintOf(c) && next == a
       else if c.requestKey in a.processedKeys then
         a.processedKeys[c.requestKey] == FingerprintOf(c) && next == a
       else
         && c.expectedStateVersion == a.cursor
         && !a.terminal
         && Target(a.status, c.commandType).Some?
         && WithinCapacity(a, c.commandType)
         && next == Applied(a, c, Target(a.status, c.commandType).value)
  }

  /** The client's checks on an answer. */
  predicate AnswerChecked(a: Authority, c: TaskCommand, next: Authority) {
    && next.tenantId == c.tenantId && next.taskId == c.taskId && next.actionId == a.actionId
    && next.cursor == c.expectedStateVersion + 1
    && c.commandId in next.processed && next.processed[c.commandId] == FingerprintOf(c)
    && c.requestKey in next.processedKeys && next.processedKeys[c.requestKey] == FingerprintOf(c)
  }

  /** An answer to a command unknown to the state advances it by exactly that command. */
  lemma FreshAnswer(a: Authority, c: TaskCommand, next: Authority)
    requires MayAnswer(a, c, next)
    requires c.commandId !in a.processed && c.requestKey !in a.processedKeys
    ensures AnswerChecked(a, c, next)
    ensures next.cursor == a.cursor + 1 && c.expectedStateVersion == a.cursor
    ensures next.processed == a.processed[c.commandId := FingerprintOf(c)]
    ensures next.processedKeys == a.processedKeys[c.requestKey := FingerprintOf(c)]
  {
  }

  /** A command unknown to the state is granted exactly in the status that it leads on from, at the current
      version and within the capacity kept for its kind; it moves the cursor by one, is recorded under its
      id and its key, and is logged as the latest of 1024 transitions. */
  lemma FreshIff(a: Authority, c: TaskCommand, next: Authority)
    requires c.commandId !in a.processed && c.requestKey !in a.processedKeys
    ensures MayAnswer(a, c, next) <==>
      && a.tenantId == c.tenantId && a.taskId == c.taskId && c.expectedStateVersion == a.cursor && !a.terminal
      && (a.status, c.commandType, next.status) in
           {(CREATED, START, RUNNING), (PAUSED, RESUME, RUNNING), (RUNNING, PAUSE, PAUSED), (RUNNING, CANCEL, CANCELLING),
            (RUNNING, KILL, KILLED), (PAUSED, KILL, KILLED), (RUNNING, VERIFY, VERIFYING), (VERIFYING, COMPLETE, COMPLETED),
            (RUNNING, NEEDS_HUMAN, NEEDS_HUMAN_REVIEW), (VERIFYING, NEEDS_HUMAN, NEEDS_HUMAN_REVIEW),
            (RUNNING, CHECKPOINT, RUNNING), (PAUSED, CHECKPOINT, PAUSED)}
      && |a.processed| <= (if c.commandType == KILL then 10_256 else if c.commandType in {START, CHECKPOINT} then 9_999 else 10_255)
      && |a.processedKeys| <= 10_256
      && next == a.(status := next.status, cursor := a.cursor + 1,
                    terminal := next.status in {COMPLETED, KILLED, FAILED, ROLLED_BACK, DENIED},
                    processed := a.processed[c.commandId := FingerprintOf(c)],
                    processedKeys := a.processedKeys[c.requestKey := FingerprintOf(c)],
                    events := (if |a.events| >= 1024 then a.events[1..] else a.events)
                              + [TransitionEvent(c.commandId, a.status, next.status, a.cursor + 1)])
  {
  }
}
