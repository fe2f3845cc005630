/**
 What every run of the command queue keeps when a popped command is accepted or rejected in the
 same step: the deque and both queued maps describe the same commands, the bound of 1024 future
 rejections holds, and so the full-queue branch and the broken-history errors are never reached.
 */
module CommandQueueLaws {
  import opened Common
  import opened CommandQueue

  // ---------- invariants ----------

  /** The queued maps that describe a deque. */
  function IdMap(cs: seq<TaskCommand>): map<string, TaskCommand> {
    if cs == [] then map[] else IdMap(cs[1..])[cs[0].commandId := cs[0]]
  }

  function KeyMap(cs: seq<TaskCommand>): map<string, Fingerprint> {
    if cs == [] then map[] else KeyMap(cs[1..])[cs[0].requestKey := FingerprintOf(cs[0])]
  }

  predicate Distinct(cs: seq<TaskCommand>) {
    cs == [] || (&& cs[0].commandId !in IdMap(cs[1..])
                 && cs[0].requestKey !in KeyMap(cs[1..])
                 && Distinct(cs[1..]))
  }

  /** The deque and both queued maps describe the same commands. */
  predicate QueueAgrees(core: Core) {
    Distinct(core.commands) && core.queued == IdMap(core.commands) && core.queuedKeys == KeyMap(core.commands)
  }

  /** Both rejected maps hold the same fingerprints, each under its own id and key. */
  predicate RejectedAgrees(core: Core) {
    && core.rejected.Values == core.rejectedKeys.Values
    && (forall id | id in core.rejected :: core.rejected[id].commandId == id)
    && (forall key | key in core.rejectedKeys :: core.rejectedKeys[key].requestKey == key)
  }

  predicate Disjoint(core: Core) {
    core.queued.Keys !! core.rejected.Keys && core.queuedKeys.Keys !! core.rejectedKeys.Keys
  }

  /** Ids of the commands, queued or rejected, that are not KILL. */
  function NonKillIds(core: Core): set<string> {
    (set id | id in core.queued && core.queued[id].commandType != KILL)
    + (set id | id in core.rejected && core.rejected[id].commandType != KILL)
  }

  predicate Inv(core: Core) {
    && QueueAgrees(core)
    && RejectedAgrees(core)
    && Disjoint(core)
    && RejectionCapacity(core) <= 1024
    && |NonKillIds(core)| <= 1023
    && |core.rejections| <= QUEUE_CAPACITY
  }

  // ---------- sizes ----------

  lemma {:induction false} MapSizes(cs: seq<TaskCommand>)
    requires Distinct(cs)
    ensures |IdMap(cs)| == |KeyMap(cs)| == |cs|
  {
    if cs != [] {
      MapSizes(cs[1..]);
    }
  }

  lemma {:induction false} IdMembers(cs: seq<TaskCommand>)
    requires Distinct(cs)
    ensures forall i | 0 <= i < |cs| :: cs[i].commandId in IdMap(cs) && IdMap(cs)[cs[i].commandId] == cs[i]
    ensures forall id | id in IdMap(cs) :: IdMap(cs)[id] in cs && IdMap(cs)[id].commandId == id
  {
    if cs != [] {
      var rest := cs[1..];
      IdMembers(rest);
      forall i | 0 <= i < |cs|
        ensures cs[i].commandId in IdMap(cs) && IdMap(cs)[cs[i].commandId] == cs[i]
      {
        if i > 0 {
          assert rest[i - 1] == cs[i];
        }
      }
    }
  }

  lemma {:induction false} KeyMembers(cs: seq<TaskCommand>)
    requires Distinct(cs)
    ensures forall i | 0 <= i < |cs| :: cs[i].requestKey in KeyMap(cs) && KeyMap(cs)[cs[i].requestKey] == FingerprintOf(cs[i])
    ensures forall key | key in KeyMap(cs) ::
      exists i :: 0 <= i < |cs| && cs[i].requestKey == key && KeyMap(cs)[key] == FingerprintOf(cs[i])
  {
    if cs != [] {
      var rest := cs[1..];
      KeyMembers(rest);
      forall i | 0 <= i < |cs|
        ensures cs[i].requestKey in KeyMap(cs) && KeyMap(cs)[cs[i].requestKey] == FingerprintOf(cs[i])
      {
        if i > 0 {
          assert rest[i - 1] == cs[i];
        }
      }
      forall key | key in KeyMap(cs)
        ensures exists i :: 0 <= i < |cs| && cs[i].requestKey == key && KeyMap(cs)[key] == FingerprintOf(cs[i])
      {
        if key == cs[0].requestKey {
          assert KeyMap(cs)[key] == FingerprintOf(cs[0]);
        } else {
          var i :| 0 <= i < |rest| && rest[i].requestKey == key && KeyMap(rest)[key] == FingerprintOf(rest[i]);
          assert cs[i + 1] == rest[i];
        }
      }
    }
  }

  /** Every queued command is under its own id and key, and nothing else is. */
  lemma {:induction false} MapMembers(cs: seq<TaskCommand>)
    requires Distinct(cs)
    ensures forall i | 0 <= i < |cs| ::
      && cs[i].commandId in IdMap(cs) && IdMap(cs)[cs[i].commandId] == cs[i]
      && cs[i].requestKey in KeyMap(cs) && KeyMap(cs)[cs[i].requestKey] == FingerprintOf(cs[i])
    ensures forall id | id in IdMap(cs) :: IdMap(cs)[id] in cs && IdMap(cs)[id].commandId == id
    ensures forall key | key in KeyMap(cs) ::
      exists i :: 0 <= i < |cs| && cs[i].requestKey == key && KeyMap(cs)[key] == FingerprintOf(cs[i])
  {
    IdMembers(cs);
    KeyMembers(cs);
  }

  lemma {:induction false} AppendMaps(cs: seq<TaskCommand>, c: TaskCommand)
    requires Distinct(cs) && c.commandId !in IdMap(cs) && c.requestKey !in KeyMap(cs)
    ensures Distinct(cs + [c])
    ensures IdMap(cs + [c]) == IdMap(cs)[c.commandId := c]
    ensures KeyMap(cs + [c]) == KeyMap(cs)[c.requestKey := FingerprintOf(c)]
  {
    if cs == [] {
      assert cs + [c] == [c];
    } else {
      AppendMaps(cs[1..], c);
      assert (cs + [c])[1..] == cs[1..] + [c];
    }
  }

  lemma PopAgrees(core: Core)
    requires QueueAgrees(core) && core.commands != []
    ensures QueueAgrees(Remove(core, 0))
    ensures core.commands[0].commandId !in Remove(core, 0).queued
    ensures core.commands[0].requestKey !in Remove(core, 0).queuedKeys
  {
    assert Remove(core, 0).commands == core.commands[1..];
  }

  lemma RejectedSizes(core: Core)
    requires RejectedAgrees(core)
    ensures |core.rejected| == |core.rejectedKeys|
  {
    InjectiveMapSize(core.rejected);
    InjectiveMapSize(core.rejectedKeys);
  }

  // ---------- one operation at a time ----------

  lemma EnqueueAgrees(core: Core, c: TaskCommand)
    requires QueueAgrees(core) && |core.commands| < QUEUE_CAPACITY
    requires c.commandId !in core.queued && c.requestKey !in core.queuedKeys
    ensures QueueAgrees(Enqueue(core, c))
  {
    if c.commandType == KILL {
      assert ([c] + core.commands)[1..] == core.commands;
    } else {
      AppendMaps(core.commands, c);
    }
  }

  /** Recording a popped command whose id and key are unknown to the rejected maps. */
  lemma RecordFresh(core: Core, c: TaskCommand, code: string, at: int)
    requires RejectedAgrees(core) && |core.rejected| < 1024
    requires c.commandId !in core.rejected && c.requestKey !in core.rejectedKeys
    ensures var e := AfterRejection(core, c, code, at);
      && e.raised == None
      && RejectedAgrees(e.core)
      && |e.core.rejections| <= QUEUE_CAPACITY
      && e.core == core.(rejected := core.rejected[c.commandId := FingerprintOf(c)],
                         rejectedKeys := core.rejectedKeys[c.requestKey := FingerprintOf(c)],
                         rejections := e.core.rejections)
  {
    RejectedSizes(core);
    FreshValues(core.rejected, c.commandId, FingerprintOf(c));
    FreshValues(core.rejectedKeys, c.requestKey, FingerprintOf(c));
  }

  lemma FreshValues<K, V>(m: map<K, V>, k: K, v: V)
    requires k !in m
    ensures m[k := v].Values == m.Values + {v}
  {
    var n := m[k := v];
    forall w | w in m.Values + {v}
      ensures w in n.Values
    {
      if w == v {
        assert n[k] == v;
      } else {
        var a :| a in m && m[a] == w;
        assert n[a] == w;
      }
    }
  }

  /** The deque never reaches its capacity, so a delivery never finds it full. */
  lemma NeverFull(core: Core, c: TaskCommand)
    requires QueueAgrees(core) && !Saturated(core, c)
    ensures |core.commands| < QUEUE_CAPACITY
  {
    MapSizes(core.commands);
  }

  /** `command` without its eviction branch. */
  function Admit(core: Core, c: TaskCommand, now: int): Effect {
    if !ValidCommand(c, now) then Effect(core, Some(CommandInvalid))
    else if Known(core, c).Some? then Effect(core, Known(core, c).value)
    else if Saturated(core, c) then Effect(core, Some(HistorySaturated))
    else Effect(Enqueue(core, c), None)
  }

  /** The eviction branch is subsumed by the saturation guard. */
  lemma EvictionIsUnreachable(core: Core, c: TaskCommand, now: int)
    requires QueueAgrees(core)
    ensures AfterCommand(core, c, now) == Admit(core, c, now)
    ensures AfterCommand(core, c, now).raised != Some(QueueFull)
    ensures AfterCommand(core, c, now).raised != Some(HistoryInvariantBroken)
  {
    if !Saturated(core, c) {
      NeverFull(core, c);
    }
  }

  lemma CommandKeepsInv(core: Core, c: TaskCommand, now: int)
    requires Inv(core)
    ensures Inv(AfterCommand(core, c, now).core)
  {
    EvictionIsUnreachable(core, c, now);
    if ValidCommand(c, now) && Known(core, c).None? && !Saturated(core, c) {
      EnqueueKeepsInv(core, c);
    }
  }

  lemma EnqueueKeepsInv(core: Core, c: TaskCommand)
    requires Inv(core) && Known(core, c).None? && !Saturated(core, c)
    ensures Inv(Enqueue(core, c))
  {
    NeverFull(core, c);
    EnqueueAgrees(core, c);
    EnqueueNonKill(core, c);
    if c.commandType != KILL {
      NonKillBound(core);
    }
  }

  lemma EnqueueNonKill(core: Core, c: TaskCommand)
    requires c.commandId !in core.queued
    ensures NonKillIds(Enqueue(core, c)) == NonKillIds(core) + if c.commandType == KILL then {} else {c.commandId}
  {
  }

  lemma NonKillBound(core: Core)
    requires RejectionCapacity(core) <= 1022
    ensures |NonKillIds(core)| <= 1022
  {
    SubsetSize(NonKillIds(core), core.queued.Keys + core.rejected.Keys);
  }

  /** Popping the head keeps the invariant, and its id and key are then unknown everywhere. */
  lemma PopKeepsInv(core: Core)
    requires Inv(core) && core.commands != []
    ensures var rest := Remove(core, 0);
      var c := core.commands[0];
      && Inv(rest)
      && RejectionCapacity(rest) == RejectionCapacity(core) - 1
      && c.commandId !in rest.rejected && c.requestKey !in rest.rejectedKeys
      && c.commandId !in rest.queued && c.requestKey !in rest.queuedKeys
  {
    var rest := Remove(core, 0);
    PopAgrees(core);
    PopSizes(core);
    PopDisjoint(core);
    PopNonKill(core);
    SubsetSize(NonKillIds(rest), NonKillIds(core));
  }

  lemma PopSizes(core: Core)
    requires QueueAgrees(core) && core.commands != []
    ensures RejectionCapacity(Remove(core, 0)) == RejectionCapacity(core) - 1
  {
    PopAgrees(core);
    MapSizes(core.commands);
    MapSizes(Remove(core, 0).commands);
  }

  lemma PopDisjoint(core: Core)
    requires QueueAgrees(core) && Disjoint(core) && core.commands != []
    ensures var c := core.commands[0];
      Disjoint(Remove(core, 0)) && c.commandId !in core.rejected && c.requestKey !in core.rejectedKeys
  {
    assert core.commands[0].commandId in core.queued && core.commands[0].requestKey in core.queuedKeys;
  }

  lemma PopNonKill(core: Core)
    requires core.commands != []
    ensures NonKillIds(Remove(core, 0)) <= NonKillIds(core)
  {
  }

  /** The popped head, recorded as rejected. */
  function RejectHead(core: Core, code: string, at: int): Effect
    requires core.commands != []
  {
    AfterRejection(Remove(core, 0), core.commands[0], code, at)
  }

  lemma PopAndRecordKeepsInv(core: Core, code: string, at: int)
    requires Inv(core) && core.commands != []
    ensures RejectHead(core, code, at).raised == None
    ensures Inv(RejectHead(core, code, at).core)
    ensures RejectHead(core, code, at).core.commands == core.commands[1..]
    ensures RejectHead(core, code, at).core.queued == core.queued - {core.commands[0].commandId}
    ensures RejectHead(core, code, at).core.rejected
      == core.rejected[core.commands[0].commandId := FingerprintOf(core.commands[0])]
  {
    var c := core.commands[0];
    var rest := Remove(core, 0);
    PopKeepsInv(core);
    RecordFresh(rest, c, code, at);
    RejectHeadNonKill(core, code, at);
    SubsetSize(NonKillIds(RejectHead(core, code, at).core), NonKillIds(core));
    RecordKeepsInv(rest, RejectHead(core, code, at).core, c);
  }

  lemma RecordKeepsInv(rest: Core, next: Core, c: TaskCommand)
    requires Inv(rest) && RejectionCapacity(rest) < 1024
    requires c.commandId !in rest.rejected && c.commandId !in rest.queued && c.requestKey !in rest.queuedKeys
    requires next == rest.(rejected := rest.rejected[c.commandId := FingerprintOf(c)],
                           rejectedKeys := rest.rejectedKeys[c.requestKey := FingerprintOf(c)],
                           rejections := next.rejections)
    requires |next.rejections| <= QUEUE_CAPACITY && RejectedAgrees(next) && |NonKillIds(next)| <= 1023
    ensures Inv(next)
  {
    assert |next.rejected| == |rest.rejected| + 1;
  }

  lemma RejectHeadNonKill(core: Core, code: string, at: int)
    requires QueueAgrees(core) && core.commands != [] && RejectHead(core, code, at).raised == None
    ensures NonKillIds(RejectHead(core, code, at).core) <= NonKillIds(core)
  {
    var c := core.commands[0];
    var next := RejectHead(core, code, at).core;
    assert core.queued[c.commandId] == c;
    assert next.queued == core.queued - {c.commandId};
    assert next.rejected == core.rejected[c.commandId := FingerprintOf(c)];
  }

  lemma DrainOne(core: Core, at: int)
    requires core.commands != []
    requires RejectHead(core, "ORCHESTRATOR_TASK_TERMINATED", at).raised == None
    ensures AfterRejectingQueued(core, at)
      == AfterRejectingQueued(RejectHead(core, "ORCHESTRATOR_TASK_TERMINATED", at).core, at)
  {
  }

  /** Termination empties the queue into the rejected maps and never raises. */
  lemma {:induction false} DrainKeepsInv(core: Core, at: int)
    requires Inv(core)
    ensures AfterRejectingQueued(core, at).raised == None
    ensures Inv(AfterRejectingQueued(core, at).core)
    ensures AfterRejectingQueued(core, at).core.commands == []
    decreases |core.commands|
  {
    if core.commands != [] {
      PopAndRecordKeepsInv(core, "ORCHESTRATOR_TASK_TERMINATED", at);
      DrainOne(core, at);
      DrainKeepsInv(RejectHead(core, "ORCHESTRATOR_TASK_TERMINATED", at).core, at);
    }
  }

  function KnownIds(core: Core): set<string> {
    core.queued.Keys + core.rejected.Keys
  }

  lemma RejectHeadKeepsIds(core: Core, code: string, at: int)
    requires Inv(core) && core.commands != []
    ensures KnownIds(RejectHead(core, code, at).core) == KnownIds(core)
  {
    PopAndRecordKeepsInv(core, code, at);
  }

  /** Every command queued at termination is recorded as rejected. */
  lemma {:induction false} DrainKeepsIds(core: Core, at: int)
    requires Inv(core)
    ensures KnownIds(AfterRejectingQueued(core, at).core) == KnownIds(core)
    decreases |core.commands|
  {
    if core.commands != [] {
      PopAndRecordKeepsInv(core, "ORCHESTRATOR_TASK_TERMINATED", at);
      RejectHeadKeepsIds(core, "ORCHESTRATOR_TASK_TERMINATED", at);
      DrainOne(core, at);
      DrainKeepsIds(RejectHead(core, "ORCHESTRATOR_TASK_TERMINATED", at).core, at);
    }
  }

  // ---------- runs ----------

  datatype Op =
    | Deliver(c: TaskCommand, now: int)
    | DispatchAccepted
    | DispatchRejected(code: string, at: int)
    | Terminate(at: int)

  function Apply(core: Core, op: Op): Effect {
    match op
    case Deliver(c, now) => AfterCommand(core, c, now)
    case DispatchAccepted => Effect(if core.commands == [] then core else Remove(core, 0), None)
    case DispatchRejected(code, at) =>
      if core.commands == [] then Effect(core, None)
      else RejectHead(core, code, at)
    case Terminate(at) => AfterRejectingQueued(core, at)
  }

  function Run(ops: seq<Op>): Core {
    if ops == [] then EmptyCore
    else Apply(Run(ops[..|ops| - 1]), ops[|ops| - 1]).core
  }

  lemma StepKeepsInv(core: Core, op: Op)
    requires Inv(core)
    ensures Inv(Apply(core, op).core)
    ensures Apply(core, op).raised != Some(QueueFull)
    ensures Apply(core, op).raised != Some(HistoryInvariantBroken)
    ensures !op.Deliver? ==> Apply(core, op).raised == None
  {
    match op
    case Deliver(c, now) =>
      CommandKeepsInv(core, c, now);
      EvictionIsUnreachable(core, c, now);
    case DispatchAccepted =>
      if core.commands != [] { PopKeepsInv(core); }
    case DispatchRejected(code, at) =>
      if core.commands != [] { PopAndRecordKeepsInv(core, code, at); }
    case Terminate(at) =>
      DrainKeepsInv(core, at);
  }

  lemma {:induction false} EveryRunKeepsInv(ops: seq<Op>)
    ensures Inv(Run(ops))
    decreases |ops|
  {
    if ops != [] {
      EveryRunKeepsInv(ops[..|ops| - 1]);
      StepKeepsInv(Run(ops[..|ops| - 1]), ops[|ops| - 1]);
    }
  }

  /** In every reachable state the maps describe the deque, the bound holds, and no operation can
      next raise QUEUE_FULL or a broken-history error. */
  lemma EveryReachableState(ops: seq<Op>, next: Op)
    ensures var core := Run(ops);
      && |core.commands| == |core.queued| == |core.queuedKeys|
      && |core.rejected| == |core.rejectedKeys|
      && |core.rejected| + |core.queued| <= 1024
      && core.queued.Keys !! core.rejected.Keys
      && core.queuedKeys.Keys !! core.rejectedKeys.Keys
      && (forall i | 0 <= i < |core.commands| ::
            && core.commands[i].commandId in core.queued
            && core.queued[core.commands[i].commandId] == core.commands[i]
            && core.commands[i].requestKey in core.queuedKeys
            && core.queuedKeys[core.commands[i].requestKey] == FingerprintOf(core.commands[i]))
    ensures Apply(Run(ops), next).raised != Some(QueueFull)
    ensures Apply(Run(ops), next).raised != Some(HistoryInvariantBroken)
    ensures !next.Deliver? ==> Apply(Run(ops), next).raised == None
  {
    EveryRunKeepsInv(ops);
    var core := Run(ops);
    StepKeepsInv(core, next);
    RejectedSizes(core);
    MapSizes(core.commands);
    MapMembers(core.commands);
  }

  // ---------- idempotency ----------

  /** Equal fingerprints mean equal in everything but the request time. */
  lemma SameFingerprint(c: TaskCommand, d: TaskCommand)
    ensures FingerprintOf(c) == FingerprintOf(d) <==> c == d.(requestedAt := c.requestedAt)
  {
  }

  lemma KnownOfQueued(core: Core, q: TaskCommand, c: TaskCommand)
    requires QueueAgrees(core) && q in core.commands
    requires c.commandId == q.commandId || c.requestKey == q.requestKey
    ensures Known(core, c) == Some(if FingerprintOf(c) == FingerprintOf(q) then None else Some(IdempotencyConflict))
  {
    MapMembers(core.commands);
    var i :| 0 <= i < |core.commands| && core.commands[i] == q;
    assert core.queued[q.commandId] == q && core.queuedKeys[q.requestKey] == FingerprintOf(q);
    if c.commandId in core.queued && FingerprintOf(core.queued[c.commandId]) == FingerprintOf(c) {
      var other := core.queued[c.commandId];
      var j :| 0 <= j < |core.commands| && core.commands[j] == other;
      assert core.queuedKeys[other.requestKey] == FingerprintOf(other);
    }
  }

  lemma RejectedLinks(core: Core)
    requires RejectedAgrees(core)
    ensures forall id | id in core.rejected ::
      var f := core.rejected[id]; f.requestKey in core.rejectedKeys && core.rejectedKeys[f.requestKey] == f
    ensures forall key | key in core.rejectedKeys ::
      var f := core.rejectedKeys[key]; f.commandId in core.rejected && core.rejected[f.commandId] == f
  {
    forall id | id in core.rejected
      ensures var f := core.rejected[id]; f.requestKey in core.rejectedKeys && core.rejectedKeys[f.requestKey] == f
    {
      assert core.rejected[id] in core.rejectedKeys.Values;
    }
    forall key | key in core.rejectedKeys
      ensures var f := core.rejectedKeys[key]; f.commandId in core.rejected && core.rejected[f.commandId] == f
    {
      assert core.rejectedKeys[key] in core.rejected.Values;
    }
  }

  lemma KnownOfRejected(core: Core, c: TaskCommand)
    requires QueueAgrees(core) && RejectedAgrees(core) && Disjoint(core)
    requires c.commandId in core.rejected || c.requestKey in core.rejectedKeys
    ensures Known(core, c) == Some(Some(
      if c.commandId in core.rejected && core.rejected[c.commandId] == FingerprintOf(c)
      then PreviouslyRejected else IdempotencyConflict))
  {
    MapMembers(core.commands);
    RejectedLinks(core);
    if c.commandId in core.queued {
      assert core.queued[c.commandId].requestKey in core.queuedKeys;
    } else if c.requestKey in core.queuedKeys {
      var i :| 0 <= i < |core.commands| && core.commands[i].requestKey == c.requestKey
            && core.queuedKeys[c.requestKey] == FingerprintOf(core.commands[i]);
      assert core.commands[i].commandId in core.queued;
    }
  }

  /** When dispatch and rejection are one step, a command once rejected is never enqueued again, under
      any mixture of ids and keys. */
  lemma {:induction false} ReuseOfRejected(ops: seq<Op>, c: TaskCommand, now: int)
    requires ValidCommand(c, now)
    requires c.commandId in Run(ops).rejected || c.requestKey in Run(ops).rejectedKeys
    ensures var core := Run(ops);
      AfterCommand(core, c, now) == Effect(core, Some(
        if c.commandId in core.rejected && core.rejected[c.commandId] == FingerprintOf(c)
        then PreviouslyRejected else IdempotencyConflict))
  {
    EveryRunKeepsInv(ops);
    KnownOfRejected(Run(ops), c);
  }

  // ---------- the slot reserved for KILL ----------

  lemma FullHistoryHasKill(core: Core)
    requires Inv(core) && RejectionCapacity(core) == 1024
    ensures (exists id :: id in core.queued && core.queued[id].commandType == KILL)
         || (exists id :: id in core.rejected && core.rejected[id].commandType == KILL)
  {
    var all := core.queued.Keys + core.rejected.Keys;
    assert |all| == 1024;
    if all <= NonKillIds(core) {
      SubsetSize(all, NonKillIds(core));
      assert false;
    } else {
      var id :| id in all && id !in NonKillIds(core);
    }
  }

  lemma SaturatedForKill(core: Core, c: TaskCommand, now: int)
    requires QueueAgrees(core) && c.commandType == KILL && AfterCommand(core, c, now).raised == Some(HistorySaturated)
    ensures RejectionCapacity(core) >= 1024
  {
    EvictionIsUnreachable(core, c, now);
  }

  /** When dispatch and rejection are one step, a KILL is refused as saturated only when a KILL already
      holds a slot. */
  lemma KillRefusedOnlyAfterKill(ops: seq<Op>, c: TaskCommand, now: int)
    requires c.commandType == KILL
    requires AfterCommand(Run(ops), c, now).raised == Some(HistorySaturated)
    ensures var core := Run(ops);
      || (exists id :: id in core.queued && core.queued[id].commandType == KILL)
      || (exists id :: id in core.rejected && core.rejected[id].commandType == KILL)
  {
    EveryRunKeepsInv(ops);
    SaturatedForKill(Run(ops), c, now);
    FullHistoryHasKill(Run(ops));
  }
}
