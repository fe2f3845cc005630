/**
 The transition log of every workflow run is one that the recovery endpoint serves: whatever the
 workflow went through, its log passes validation, and a client that resumes from any earlier token
 either receives every transition it missed or is told to take a snapshot.
 */
module ServedLog {
  import opened Common
  import opened CommandQueue
  import opened TransitionEngine
  import opened TaskWorkflow
  import opened TaskWorkflowLaws
  import opened WorkflowAdmission
  import opened ResumePaging

  /** The state a submission starts its workflow with. */
  predicate Created(a: Authority) {
    Fresh(a) && a.status == CREATED
  }

  predicate TokensAdmitted(f: Flow) {
    forall i | 0 <= i < |f.history.admitted| :: Token(f.history.admitted[i].commandId)
  }

  lemma CommandIsToken(core: Core, c: TaskCommand, now: int)
    ensures AfterCommand(core, c, now).core != core ==> Token(c.commandId)
  {
  }

  lemma OnlyValidAdmitted(f: Flow, e: Event)
    requires Enabled(f, e) && TokensAdmitted(f)
    ensures TokensAdmitted(Next(f, e))
  {
    match e
    case Delivery(c, now) => CommandIsToken(f.core, c, now);
    case Loop =>
    case PollEnds(status, now) =>
      if status.Some? && FollowupCommand(status.value).Some? {
        CommandIsToken(f.core, InternalCommand(f.current, FollowupCommand(status.value).value, now), now);
      }
    case ChildEnds(outcome, now) => CompleteAdmits(f, outcome, now);
  }

  lemma CompleteAdmits(f: Flow, outcome: Outcome, now: int)
    requires f.phase.InFlight? && TokensAdmitted(f)
    ensures TokensAdmitted(AfterComplete(f, outcome, now))
  {
    if outcome.Accepted? {
      var installed := AfterInstall(f, f.phase.command, outcome.next, now);
      assert installed.history.admitted == f.history.admitted;
      CommandIsToken(installed.core, InternalCommand(installed.current, COMPLETE, now), now);
    }
  }

  lemma {:induction false} EveryRunAdmitsTokens(initial: Authority, log: seq<Event>)
    ensures TokensAdmitted(RunFlow(initial, log))
  {
    if log != [] {
      var f := RunFlow(initial, log[..|log| - 1]);
      EveryRunAdmitsTokens(initial, log[..|log| - 1]);
      if Enabled(f, log[|log| - 1]) {
        OnlyValidAdmitted(f, log[|log| - 1]);
      }
    }
  }

  // ---------- status and size ----------

  predicate Consistent(a: Authority) {
    && (a.cursor == 0 ==> a.status == CREATED)
    && (a.events != [] ==> a.events[|a.events| - 1].to == a.status)
    && a.terminal == Terminal(a.status)
    && |a.processed| == a.cursor <= MAX_PROCESSED_COMMANDS
  }

  lemma NextConsistent(f: Flow, e: Event)
    requires Enabled(f, e) && OnceInv(f) && Consistent(f.current)
    ensures Consistent(Next(f, e).current)
  {
    if Applies(e) {
      AnswerApplies(f, e);
      FreshAnswer(f.current, f.phase.command, e.outcome.next);
    } else {
      OnlyAnswersApply(f, e);
    }
  }

  lemma {:induction false} EveryRunConsistent(initial: Authority, log: seq<Event>)
    requires Created(initial)
    ensures Consistent(RunFlow(initial, log).current)
  {
    if log != [] {
      var f := RunFlow(initial, log[..|log| - 1]);
      EveryRunConsistent(initial, log[..|log| - 1]);
      EveryRunOnce(initial, log[..|log| - 1]);
      if Enabled(f, log[|log| - 1]) {
        NextConsistent(f, log[|log| - 1]);
      }
    }
  }

  // ---------- the log is served ----------

  lemma AcceptedAreTokens(f: Flow, k: nat)
    requires Traced(f) && TokensAdmitted(f) && AppliedInv(f.current, f.history.accepted) && k < |f.history.accepted|
    ensures Token(f.history.accepted[k].commandId)
  {
    var c := f.history.accepted[k];
    assert Somewhere(f.history.admitted, f.current.processed[c.commandId]);
    var i :| 0 <= i < |f.history.admitted| && FingerprintOf(f.history.admitted[i]) == FingerprintOf(c);
    assert Token(f.history.admitted[i].commandId);
  }

  lemma LogIsWithin(f: Flow)
    requires Traced(f) && TokensAdmitted(f) && AppliedInv(f.current, f.history.accepted)
    requires LogOf(f.current, f.history.accepted)
    ensures Within(f.current.events, f.current.cursor)
  {
    var a := f.current;
    forall i | 0 <= i < |a.events|
      ensures 1 <= a.events[i].cursor <= a.cursor && Token(a.events[i].commandId)
    {
      AcceptedAreTokens(f, a.events[i].cursor - 1);
    }
  }

  /** Every workflow's log passes validation, and nothing is missing between its first event and the
      recovery cursor. */
  lemma {:induction false} EveryLogIsServed(initial: Authority, log: seq<Event>)
    requires Created(initial)
    ensures ValidLog(RunFlow(initial, log).current) && Contiguous(RunFlow(initial, log).current)
  {
    var f := RunFlow(initial, log);
    EveryRunTraced(initial, log);
    EveryRunAdmitsTokens(initial, log);
    EveryRunApplied(initial, log);
    EveryRunLogs(initial, log);
    EveryRunConsistent(initial, log);
    LogIsWithin(f);
    assert f.current.cursor > 0 ==> f.current.events[|f.current.events| - 1].cursor == f.current.cursor;
  }

  /** Resuming a workflow's log from any token the client may hold: the pages deliver, in order, exactly
      the transitions after the token that the log holds, and the first page asks for a snapshot
      exactly when the log no longer holds one of them, that is, when more than 1024 were missed. */
  lemma {:induction false} ResumeIsComplete(initial: Authority, log: seq<Event>, c: nat, limit: nat)
    requires Created(initial) && limit > 0 && c <= RunFlow(initial, log).current.cursor
    ensures var a := RunFlow(initial, log).current;
      && Rising(a.events) && Contents(Pages(a, c, limit)) == After(a.events, c)
      && (PageAfter(a, c, limit).snapshotRequired <==> c + MAX_EVENTS < a.cursor)
      && (!PageAfter(a, c, limit).snapshotRequired ==> |After(a.events, c)| == a.cursor - c)
  {
    var a := RunFlow(initial, log).current;
    EveryLogIsServed(initial, log);
    EveryRunLogs(initial, log);
    PagesDeliver(a, c, limit);
    FlagIffBeforeLog(a, c, limit);
    if c + MAX_EVENTS >= a.cursor {
      AfterFrom(a.events, c, c - (a.cursor - |a.events|));
    }
  }
}
