/**
 The healing branch of `control`: when a command was applied but its acceptance event was lost, the
 command is rebuilt from the transition log and stored only if it is the one that was applied.
 */
module ControlHealing {
  import opened Common
  import opened CommandQueue
  import Engine = TransitionEngine
  import opened TaskWorkflow
  import Laws = TaskWorkflowLaws
  import opened WorkflowAdmission
  import opened ActionStore
  import opened IngressProtocol

  // ---------- the events under one id ----------

  lemma {:induction false} NoCandidates(events: seq<Engine.TransitionEvent>, id: string)
    requires forall k | 0 <= k < |events| :: events[k].commandId != id
    ensures Candidates(events, id) == []
  {
    if events != [] {
      NoCandidates(events[1..], id);
    }
  }

  lemma {:induction false} OneCandidate(events: seq<Engine.TransitionEvent>, id: string, k: nat)
    requires k < |events| && events[k].commandId == id
    requires forall j | 0 <= j < |events| && j != k :: events[j].commandId != id
    ensures Candidates(events, id) == [events[k].cursor]
  {
    if k == 0 {
      NoCandidates(events[1..], id);
    } else {
      OneCandidate(events[1..], id, k - 1);
    }
  }

  predicate OnlyAt(accepted: seq<TaskCommand>, id: string, p: nat) {
    && p < |accepted| && accepted[p].commandId == id
    && forall q | 0 <= q < |accepted| && q != p :: accepted[q].commandId != id
  }

  lemma AppliedAt(a: Engine.Authority, accepted: seq<TaskCommand>, id: string) returns (p: nat)
    requires Laws.AppliedInv(a, accepted) && id in a.processed && a.processed[id].commandId == id
    ensures OnlyAt(accepted, id, p) && a.processed[id].expectedStateVersion == p
  {
    assert Laws.Somewhere(accepted, a.processed[id]);
    p :| 0 <= p < |accepted| && FingerprintOf(accepted[p]) == a.processed[id];
  }

  lemma LogNames(a: Engine.Authority, accepted: seq<TaskCommand>, id: string, p: nat)
    requires LogOf(a, accepted) && OnlyAt(accepted, id, p)
    ensures Candidates(a.events, id) == if p + |a.events| >= |accepted| then [p + 1] else []
  {
    var first := |accepted| - |a.events|;
    forall k | 0 <= k < |a.events|
      ensures first + k != p ==> a.events[k].commandId != id
    {
      assert a.events[k].cursor - 1 == first + k;
    }
    if p >= first {
      assert a.events[p - first].cursor - 1 == p;
      OneCandidate(a.events, id, p - first);
    } else {
      NoCandidates(a.events, id);
    }
  }

  /** Every processed fingerprint is filed under its own command id. */
  predicate FiledById(a: Engine.Authority) {
    forall id | id in a.processed :: a.processed[id].commandId == id
  }

  lemma {:induction false} EveryRunFiled(initial: Engine.Authority, log: seq<Laws.Event>)
    requires Fresh(initial)
    ensures FiledById(Laws.RunFlow(initial, log).current)
  {
    if log != [] {
      var f := Laws.RunFlow(initial, log[..|log| - 1]);
      var e := log[|log| - 1];
      EveryRunFiled(initial, log[..|log| - 1]);
      if Laws.Enabled(f, e) {
        if Laws.Applies(e) {
          Laws.AnswerApplies(f, e);
        } else {
          Laws.OnlyAnswersApply(f, e);
        }
      }
    }
  }

  lemma RunAppliedAt(initial: Engine.Authority, log: seq<Laws.Event>, id: string) returns (p: nat)
    requires Fresh(initial) && id in Laws.RunFlow(initial, log).current.processed
    ensures OnlyAt(Laws.RunFlow(initial, log).history.accepted, id, p)
    ensures Laws.RunFlow(initial, log).current.processed[id].expectedStateVersion == p
  {
    Laws.EveryRunApplied(initial, log);
    EveryRunFiled(initial, log);
    p := AppliedAt(Laws.RunFlow(initial, log).current, Laws.RunFlow(initial, log).history.accepted, id);
  }

  lemma {:induction false} RunNames(initial: Engine.Authority, log: seq<Laws.Event>, id: string, p: nat)
    requires Fresh(initial) && OnlyAt(Laws.RunFlow(initial, log).history.accepted, id, p)
    ensures var a := Laws.RunFlow(initial, log).current;
      p < a.cursor && Candidates(a.events, id) == if p + Engine.MAX_EVENTS >= a.cursor then [p + 1] else []
  {
    EveryRunLogs(initial, log);
    LogNames(Laws.RunFlow(initial, log).current, Laws.RunFlow(initial, log).history.accepted, id, p);
  }

  /** In every run the log names an applied command once, under the version after its own, while it is
      among the last 1024 applied; after that it does not name it. */
  lemma {:induction false} CandidateIsVersion(initial: Engine.Authority, log: seq<Laws.Event>, id: string)
    requires Fresh(initial) && id in Laws.RunFlow(initial, log).current.processed
    ensures var a := Laws.RunFlow(initial, log).current; var v := a.processed[id].expectedStateVersion;
      && 0 <= v < a.cursor
      && Candidates(a.events, id) == if v + Engine.MAX_EVENTS >= a.cursor then [v + 1] else []
  {
    var p := RunAppliedAt(initial, log, id);
    RunNames(initial, log, id, p);
  }

  // ---------- the decision ----------

  /** The request's own command at the version that the applied one named. */
  function Replay(e: Envelope, r: Request, version: int, clock: int): TaskCommand
    requires r.Control?
  {
    MakeCommand(e, r.commandType, r.owner, ResolvedId(r), ResolvedId(r), version, clock)
  }

  /** An applied command without its event is healed exactly when it is among the last 1024 applied and
      is the request's own command, whatever version it named; what is stored is that very command.
      Older ones are refused for want of evidence, others as conflicts. */
  lemma HealsExactly(w: World, e: Envelope, r: Request, wf: Instance, clock: int)
    requires r.Control? && Fresh(wf.initial)
    requires ResolvedId(r) in ViewOf(wf).current.processed && ResolvedId(r) !in ViewOf(wf).rejected
    requires Find(w.stream, e.tenant, e.task, ResolvedId(r)).None?
    ensures var a := ViewOf(wf).current; var p := a.processed[ResolvedId(r)];
      ControlDecision(w, e, r, ViewOf(wf), clock)
        == if p.expectedStateVersion + Engine.MAX_EVENTS < a.cursor then Raised(EvidenceMissing)
           else if p == FingerprintOf(Replay(e, r, p.expectedStateVersion, clock)) then
             Appending(Replay(e, r, p.expectedStateVersion, clock), Answer)
           else Raised(IdConflict)
  {
    EveryRunFiled(wf.initial, wf.log);
    CandidateIsVersion(wf.initial, wf.log, ResolvedId(r));
  }
}
