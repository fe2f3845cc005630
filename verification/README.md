# Verified models of the AgentTrust control plane

A Dafny 4.11 project that models seven parts of the repository and proves properties of them.
`dafny verify dfyconfig.toml` checks everything.

| part | modules |
|---|---|
| Durable command queue and workflow loop (`python/durable_worker/worker.py`) | `CommandQueue`, `CommandQueueLaws`, `TransitionEngine`, `TaskWorkflow`, `TaskWorkflowLaws`, `WorkflowQueue`, `WorkflowFailures`, `HistoryOverflow`, `KillReserve`, `WorkflowAdmission`, `WorkflowFollowUps`, `RejectionLog` |
| Ingress across PostgreSQL and Temporal (`python/durable_worker/orchestrator_api.py`) | `ActionStore`, `IngressProtocol`, `IngressLaws`, `IngressGuarantees`, `IngressOwners`, `StartSkew`, `ControlHealing`, `ResumePaging`, `ServedLog` |
| Blue/green cutover chain (`python/production_gates/deployment_cutover.py`, `deployment_cutover_broker.py`) | `Cutover`, `CutoverChain`, `CutoverLaws`, `CutoverAuthority`, `CutoverBroker`, `CutoverSample` |
| Rust source checks (`scripts/rust_source_checks.py`) | `TextScan`, `NestedComments`, `RustLexer`, `RustGrammar`, `RustTokens`, `RustTokenizer`, `RustRoundTrip`, `RustDelimiters` |
| SQL migration checks (`scripts/validate-production-migrations.py`) | `SqlLexer`, `SqlErasure`, `SqlPieces`, `TransactionBoundary`, `TransactionWords`, `TransactionReading`, `LetterCase`, `SqlIdentifiers`, `DollarSample` |
| Build order (`python/production_gates/dependency_dag.py`) | `Sorting`, `KahnOrder`, `DependencyDag`, `DagOrder` |
| Blue/green stack (`python/production_gates/blue_green_stack.py`) | `ResourceNames`, `StackTree`, `BlueGreenStack`, `StackPlan`, `StackLaws`, `StackSelection`, `StackSample` |
| Energy planner (`python/energy_planner/planner.py`) | `EnergyPlanner`, `GreedyPlan` |

Code that changes state is a class or a method with loops, proved equal to a function of the old
state or the input; the laws are proved about those functions, over every input, every run or every
reachable world.

## Assumptions

- SHA-256 is collision-free: a digest is modelled as the value it was taken of, and the all-zero
  digest as the digest of nothing. Ed25519 signatures verify exactly under their own key and payload.
- The transition service answers as `rust/crates/durable-orchestrator/src/runtime.rs:167-373` does: a
  known command with the unchanged state, a new one only at the version it names.
- A start under the id of a running workflow has one of two answers, which is an input: it reports
  `WorkflowAlreadyStarted`, as `orchestrator_api.py:929-933` expects of the Temporal client, or it joins the
  workflow, which gets the first signal (`IngressProtocol.Join`). Only the rows that say so take the first answer.
- The uniqueness constraints and the status trigger of the ingress tables are those of the two
  orchestrator migrations cited below; an advisory lock excludes other holders of the same command id.
- Times are integers; the two clocks of the ingress and of the workflow are independent inputs.

## Where the code does not keep a stated property

The first three come from admission guards that do not look at the command in flight
(`worker.py:93-124`); they hold of a queue in which dispatch and rejection are one step.

- The rejection history is kept within 1025 slots, not 1024, and `ORCHESTRATOR_REJECTION_HISTORY_INVARIANT_BROKEN`
  is reachable: `HistoryOverflow.BrokenHistoryIsReachable` is the run, `HistoryOverflow.RefusalBreaksHistoryIff`
  the exact condition.
- The slot reserved for KILL can go to an ordinary command, and the first KILL is then refused as saturated:
  `KillReserve.FirstKillIsRefused` is the run, `KillReserve.FirstKillAdmittedIff` the exact condition, and
  `KillReserve.ReserveLostIff` says which event gives the slot away.
- A command redelivered while it is in flight is queued again. If the first copy is refused, it is recorded as
  rejected and acknowledged all the same, runs a second time, and may be applied:
  `WorkflowQueue.RejectedIsApplied` is the run, `WorkflowQueue.ReuseOfRejectedIff` the exact condition for
  reporting a rejected id or key, and `WorkflowQueue.SeparationLostIff` says how one comes to be queued as well.
- A START delivered with the start signal is lost when the workflow's queue refuses it: in a new workflow exactly when
  the ingress clock is more than five minutes ahead (`IngressLaws.StartHeard`). The submission is answered and its event
  stored all the same: `StartSkew.AnsweredAlthoughLost` is the run. No other event can be lost (`IngressGuarantees.EventsAreHeard`).
- A start that joins a running workflow skips the comparison of `orchestrator_api.py:327-336`, so the submission is
  answered whatever that workflow is bound to: `StartSkew.AnsweredAlthoughForeign` is the run, `IngressGuarantees.LoneJoin`
  the exact condition for an answer. A row that is no longer pending has the workflow of its own envelope exactly when its
  envelope is not misled (`IngressGuarantees.RowsTellTheTruth`), and `IngressGuarantees.MisledIff` says which events mislead:
  the starts of that very envelope that join a workflow bound to something else.
- The planner's ramp limit is not kept by a step that the charge limits override:
  `EnergyPlanner.RampBroken` is an input, `EnergyPlanner.RampKeptIff` the exact condition for a step and
  `EnergyPlanner.PlanKeepsRampIff` for a plan.
- A dangling reference can be captured by the renaming of a stack: `StackSample.SampleCapture` is a stack,
  `StackLaws.ResolutionKept` the exact condition for a name and `StackLaws.ReferenceResolves` for a reference in its document.
- A selector may lose its pods, which get the new release id and revision while it goes on asking for another
  release id or for no revision: `StackSample.ReleaseIdLosesPods` and `StackSample.NoRevisionLosesPods` are stacks,
  `StackSelection.StillSelectsIff` the exact condition.
- The SQL lexer starts a dollar quote inside an identifier such as `a$b$`, which section 4.1.2.4 of the
  PostgreSQL manual excludes, and starts none whose tag has a letter outside of ASCII, which the manual allows.
  `DollarSample.CodeIsHidden` is a family of files that are accepted whatever statements they hold, `DollarSample.CommitIsHidden`
  one of them; `DollarSample.TagHidesCode` and `DollarSample.CodeStandsOpen` are a family of texts in which such a tag hides
  code from the lexer. `SqlIdentifiers.AgreesIffSeparated` is the exact condition for the
  lexer to read a text as the manual does, and `SqlIdentifiers.AcceptedWhereSeparated` what acceptance then means.

## Model

| member | source | states |
|---|---|---|
| CommandQueue.TaskWorkflowCore.Command | python/durable_worker/worker.py:93-153 | Admission leaves exactly the state and error of `AfterCommand`: idempotency maps, saturation, KILL at the front, eviction. |
| CommandQueue.TaskWorkflowCore.RecordRejection | python/durable_worker/worker.py:155-193 | A rejection is recorded in both maps and the bounded log, or raises and changes nothing. |
| CommandQueue.TaskWorkflowCore.RejectQueuedAfterTerminal | python/durable_worker/worker.py:195-202 | Termination drains the queue into the rejection history, stopping at the first error. |
| CommandQueueLaws.EvictionIsUnreachable | python/durable_worker/worker.py:119-149 | Whenever deque and maps agree, the saturation guard decides first: the eviction branch and QUEUE_FULL never happen. |
| CommandQueueLaws.EveryReachableState | python/durable_worker/worker.py:93-202 | When dispatch and rejection are one step: in every run, deque and both queued maps describe the same commands, queued and rejected ids and keys are disjoint, rejected maps have equal size, and rejected plus queued is at most 1024; no operation raises QUEUE_FULL or a broken history. With a command in flight the bound is 1025 (`TaskWorkflowLaws.Conservation`) and the error reachable (`HistoryOverflow`). |
| CommandQueueLaws.EveryRunKeepsInv | python/durable_worker/worker.py:93-202 | When dispatch and rejection are one step, the representation invariant is inductive over deliveries, dispatches and termination. |
| CommandQueueLaws.ReuseOfRejected | python/durable_worker/worker.py:111-118 | When dispatch and rejection are one step, a rejected id or key is never admitted again: the same command is reported as previously rejected, another as a conflict. For the loop see `WorkflowQueue.ReuseOfRejectedIff`. |
| CommandQueueLaws.KillRefusedOnlyAfterKill | python/durable_worker/worker.py:119-124 | When dispatch and rejection are one step, a KILL is refused as saturated only when an earlier KILL already holds a slot. For the loop see `KillReserve`. |
| CommandQueueLaws.DrainKeepsIds | python/durable_worker/worker.py:195-202 | Termination loses no id: every queued command becomes a rejected one. |
| CommandQueueLaws.DrainKeepsInv | python/durable_worker/worker.py:195-202 | Termination never raises, empties the queue and keeps the invariant. |
| TransitionEngine.FreshAnswer | rust/crates/durable-orchestrator/src/runtime.rs:167-317 | An answer to an unknown command passes the client's checks, names the current version, and adds exactly that command. |
| TransitionEngine.FreshIff | rust/crates/durable-orchestrator/src/runtime.rs:213-317 | A new command is granted exactly by the status table, at the current version and within the capacity kept for its kind; it moves the cursor by one, is recorded under id and key, and is logged as the latest of 1024 transitions. |
| TaskWorkflow.Workflow.Advance | python/durable_worker/worker.py:715-770 | The loop up to its next await: finish, poll, skip a processed duplicate, raise on a conflict, or put one command in flight. |
| TaskWorkflow.Workflow.Complete | python/durable_worker/worker.py:771-802 | The end of a child workflow: reject, or install the new state, drain when terminal, set the execution flag and enqueue COMPLETE after VERIFY. |
| TaskWorkflow.Workflow.Deliver | python/durable_worker/worker.py:851-862 | A command update admits the command or reports its error. |
| TaskWorkflow.Workflow.Polled | python/durable_worker/worker.py:716-747 | The end of an execution poll: nothing, or the follow-up command of the execution status (which command that is: `WorkflowFollowUps`). |
| TaskWorkflow.Workflow.EnqueueInternal | python/durable_worker/worker.py:804-817 | An internal command passes the same admission; an error ends the run. |
| TaskWorkflowLaws.Conservation | python/durable_worker/worker.py:748-795 | Over every interleaving, unless the run raised, every admitted command is queued, in flight, accepted, skipped as an accepted duplicate or recorded as rejected; rejected plus queued plus in flight is at most 1025. |
| TaskWorkflowLaws.AtMostOnce | python/durable_worker/worker.py:748-793 | In every run, raised or not, no id or key is accepted twice; the k-th accepted command names version k and the cursor counts them. |
| WorkflowQueue.EveryRunAgrees | python/durable_worker/worker.py:93-202 | In every run of the loop, raised or not, deque and queued maps describe the same commands and both rejected maps the same rejections. |
| WorkflowQueue.EveryRunKeepsOrder | python/durable_worker/worker.py:125-153 | In every run of the loop the deque is a block of KILLs, newest first, then the other commands in order of admission. |
| WorkflowQueue.ReuseOfQueued | python/durable_worker/worker.py:99-110 | In every run of the loop, redelivering a queued command that differs only in its request time silently changes nothing; any other reuse of its id or key raises a conflict and changes nothing. |
| WorkflowQueue.ReuseOfRejectedIff | python/durable_worker/worker.py:99-118 | In every run of the loop a rejected id or key changes nothing; it is reported as previously rejected exactly when it is the rejected command and neither id nor key is queued, and acknowledged exactly when the command is queued again. |
| WorkflowQueue.SeparationLostIff | python/durable_worker/worker.py:748-785 | An id or key comes to be both rejected and queued exactly when a command is refused that was redelivered in flight. |
| WorkflowQueue.EveryOrderlyRun | python/durable_worker/worker.py:748-795 | Without such redelivery no id or key is ever queued, in flight and rejected at once, and until the task ends no applied command is recorded as rejected. |
| WorkflowQueue.RejectedIsApplied | python/durable_worker/worker.py:748-785 | A run in which a command is recorded as rejected, acknowledged again, and then applied. |
| WorkflowFailures.DrainRaises | python/durable_worker/worker.py:195-202 | Within 1024 slots a drain raises exactly on a queued command that contradicts a rejected one. |
| WorkflowFailures.RunRaisesIff | python/durable_worker/worker.py:715-817 | For every error, a run has raised it exactly when one of its events meets the condition that `FailureOf` gives for it: a popped command that contradicts an applied one, a refused or drained one that contradicts a rejected one, a full history, or an internal command that is not admitted. |
| KillReserve.FirstKillAdmittedIff | python/durable_worker/worker.py:119-124 | While no KILL is queued, in flight or recorded, a new KILL is admitted exactly when a command is in flight or at most 1023 slots are taken. |
| KillReserve.ReserveLostIff | python/durable_worker/worker.py:119-124 | The slot kept for it is lost exactly when an ordinary command is admitted beside one in flight while 1022 others are queued or recorded. |
| KillReserve.KillRefusedOnlyIf | python/durable_worker/worker.py:119-124 | In every run of the loop a KILL is refused as saturated only if another KILL is held or such an event has happened. |
| KillReserve.FirstKillIsRefused | python/durable_worker/worker.py:119-124 | A run of the loop without any KILL in which the first one is refused as saturated. |
| HistoryOverflow.BrokenHistoryIsReachable | python/durable_worker/worker.py:119-124 | A run of the loop that ends in the broken-history error. |
| HistoryOverflow.RefusalBreaksHistoryIff | python/durable_worker/worker.py:172-181 | A refusal breaks the history exactly when 1024 are recorded and the command is not among them. |
| HistoryOverflow.SafeWithinSlots | python/durable_worker/worker.py:172-181 | With the command in flight counted within 1024 slots it cannot. |
| WorkflowAdmission.EveryRunTraced | python/durable_worker/worker.py:748-795 | Every queued, in-flight and processed fingerprint of any run, failed ones included, belongs to an admitted command. |
| WorkflowAdmission.DeliverTraced | python/durable_worker/worker.py:851-862 | An acknowledged update leaves its command admitted. |
| WorkflowAdmission.EveryRunLogs | rust/crates/durable-orchestrator/src/runtime.rs:213-317 | The transition log is the last 1024 accepted commands with contiguous cursors ending at the recovery cursor. |
| WorkflowFollowUps.RunningGoesOn | python/durable_worker/worker.py:734-747 | After any run, a poll that finds the execution prepared, running or compensating changes nothing. |
| WorkflowFollowUps.SuccessIsVerified | python/durable_worker/worker.py:293-309 | After any run, a poll that finds SUCCEEDED clears the execution flag and enqueues VERIFY, under its id `system:verify:`, or ends the run with the error of that admission. |
| WorkflowFollowUps.KilledIsContained | python/durable_worker/worker.py:293-309 | So does STEP_KILLED with KILL. |
| WorkflowFollowUps.FailureNeedsHuman | python/durable_worker/worker.py:293-309 | So does each of the other six final statuses with NEEDS_HUMAN. |
| WorkflowFollowUps.AcceptedFollows | python/durable_worker/worker.py:771-795 | After any run, an accepted command sets, keeps or clears the execution flag by its type and the status it led to, and COMPLETE is enqueued exactly after a VERIFY into VERIFYING. |
| WorkflowFollowUps.EveryAdmissionIsBrought | python/durable_worker/worker.py:715-817 | Every command that a run has admitted was brought by one of its events: delivered, a follow-up of a poll in the status that asks for it, or COMPLETE after a VERIFY. |
| WorkflowFollowUps.ExecutesIff | python/durable_worker/worker.py:782-791 | In every run the execution flag is set exactly when a START or RESUME into RUNNING was accepted and since then no PAUSE, CANCEL, KILL or NEEDS_HUMAN, no terminal state and no follow-up. |
| WorkflowFollowUps.LoopPolls | python/durable_worker/worker.py:716-734 | After any run, an idle loop polls exactly while the flag is set. |
| RejectionLog.InvalidIff | python/durable_worker/worker.py:47-78 | A command is refused as invalid exactly when a field is not in its form or its time is more than five minutes ahead. |
| RejectionLog.AdmittedIsValid | python/durable_worker/worker.py:93-98 | Every command that a run has admitted has that form. |
| RejectionLog.EveryRefusalIsLogged | python/durable_worker/worker.py:155-202 | After any run, an event that does not end the run adds exactly the refused command, or the drained ones in order, with code and time to the log of the latest 1024 rejections. |
| ActionStore.PostgresActionStore.Admit | python/durable_worker/orchestrator_api.py:748-772 | Admission returns the existing row of the same envelope, refuses another envelope, or inserts a row. |
| ActionStore.PostgresActionStore.MarkWorkflowStarted | python/durable_worker/orchestrator_api.py:774-783 | PENDING or CREATED becomes CREATED, anything else is a conflict. |
| ActionStore.PostgresActionStore.MarkStartRequested | python/durable_worker/orchestrator_api.py:785-795 | CREATED or START_REQUESTED becomes START_REQUESTED, anything else is a conflict. |
| ActionStore.PostgresActionStore.AppendEvent | python/durable_worker/orchestrator_api.py:814-864 | An event is inserted unless its slot is taken; the answer is what the slot holds, or a conflict of fingerprints. |
| ActionStore.AppendIsIdempotent | python/durable_worker/orchestrator_api.py:814-864 | Every later append to a slot, whatever happened in between, gives the first answer or a conflict and stores nothing. |
| ActionStore.AppendKeepsOnce | migrations/orchestrator/0036_01_24_production_orchestrator_hardening.sql:69-72 | A slot of tenant, task and command id is filled at most once. |
| ActionStore.AdmitKeepsUnique | migrations/orchestrator/0029_02_production_ingress.sql:2-8 | Admission keeps action, task and key unique within a tenant. |
| IngressLaws.NextKeepsInv | python/durable_worker/orchestrator_api.py:293-500 | Every step of every client, joining start, crash, foreign start or workflow event keeps the invariant and only extends tables and workflows. |
| IngressLaws.EveryWorld | python/durable_worker/orchestrator_api.py:293-500 | The invariant holds in every world reachable by any interleaving of submit, control and bff_command clients. |
| IngressLaws.AlwaysProper | python/durable_worker/orchestrator_api.py:293-500 | No client of a reachable world is ever at a call its request does not make. |
| IngressLaws.StartHeard | python/durable_worker/orchestrator_api.py:322-336 | A new workflow admits its START exactly when the ingress clock is at most five minutes ahead. |
| IngressLaws.UpdateHeard | python/durable_worker/orchestrator_api.py:338-343 | A workflow that accepts an update has admitted its command. |
| IngressLaws.InsertStep | python/durable_worker/orchestrator_api.py:824-853 | What a client found under the advisory lock is still what the table holds when it inserts. |
| IngressGuarantees.StatusMovesForward | migrations/orchestrator/0036_01_24_production_orchestrator_hardening.sql:87-92 | One event of a run moves a status at most one step, PENDING_WORKFLOW to CREATED to START_REQUESTED; no row and no event is lost. |
| IngressGuarantees.RowsTellTheTruth | python/durable_worker/orchestrator_api.py:293-347 | A row that is no longer pending has a workflow under its id, bound to its own envelope exactly when that is not misled; a START_REQUESTED row has its START event, exactly once. |
| IngressGuarantees.MisledIff | python/durable_worker/orchestrator_api.py:322-336 | An envelope is misled in a run exactly when some event of it was a start of that envelope joining a workflow bound to something else; joins of its own workflow, by retries or concurrent submitters, mislead nobody. |
| IngressGuarantees.EventsAreHeard | python/durable_worker/orchestrator_api.py:338-347 | Every event is stored once and its workflow admitted the command, except a START that the workflow's queue refused. |
| IngressGuarantees.ReceiptsAgree | python/durable_worker/orchestrator_api.py:1222-1249 | All answers about one tenant, task and command id are equal, whoever asked. |
| IngressGuarantees.SubmissionsAgree | python/durable_worker/orchestrator_api.py:293-372 | Accepted submissions under one tenant and idempotency key had the same envelope and get the same answer. |
| IngressGuarantees.ControlsAgree | python/durable_worker/orchestrator_api.py:394-500 | Successful control calls for one action and command id get the same answer. |
| IngressGuarantees.EveryLockIsOwned | python/durable_worker/orchestrator_api.py:824-826 | Every held lock belongs to a client between its look-up and its insert, so crashes leave none behind. |
| IngressGuarantees.LoneRetry | python/durable_worker/orchestrator_api.py:293-372 | From every world that runs, crashes and joining starts leave behind, a submission that runs alone, its start reporting a taken id, is answered within eleven calls exactly when `Answerable`: its row is its own or free; unless START is already requested no other event fills START's slot; while pending the workflow is unstarted, or bound to the envelope and takes START; and once created the workflow takes START. |
| IngressGuarantees.LoneJoin | python/durable_worker/orchestrator_api.py:322-347 | If its start joins a running workflow instead, it is answered within eight calls more exactly when no other event fills START's slot. |
| IngressGuarantees.AcceptsStart | python/durable_worker/orchestrator_api.py:338-343 | The queue of any workflow takes a START exactly when its clock is at most five minutes ahead and START is queued already, or its id and key are neither queued nor rejected and fewer than 1023 commands are. |
| IngressOwners.PastIsOwner | python/durable_worker/orchestrator_api.py:394-405 | In every reachable world a control or BFF client that is past its look-up, or has returned, has a row of its own tenant and action (or task) whose envelope its own subject owns. |
| IngressOwners.StrangerIsTurnedAway | python/durable_worker/orchestrator_api.py:402-405 | A client whose subject does not own the row never gets past the look-up; that step ends in NOT_FOUND and changes no row, event, lock or workflow. |
| IngressOwners.ControlIsAsked | python/durable_worker/orchestrator_api.py:406-487 | What a control client sends is of the type and the subject of its request, under the resolved id, to the workflow of its own action. |
| IngressOwners.BffIsAsked | python/durable_worker/orchestrator_api.py:609-668 | What a BFF client sends is its request, field by field, to the workflow of its own task. |
| IngressOwners.SubmissionIsAsked | python/durable_worker/orchestrator_api.py:338-347 | What an answered submission has stored is the START of its own envelope. |
| IngressOwners.BffDecides | python/durable_worker/orchestrator_api.py:625-668 | A BFF command is sent, refused, reported or healed exactly by what the workflow has queued, processed and rejected under its id and key, and its version. |
| IngressOwners.ControlDecides | python/durable_worker/orchestrator_api.py:410-487 | A control command is sent, refused or answered from its event exactly by what is stored, processed and rejected under its id. |
| StartSkew.AnsweredAlthoughLost | python/durable_worker/orchestrator_api.py:293-372 | For any two clocks a lone submission is answered with its row START_REQUESTED and its START stored, while the workflow has admitted nothing exactly when the ingress clock is more than five minutes ahead. |
| StartSkew.AnsweredAlthoughForeign | python/durable_worker/orchestrator_api.py:322-347 | For any workflow that runs already, whatever it is bound to, a lone submission whose start joins it is answered with its row START_REQUESTED and its START stored. |
| ControlHealing.HealsExactly | python/durable_worker/orchestrator_api.py:442-487 | A processed command without an event is healed exactly when it is among the last 1024 applied and is the request's own command, at the version it named; what is stored is that command. |
| ControlHealing.CandidateIsVersion | python/durable_worker/orchestrator_api.py:448-465 | The log names an applied command once, one version above its own, while it is among the last 1024. |
| ResumePaging.ValidateTransitions | python/durable_worker/orchestrator_api.py:1109-1167 | The loop accepts exactly the bounded, strictly rising logs that end at the state's cursor and status. |
| ResumePaging.AguiEvents | python/durable_worker/orchestrator_api.py:683-717 | A page after a resume token, or the error of the first check that fails. |
| ResumePaging.PagesDeliver | python/durable_worker/orchestrator_api.py:700-717 | Following the tokens delivers exactly the transitions after the first one, once each and in order, in as few pages as the limit allows. |
| ResumePaging.PagesEndAtCursor | python/durable_worker/orchestrator_api.py:712 | The last page leads to the recovery cursor, after which there is nothing. |
| ResumePaging.SnapshotIffMissing | python/durable_worker/orchestrator_api.py:713-715 | For a contiguous log the snapshot flag is raised exactly when a transition after the token is missing. |
| ServedLog.EveryLogIsServed | python/durable_worker/orchestrator_api.py:1109-1167 | The log of every workflow run passes this validation and is contiguous. |
| ServedLog.ResumeIsComplete | python/durable_worker/orchestrator_api.py:683-717 | A client of any workflow run receives every transition it missed, or is asked to take a snapshot exactly when more than 1024 were missed. |
| Cutover.ValidateInventory | python/production_gates/deployment_cutover.py:261-333 | The loops accept exactly the inventories in which traffic is on one revision and every workload is deployed once, fully ready, in each. |
| Cutover.ValidateKeyring | python/production_gates/deployment_cutover.py:406-465 | The loop accepts exactly the keyrings with distinct keys and signers and every role held, and returns their keys by id. |
| Cutover.VerifySignedReceipt | python/production_gates/deployment_cutover.py:609-659 | An envelope verifies exactly when its document is valid and signed under its own active key, in time and in role. |
| Cutover.Finalize | python/production_gates/deployment_cutover.py:552-606 | Finalization succeeds exactly when the request is current, the external signature fits it, and the envelope made of them verifies; it carries the requested document. |
| CutoverChain.VerifyTransitionChain | python/production_gates/deployment_cutover.py:662-771 | The loop accepts exactly the legal chains and reports their releases, final state, final digest and signers. |
| CutoverLaws.ChainLanguage | python/production_gates/deployment_cutover.py:691-758 | An accepted chain is CUTOVER, UNFREEZE ending TARGET_ACTIVE or CUTOVER, ROLLBACK, UNFREEZE ending SOURCE_ACTIVE, with writes fenced until the last receipt. |
| CutoverLaws.ChainIsBound | python/production_gates/deployment_cutover.py:705-719 | Each receipt names its predecessor's digest and the fence's, bears its kind's role, and all signers, the fence's included, are distinct. |
| CutoverLaws.ChainTimeline | python/production_gates/deployment_cutover.py:698-757 | fence measured, fence signed, then inventory observed, receipt observed, receipt signed for each link, strictly after the previous signature; every inventory used exactly once; less than 15 minutes 30 seconds in all. |
| CutoverLaws.FinalDigestCommits | python/production_gates/deployment_cutover.py:746-768 | Accepted chains with equal final digests have the same fence, receipts and inventories. |
| CutoverLaws.FinalInventoryIsReady | python/production_gates/deployment_cutover.py:292-333 | The last inventory shows all traffic on the active release and every workload of it fully ready in at least one replica. |
| CutoverAuthority.AcceptedIff | python/production_gates/deployment_cutover.py:609-659 | An envelope is accepted exactly when its document and the keyring are valid, it is addressed to this use, signed within the time of its document, and signed by a key of the keyring. |
| CutoverAuthority.AcceptedIsSigned | python/production_gates/deployment_cutover.py:632-658 | Then a key of the keyring has its key id and signer, is active, unrevoked and in force, holds the role of its kind, and the signature is that key's over exactly this kind, key id and document. |
| CutoverAuthority.AlteredIsRefused | python/production_gates/deployment_cutover.py:650-658 | With any other signature it is refused. |
| CutoverAuthority.SignatureBinds | python/production_gates/deployment_cutover.py:479-487 | Accepted envelopes with the same signature are of the same kind, document, key, signer and role. |
| CutoverAuthority.ChainIsSigned | python/production_gates/deployment_cutover.py:662-771 | The fence and every receipt of an accepted chain are signed in this way. |
| CutoverAuthority.ChainIsInScope | python/production_gates/deployment_cutover.py:662-771 | Each receipt names an inventory of the chain, shares releases and environment with it and the fence, and routes traffic to the revision of the side it leads to. |
| CutoverAuthority.NothingTwice | python/production_gates/deployment_cutover.py:662-771 | No signer, transition id or inventory occurs twice in an accepted chain. |
| CutoverAuthority.ReceiptIff | python/production_gates/deployment_cutover.py:336-404 | A transition receipt is valid exactly as one of four rows of kind, sequence, states and fence, with its own evidence and within its time. |
| CutoverAuthority.FenceIff | python/production_gates/deployment_cutover.py:206-259 | A fence is valid exactly when everything is drained, its backup is at most a day old and its evidence complete. |
| CutoverBroker.BrokerLinks | python/production_gates/deployment_cutover_broker.py:304-355 | Responses accepted one by one satisfy the release, environment, predecessor, fence, inventory and traffic conditions of every link. |
| CutoverBroker.ConductedChainIff | python/production_gates/deployment_cutover_broker.py:237-355 | A cutover conducted through the broker is accepted as a chain exactly when the remaining conditions hold: still valid, distinct signers and ids, states and times in step. |
| CutoverSample.BothWordsAreAccepted | python/production_gates/deployment_cutover.py:691-758 | Both words of the language are accepted: a cutover that stays and one that is rolled back, each conducted through the broker and verified as a chain. |
| NestedComments.BlockIsTree | scripts/rust_source_checks.py:165-181 | The depth counter stops exactly behind a comment of the nested-comment grammar. |
| RustTokenizer.Tokenize | scripts/rust_source_checks.py:156-231 | The cursor machine returns exactly the tokens of the lexical specification, or fails where it does. |
| RustTokenizer.NumericEnd | scripts/rust_source_checks.py:101-153 | The numeric cursor ends where the functional scan does, which `RustGrammar.NumberIff` characterizes. |
| RustGrammar.NumberIff | scripts/rust_source_checks.py:101-153 | The scan ends exactly behind a number of the grammar (based, or with fraction and power of ten, and a suffix) each of whose parts goes on as far as it can. |
| RustGrammar.CharacterIff | scripts/rust_source_checks.py:79-98 | The scan ends exactly behind a character literal of the grammar: a plain character, an escape, a hex escape or a Unicode escape. |
| RustGrammar.UnterminatedIff | scripts/rust_source_checks.py:79-98 | It fails exactly on an escape that the text breaks off. |
| RustTokens.StepIff | scripts/rust_source_checks.py:49-231 | One step of the lexer emits n characters exactly when they are a token of the grammar in front of what follows: raw string, string with escapes, character, raw identifier, identifier, number, longest listed punctuation or one symbol, each as long as it can be and not the beginning of another. |
| RustTokens.TokensIff | scripts/rust_source_checks.py:156-231 | The lexer returns tokens exactly for the texts that are a row of blanks, comments and tokens of the grammar, and then exactly these tokens in order. |
| RustTokens.EveryToken | scripts/rust_source_checks.py:156-231 | Each returned token stands in the text and is the token of the grammar in front of what follows it. |
| RustTokens.PunctuationIff | scripts/rust_source_checks.py:224-230 | The longest listed punctuation is taken, or one character if none is listed. |
| RustTokens.ClassesIff | scripts/rust_source_checks.py:41-46 | Which characters begin and continue words, and which are blanks and digits. |
| RustTokenizer.RawStringEnd | scripts/rust_source_checks.py:61-76 | A raw string ends behind its quote and hashes, or is not one, or fails. |
| RustTokenizer.CharacterEnd | scripts/rust_source_checks.py:79-98 | The cursor ends where the functional scan of character literals does, which `RustGrammar.CharacterIff` characterizes; lifetimes are none. |
| RustTokenizer.TokensCoverSource | scripts/rust_source_checks.py:156-231 | The source is the tokens, each a non-empty slice, interleaved with gaps. |
| RustTokenizer.GapsAreEmpty | scripts/rust_source_checks.py:156-231 | Each gap lexes to no token at all. |
| RustRoundTrip.RoundTrip | scripts/rust_source_checks.py:49-231 | Tokens joined by newlines lex to the same tokens, on every input that lexes. |
| RustRoundTrip.StepLocal | scripts/rust_source_checks.py:156-231 | What a token is depends only on its own text and a delimiter behind it. |
| RustDelimiters.MatchingDelimiter | scripts/rust_source_checks.py:248-262 | The stack loop returns the match of the specification. |
| RustDelimiters.MatchIsEnclosing | scripts/rust_source_checks.py:248-262 | The match is j exactly when the tokens from the opening to j are a well-nested word with that outer pair. |
| RustDelimiters.UnmatchedMeansNone | scripts/rust_source_checks.py:248-262 | There is no match exactly when there is no such j. |
| RustDelimiters.ExtractFunctions | scripts/rust_source_checks.py:307-348 | The scan returns exactly the definitions of that name, in source order: `fn name (`, a well-nested parameter list, a signature without semicolon or opening brace outside groups, and a well-nested body. |
| RustDelimiters.ExtractedBodiesNest | scripts/rust_source_checks.py:307-348 | Every extracted body is well nested. |
| RustDelimiters.TopLevelKeys | scripts/rust_source_checks.py:265-304 | The keys collected are exactly those at the top level of the object. |
| RustDelimiters.JsonObjectKeySets | scripts/rust_source_checks.py:265-304 | One key set for every matched object that has the required keys, in order. |
| SqlLexer.LexVisibleSql | scripts/validate-production-migrations.py:183-279 | The position, state and depth machine computes the specified visible text, or fails where it does. |
| SqlErasure.ErasureKeepsLineEnds | scripts/validate-production-migrations.py:183-279 | The visible text has exactly the line feeds of the source. |
| SqlErasure.ErasureIsFixed | scripts/validate-production-migrations.py:183-279 | The visible text is a fixed point of the lexer. |
| SqlPieces.LexIsErasure | scripts/validate-production-migrations.py:183-279 | The lexer succeeds exactly on sequences of code, comments, literals and dollar quotes, and returns their erasure. |
| SqlPieces.DelimiterIff | scripts/validate-production-migrations.py:55 | Which texts are dollar delimiters, character by character. |
| SqlPieces.ErasedIsBlank | scripts/validate-production-migrations.py:183-279 | Of a comment or a literal only blanks and line ends are shown, and never nothing, so that no words are joined. |
| TransactionBoundary.ValidateTransactionBoundary | scripts/validate-production-migrations.py:282-320 | A file is accepted exactly when its visible statements hold no transaction statement, or are BEGIN first, COMMIT last and none between, each alone on its line in the source. |
| TransactionBoundary.WrappedIff | scripts/validate-production-migrations.py:306-319 | The filtered statements being BEGIN and COMMIT at both ends is the same as no transaction statement in between. |
| TransactionReading.AcceptedIff | scripts/validate-production-migrations.py:282-320 | In terms of letters, a file is accepted exactly when it has no backslash, its visible control lines are bare, and its visible statements, not all blank, hold none of the nine commands or are one transaction whose BEGIN; and COMMIT; are the only control lines. |
| TransactionReading.OnlyOneTransaction | scripts/validate-production-migrations.py:295-319 | If a visible statement of an accepted file begins with one of the nine commands, each letter in either case, the first statement is BEGIN, the last is COMMIT, and it is one of the two. |
| TransactionWords.TransactionIff | scripts/validate-production-migrations.py:49-54 | A transaction statement is one that begins with one of nine commands, spelled letter by letter in either case. |
| TransactionWords.SplitIff | scripts/validate-production-migrations.py:299-305 | The statements of a text are what stands between its semicolons. |
| LetterCase.CaseIsIgnored | scripts/validate-production-migrations.py:282-320 | With any letters of its code in the other case a file is read as the same pieces, and accepted exactly if it was. |
| SqlIdentifiers.LexWordsIsErasure | scripts/validate-production-migrations.py:183-279 | The lexing that section 4.1.2.4 of the PostgreSQL manual asks for is the erasure of pieces in which no dollar quote follows an identifier and tags have letters of any alphabet. |
| SqlIdentifiers.AgreesIffSeparated | scripts/validate-production-migrations.py:264-273 | On a text that the lexer takes, it agrees with that lexing exactly when none of the dollar quotes it reads directly follows an identifier and no dollar it reads as code begins a tag outside of ASCII. |
| SqlIdentifiers.AgreesIffValid | scripts/validate-production-migrations.py:264-273 | On a text that that lexing takes, the lexer agrees exactly when no dollar within an identifier would open a quote and every tag is ASCII. |
| SqlIdentifiers.AcceptedWhereSeparated | scripts/validate-production-migrations.py:282-320 | Where the two agree, a file is accepted exactly when it keeps the transaction boundary as the manual has it read. |
| DollarSample.CodeIsHidden | scripts/validate-production-migrations.py:264-273 | A file with any plain line of code between two identifiers with dollars is accepted; as the manual has it read, it keeps the transaction boundary exactly when that code holds no transaction statement. |
| DollarSample.CommitIsHidden | scripts/validate-production-migrations.py:264-273 | One of these files, which is accepted and commits. |
| DollarSample.TagHidesCode | scripts/validate-production-migrations.py:264-273 | Code between two quotations of a quote under a tag outside of ASCII is a literal to the lexer. |
| DollarSample.CodeStandsOpen | scripts/validate-production-migrations.py:264-273 | In the manual's lexing the same code stands in the open. |
| DependencyDag.TopologicalOrder | python/production_gates/dependency_dag.py:89-117 | The loop over mutable dependency sets returns the order of Kahn's declarative steps, or reports what they leave out. |
| DependencyDag.FreedIsUnseen | python/production_gates/dependency_dag.py:110 | A batch whose last dependency was just removed is neither ordered nor ready: that guard never decides. |
| DependencyDag.OutcomeMeetsItsPurpose | python/production_gates/dependency_dag.py:89-117 | An order exists exactly for acyclic graphs and lists every batch once after its dependencies; otherwise the members reported are exactly the batches from which a cycle can be reached, each depending on another. |
| DependencyDag.ValidateGraph | python/production_gates/dependency_dag.py:133-153 | Edge lists are checked first, which closes the graph for the ordering. |
| DagOrder.OrderIff | python/production_gates/dependency_dag.py:89-117 | Of all topological orders the build order of an acyclic graph is the one that ranks batches by the place of their last dependency, and by name where that is the same. |
| DagOrder.ValidatedOrder | python/production_gates/dependency_dag.py:133-153 | In the order of a valid file every batch stands once, behind every batch that it names under contracts or implementation. |
| DagOrder.EdgesIff | python/production_gates/dependency_dag.py:136-150 | The edges of a batch are valid exactly when each of its four lists names other batches of the file, none twice. |
| KahnOrder.StuckIffReachesCycle | python/production_gates/dependency_dag.py:112-116 | A batch is left out exactly when a path leads from it into a cycle. |
| KahnOrder.CompleteIffAcyclic | python/production_gates/dependency_dag.py:112-117 | The order is complete exactly when the graph has no cycle. |
| Sorting.Sorted | python/production_gates/dependency_dag.py:103-108 | The increasing sequence of a set's elements, of which there is only one. |
| ResourceNames.RevisionsAgree | python/production_gates/blue_green_stack.py:47-51 | Revisions are equal exactly when the first 12 digits of the git digests and the first 8 of the release digests are. |
| ResourceNames.VersionedIsLabel | python/production_gates/blue_green_stack.py:54-62 | Versioning succeeds exactly on DNS labels and gives a DNS label of at most 63 characters that ends in the revision. |
| ResourceNames.RevisionsSeparateNames | python/production_gates/blue_green_stack.py:54-62 | Names of different revisions never coincide. |
| ResourceNames.CollisionIff | python/production_gates/blue_green_stack.py:54-62 | Two names collide exactly when they agree, up to trailing dashes, on their first 39 characters. |
| StackPlan.RevisionIs | python/production_gates/blue_green_stack.py:47-51 | A release has a revision exactly when id and digest have their form, and it consists of r, the first 12 digits of the one and the first 8 of the other. |
| StackPlan.VersionedIs | python/production_gates/blue_green_stack.py:54-62 | The new name is the first 39 characters of the old one without trailing dashes, a dash and the revision. |
| StackTree.RewriteKeepsPlaces | python/production_gates/blue_green_stack.py:84-131 | After the rewriting every text is in its place: references read through the renames, label selectors carry the revision, nothing else changed. |
| BlueGreenStack.Materialize | python/production_gates/blue_green_stack.py:134-260 | The loops accept exactly the acceptable stacks and return each document processed under the catalogue of all names, and the sorted names of traffic services and workloads. |
| BlueGreenStack.CatalogueIsExact | python/production_gates/blue_green_stack.py:155-171 | The rename maps hold exactly the names of the versioned documents. |
| StackLaws.ProcessKeepsTexts | python/production_gates/blue_green_stack.py:179-232 | A processed document keeps its kind, gets its versioned name, reads its references through the renames and is otherwise unchanged outside metadata and revision labels. |
| StackPlan.ReferencesAfter | python/production_gates/blue_green_stack.py:84-131 | By the last two keys of its place, a text of a document whose references are rewritten reads the new name of the ConfigMap, SecretProviderClass or Deployment that it names, and otherwise stays. |
| StackPlan.LabelsAfter | python/production_gates/blue_green_stack.py:179-217 | A versioned document bears revision and release id, a service that selects pods the traffic phase and the revision it turns to; every other label stays. |
| StackPlan.PodLabelsAfter | python/production_gates/blue_green_stack.py:186-201 | So do the pods of a deployment: revision, release id and otherwise the labels they had. |
| StackPlan.ProcessedIff | python/production_gates/blue_green_stack.py:179-232 | A document is processed exactly if its spec has the form that its kind demands. |
| StackPlan.RewriteFailsIff | python/production_gates/blue_green_stack.py:84-131 | The rewriting of a tree fails exactly on a label selector whose labels are no dictionary. |
| StackPlan.PlanLists | python/production_gates/blue_green_stack.py:234-260 | The plan lists, sorted and none lost, exactly the services that select pods and the new names of the deployments, at least one of each. |
| StackPlan.ListedOnce | python/production_gates/blue_green_stack.py:157-171 | Before they are sorted, none of them is listed twice. |
| StackLaws.ResolutionKept | python/production_gates/blue_green_stack.py:84-131 | A rewritten reference resolves to the same document after as before exactly when it resolved before or its name is no other document's new name. |
| StackLaws.ReferenceResolves | python/production_gates/blue_green_stack.py:84-131 | The text that a reference holds in its document after the materialization resolves to the document that its text before resolved to, exactly when it named a resource and is rewritten (or is its own new name), or named nothing and its name is no other document's new name. |
| StackLaws.DanglingIsCaptured | python/production_gates/blue_green_stack.py:84-131 | In every stack the versioned name of a resource, used as a dangling reference, is captured. |
| StackSample.SampleCapture | python/production_gates/blue_green_stack.py:119-123 | A stack of three documents and its plan, in which this happens to a scale target. |
| StackLaws.NewNames | python/production_gates/blue_green_stack.py:155-171 | New names are injective within a kind, DNS labels, and never names of another revision. |
| StackLaws.RevisionsDoNotMix | python/production_gates/blue_green_stack.py:75-81 | No deployment, disruption budget or service selects, by labels and match expressions, the pods of a deployment of another revision. |
| StackSelection.SelectionIff | python/production_gates/blue_green_stack.py:179-223 | A materialized deployment, disruption budget or service selects the pods of a deployment of its stack exactly when `WillSelect` holds of the stack before. |
| StackSelection.LeafSelectionIff | python/production_gates/blue_green_stack.py:179-223 | For pods whose labels are no lists or dictionaries: exactly when their labels other than the two marks match, a release id asked for is this release's, and the match expressions hold of the labels with the new marks. |
| StackSelection.StillSelectsIff | python/production_gates/blue_green_stack.py:179-223 | A document that selected the pods of a deployment of its stack still does exactly when a release id it asks for is this release's and its expressions about the two marks hold of the new ones. |
| StackSelection.DeploymentSelectsItsPods | python/production_gates/blue_green_stack.py:186-201 | So does a deployment that selected its own pods. |
| StackSample.ReleaseIdLosesPods | python/production_gates/blue_green_stack.py:186-201 | A stack whose deployment asks for its pods' former release id is accepted, and the deployment no longer selects its pods. |
| StackSample.NoRevisionLosesPods | python/production_gates/blue_green_stack.py:186-201 | So is one whose deployment asks for pods without a revision. |
| EnergyPlanner.Propose | python/energy_planner/planner.py:48-101 | Invalid input is an error, an uncertain or unbalanced forecast the zero fallback, otherwise the greedy plan with the least confidence. |
| GreedyPlan.PlanIff | python/energy_planner/planner.py:63-90 | The plan is the one sequence in which every setpoint is the allowed power nearest to the forecast surplus, or zero if that would take the charge, replayed from the start, out of its limits. |
| GreedyPlan.WishIsNearest | python/energy_planner/planner.py:67-69 | The two clamps give the power nearest to the surplus among those within power limits and ramp. |
| EnergyPlanner.StepIsSafe | python/energy_planner/planner.py:66-89 | One step keeps power and charge in range, is zero when the charge limits override it, and is not changed by the final clamp. |
| EnergyPlanner.PlannedIsSafe | python/energy_planner/planner.py:63-90 | Every planned prefix keeps power and replayed charge in range and the ramp limit unless the later setpoint is zero; the final clamp never changes a value. |
| EnergyPlanner.ProposeSafely | python/energy_planner/planner.py:48-121 | Whatever is proposed for a valid input, plan or fallback, is safe. |
| EnergyPlanner.RampKeptIff | python/energy_planner/planner.py:69-86 | A step keeps the ramp limit exactly when it is not an override from beyond the ramp. |
| EnergyPlanner.PlanKeepsRampIff | python/energy_planner/planner.py:63-90 | A plan keeps the ramp limit throughout exactly when in no interval the charge limits override the wish while the power is beyond the ramp. |
| EnergyPlanner.WideRampIsKept | python/energy_planner/planner.py:63-90 | A ramp that spans the power range is always kept. |
| EnergyPlanner.RampBroken | python/energy_planner/planner.py:69-86 | A valid input with a ramp limit of two whose third setpoint jumps by twice that. |

## Left out

- HTTP, TLS, OIDC, the Temporal SDK, asyncpg, file checks and command line wrappers: calls on them are steps or parameters of the model.
- JSON and YAML parsing, regular expressions and exact string formats (UUIDs, release ids, LSNs, base64url), except where a property needs them: fields are already of their type.
- Non-ASCII characters: `RustLexer` takes the classification of non-ASCII spaces and digits as a parameter; `TransactionBoundary` treats only ASCII characters as spaces, line breaks and letters with an upper case; `SqlIdentifiers` takes every character outside of ASCII for a letter.
- The rounding of planner output to six digits, and floating point in general: the planner is modelled over the reals.
- Audit entries for malformed signals (`worker.py:835-848`), which share the bounded rejection log: the log is not claimed to be complete.
- Reuse of a workflow id after its workflow has closed.
- Consistency of revision names between the inventories of a chain, which the code does not check.
- BlueGreenStack.Materialize: works on values, so it does not capture the editing in place of dictionaries that YAML anchors make shared; the kind named by a `scaleTargetRef` is ignored, as in the code.
- StackTree.RewriteKeepsPlaces: says nothing of places below the value of a revision label, which is text in every valid document; the code overwrites a list or dictionary there before it descends, the model afterwards.
- IngressProtocol: task and event listings, the acceptance body of `submit` beyond its evidence, and the BFF page digest are read-only views.
- The token authorizer, whose unique match follows at once from the set it is built with.
- `git_provenance.py`, manifest and evidence verifiers, `model_router`, the digital twin, capacity scripts, drills, probes and load runners.
