# Verified model of the execution runtime's coordination core

The execution runtime coordinates work it cannot do itself: it writes down what it is about to do in
compare-and-swap stores, calls an owner, and writes down what came back. Replies get lost, writes land late,
processes stop anywhere, and several coordinators work on the same request. This project models that core in
Dafny and proves what it keeps under all of those conditions. Beside the protocols it models the stores that
are given in full (in memory), the tool-call canonicalizer and stream finalizer, the string scanner, the
workflow journal with its outbox, and the sealing of an agent plan.

`dafny verify dfyconfig.toml` checks everything.

## How the model is built

* **Protocols as runs.** Activation, review waiting, single-call tool action, the outbox handoff and the keyed
  gate are state machines: the coordinator's code cut at its store and owner calls, one `Step` per cut. A run is
  a list of actions by any number of coordinators, so every interleaving, crash, lost answer and (for the first
  three) write that lands after its sender gave up is some list. The theorems quantify over all lists.
* **Loops against a history.** The attempt machine and the run machine are modelled as methods with the source's
  branches that read a linearizable store at positions of its whole history; other coordinators are the facts in
  between.
* **Objects as classes.** The invocation store, the prepared store, the projection store, the stream finalizer
  and the journal store with its coordinator are classes with the source's maps and fields. Each method is proved
  equal to a function of the old abstract state, and the properties are proved of every run of that function.
  Around each call of the journal coordinator, other writers' journals are stored too.
* **Digests.** A canonical digest is modelled by the content it covers (equal digests, equal content). Derived
  identifiers are modelled by what they are derived from.
* **Clocks** are integers that come from outside; only the comparisons the code makes are kept.

| file | models |
|---|---|
| `Activation.dfy` | agent activation, version 2 |
| `ReviewWaiting.dfy` | review waiting |
| `SingleCall.dfy` | single-call tool action, version 2 |
| `KeyedGate.dfy` | the reference-counted gate of the last two |
| `Reachability.dfy` | the breadth-first search of both state machines |
| `DispatchGateway.dfy` | the dispatch authorization behind an attempt, and the projection that undoes it |
| `OperationAttempt.dfy` | the governed operation attempt and its bounded resume loop |
| `RunCoordination.dfy` | the run machine, confirming a start, stop and settle |
| `InvocationStore.dfy` | the governed invocation store |
| `CreateOnceStores.dfy` | the prepared-invocation and tool-call projection stores |
| `DecimalNumber.dfy` | number normalization (RFC 8259 section 6) |
| `CanonicalArguments.dfy` | argument decoding and canonicalization (RFC 8259 sections 4 and 6) |
| `StreamFinalizer.dfy` | synchronous and streaming tool-call finalization |
| `SurrogateScanner.dfy` | the string-scalar scanner (RFC 8259 sections 7 and 8.2) |
| `WorkflowJournal.dfy` | journal transitions and their three writers |
| `JournalCoordinator.dfy` | one advance and the readiness scan, on a journal that others write too |
| `OutboxHandoff.dfy` | submission and outbox dispatch |
| `PlanSealing.dfy` | sorting, sealing and validating a resolved plan; merging references |
| `Strings.dfy` | the order of strings |
| `Wrappers.dfy` | `Option` and `Result` |

## Where the code does not do what one would expect

* `issuedAuthorizationProjectionV3` takes one permit revision off a begun authorization and two effect revisions
  off an unknown one. The repository's gateways also count a recorded enforcement on the permit, and move the effect
  by one when the outcome becomes unknown (the governance port in the application's own test fixture moves it by
  two). So the projection gives back the issued authorization exactly while the effect is in dispatch_intent and no
  enforcement is recorded, which a coordinator can tell from the revisions it has in hand
  (`DispatchGateway.ProjectionIsIssuedIff`, `ProjectionIsIssuedOnSight`; `ProjectionGoesWrong` shows what it gives
  otherwise). What is stored is right all the same, because a wrong projection always comes too late for its swap:
  `DispatchGateway.StoredIsIssued`.
* For the same reason the coordinator's branch from permit_issued to dispatch_unknown can never store anything with
  these gateways, and from delegation_declared it cannot while the enforcement is recorded but the preparation is not
  stored: `OperationAttempt.UnknownStoresIff`.
* That branch also lacks the state guard of the other two uses of `markUnknown`'s result. After a stale read it goes on
  with whatever a rival has stored: a begun or declared attempt is reported as finished, and a prepared one has its
  missing unknown authorization dereferenced. `OperationAttempt.FinishesAsSaid` gives the exact condition and
  `OperationAttempt.StaleUnknownDereferences` a history.
* A journal advance whose swap was applied, but whose answer was lost, is reported as a conflict as soon as anybody
  else has stored a transition before it reads back: `JournalCoordinator.LostAnswerSucceedsIff`.
* `ConfirmRunStartedV3` builds the references of a settled start attempt without the guard that
  `finishSettlementV3` has. An attempt whose preparation stayed uncertain and that was settled lacks some of them
  (`OperationAttempt.SettledWithoutRefs` is such an attempt, write by write, with the authorizations the gateways
  show). `RunCoordination.ConfirmStarted` says exactly when the missing ones are dereferenced.
* The attempt validator requires *some* preparation sidecar in the ordinary stages, not all three
  (`OperationAttempt.ValidatorAllowsPartialPreparation`); that an executed attempt has all three is a property of
  what the coordinators write, and is proved as one.
* A single-call start claim is derived from the request, so rivals offer equal successors. A store that answered an
  equal offer without an error, as review waiting's does, would tell two coordinators that they own the start:
  `SingleCall.LenientStoreGrantsTwice`.
* The projection store's ensure barrier joins the errors of its two calls, and a joined error is classified by the
  first: a conflict found by the repetition is reported as indeterminate
  (`CreateOnceStores.ProjectionStore.EnsureThroughFaults`). The prepared store's barrier reports the repetition.
* A plan's seal depends on an unstable sort exactly if two different policy or evidence references share an ID:
  `PlanSealing.SealIndependentIff`. Component IDs are checked for repetition, reference IDs are not.

## Model

| member | source | states |
|---|---|---|
| Activation.StartedAtMostOnce | ExecutionRuntime/application/agent_activation_coordinator_v2.go:135-204 | over every interleaving of any number of coordinators, with crashes, lost answers and late writes, no step's owner is told to start twice |
| Activation.StartsAreWrittenAhead | ExecutionRuntime/application/agent_activation_coordinator_v2.go:135-204 | whenever an owner is started, the stored log already holds exactly that request as its next event after the fact the request names, and a result of every earlier step, the last of them the request's predecessor |
| Activation.ReturnedResultsAgree | ExecutionRuntime/application/agent_activation_coordinator_v2.go:308-335 | every result any coordinator returns is the one built from the one complete log |
| Activation.LogIsAppendOnly | ExecutionRuntime/application/agent_activation_coordinator_v2.go:232-255 | what was stored at any moment stays a prefix of what is stored later, whoever acts |
| Activation.StepKeepsInv | ExecutionRuntime/application/agent_activation_coordinator_v2.go:32-255 | each cut of the code keeps the invariant: valid log, facts held are prefixes of it, one authority per revision |
| Activation.OwnKeepsInv | ExecutionRuntime/application/agent_activation_coordinator_v2.go:232-255 | the only step that creates authority is the own applied swap, at a revision nobody has held before |
| Activation.AppendValid | ExecutionRuntime/application/contract/agent_activation_v2.go:793-895 | validating a log with one more event amounts to validating the log and the event against where the log ends |
| Activation.OneInvocationPerStep | ExecutionRuntime/application/contract/agent_activation_v2.go:793-895 | a valid log invokes each step at most once, so a second result for a step cannot be sealed |
| Activation.EarlierResults | ExecutionRuntime/application/contract/agent_activation_v2.go:793-895 | the log up to any position holds a result of every earlier step, the last being the predecessor there |
| Activation.LogIsBounded | ExecutionRuntime/application/contract/agent_activation_v2.go:793-895 | a valid log has at most four events per step |
| Activation.CompleteIsFinal | ExecutionRuntime/application/contract/agent_activation_v2.go:793-895 | a complete log cannot be extended |
| Activation.ActivationPosition | ExecutionRuntime/application/agent_activation_coordinator_v2.go:279-306 | the coordinator's loop over the events finds the step, phase, predecessor and open invocation that validation defines |
| Activation.Expiry | ExecutionRuntime/application/agent_activation_coordinator_v2.go:308-335 | a result expires at the earliest of the request's deadline and every recorded proof's expiry |
| ReviewWaiting.ReviewStartedAtMostOnce | ExecutionRuntime/application/review_waiting_coordinator_v1.go:172-280 | however claims race, get lost, land late or are sent again, the review is started at most once, under the stored claim |
| ReviewWaiting.ClaimIsForever | ExecutionRuntime/application/contract/review_waiting_v1.go:727-747 | once a start claim is stored it is never replaced or dropped |
| ReviewWaiting.TerminalOutcomesAgree | ExecutionRuntime/application/review_waiting_coordinator_v1.go:300-362 | every terminal outcome any coordinator returns carries the receipt of the one completed fact |
| ReviewWaiting.StoredHistoryIsLegal | ExecutionRuntime/application/contract/review_waiting_v1.go:616-747 | the stored fact always ends a legal chain of transitions back to waiting_review at revision one |
| ReviewWaiting.StepKeepsInv | ExecutionRuntime/application/review_waiting_coordinator_v1.go:49-407 | each cut of the code, and each late landing, keeps the invariant with its single owner |
| ReviewWaiting.OwnKeepsInv | ExecutionRuntime/application/review_waiting_coordinator_v1.go:172-228 | ownership appears only with the applied claim, when no claim has ever been stored |
| ReviewWaiting.AdvanceKeeps | ExecutionRuntime/application/contract/review_waiting_v1.go:653-747 | whatever the store does to its fact keeps the history legal, the claim, and the receipt once there is one |
| SingleCall.ExecutedAtMostOnce | ExecutionRuntime/application/single_call_tool_action_coordinator_v2.go:54-232 | across all coordinators and restarts the tool runs at most once, and only after its start claim is stored |
| SingleCall.SuccessesAgree | ExecutionRuntime/application/single_call_tool_action_coordinator_v2.go:269-381 | every call that returns success returns the result stored by the completion, so any two agree |
| SingleCall.StepKeepsInv | ExecutionRuntime/application/single_call_tool_action_coordinator_v2.go:54-381 | each cut of the code keeps at most one authority, held or used, and only after dispatch_intent is left |
| SingleCall.ClaimKeepsInv | ExecutionRuntime/application/single_call_tool_action_coordinator_v2.go:195-232 | the own applied claim creates authority where none was held or used before |
| SingleCall.LenientStoreGrantsTwice | ExecutionRuntime/application/contract/single_call_tool_action_v2.go:1137-1169 | with a store that accepts an offer equal to what it has, two coordinators are told their start claim was stored, although only one swap was applied |
| KeyedGate.MutualExclusion | ExecutionRuntime/application/review_waiting_coordinator_v1.go:450-482 | under every schedule no two threads hold the same key |
| KeyedGate.CountsAreExact | ExecutionRuntime/application/review_waiting_coordinator_v1.go:450-482 | a mapped entry's count is the number of threads between their increment and decrement, and whoever names the key's entry names the mapped one |
| KeyedGate.MappedIffInUse | ExecutionRuntime/application/single_call_tool_action_coordinator_v2.go:412-440 | while the gate's mutex is free, a key is in the map exactly if some thread holds or waits for it |
| KeyedGate.NoDeadlock | ExecutionRuntime/application/single_call_tool_action_coordinator_v2.go:412-440 | whenever a thread is blocked, the thread that has the mutex it waits for can take a step |
| KeyedGate.StepKeepsInv | ExecutionRuntime/application/review_waiting_coordinator_v1.go:450-482 | every read, write, lock and unlock of acquire and release keeps counts, mapping and ownership consistent |
| Reachability.Reaches | ExecutionRuntime/application/run_coordinator_v3.go:643-664 | the search ends and answers whether a walk of direct edges leads from one state to the other, if the candidates include every state an edge leads to |
| Reachability.ClosedHolds | ExecutionRuntime/application/governed_operation_coordinator_v3.go:905-929 | a set of states closed under direct edges holds whatever is reachable from it |
| DispatchGateway.ProjectionIsIssuedIff | ExecutionRuntime/application/governed_operation_coordinator_v3.go:1070-1094 | after any run of the gateways' moves the projection gives back the authorization that was issued exactly if the effect is still in dispatch_intent and no enforcement is recorded |
| DispatchGateway.ProjectionIsIssuedOnSight | ExecutionRuntime/application/governed_operation_coordinator_v3.go:1070-1094 | that is so exactly if the effect's revision is one past the admission's and the permit's is at most two, both of which the coordinator holds |
| DispatchGateway.ProjectionGoesWrong | ExecutionRuntime/application/governed_operation_coordinator_v3.go:1070-1094 | begun and enforced it is one permit revision off, unknown one effect revision short, settled two ahead |
| DispatchGateway.RunRevisions | ExecutionRuntime/runtime/control/operation_governance_gateway_v3.go:236-325 | after any run the permit and effect revisions are exactly determined by whether the permit is begun and enforced and by the effect's state |
| DispatchGateway.StoredIsIssued | ExecutionRuntime/application/governed_operation_coordinator_v3.go:165-192 | over every interleaving of coordinators, with crashes and late swaps, what an attempt stores as its issued authorization is the one that was issued |
| DispatchGateway.StepKeepsInv | ExecutionRuntime/application/governed_operation_coordinator_v3.go:165-225 | until an issued authorization is stored nobody moves the gateways on, so every projection made by then is right |
| OperationAttempt.IsReachable | ExecutionRuntime/application/governed_operation_coordinator_v3.go:905-951 | the attempt machine's search, run over its candidate list without the initial state, decides the reflexive transitive closure of its edges |
| OperationAttempt.ReachableIffHigher | ExecutionRuntime/application/governed_operation_coordinator_v3.go:905-951 | one stage is reachable from another exactly if they are equal or its rank is higher |
| OperationAttempt.IsSuccessor | ExecutionRuntime/application/governed_operation_coordinator_v3.go:856-874 | the comparison accepts exactly the later facts of one origin, at a reachable stage, with every sidecar kept |
| OperationAttempt.SuccessorTransitive | ExecutionRuntime/application/governed_operation_coordinator_v3.go:856-874 | recovery through any number of concurrent commits composes |
| OperationAttempt.AcceptedExtends | ExecutionRuntime/application/governed_operation_coordinator_v3.go:826-854 | whatever the store answers, an accepted fact is valid, later, and has every sidecar of the fact held; a stored reply has those of the fact requested |
| OperationAttempt.RecoveryAcceptsProgress | ExecutionRuntime/application/governed_operation_coordinator_v3.go:826-854 | after a lost answer, a read of the store is accepted exactly if somebody has moved the attempt on |
| OperationAttempt.HistoryExtends | ExecutionRuntime/application/contract/operation_attempt_v3.go:814-883 | of any two facts of one history the later is a successor of the earlier |
| OperationAttempt.HistoryClimbs | ExecutionRuntime/application/contract/operation_attempt_v3.go:863-883 | every stored fact has a higher rank than the one before |
| OperationAttempt.HistoryOnPath | ExecutionRuntime/application/governed_operation_coordinator_v3.go:104-343 | a stage implies the sidecars of its whole path: all of them up to the stage, or up to the stage at which the attempt became unknown |
| OperationAttempt.NeverObservedAndUnknown | ExecutionRuntime/application/contract/operation_attempt_v3.go:350-502 | no valid attempt holds both an observation and an unknown authorization, settled or not |
| OperationAttempt.SettledRefsIffPrepared | ExecutionRuntime/application/governed_operation_coordinator_v3.go:983-995 | the references a settled attempt is asked for exist exactly if its preparation was recorded |
| OperationAttempt.SettledWithoutRefs | ExecutionRuntime/application/governed_operation_coordinator_v3.go:345-409 | an attempt can be settled without them: the history of one whose preparation stayed uncertain, with the authorizations the gateways show |
| OperationAttempt.ValidatorAllowsPartialPreparation | ExecutionRuntime/application/contract/operation_attempt_v3.go:350-502 | the validator accepts a prepared attempt that lacks two of the three preparation sidecars |
| OperationAttempt.PreparedHasRefs | ExecutionRuntime/application/governed_operation_coordinator_v3.go:542-566 | a prepared attempt that the coordinators wrote has every reference execution needs |
| OperationAttempt.UnknownStoresIff | ExecutionRuntime/application/contract/operation_attempt_v3.go:484-528 | for every run of the gateways that ends unknown, storing it in an attempt is legal exactly if the begun authorization is stored, and the preparation is stored if and only if the permit is enforced; from permit_issued it never is |
| OperationAttempt.AgainClimbs | ExecutionRuntime/application/governed_operation_coordinator_v3.go:115-342 | an iteration that goes round again, other than for a domain owner ahead, has seen the attempt climb, whichever coordinator's swap was applied |
| OperationAttempt.GoingOn | ExecutionRuntime/application/governed_operation_coordinator_v3.go:115-342 | the number of iterations is bounded by the rank reached plus the iterations that met a domain owner ahead |
| OperationAttempt.Resume | ExecutionRuntime/application/governed_operation_coordinator_v3.go:104-343 | the loop executes the provider at most once per call, only on a stored prepared attempt with every reference and its journal step written ahead; it finishes with a stored attempt that is observed, unknown or settled unless its last turn was a stale read at permit_issued, and dereferences a missing unknown authorization exactly if that read brought back a prepared attempt without one; the bound of twenty can run out only if at least thirteen turns met a domain owner ahead |
| OperationAttempt.FinishesAsSaid | ExecutionRuntime/application/governed_operation_coordinator_v3.go:177-226 | a turn finishes below the final stages only by going on with what a stale read at permit_issued brought back, and every such stale read does go on with it |
| OperationAttempt.StaleUnknownDereferences | ExecutionRuntime/application/governed_operation_coordinator_v3.go:218-226 | a history, and a gateway run, in which that dereferences the missing unknown authorization |
| RunCoordination.IsReachable | ExecutionRuntime/application/run_coordinator_v3.go:643-689 | the run machine's search decides the reflexive transitive closure of its edges |
| RunCoordination.ReachableIffNotLower | ExecutionRuntime/application/run_coordinator_v3.go:643-689 | one run state is reachable from another exactly if its rank is not lower |
| RunCoordination.IsSuccessor | ExecutionRuntime/application/run_coordinator_v3.go:571-622 | the comparison accepts exactly the later facts of one intent, at a reachable state, with every sidecar kept and the lifecycle advanced |
| RunCoordination.LifecycleTransitive | ExecutionRuntime/application/contract/run_coordination_v3.go:429-487 | lifecycle advances compose, although run, index and progress compare revisions, presence and counts differently |
| RunCoordination.SuccessorTransitive | ExecutionRuntime/application/run_coordinator_v3.go:571-622 | recovery of runs composes |
| RunCoordination.AcceptedExtends | ExecutionRuntime/application/run_coordinator_v3.go:463-502 | whatever the store answers, an accepted fact is valid and extends the fact held |
| RunCoordination.RecoveryAcceptsProgress | ExecutionRuntime/application/run_coordinator_v3.go:463-502 | after a lost answer, a read is accepted exactly if the run has moved on |
| RunCoordination.HistoryExtends | ExecutionRuntime/application/contract/run_coordination_v3.go:298-367 | of any two facts of one history the later is a successor of the earlier |
| RunCoordination.StopAndSettle | ExecutionRuntime/application/run_coordinator_v3.go:248-324 | a stop that succeeds returns a stored terminal fact extending the one read; the runtime is told to stop only on a stored stop plan and to settle only on a stored stopping fact |
| RunCoordination.ConfirmStarted | ExecutionRuntime/application/run_coordinator_v3.go:131-202 | a start that succeeds returns a stored fact at running or beyond; the runtime is told to start only on a stored start plan holding that very attempt, settled, prepared and observed; missing references are dereferenced exactly if a settled attempt without preparation is read; drift is reported only if the stored plan holds another attempt |
| RunCoordination.SettledIsFinal | ExecutionRuntime/application/run_coordinator_v3.go:402-422 | a settled attempt read twice is the same attempt, whoever writes in between |
| InvocationStore.Store.CreateInvocation | ExecutionRuntime/model-invoker/governed_model_invocation_repository_v1.go:79-127 | create over the three maps is the specified create-once answer and update of the view, errors included |
| InvocationStore.Store.CompareAndSwap | ExecutionRuntime/model-invoker/governed_model_invocation_repository_v1.go:129-183 | swap over the three maps is the specified append of one legal successor, or the specified refusal |
| InvocationStore.Store.InspectExact | ExecutionRuntime/model-invoker/governed_model_invocation_repository_v1.go:185-212 | an exact read returns the fact of exactly that revision and digest, and never another revision |
| InvocationStore.Store.InspectCurrent | ExecutionRuntime/model-invoker/governed_model_invocation_repository_v1.go:214-243 | a current read returns the last fact of the invocation; its guard lookup never fails |
| InvocationStore.ReachableHistories | ExecutionRuntime/model-invoker/governed_model_invocation_repository_v1.go:79-183 | in every reachable store a history is revisions one to current, each a legal transition of one lineage, and no two invocations share an attempt key |
| InvocationStore.HistoryKept | ExecutionRuntime/model-invoker/governed_model_invocation_repository_v1.go:129-183 | stored facts stay where they are |
| InvocationStore.AppliedOnce | ExecutionRuntime/model-invoker/governed_model_invocation_repository_v1.go:79-183 | each revision of an invocation is reported applied to one caller only |
| InvocationStore.BoundaryCrossedOnce | ExecutionRuntime/model-invoker/governed_model_invocation_v1.go:216-341 | the right to call the provider is granted once per prepared invocation, dispatch sequence and provider ordinal, whatever route or request callers come with |
| InvocationStore.UpdatedValid | ExecutionRuntime/model-invoker/governed_model_invocation_v1.go:315-341 | every answered request leaves a view of legal chronicles with one invocation per attempt key |
| CreateOnceStores.PreparedStore.EnsureFact | ExecutionRuntime/model-invoker/prepared_model_invocation_repository_v1.go:223-263 | ensuring a fact over twin indexes is the create-once set's answer and update |
| CreateOnceStores.PreparedStore.InspectFact | ExecutionRuntime/model-invoker/prepared_model_invocation_repository_v1.go:265-301 | an exact read answers found, conflict or authoritatively absent as the set does |
| CreateOnceStores.PreparedStore.EnsureCurrent | ExecutionRuntime/model-invoker/prepared_model_invocation_repository_v1.go:303-353 | a current projection is created only beside its exact, matching historical parent, once |
| CreateOnceStores.PreparedStore.InspectCurrent | ExecutionRuntime/model-invoker/prepared_model_invocation_repository_v1.go:355-390 | a current projection read back has its parent stored and is the parent's only projection |
| CreateOnceStores.PreparedStore.EnsureFactThroughFaults | ExecutionRuntime/model-invoker/prepared_model_invocation_repository_v1.go:115-143 | with one repetition after an indeterminate answer, the outcome is the create-once set's answer if either call is answered and indeterminate otherwise; nothing but the fact asked for is ever added |
| CreateOnceStores.ProjectionStore.Ensure | ExecutionRuntime/model-invoker/tool_call_observation_repository.go:245-291 | ensuring a projection over twin indexes is the create-once set's answer and update |
| CreateOnceStores.ProjectionStore.InspectExact | ExecutionRuntime/model-invoker/tool_call_observation_repository.go:293-331 | an exact read answers found, conflict or authoritatively absent as the set does |
| CreateOnceStores.ProjectionStore.EnsureThroughFaults | ExecutionRuntime/model-invoker/tool_call_observation_repository.go:60-86 | success exactly if one of at most two calls is answered and the record does not clash, and then it is the record asked for; nothing else is ever added; a conflict is reported as one only by the first call |
| CreateOnceStores.RunOneToOne | ExecutionRuntime/model-invoker/prepared_model_invocation_repository_v1.go:223-390 | after any run of ensures no two records share an ID or a coordinate |
| CreateOnceStores.StoredIffEnsured | ExecutionRuntime/model-invoker/prepared_model_invocation_repository_v1.go:223-390 | a record is stored exactly if an ensure of it succeeded |
| CreateOnceStores.AbsentIffNeverCreated | ExecutionRuntime/model-invoker/tool_call_observation_repository.go:293-331 | absence is reported as authoritative exactly if neither that ID nor that coordinate was ever created |
| CreateOnceStores.InspectReturnsFirst | ExecutionRuntime/model-invoker/tool_call_observation_repository.go:245-331 | a successful read returns what was first ensured under its ID and under its coordinate |
| DecimalNumber.NormalizePreservesValue | ExecutionRuntime/model-invoker/tool_call_observation.go:262-294 | every JSON number normalizes to the text of a JSON number with the same rational value |
| DecimalNumber.NormalizeIdempotent | ExecutionRuntime/model-invoker/tool_call_observation.go:262-294 | normalizing a normal form returns it |
| DecimalNumber.NormalizeDecidesValue | ExecutionRuntime/model-invoker/tool_call_observation.go:262-294 | two JSON numbers get equal normal forms exactly if their values are equal |
| DecimalNumber.NormalizeSpellsCanonical | ExecutionRuntime/model-invoker/tool_call_observation.go:262-294 | the string surgery of the source spells the canonical number: digits without zeros at either end times a power of ten |
| DecimalNumber.CanonicalUnique | ExecutionRuntime/model-invoker/tool_call_observation.go:262-294 | two canonical numbers of one value are the same, sign, digits and exponent |
| DecimalNumber.SameRational | ExecutionRuntime/model-invoker/tool_call_observation.go:262-294 | two integers not divisible by ten that denote one rational at some powers of ten are equal, as are the powers |
| CanonicalArguments.DecodeLoop | ExecutionRuntime/model-invoker/tool_call_observation.go:201-260 | the recursive decoder with its two loops ends and computes the specified tree or the specified error |
| CanonicalArguments.AcceptsExactly | ExecutionRuntime/model-invoker/tool_call_observation.go:175-260 | a text is accepted, with a given tree, exactly if it spells one object with unique keys everywhere, nested within the bound, whose tree that is |
| CanonicalArguments.SameTreeIffSameMeaning | ExecutionRuntime/model-invoker/tool_call_observation.go:201-260 | two documents get one tree exactly if they mean the same: objects as finite maps, numbers by value |
| CanonicalArguments.SameDepth | ExecutionRuntime/model-invoker/tool_call_observation.go:201-260 | the depth bound is a property of the tree: every unique-key document of an accepted tree keeps it |
| CanonicalArguments.CanonicalIdempotent | ExecutionRuntime/model-invoker/tool_call_observation.go:175-199 | canonicalizing the canonical form of an accepted text returns it |
| CanonicalArguments.CanonicalDecidesMeaning | ExecutionRuntime/model-invoker/tool_call_observation.go:175-199 | two accepted texts have one canonical form exactly if they mean the same |
| CanonicalArguments.WriterRoundTrip | ExecutionRuntime/model-invoker/tool_call_observation.go:171-199 | writing a decoded tree with sorted keys and stored numbers gives a unique-key document that stands for that tree |
| CanonicalArguments.CanonicalForm | ExecutionRuntime/model-invoker/tool_call_observation.go:175-199 | the canonical form of an accepted text has its members sorted at every level, each key once, and stands for the text's tree |
| CanonicalArguments.TreeIsNormal | ExecutionRuntime/model-invoker/tool_call_observation.go:201-260 | every number in a decoded tree is its own normal form |
| StreamFinalizer.Finalize | ExecutionRuntime/model-invoker/tool_call_observation.go:79-129 | the synchronous finalizer, closing digest and validation included, computes the specified observation or error |
| StreamFinalizer.Close | ExecutionRuntime/model-invoker/tool_call_observation.go:53-76 | the closing passes find exactly whether an argument cannot be canonicalized again or changes when it is |
| StreamFinalizer.ClosingPasses | ExecutionRuntime/model-invoker/tool_call_observation.go:110-156 | if canonical forms are their own canonical forms, the closing step adds no failure |
| StreamFinalizer.CanonicalizerIsIdempotent | ExecutionRuntime/model-invoker/tool_call_observation.go:175-199 | the source's canonicalizer is such a one, as long as what it spells can be read back |
| StreamFinalizer.ObservationWellFormed | ExecutionRuntime/model-invoker/tool_call_observation.go:53-129 | an observation is non-empty, numbered from zero, with non-blank identities and no ID twice |
| StreamFinalizer.Finalizer.Observe | ExecutionRuntime/model-invoker/tool_call_observation.go:329-424 | observing an event changes every field as the event machine's step says and answers as it does |
| StreamFinalizer.Finalizer.ObserveCall | ExecutionRuntime/model-invoker/tool_call_observation.go:348-396 | the call events' branches are the event machine's |
| StreamFinalizer.Finalizer.ObserveTerminal | ExecutionRuntime/model-invoker/tool_call_observation.go:397-424 | the terminal event's branch is the event machine's |
| StreamFinalizer.Finalizer.MatchTerminal | ExecutionRuntime/model-invoker/tool_call_observation.go:484-503 | the two passes find exactly whether an entry contradicts a streamed call or a streamed call is missing |
| StreamFinalizer.Finalizer.Result | ExecutionRuntime/model-invoker/tool_call_observation.go:426-437 | the outcome read at any time is the recorded error or observation |
| StreamFinalizer.EmittedIsSynchronous | ExecutionRuntime/model-invoker/tool_call_observation.go:329-503 | an emitted observation is the synchronous finalizer's on the terminal response, and every streamed call was completed and appears in it with its name and canonical arguments |
| StreamFinalizer.BuffersAreOwnDeltas | ExecutionRuntime/model-invoker/tool_call_observation.go:329-424 | under any interleaving each call's buffer is the concatenation of its own deltas |
| StreamFinalizer.StreamedTextIsObserved | ExecutionRuntime/model-invoker/tool_call_observation.go:329-503 | the text streamed for a call, if any, canonicalizes to the arguments the observation carries for it |
| StreamFinalizer.AtMostOneObservation | ExecutionRuntime/model-invoker/tool_call_observation.go:329-424 | at most one event of a stream is answered with an observation |
| StreamFinalizer.FailureIsPermanent | ExecutionRuntime/model-invoker/tool_call_observation.go:505-509 | after an error every later event is answered with that error and changes nothing |
| StreamFinalizer.FinalizationIsPermanent | ExecutionRuntime/model-invoker/tool_call_observation.go:329-424 | after finalization the observation stays and every later event is refused |
| SurrogateScanner.Validate | ExecutionRuntime/model-invoker/prepared_provider_injection_shape_v1.go:237-285 | the nested scan ends, reads no byte out of range, and accepts exactly the texts whose literals close, whose unicode escapes have four hex digits, and whose surrogates pair up |
| SurrogateScanner.UnicodeEscape | ExecutionRuntime/model-invoker/prepared_provider_injection_shape_v1.go:287-313 | an escape is read exactly if it stands there in full, and its unit is the number its digits write |
| SurrogateScanner.ScannerReadsGrammar | ExecutionRuntime/model-invoker/prepared_provider_injection_shape_v1.go:237-285 | the scanner's walk accepts a text exactly if the grammar has a reading of it |
| SurrogateScanner.ReadingUnique | ExecutionRuntime/model-invoker/prepared_provider_injection_shape_v1.go:237-285 | a text has one reading, so an escaped backslash is never the start of a unicode escape |
| SurrogateScanner.SkipPlain | ExecutionRuntime/model-invoker/prepared_provider_injection_shape_v1.go:273-283 | skipping a whole rune misses no quote and no backslash |
| WorkflowJournal.CompletedGovernedIsSettled | ExecutionRuntime/application/governed_journal_completion_v3.go:35-109 | in every journal any sequence of advances, skips and governed completions can produce, a completed governed step carries the revision-one and the settled reference of one settled attempt |
| WorkflowJournal.StepsStartInOrder | ExecutionRuntime/application/contract/journal_v2.go:171-256 | no step leaves pending, except by a skip, before its dependencies are resolved, and a coordination step never reaches a provider |
| WorkflowJournal.WriteKeepsInv | ExecutionRuntime/application/outbox_dispatcher_v2.go:172-205 | each writer's transition, once the store accepts it, keeps the settlement rule and the order of steps |
| WorkflowJournal.SatisfiedStays | ExecutionRuntime/application/contract/journal_v2.go:239-256 | a satisfied dependency stays satisfied under every transition |
| JournalCoordinator.Store.AdvanceStep | ExecutionRuntime/application/journal_coordinator_v2.go:42-130 | an advance, with other writers before its read, its swap and its recovery read, leaves the specified history and gives the specified answer |
| JournalCoordinator.AdvanceIsStored | ExecutionRuntime/application/journal_coordinator_v2.go:42-130 | whoever else writes, a successful advance returns a stored revision, no older than the one current before, with the step at its target; at most one journal of its own is stored, right after the one it read |
| JournalCoordinator.LostAnswerSucceedsIff | ExecutionRuntime/application/journal_coordinator_v2.go:115-130 | an applied swap whose answer is lost is reported as success exactly if nobody stored anything before it is read back, and as a conflict otherwise |
| JournalCoordinator.ReadySucceedsIff | ExecutionRuntime/application/journal_coordinator_v2.go:42-130 | making a step ready succeeds exactly if plan and clock are current and the step is ready already, or the own swap finds the store undisturbed and its answer arrives or is still last when read back, or another writer stored the same journal |
| JournalCoordinator.Store.RefreshReady | ExecutionRuntime/application/journal_coordinator_v2.go:161-197 | the scan ends within one call per step; a success returns a stored revision with no refreshable step left, and stored only ready-transitions of refreshable steps; it fails exactly at a first call, or a read, that lacks what it needs; left to itself it succeeds and readies exactly the steps that could be |
| JournalCoordinator.ScanCalls | ExecutionRuntime/application/journal_coordinator_v2.go:171-196 | each call of the scan either ends it with that failure or brings back a later revision with fewer pending steps |
| JournalCoordinator.ScanProgresses | ExecutionRuntime/application/journal_coordinator_v2.go:171-196 | between two revisions of a journal no step becomes pending |
| JournalCoordinator.SameResolution | ExecutionRuntime/application/journal_coordinator_v2.go:161-197 | making steps ready resolves no dependency, so the fixpoint is reached in closed form |
| JournalCoordinator.Store.CompareAndSwap | ExecutionRuntime/application/contract/journal_v2.go:171-237 | the store accepts the current revision's legal successors only |
| OutboxHandoff.DispatchedMeansHandedOff | ExecutionRuntime/application/outbox_dispatcher_v2.go:42-135 | whatever stopped or was lost, a record marked dispatched has its bundle stored, its command accepted with that envelope, its journal under the derived ID, valid for the bundle's plan, and every optional step skipped whose kind the marking dispatcher found unknown |
| OutboxHandoff.OneJournalPerCommand | ExecutionRuntime/application/outbox_dispatcher_v2.go:90-120 | a command has at most one journal, never under another command's ID, and only once it is accepted |
| OutboxHandoff.DerivedIdInjective | ExecutionRuntime/application/outbox_dispatcher_v2.go:80-84 | two journal IDs derived with digests of one width are equal exactly if the scope digests and the commands are |
| OutboxHandoff.ReportedSuccessesHold | ExecutionRuntime/application/facade_v2.go:45-89 | every success a facade or dispatcher ever reported is backed by the stores |
| OutboxHandoff.StepKeeps | ExecutionRuntime/application/outbox_dispatcher_v2.go:42-205 | every call, lost answer, recovery read, skip, crash and journal transition keeps the handoff order |
| PlanSealing.SealIgnoresOrder | ExecutionRuntime/agent-assembler/contract/canonical.go:212-253 | if equal keys mean equal parts, the result of sealing does not depend on the order of the parts or on the sort |
| PlanSealing.SealIsStable | ExecutionRuntime/agent-assembler/contract/canonical.go:230-253 | sealing then fails exactly on a repeated component; a sealed plan validates although it contains its digest twice, and sealing it again changes nothing |
| PlanSealing.SealIndependentIff | ExecutionRuntime/agent-assembler/contract/canonical.go:212-253 | the result is the same for every correct sort if and only if a component is repeated or no two different references of one list share an ID |
| PlanSealing.DigestDeterminesPlan | ExecutionRuntime/agent-assembler/contract/validate.go:500-560 | two valid plans with one digest differ at most in the order of their parts |
| PlanSealing.ReorderingStaysValid | ExecutionRuntime/agent-assembler/contract/validate.go:500-560 | a valid plan stays valid when its parts are reordered |
| PlanSealing.OneOrdering | ExecutionRuntime/agent-assembler/contract/validate.go:626-633 | if keys determine parts, a collection of parts has one sorted order, so an unstable sort is as good as a stable one |
| PlanSealing.UniqueRefs | ExecutionRuntime/agent-assembler/mapper/mapper.go:81-95 | merging fails exactly if one ID has two contents; otherwise it returns exactly the references given, strictly ordered |
| PlanSealing.MembersDetermine | ExecutionRuntime/agent-assembler/mapper/mapper.go:81-95 | a strictly ordered list is determined by its members, so merging is a function of the set of references |

## Left out

- Activation version 1 and single-call version 1: the same protocols with fewer checks.
- Expiry and freshness checks against the clock, beyond the order of stored times: they only add refusals.
- Late landing of writes in the outbox handoff and the journal: lost answers and lost calls are modelled, late ones are not.
- OperationAttempt.Resume: the owners' answers (governance, delegation, domain, provider) are inputs of the loop, checked only as far as the loop branches on them; at most one execution is proved per call, not across calls, since the provider's own attempt record is its guard. A failure after the domain port resolved counts as finished, since the source then returns the attempt beside the error.
- DispatchGateway.StoredIsIssued: of the attempt only the step from effect_admitted to permit_issued is modelled; the currency checks of the gateways only add refusals.
- RunCoordination.ConfirmStarted: the runtime's running envelope is an input; its identity checks are one flag.
- PrepareRunV3, IngestTerminalClaimV3 and ReconcileRunTerminationV3: single advances of the same shape as the ones modelled.
- CanonicalArguments.AcceptsExactly: works on tokens; splitting bytes into tokens and unescaping and escaping strings is encoding/json's.
- OutboxHandoff.OneJournalPerCommand: the journal map is keyed by scope and command, which OutboxHandoff.DerivedIdInjective justifies; that a scope's digest determines the scope is the usual reading of digests.
- DecimalNumber.NormalizePreservesValue: stated for the texts of the JSON number grammar, which are all the decoder can hand over.
- StreamFinalizer.Finalizer.MatchTerminal: the two terminal conflicts of one pass have one code here, since which of them the source reports depends on map iteration order.
- Workflow status derivation and the step catalog lookup: tables.
- JSON Schema validation of structured output, route selection, registries and retry backoff: library calls and tables.
- KeyedGate and the protocols are state machines over values, since Dafny has no threads; the Go memory model is not part of this model.
- Component releases and catalogs are normalized with the same sorts as plans and add nothing to them; BindingPlanV2 and the assembly input are copies of fields.
- Restore, checkpoint, context refresh, turn continuation and definition service coordinators: the same inspect-after-error pattern over more ports.
- Nil checks, error texts, cloning and context cancellation.
