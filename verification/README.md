# Freight lifecycle protocols: a verified model

This project models, in Dafny, the parts of the freight platform that carry protocol,
state-machine and algorithmic content, and proves what they promise.

- **Per-key run queue** (`RunQueue`, `RunQueueProtocol`, `RunQueueTheorems`,
  `RunQueueProgress`, `RunQueueTasks`). The Redis list primitives and the two publish-bridges as classes, each method
  tied to its effect on the lists and the broker; then a state machine in which every single Redis or broker call of any number of
  processes is one step, with lost publishes and dead workers as fault steps. A token argument
  gives at most one task in flight per key, first-in-first-out order, conservation, the exact
  conditions under which a key stops for good or drains, and that every task carries the fields of
  the request admitted at its place.
- **Lifecycle transitions** (`LifecycleTransition`, `LifecycleTransitionProperties`,
  `LifecycleTransitionScope`, `LifecycleTransitionSplit`). A batch of commands against one locked row and an append-only audit
  log, as one transaction. The imperative service is proved against `BatchOutcome`; the properties
  say when the logged pairs chain, what is stored, how a batch pauses, which tenant, lifecycle and run
  it is about or why it is refused, and when splitting a batch shows.
- **Before-pickup reminders** (`ReminderPlan`, `ReminderPlanProperties`,
  `ReminderPlanMeaning`). Catch-up bands
  and a greedy minimum-gap pass over real hours; the greedy choice is optimal by exchange, and what the
  returned plan says of each input step is read off the steps, the pickup time and now.
- **Routing guide** (`RoutingGuide`) and **carrier threads** (`Communications`, `CarrierThreads`,
  `CarrierThreadsProperties`). The attempt counter under duplicate and stale rejects, write-once
  links from messages to runs, and the ranking of carrier threads that four queries read.
- **Proof-of-delivery attachments** (`AttachmentIds`, `AttachmentIdsMeaning`,
  `AttachmentNormalizer`, `AttachmentNormalizerProperties`, `AttachmentNormalizerMeaning`). Ids
  written into and read from object names, which bytes make a PDF or an image, which reference ends
  in which pile, and the two routes to a merged document.
- **Business warnings** (`BusinessErrorDependencies`, `BusinessErrorMeaning`,
  `TenderBusinessWarnings`, `TenderBusinessWarningsProperties`, `TenderBusinessWarningsMeaning`) and
  **load type** (`LoadTendering`, `LoadTenderingProperties`, `LoadTenderingMeaning`).

The modules named `...Properties`, `...Theorems`, `...Progress`, `...Split` and `...Scope` hold the
theorems; those named `...Meaning`, and `RunQueueTasks`, tie every specification function they rest on
to the inputs themselves: bytes, characters, rows and table entries.

Downloads, the vision classifier, image libraries, the file system, tenant lookup and uuid parsing
are parameters (`World`, `Library`, `Env`): functions the theorems quantify over.

## Where the code and its promises part

- A batch lets a command without its own actor take the actor of the batch's first command, so
  splitting a batch can change the actor columns of the log even where nothing else differs.
  `SplitIff` gives the exact condition.
- A snapshot command re-reads the row as it was when the batch began, and a `from_*` override is
  honoured on a batch's first command only. `ChainedIff` says exactly which batches chain, and
  `SplitIff` exactly when splitting a batch leaves the row, and the log, as it was; the conditions are
  computed from the stored pair and the commands. `SnapshotAfterTransitionMatters` is a batch where splitting shows.
- A `from_*` override on the first command is threaded and logged but not stored.
  `OverrideIsNotStored` is an instance; `StoredStatusIff` says for any batch exactly when the row still
  ends at the last logged pair.
- `complete_and_start_next` leaves a head it refuses on the list, and nothing starts that key again
  (`RefusalStrands`, `StrandedStays`); the same follows a lost publish or a dead worker
  (`FaultStrands`). `PassingIff` gives the exact condition for a key to stay clear of both: no fault
  hits that key, and no item start-next would refuse is admitted behind another. An invalid item
  admitted to an empty list is published unchecked and does no harm.
- A reject that carries an attempt ahead of the stored one can raise the counter by more than one or
  past the maximum; `AdvanceIff` gives the exact conditions, and `WaterfallOverRuns` shows that no run
  comes to carry such an attempt.
- The lookups that return a carrier thread strip it and those that take one do not:
  they are inverses exactly on threads without outer white space (`LookupsAreInverseIff`,
  `UntrimmedThreadIsLost`).
- Read without a hint, an attachment id comes back exactly when the shipment's token holds no
  underscore (`RoundTripWithoutHintIff`, `UnderscoreStaysInId`).
- Appending a warning compares stored texts stripped and the new ones as given, so a warning with
  outer white space can be appended twice (`AppendTwiceIff`, `LastingIff`,
  `KeyLastingIff`).
- Collapsing duplicate profile warnings drops the product id from a kept row's context, so filtering
  twice can drop a row that filtering once keeps (`FilterTwiceIff`, `FilterTwiceCanDrop`).
- With several thresholds in one pallet profile the last line's counts, so the load type then
  depends on line order (`OrderMattersWithoutSharedThresholds`), while the docstring speaks of one
  threshold per bucket. `OrderIsIrrelevantIff` says exactly when the order does not matter.

## Model

| member | source | states |
|---|---|---|
| Text.IsSpaceIff | app/services/lifecycle_transition_service.py:70-76 | which characters stripping removes, by code point |
| Text.StripBetween | app/services/lifecycle_transition_service.py:70-76 | a text without outer white space is what stripping leaves of it between any white space |
| Text.StripSplits | app/services/lifecycle_transition_service.py:70-76 | every text is its stripped form between white space |
| RunQueue.KeyTextIsInjective | app/services/lifecycle_run_queue_service.py:44-57 | keys of different scopes or ids never collide, and each primitive's re-strip keeps the key |
| RunQueue.KeyTexts | app/services/lifecycle_run_queue_service.py:44-57 | the two key spaces spelled out |
| RunQueue.DropCorruptStopsAtFirstObject | app/services/lifecycle_run_queue_service.py:118-138 | peeking removes exactly the leading elements that are not JSON objects |
| RunQueue.LifecycleRunQueueService.Admit | app/services/lifecycle_run_queue_service.py:79-104 | appends one item to one list; the caller publishes exactly when the list was empty; a blank key is an error and changes nothing |
| RunQueue.LifecycleRunQueueService.PeekHead | app/services/lifecycle_run_queue_service.py:106-138 | returns the first well-formed element, leaves the list at it, touches no other list |
| RunQueue.LifecycleRunQueueService.Complete | app/services/lifecycle_run_queue_service.py:140-182 | removes the head and counts the rest in one step; chains exactly when items remain |
| RunQueue.TaskReturnsToItsKey | app/tasks/workflows.py:72-76 | whichever way an item of a key is published, the finished task completes that same key |
| RunQueue.CompletesIff | app/tasks/workflows.py:71-76 | which tasks complete which key: a serialized run its stripped lifecycle id, an email task its stripped email id, any other none |
| RunQueue.LifecycleRunSerializerService.Enqueue | app/services/lifecycle_run_serializer_service.py:87-152 | stores the stamped item and publishes its task exactly when the list was empty |
| RunQueue.LifecycleRunSerializerService.CompleteAndStartNext | app/services/lifecycle_run_serializer_service.py:154-240 | pops the finished item, then publishes the next head, or leaves an invalid head in place unpublished |
| RunQueue.EmailIngressWorkQueueSerializerService.Admit | app/services/email_ingress_work_queue_serializer_service.py:54-107 | the same admission in the email key space |
| RunQueue.EmailIngressWorkQueueSerializerService.CompleteAndStartNext | app/services/email_ingress_work_queue_serializer_service.py:109-182 | the same chaining in the email key space |
| RunQueueProtocol.StepKeeps | app/services/lifecycle_run_queue_service.py:79-182 | every step, faults included, keeps the token invariant of its own key |
| RunQueueProtocol.StepView | app/services/lifecycle_run_queue_service.py:44-57 | what a step does to any key, told from that key alone: its own key moves, the others do not |
| RunQueueTheorems.AtMostOneInFlight | app/services/lifecycle_run_serializer_service.py:118-136 | in every interleaving, faults included, a key has at most one pending, running or chaining actor, and it holds the list's head |
| RunQueueTheorems.CorruptHeadUnreachable | app/services/lifecycle_run_queue_service.py:118-138 | the corrupt-head branch, which pops in two separate calls, is never entered |
| RunQueueTheorems.StepIsLocal | app/services/lifecycle_run_queue_service.py:44-57 | a step about one key changes neither list, past nor actors of another |
| RunQueueTheorems.FifoAndConservation | app/services/lifecycle_run_queue_service.py:92-170 | completed items followed by the list are the admissions in order; started items are the completed ones and possibly the head, so nothing starts twice |
| RunQueueTasks.TaskCarriesItsRequest | app/services/lifecycle_run_serializer_service.py:118-222 | over every run, faults included, a published or running task has the tenant, workflow, email id and payload of the request admitted at its place |
| RunQueueTasks.PublishCarriesItsRequest | app/services/lifecycle_run_serializer_service.py:118-222 | a publish puts on the broker the first request not yet completed: as given after an admission, with tenant and workflow stripped after a completion |
| RunQueueTasks.StartsIff | app/services/lifecycle_run_serializer_service.py:194-209 | start-next goes on to publish exactly when the request at the head names a tenant and, for a lifecycle, a workflow |
| RunQueueProgress.FaultStrands | app/services/lifecycle_run_serializer_service.py:118-136 | in every state the invariant allows, a fault on any process strands exactly the key whose head it held |
| RunQueueProgress.StrandedIff | app/services/lifecycle_run_serializer_service.py:194-224 | for every run, a key ends stranded exactly when a fault took its process or start-next refused its head |
| RunQueueProgress.RefusalStrands | app/services/lifecycle_run_serializer_service.py:194-209 | from empty lists: an invalid item admitted behind another is refused when its turn comes, and strands the key |
| RunQueueProgress.ExactlyOneInFlight | app/services/lifecycle_run_serializer_service.py:167-224 | over every run, one actor exactly when the list is nonempty, if and only if no fault and no refusal hit that key |
| RunQueueProgress.PassingIff | app/services/lifecycle_run_serializer_service.py:118-224 | for every run, a passing key is passing at the end exactly when no fault hit it and no invalid item was admitted behind another |
| RunQueueProgress.StrandedByFaultIff | app/services/lifecycle_run_serializer_service.py:118-224 | with no invalid item admitted behind another, a passing key ends stranded exactly when a fault hits it |
| RunQueueProgress.PassingMeaning | app/services/lifecycle_run_serializer_service.py:154-224 | passing is the exact condition: no undisturbed continuation strands the key, and equally some continuation empties its list |
| RunQueueProgress.StrandedStays | app/services/lifecycle_run_queue_service.py:92-93 | over every later run, admissions only buffer behind a stranded head |
| RunQueueProgress.DrainIsForced | app/services/email_ingress_work_queue_serializer_service.py:120-166 | once admissions to a passing key stop and no fault hits it, every step on it is one unit of its remaining work, and an empty list means one completion per item and no actor |
| RunQueueProgress.CanDrain | app/services/lifecycle_run_serializer_service.py:167-224 | from every passing state the key's actor can act until the list is empty |
| RunQueueProgress.CanStrand | app/services/lifecycle_run_serializer_service.py:194-224 | from every state that is not passing, steps without faults and admissions lead to where the key is stranded |
| RunQueueTheorems.AdmitCallIsRun | app/services/lifecycle_run_serializer_service.py:118-136 | an undisturbed admitting call of a bridge is a run of the protocol with the same effect |
| RunQueueTheorems.CompleteCallIsRun | app/services/lifecycle_run_serializer_service.py:154-240 | an undisturbed completing call of a bridge is a run of the protocol with the same effect |
| LifecycleTransition.Database.UpdateLifecycle | app/repositories/workflow_lifecycles_repository.py:125-159 | writes only the given columns; an explicit pause wins over clearing it; false when nothing matched |
| LifecycleTransitionProperties.UpdatedMeaning | app/repositories/workflow_lifecycles_repository.py:125-159 | the row after an update, column by column, and exactly when an update has anything to write |
| LifecycleTransition.LifecycleTransitionService.ApplyOneStep | app/services/lifecycle_transition_service.py:166-273 | one step's effect on row, log and threaded state |
| LifecycleTransition.LifecycleTransitionService.Apply | app/services/lifecycle_transition_service.py:307-395 | one command is the batch of that one command: same row, pause, log and error as `ApplySequence` |
| LifecycleTransition.LifecycleTransitionService.ApplySteps | app/services/lifecycle_transition_service.py:420-482 | the loop refines the fold over steps and stops at the first command of another scope, with exactly the steps before it written |
| LifecycleTransition.LifecycleTransitionService.ApplySequenceInTransaction | app/services/lifecycle_transition_service.py:397-505 | the batch on given repositories: a failure leaves the steps before the offending command to the transaction around it |
| LifecycleTransition.LifecycleTransitionService.ApplySequence | app/services/lifecycle_transition_service.py:397-530 | the whole batch, or an error with rows and log untouched; with injected repositories the rollback is the caller's |
| LifecycleTransitionProperties.TraceIsFold | app/services/lifecycle_transition_service.py:149-273 | for every batch on an existing row, the pairs each step logs and the pair the row holds are folds over the stored pair and the commands |
| LifecycleTransitionProperties.BatchRefinesFold | app/services/lifecycle_transition_service.py:420-492 | each from-pair is the previous to-pair, and the stored row ends at the last to-pair up to NULL and `none`, promotion included |
| LifecycleTransitionProperties.StoredStatusIff | app/services/lifecycle_transition_service.py:149-273 | for any batch, exactly when the row ends at the status and sub-status logged last |
| LifecycleTransitionProperties.OrderedStoredStatusIff | app/services/lifecycle_transition_service.py:149-164 | without late snapshots and with every transition updating: exactly when an override on the first command does not show in the end |
| LifecycleTransitionProperties.OverrideIsNotStored | app/services/lifecycle_transition_service.py:155-164 | a command whose override is logged and not stored |
| LifecycleTransitionProperties.ChainedIff | app/services/lifecycle_transition_service.py:149-273 | every batch chains exactly when each later command links back, a condition on the stored pair and the commands |
| LifecycleTransitionProperties.ChainedIffBackAtSnapshots | app/services/lifecycle_transition_service.py:155-160 | when every transition updates the row: chained exactly when the folded pair is back at the stored one at every later snapshot |
| LifecycleTransitionProperties.PauseOutcome | app/services/lifecycle_transition_service.py:484-492 | the pause after any batch: first explicit pause or `system_error`, NULL after a plain write, otherwise unchanged, wherever the exception sits |
| LifecycleTransitionProperties.FirstPauseIsFirst | app/services/lifecycle_transition_service.py:42-54 | the chosen pause is that of the first exception command that has one |
| LifecycleTransitionScope.BatchSucceedsIff | app/services/lifecycle_transition_service.py:397-449 | a batch succeeds exactly when all its texts name one tenant, one lifecycle and one run or none, and the row is there or not required |
| LifecycleTransitionScope.BatchWithoutScopeFails | app/services/lifecycle_transition_service.py:275-300 | a first command that names no tenant, lifecycle or run, or a missing row it requires, fails the batch for that reason with nothing written |
| LifecycleTransitionScope.BatchFailsAt | app/services/lifecycle_transition_service.py:424-449 | otherwise the batch fails for the first command that is not about the scope of the first, with the error of the first check it fails |
| LifecycleTransitionScope.MixedRunIff | app/services/lifecycle_transition_service.py:438-449 | commands of one tenant and lifecycle succeed if they also name one run or none, and fail as mixing runs otherwise |
| LifecycleTransitionScope.BatchWrites | app/services/lifecycle_transition_service.py:110-147 | a batch leaves other rows alone and appends one row per recorded command in order, with the named tenant, lifecycle and run, its own activity and details, its actor, and the pairs of its step |
| LifecycleTransitionScope.LeftoverWrites | app/services/lifecycle_transition_service.py:423-482 | the same for the steps a refused batch leaves to the transaction around it |
| LifecycleTransitionScope.TraceWithoutRow | app/services/lifecycle_transition_service.py:149-164 | without a row each step logs from the pair of the last snapshot or of the first command, and goes where its command says |
| LifecycleTransitionProperties.BatchLogChecked | app/domain/activity_log_fields.py:22-49 | a snapshot's logged row never moves |
| LifecycleTransitionProperties.SnapshotIff | app/models/activity_type.py:18-19 | status and sub-status changes move the row, every other activity is a snapshot |
| LifecycleTransitionProperties.EveryLoggedRowChecked | alembic/versions/20260630_01_add_info_activity_log_type.py:33-39 | no run of batches ever logs a row that the CHECK constraint would refuse |
| LifecycleTransitionSplit.ThreadedIsStored | app/services/lifecycle_transition_service.py:192-243 | without overrides and late snapshots the threaded pair is the stored one |
| LifecycleTransitionSplit.SplitTraceIff | app/services/lifecycle_transition_service.py:149-273 | for any exception-free commands, one batch logs the pairs of two exactly when the seam between them does not show |
| LifecycleTransitionSplit.SplitIff | app/services/lifecycle_transition_service.py:397-505 | any exception-free `a + b` as one transaction or two: exactly when the rows agree, when the logs agree up to actors, and when they agree in full |
| LifecycleTransitionSplit.OrderedIsSeamless | app/services/lifecycle_transition_service.py:397-505 | without overrides and with no snapshot after a transition the seam never shows |
| LifecycleTransitionSplit.SplitIsInvisible | app/services/lifecycle_transition_service.py:397-505 | where the seam does not show, applying `a + b` equals applying `a` then `b` in rows and log; the actor columns agree exactly under the stated condition |
| LifecycleTransitionSplit.SnapshotAfterTransitionMatters | app/services/lifecycle_transition_service.py:155-160 | a batch with a snapshot after a transition where splitting changes the row and the chain breaks |
| ReminderPlan.LegacyPlan | app/domain/before_pickup_reminder_plan.py:57-77 | the plan without catch-up: past steps skipped, the others in input order |
| ReminderPlan.SplitByTime | app/domain/before_pickup_reminder_plan.py:99-112 | the loop splits the steps into past and future, the catch-up step aside |
| ReminderPlan.KeepSpaced | app/domain/before_pickup_reminder_plan.py:113-131 | the loop keeps and suppresses what the greedy choice keeps and drops |
| ReminderPlan.PlanBeforePickupReminders | app/domain/before_pickup_reminder_plan.py:80-139 | the whole planner, with and without catch-up |
| ReminderPlanProperties.GreedyBeats | app/domain/before_pickup_reminder_plan.py:113-131 | the exchange argument: no spaced choice from sorted candidates beats the greedy pass |
| ReminderPlanMeaning.PlanMeaning | app/domain/before_pickup_reminder_plan.py:57-139 | every input step is at exactly one place of the plan: catch-up, scheduled, suppressed or skipped, with its own number, offset and time, and the reason `gap_lt_min` or none |
| ReminderPlanMeaning.PlanOrder | app/domain/before_pickup_reminder_plan.py:57-131 | skipped rows come in input order, scheduled and suppressed rows by time and then input order; without catch-up the scheduled ones in input order |
| ReminderPlanMeaning.PlanCatchUp | app/domain/before_pickup_reminder_plan.py:39-54 | there is a catch-up step exactly when 0 < hours remaining <= the largest offset; it is the first input step with the least covering offset |
| ReminderPlanMeaning.PlanIsSpaced | app/domain/before_pickup_reminder_plan.py:113-131 | the plan's sends lie between now and pickup and are a gap apart, and a gap after a catch-up |
| ReminderPlanMeaning.PlanSuppressesForCause | app/domain/before_pickup_reminder_plan.py:113-131 | each suppressed row comes less than the gap after a send of the plan, or after the catch-up |
| ReminderPlanMeaning.PlanIsOptimal | app/domain/before_pickup_reminder_plan.py:106-131 | no set of input steps that could all be sent is larger than the plan's own, which could be |
| ReminderPlanMeaning.PlanIgnoresInputOrder | app/domain/before_pickup_reminder_plan.py:99-131 | permuting the input steps keeps the catch-up offset and the times of the plan |
| RoutingGuide.MaxAttempts | app/domain/load_tendering_settings.py:268-290 | the maximum lies in 1..3 and is the tenant's setting when that is in range |
| RoutingGuide.LiveAttemptMeaning | app/domain/gelita/routing_guide_lifecycle.py:30-76 | the stored attempt is the usable number there, or 1 |
| RoutingGuide.BelievedMeaning | app/domain/gelita/routing_guide_lifecycle.py:90-98 | a run believes its own usable attempt, then the cached one, then 1 |
| RoutingGuide.TenantSentMeaning | app/services/routing_guide_lifecycle_service.py:92-146 | sending to the tenant starts the counter at 1 and touches no counter that is there |
| RoutingGuide.ReadsMeaning | app/services/routing_guide_lifecycle_service.py:60-75 | which row entry, which attempt and which four ids the service reads |
| RoutingGuide.WorkflowLifecycles.SetRoutingGuideAttempt | app/repositories/workflow_lifecycles_repository.py:321-344 | writes one row's counter, and only a counter of at least 1 on an existing row |
| RoutingGuide.RoutingGuideLifecycleService.RecordTenantSent | app/services/routing_guide_lifecycle_service.py:77-146 | initialises the counter once, mirrors it into the run's state, does nothing without scope or for LTL |
| RoutingGuide.RoutingGuideLifecycleService.Advance | app/services/routing_guide_lifecycle_service.py:171-214 | one reject or timeout against the stored counter, duplicate and stale ones included |
| RoutingGuide.WaterfallRun | app/services/routing_guide_lifecycle_service.py:92-214 | over every run of non-future steps the counter stays in 1..max, never falls, and leaves any attempt at most once |
| RoutingGuide.CarriedAreNotAhead | app/domain/gelita/routing_guide_lifecycle.py:70-98 | whatever runs start, read, mirror and hand on, none ever carries an attempt ahead of the stored one |
| RoutingGuide.BeliefAfter | app/services/gelita_email_ingress_service.py:367-409 | what a run believes after each event, and that other runs believe what they did |
| RoutingGuide.WaterfallOverRuns | app/services/routing_guide_lifecycle_service.py:77-214 | from a row no run knows yet, over all events of all runs: the counter stays in 1..max, never falls, and leaves any attempt at most once |
| RoutingGuide.StepRisesByAtMostOne | app/services/routing_guide_lifecycle_service.py:179-214 | a step rises by at most one, and rises exactly when it carries the stored attempt below the maximum |
| RoutingGuide.AdvanceIff | app/services/routing_guide_lifecycle_service.py:188-214 | for any carried attempt: exactly when the rise is at most one, when the maximum is passed, when nothing changes |
| Communications.CommunicationsRepository.InsertRow | app/repositories/communications_repository.py:165-213 | appends a row without a lifecycle, or skips a second row of one external id |
| Communications.CommunicationsRepository.LinkWorkflowRun | app/repositories/communications_repository.py:295-351 | links an unlinked message, fills a missing lifecycle of the same run, never moves a link; true exactly when the message is now on the run |
| Communications.CommunicationsRepository.LinkWorkflowRunToThread | app/repositories/communications_repository.py:353-386 | links exactly the unlinked messages of a thread and counts them |
| Communications.InsertMeaning | app/repositories/communications_repository.py:165-213 | a new row goes to the end, without a lifecycle, unless its tenant has its external id |
| Communications.LinkRunMeaning | app/repositories/communications_repository.py:295-351 | which run and lifecycle each row has after linking one message; all other columns and rows stay |
| Communications.LinkThreadMeaning | app/repositories/communications_repository.py:353-386 | which run and lifecycle each row has after linking a thread; all other columns and rows stay |
| Communications.StepIsWriteOnce | app/repositories/communications_repository.py:295-386 | one operation keeps every set run and lifecycle id |
| Communications.StepIsWriteOnceIff | app/repositories/communications_repository.py:295-386 | for any table, one operation leaves every set id alone exactly when it overwrites no message that has a lifecycle and no run |
| Communications.LinksAreWriteOnce | app/repositories/communications_repository.py:172-386 | over every mix of inserts and links no run or lifecycle id ever changes, and no message without a run has a lifecycle |
| Communications.WriteOnceIff | app/repositories/communications_repository.py:172-386 | for any table, ids are write-once over every sequence of operations exactly when no message without a run has a lifecycle |
| CarrierThreads.AddAnchorMeaning | app/repositories/communications_repository.py:30-42 | each thread is anchored once, at its earliest message |
| CarrierThreadsProperties.QualifiesIff | app/repositories/communications_repository.py:30-42 | which messages count: tenant, run, event, own lifecycle or the run's, and a thread id of more than spaces |
| CarrierThreadsProperties.AnchorsMeaning | app/repositories/communications_repository.py:26-42 | the anchors of a table are exactly the linked threads with the times of their earliest linked messages |
| CarrierThreadsProperties.OrdinalsAreBijection | app/repositories/communications_repository.py:43-47 | ordinals are a bijection between the anchored threads and 1..n |
| CarrierThreadsProperties.LookupReturns | app/repositories/communications_repository.py:388-427 | the readers by attempt return the stripped id of the thread with that ordinal, or nothing |
| CarrierThreadsProperties.LookupsAreInverseIff | app/repositories/communications_repository.py:580-677 | thread to attempt and attempt to thread are inverses exactly on trimmed thread ids |
| CarrierThreadsProperties.UntrimmedThreadIsLost | app/repositories/communications_repository.py:580-677 | a thread whose attempt leads back to a text that has no attempt |
| CarrierThreadsProperties.LinkedAgrees | app/repositories/communications_repository.py:536-578 | the linked check agrees with the ordinal, with and without an attempt |
| CarrierThreadsProperties.AttemptlessLookups | app/repositories/communications_repository.py:388-427 | without an attempt the linked lookup is ordinal 1 and the inbound lookup ordinal n |
| CarrierThreadsProperties.OrdinalCountsEarlier | app/repositories/communications_repository.py:43-47 | a thread's attempt is one more than the number of threads anchored before it |
| CarrierThreadsProperties.InsertKeepsOrdinalIff | app/repositories/communications_repository.py:26-47 | exactly when a further linked message keeps another thread's ordinal |
| CarrierThreadsProperties.NewestKeepsOrdinals | app/repositories/communications_repository.py:26-47 | inserting the newest message changes no ordinal; a new thread gets the next one |
| CarrierThreadsProperties.LinkedRowStaysIff | app/repositories/communications_repository.py:295-386 | a message that counts for a lifecycle goes on counting exactly unless a link fills in another lifecycle |
| CarrierThreadsProperties.OpKeepsAnchorIff | app/repositories/communications_repository.py:26-42 | after any insert or link a thread is anchored exactly when one of its links was not moved away or a new one was made |
| CarrierThreadsProperties.OpsTouchOneThread | app/repositories/communications_repository.py:165-386 | one insert or link adds or changes messages of one thread only |
| CarrierThreadsProperties.OpKeepsOrdinalIff | app/repositories/communications_repository.py:26-47 | after any insert or link, exactly when a thread keeps its attempt: the touched thread stays on its side of it, or, for the touched one, no other is anchored between its two times |
| AttachmentIds.SanitizeMeaning | app/services/attachment_normalizer.py:73-78 | a token is safe, nonempty, at most 180 long; exactly such texts are kept as they are |
| AttachmentIds.SanitizeIsIdempotent | app/services/attachment_normalizer.py:73-78 | sanitising twice is sanitising once |
| AttachmentIdsMeaning.SafeIff | app/services/attachment_normalizer.py:77-77 | the characters that are kept, by code point |
| AttachmentIdsMeaning.CollapseKeeps | app/services/attachment_normalizer.py:77-77 | safe text stays as it is in front of whatever follows |
| AttachmentIdsMeaning.CollapseRun | app/services/attachment_normalizer.py:77-77 | a run of unsafe characters becomes one underscore in front of whatever follows |
| AttachmentIdsMeaning.SanitizeLosesNothing | app/services/attachment_normalizer.py:73-78 | up to 180 characters no safe character of the stripped text is lost or moved |
| AttachmentIdsMeaning.RefIs | app/services/attachment_normalizer.py:102-109 | the synthetic object name spelled out |
| AttachmentIdsMeaning.RefsCollideIff | app/services/attachment_normalizer.py:102-109 | two attachments of a shipment share a name exactly when their ids read alike for 180 written characters, an unsafe run counting as one underscore |
| AttachmentIds.AttachmentIdRoundTrip | app/services/attachment_normalizer.py:1311-1341 | for every id and shipment, missing, blank or odd, reading the built name with the same hint gives the sanitised id |
| AttachmentIds.RoundTripWithoutHintIff | app/services/attachment_normalizer.py:1311-1341 | without a hint, exactly when the shipment's token has no underscore |
| AttachmentIds.UnderscoreStaysInId | app/services/attachment_normalizer.py:1311-1341 | without a hint all of the shipment's token up to its last underscore stays in the id |
| AttachmentIds.UnderscoreExample | app/services/attachment_normalizer.py:1336-1340 | attachment x of shipment a_b is such an input, and reads as x_a |
| AttachmentIdsMeaning.NormalizeIff | app/services/s3bucket_service.py:12-19 | an object key is the stripped text behind its leading slashes, and one with a scheme is refused |
| AttachmentIdsMeaning.KeyOfRefMeaning | app/services/attachment_normalizer.py:1315-1323 | a web address stands for its path, anything else for an object key |
| AttachmentIdsMeaning.HintedIdIs | app/services/attachment_normalizer.py:1332-1337 | with the hinted shipment at its end, the id is all that is before |
| AttachmentIdsMeaning.UnhintedIdIs | app/services/attachment_normalizer.py:1338-1341 | otherwise the id ends before the last underscore, or is the whole rest |
| AttachmentIdsMeaning.ExtractFromPodName | app/services/attachment_normalizer.py:1324-1341 | in any directory, with any extension and behind any trailing slashes, the id is read between `pod_` and the last dot |
| AttachmentIdsMeaning.ExtractFromOtherName | app/services/attachment_normalizer.py:1324-1331 | any other name is left to the pattern |
| AttachmentIdsMeaning.PatternIdMeaning | app/services/attachment_normalizer.py:1325-1331 | the pattern's id stands between its first folder prefix and the last dot, before an extension of word characters |
| AttachmentNormalizer.SortKeysLoop | app/services/attachment_normalizer.py:202-270 | the loop over references fills the PDF, image and rejection piles and the bytes by reference |
| AttachmentNormalizer.ClassifyImagesBatch | app/services/attachment_normalizer.py:1005-1066 | one verdict for each image in order, or none when the classifier fails on one |
| AttachmentNormalizer.JudgeLoop | app/services/attachment_normalizer.py:293-308 | the loop over verdicts accepts and rejects the pending images |
| AttachmentNormalizer.SortAttachments | app/services/attachment_normalizer.py:187-326 | what is accepted, or which failure ends the call |
| AttachmentNormalizerMeaning.DetectIff | app/services/attachment_normalizer.py:1234-1249 | which leading bytes make which kind, and which kind wins |
| AttachmentNormalizerMeaning.SortOneIff | app/services/attachment_normalizer.py:202-270 | from download, conversion, image size and bytes: exactly when a reference is a PDF, goes to the classifier, or is rejected for each reason |
| AttachmentNormalizerMeaning.PilesMeaning | app/services/attachment_normalizer.py:202-270 | the PDFs, the pending images and the rejections are, in order, exactly the references with such downloads |
| AttachmentNormalizerMeaning.AcceptedMeaning | app/services/attachment_normalizer.py:187-326 | the PDFs, the valid images, and the rejections in order; or the failure of the classifier or of a sending with nothing valid |
| AttachmentNormalizerMeaning.StagedListMeaning | app/services/attachment_normalizer.py:681-714 | PDFs are staged first, numbered from one, images after them with the extension their bytes call for |
| AttachmentNormalizerMeaning.PathsMeaning | app/services/attachment_normalizer.py:681-714 | a staged name is its number, its id or else its kind and number, and its extension |
| AttachmentNormalizerMeaning.Pad3Meaning | app/services/attachment_normalizer.py:690-690 | the number in decimal, padded to three digits and no further |
| AttachmentNormalizerMeaning.StageTouchesOnlyStaged | app/services/attachment_normalizer.py:691-714 | staging changes no other file and returns only paths it wrote |
| AttachmentNormalizerMeaning.StagedInputsMeaning | app/services/attachment_normalizer.py:494-548 | the later merge fails for the first file that cannot be read, with its reason, or gets the PDFs and images in order |
| AttachmentNormalizer.StageDisk.StageAcceptedFiles | app/services/attachment_normalizer.py:659-727 | the disk and the returned paths after staging, failed writes skipped |
| AttachmentNormalizer.StageDisk.MergeStagedLocal | app/services/attachment_normalizer.py:494-548 | the two lists read back from staged paths, or the first failure |
| AttachmentNormalizerProperties.NoAttachmentIsLost | app/services/attachment_normalizer.py:193-332 | every reference ends as PDF, image or rejection as often as it was sent, also when nothing is accepted; only a failing classifier leaves images undecided |
| AttachmentNormalizerProperties.ImagesAreTheValidOnes | app/services/attachment_normalizer.py:272-308 | the accepted images are exactly those the classifier finds valid, in order, repeated references included |
| AttachmentNormalizerProperties.AcceptedCarryOwnBytes | app/services/attachment_normalizer.py:256-308 | whatever the classifier answers, an accepted file carries the bytes its own reference gives |
| AttachmentNormalizerProperties.AcceptedAreRemergeable | app/services/attachment_normalizer.py:1234-1278 | accepted bytes are recognised again as the same kind and need no second conversion |
| AttachmentNormalizerProperties.StagedPathsDiffer | app/services/attachment_normalizer.py:681-714 | staged paths never collide, whatever the ids |
| AttachmentNormalizerProperties.DirectInputsMeaning | app/services/attachment_normalizer.py:350-353 | the direct route gives the merger the accepted bytes in order, or fails as sorting does |
| AttachmentNormalizerProperties.StagedMergeAgreesIff | app/services/attachment_normalizer.py:494-559 | staging then merging gives the merger the same PDFs and images in the same order as the direct route, exactly when the stage directory can be made and all staged writes go through |
| BusinessErrorDependencies.IsSuppressedByWarnings | app/domain/business_error_dependencies.py:98-121 | true exactly when some listed warning covers the new one in scope |
| BusinessErrorDependencies.CatalogIsOneLevel | app/domain/business_error_dependencies.py:10-31 | no consequence is itself a cause, and every profile gap is a consequence |
| BusinessErrorDependencies.CoveringIsOneLevel | app/domain/business_error_dependencies.py:79-95 | what is covered is a dependent and what covers never is |
| BusinessErrorMeaning.CoversIff | app/domain/business_error_dependencies.py:45-95 | for any table: a row covers another exactly when its code lists the other's and, on the scope keys of both, one names nothing or they name the same |
| BusinessErrorMeaning.BusinessCoversIff | app/domain/business_error_dependencies.py:10-95 | in the business table: a missing delivery address covers the missing customer name of one delivery, a missing pack code the three gaps of one pack, and nothing else covers anything |
| TenderBusinessWarnings.TenderState.GetTenderBusinessWarnings | app/domain/tender_business_warnings.py:38-56 | the stored rows stripped, blank ones left out |
| TenderBusinessWarnings.TenderState.AppendTenderBusinessWarning | app/domain/tender_business_warnings.py:94-136 | appends unless covered, repeated, or repeating a profile key |
| TenderBusinessWarnings.CollapseDuplicateCatalogProfileWarnings | app/domain/tender_business_warnings.py:71-91 | the collapsing loop over rows and seen keys |
| TenderBusinessWarnings.FilterPrimaryBusinessWarnings | app/domain/tender_business_warnings.py:139-168 | the two filter loops compute the uncovered rows, collapsed |
| TenderBusinessWarningsMeaning.CleanedRowsMeaning | app/domain/tender_business_warnings.py:38-56 | reading gives the rows with a code or a message, stripped, in order |
| TenderBusinessWarningsMeaning.BusinessKeyIff | app/domain/tender_business_warnings.py:59-68 | which rows have a profile key and which key, stored and new |
| TenderBusinessWarningsMeaning.BusinessDependentIff | app/domain/business_error_dependencies.py:10-16 | exactly the customer name and the three profile gaps are consequences |
| TenderBusinessWarningsMeaning.SlimMeaning | app/domain/tender_business_warnings.py:84-89 | a keyed row keeps its code, message and pack code; every other row stays whole |
| TenderBusinessWarningsMeaning.BusinessAppendIff | app/domain/tender_business_warnings.py:94-136 | a warning is appended exactly when no stored row covers it, equals it once stripped, or is its gap of the same pack |
| TenderBusinessWarningsMeaning.BusinessFilterMeaning | app/domain/tender_business_warnings.py:139-168 | the filter keeps, in order, exactly the rows that none covers and that repeat no earlier such gap of one pack |
| TenderBusinessWarningsProperties.FilterIsSurvivors | app/domain/tender_business_warnings.py:139-168 | the filter keeps, in order, exactly the rows that no row covers and that repeat no earlier uncovered row's key |
| TenderBusinessWarningsProperties.RootCausesAreKept | app/domain/tender_business_warnings.py:139-168 | every root-cause row is kept unchanged and in order |
| TenderBusinessWarningsProperties.RemovedRowsAreAccountedFor | app/domain/tender_business_warnings.py:71-168 | each removed row is covered by a kept root or repeats a kept row's code and pack code |
| TenderBusinessWarningsProperties.FilterTwiceIff | app/domain/tender_business_warnings.py:71-91 | filtering again changes nothing exactly when slimming brought no kept row into a root's scope |
| TenderBusinessWarningsProperties.FilterTwiceCanDrop | app/domain/tender_business_warnings.py:84-89 | two rows on which the second pass drops what the first kept |
| TenderBusinessWarningsProperties.AppendedOrder | app/domain/tender_business_warnings.py:107-112 | a list built by appends has no dependent after a root that covers it |
| TenderBusinessWarningsProperties.AppendedKeys | app/domain/tender_business_warnings.py:128-134 | a list built by appends of rows lasting by their key repeats no profile key |
| TenderBusinessWarningsProperties.KeyLastingIff | app/domain/tender_business_warnings.py:128-134 | exactly the rows with a trimmed code or no profile key never repeat a key |
| TenderBusinessWarningsProperties.AppendedRows | app/domain/tender_business_warnings.py:118-126 | a list built by appends of lasting rows repeats no row |
| TenderBusinessWarningsProperties.LastingIff | app/domain/tender_business_warnings.py:118-136 | the lasting rows, trimmed in code and in message or keyed, are exactly those that no append ever repeats |
| TenderBusinessWarningsProperties.AppendTwiceIff | app/domain/tender_business_warnings.py:118-136 | exactly when appending the same warning twice adds it once |
| TenderBusinessWarningsProperties.BusinessAppends | app/domain/tender_business_warnings.py:94-136 | in the business catalog, what a list built by appends never holds: a dependent after its root, a repeated key, a repeated row |
| TenderBusinessWarningsProperties.BusinessLastingIff | app/domain/tender_business_warnings.py:118-136 | in the business catalog, exactly which warnings never repeat a row, and which never repeat a key |
| TenderBusinessWarningsProperties.BusinessRemovals | app/domain/tender_business_warnings.py:139-168 | in the business catalog, each removed row has a kept root or a kept repeat |
| TenderBusinessWarningsProperties.BusinessFilterOfAppended | app/domain/tender_business_warnings.py:94-168 | however business warnings were appended, the filter drops exactly the gaps whose root cause came later |
| LoadTendering.LoadTypeFromPalletTotals | app/domain/load_tendering_settings.py:92-135 | for any lines: FTL exactly when some profile's pallets exceed the threshold of its last line, or, without profiled lines, the total exceeds the fallback |
| LoadTenderingMeaning.IsFtlIff | app/domain/load_tendering_settings.py:92-135 | the load type from the entries alone: `pallets_count` before `pallets`, a non-numeric threshold as the fallback, sums over the lines |
| LoadTenderingProperties.MeaningWithSharedThresholds | app/domain/load_tendering_settings.py:98-104 | with one threshold a profile: FTL exactly when some profile's pallets exceed it |
| LoadTenderingProperties.OrderIsIrrelevantIff | app/domain/load_tendering_settings.py:108-133 | for any lines, every order gives the same load type exactly when some profile exceeds all its thresholds or no profile exceeds any |
| LoadTenderingProperties.OrderIsIrrelevant | app/domain/load_tendering_settings.py:108-133 | with one threshold a profile, permuting lines keeps the load type |
| LoadTenderingProperties.OrderMattersWithoutSharedThresholds | app/domain/load_tendering_settings.py:126-127 | two orders of two lines with different load types |
| LoadTenderingProperties.MoreLinesKeepFtl | app/domain/load_tendering_settings.py:108-133 | adding lines with nonnegative counts under the same thresholds never turns FTL into LTL |
| LoadTenderingProperties.FirstProfileDecides | app/domain/load_tendering_settings.py:129-135 | once a profiled line is added to unprofiled ones, the added lines alone decide |

## Left out

- HTTP routes, Celery configuration, S3, LLM, Turvo, Ascend and Unipile calls: input and output.
- Queue: JSON text of a work item; an element is NotJson, NotObject or Object by what parsing makes of it. A task's `id` and log lines are not modelled.
- Queue: redelivery of a task by the broker; tasks are acknowledged early, so a dead worker only loses its token, which is the fault step.
- Queue: the email handler lookup that can fail before a task's `finally` block is a fault step.
- Queue: the Celery work queue a task is routed to, which is derived from the tenant slug at publish time.
- Queue: `resolve_then_enqueue`, which only computes arguments for `enqueue`.
- Transitions: generated descriptions and metadata are passed through as `details`; status texts in the database that are no enum member; the `updated_at` column.
- Transitions: uuid spelling is a lookup in `Env`; SQL row locks and sessions appear only as the transaction's atomicity.
- LifecycleTransitionProperties.BatchRefinesFold: assumes no snapshot after a transition and that every transition updates the row; `TraceIsFold` and `ChainedIff` state the general case exactly.
- LifecycleTransition.LifecycleTransitionService.ApplySequence: with injected repositories, the rollback by the caller's `run_with_repos` transaction (app/core/service_db.py:16-20) is not modelled; what it would undo is stated.
- Planner: floating-point rounding and time zones; hours are reals. Delays are positive and the gap is nonnegative, as app/domain/reminder_schedule.py:13 and app/domain/reminder_schedule.py:47 guarantee.
- RoutingGuide.RoutingGuideLifecycleService.RecordTenantSent: does not model the two transition commands it sends on in the same transaction; LifecycleTransition covers what they do.
- RoutingGuide.RoutingGuideLifecycleService.Advance: does not model the cancellation of the prior attempt's reminders, which leaves the counter alone.
- RoutingGuide.WaterfallOverRuns: events are executed one at a time, which is what the run queue provides; two interleaved `advance` calls are not modelled.
- Carrier threads: ties in `created_at` between threads, where ROW_NUMBER is free to choose; times are distinct where a lemma says so.
- Communications: content, channel, direction and metadata columns; ids are canonical uuid texts.
- Attachments: a call with one nonblank reference goes through `_normalize_single_attachment_async`, which is not modelled; the two routes are compared on the general path.
- Attachments: bytes beyond magic prefixes, image decoding, PDF merging, the upload after a merge, and classification details beyond valid or not.
- AttachmentNormalizerProperties.StagedMergeAgreesIff: assumes the JPEG encoder writes the JPEG magic, downloads of one reference agree, and the rendered stage directory does not begin with white space; it compares the routes where something is accepted; the file system is a map from path text to bytes.
- AttachmentNormalizer.StageDisk.MergeStagedLocal: the branch for two empty lists after reading is left out, since at least one file has been read by then; naming and writing the merged file are left out too.
- AttachmentIds: `urlparse` and the regular-expression class for word characters are parameters; the extension helper `pod_individual_attachment_filename` is not modelled.
- Warnings: rows that are not dictionaries, and the HTML header built from the filtered rows.
- Load type: text that `int()` accepts is already a number; fractions and settings readers are not modelled.
- LoadTenderingProperties.MoreLinesKeepFtl: added lines may be profiled only if some line already is; `FirstProfileDecides` says what happens otherwise.
- Cancellation policies, status parsing, recipient lists, error texts, LangGraph configurations: they would only add easy members.
