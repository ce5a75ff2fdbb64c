# OpenNSW verification model

A Dafny model of the parts of the national single window (NSW) and of the agency portal (OGA) whose
behaviour spans several calls, with proofs of what those calls keep over whole runs. `dafny verify
dfyconfig.toml` checks everything.

## What is modelled

**Workflow engine** (`workflow_model`, `unlock*`, `workflow_*`, `node_store`, `state_machine`). Nodes move through
LOCKED, READY, IN_PROGRESS, COMPLETED and FAILED. `WorkflowSpec` is the transition system: a start builds the instance
from templates, an event is one task notification together with the order in which the database happens to return the
sibling rows; `workflow_templates` says what its runs mean in terms of the templates. The objects of `NodeStore`,
`StateMachine` and `WorkflowManager` update their tables in place and are proved against it, for any such order. A
notification is one serialised transaction: the code takes no row locks, so overlapping completions are outside the
claims.

**Task manager** (`lru`, `container_cache`, `plugin`, `task_*`). The container cache is a doubly linked list with a
map, proved to be a most-recent-first sequence. `TaskSpec` is the manager without any cache, each call working on the
stored row; `TaskManager` has the cache, the containers and the write-through local state, and answers every run of
requests as `TaskSpec` does, at any capacity. `task_notes` says what each request tells the workflow and answers,
`task_states` which task states go with a plugin state. `form_task`, `review_served` and `payment_task` put the review
and the payment below into this manager, so that what holds of their runs holds of the rows it stores.

**Review protocol** (`review_*`). One form at NSW and its record at the agency. A submission is delivered any number
of times, acknowledged or not, because the client retries after network errors. An officer's callback and the update
of the agency's record are one step. `review_actions` says what each action does, `review_verdict` which form a
verdict concerns; `extraction*` has the values that a submitted form and the agency's response write to the global
context.

**Payments** (`payment*`, `placeholder*`). The payment state machine with its lazy timeout and session rotation, each
clock reading a separate instant, and what each call records; the breakdown of amounts with its two rounding points;
the loop that fills in placeholders.

**Form data** (`json*`, `schema*`, `prepopulate*`). Reading and writing by dotted path, on values and in place, and
the schema traversal that prepopulates a form, whose order Go leaves open.

Where comment and code differ the code is followed: the comments on the payment state graph
(`backend/internal/task/plugin/payment.go:141-142`) say that a failure or timeout leaves the task IN_PROGRESS, the
table sets it back to INITIALIZED.

## What turned out to depend on a condition

- A node is LOCKED exactly while its dependencies are unmet only as long as no completion strands a node: the step that closes the
  end node runs no second unlock pass, so a LOCKED node whose dependencies come to hold through that closing stays LOCKED. One step
  keeps the property exactly when it strands nobody (`StepLockedExact`), and a run has it in all its states exactly when none of its
  events does (`RunLockedExact`, from templates `AlwaysLockedExact`). Three templates and one event fail (`LockedThoughMet`).
  When nothing reads the end node no completion strands a node (`AlwaysLockedIffUnmet`).
- All of this is for progress leaves: unlock leaves whose value only a completion can change. That restriction is exact too: over all
  templates with given valid tests, LOCKED is exact throughout every run that strands no node if and only if no test without an
  outcome is for LOCKED, READY, IN_PROGRESS or FAILED (`KeepsLockedExact`).
- An acyclic workflow with progress leaves, in which nothing reads the end node, gets stuck only on a node that is refused: everything it waits for
  is complete and a leaf does not hold of it, because it tests another outcome or a state no node has (`DeadlockFree`, from templates
  `AlwaysDeadlockFree`). A refused node stays LOCKED for ever (`RefusedForever`). When every leaf asks for COMPLETED alone, nothing is
  ever refused and every reachable state can be continued to COMPLETED (`CanFinish`, `AlwaysFinishable`).
- The unlock pass gives the same nodes in every order of the siblings, for all graphs with given leaf tests, exactly when none of the
  tests is for READY or LOCKED (`OrderFreeExact`); every other valid test makes two nodes that come out differently
  (`UnlockPassNeedsQuiet`). A graph that has such a leaf may still be indifferent to the order.
- Both sides of a review agree over every run exactly for the configurations with a submission URL, or without verification (`AgreementExact`).
- Delivering each submission exactly once does not keep the feedback histories equal (`DeliveredOnceYetLost`). They are equal
  exactly when no delivery of the run overwrote a record while there was feedback (`HistoriesEqualExact`); this holds when each
  submission is either delivered once and acknowledged, or neither (`TruthfulHistoriesEqual`).
- A verdict concerns the form NSW holds exactly when no submission, refused after its form was stored and not followed by one that
  was sent, carried other data than the agency's record (`VerdictExact`, `StoredFormExact`). It can therefore concern an earlier
  form (`VerdictOnEarlierForm`).
- The pairs that a submission writes to the global context are the same in every order of Go's iteration exactly when a value is
  missing or no two nodes write different values to one name (`ExtractionOrderExact`, property names not being empty); the fields taken
  from a response exactly when no name is mapped from two different values (`ParseOrderExact`).
- A timeout rotates the payment session exactly when the client's time stamp is at most the 30 second grace period before the
  session (`TimeoutsRotateExact`). An accepted initiation is dated so, or stored when the session has expired, exactly when no timely
  continuation records a transaction twice (`TimelyExact`, `EarlyStampRecordsTwice`).
- A session that expires before its payment window closes is rotated in IN_PROGRESS, and renderings then never time it out
  (`RotatedInProgressExact`, `RotatedNeverTimesOut`).
- The placeholder loop ends when no global value contains `{`, and when none contains `}` (`EndsWithout`). For texts whose braces are
  paired and not nested it ends exactly when following references never meets a path again (`EndsExactly`, `SelfReferenceLoops`).

## Model

| member | source | states |
|---|---|---|
| Unlock.Validate | backend/internal/workflow/model/unlock_config.go:99-122 | a configuration is accepted exactly when it has one of the two forms and every condition in it is well formed |
| Unlock.ValidateExpression | backend/internal/workflow/model/unlock_config.go:140-187 | the counting validator accepts exactly the recursively well-formed AND/OR expressions |
| Unlock.ResolveToInstanceIDs | backend/internal/workflow/model/unlock_config.go:190-226 | resolution succeeds exactly when the configuration is valid and every template in it has a node |
| Unlock.ResolutionPreservesMeaning | backend/internal/workflow/model/unlock_config.go:190-342 | the resolved configuration is valid, never dereferences nil, and evaluates to the template-level formula read through the mapping, in both forms |
| UnlockLeaves.EvaluateMonotone | backend/internal/workflow/model/unlock_config.go:266-342 | a configuration that holds keeps holding when no leaf that was true becomes false |
| UnlockLeaves.EvaluateUniform | backend/internal/workflow/model/unlock_config.go:266-342 | a valid configuration whose leaves all have one value has that value, so valid expressions are false at the start |
| UnlockLeaves.ResolvedConfigLeaves | backend/internal/workflow/model/unlock_config.go:190-264 | the leaves after resolution are exactly the leaves before it with their node ids filled in, none lost and none added |
| UnlockPasses.UnlockPassExact | backend/internal/workflow/manager/state_machine.go:265-283 | the in-place pass makes READY exactly the LOCKED nodes whose dependencies hold before it, and leaves the others as they were |
| UnlockPasses.UnlockPassOrderFree | backend/internal/workflow/manager/state_machine.go:265-283 | any two orders of the siblings give the same nodes and the same unlocked ids |
| UnlockPasses.UnlockPassNeedsQuiet | backend/internal/workflow/manager/state_machine.go:265-303 | for every valid test of READY or LOCKED, two nodes and two orders that give different results |
| UnlockPasses.OrderFreeExact | backend/internal/workflow/manager/state_machine.go:265-303 | all graphs whose leaves put these tests are independent of the order exactly when no test is for READY or LOCKED |
| UnlockPasses.CompletionCases | backend/internal/workflow/manager/state_machine.go:55-94 | what a completion can do to each node, for any leaves and any order |
| UnlockPasses.NewReadyExact | backend/internal/workflow/manager/state_machine.go:96-101 | the nodes handed on are exactly the nodes the completion took from LOCKED to READY, each once |
| WorkflowInvariants.RunForward | backend/internal/workflow/manager/state_machine.go:36-165 | over any run COMPLETED nodes are never changed, nothing returns to LOCKED and the graph stays the same |
| WorkflowInvariants.RunLockedIffUnmet | backend/internal/workflow/manager/state_machine.go:55-110 | with progress leaves, and nothing reading the end node, LOCKED exactly while the dependencies are unmet is kept by every run |
| WorkflowInvariants.RunActivatedOnce | backend/internal/workflow/manager/manager.go:191-235 | the activation account is kept by every run |
| WorkflowInvariants.CompletionSound | backend/internal/workflow/manager/manager.go:300-322 | once the status is COMPLETED the workflow is finished in every later state, with the plain dependencies of the end node complete |
| WorkflowInvariants.RunStatusExact | backend/internal/workflow/manager/manager.go:275-323 | over any run from an unfinished start: the status is FAILED exactly when the last event that set it was a failure, and COMPLETED exactly when the workflow is finished and it was not |
| WorkflowInvariants.StepLockedExact | backend/internal/workflow/manager/state_machine.go:55-110 | with progress leaves, a step keeps LOCKED exactly on unmet dependencies if and only if it does not close the end node while that is what some LOCKED node waits for |
| WorkflowInvariants.RunLockedExact | backend/internal/workflow/manager/state_machine.go:74-94 | with progress leaves, LOCKED is exact in all states of a run if and only if none of its events strands a node |
| WorkflowInvariants.RunUnlockedMet | backend/internal/workflow/manager/state_machine.go:265-303 | with progress leaves, after any run a node that has left LOCKED has its dependencies met, whatever reads the end node |
| WorkflowProgress.DeadlockFree | backend/internal/workflow/manager/state_machine.go:285-330 | on an acyclic graph with progress leaves, nothing reading the gated end node: while anything is incomplete some other node can be acted on, or a LOCKED node is refused by what it waited for; never the latter when every leaf asks for COMPLETED alone |
| WorkflowProgress.RefusedForever | backend/internal/workflow/manager/state_machine.go:285-303 | a refused node stays refused and LOCKED in every run, so that the workflow never completes all its nodes |
| WorkflowProgress.CompletionShrinks | backend/internal/workflow/manager/state_machine.go:47-58 | every accepted completion strictly shrinks the set of incomplete nodes |
| WorkflowProgress.TasksDoneMeansFinished | backend/internal/workflow/manager/state_machine.go:82-104 | on an acyclic graph whose leaves ask for COMPLETED alone, when all task nodes are complete so is the gated end node, and the workflow is finished |
| WorkflowProgress.CanFinish | backend/internal/workflow/manager/state_machine.go:36-165 | on an acyclic graph whose leaves ask for COMPLETED alone, from every live state some run, of at most two events for each incomplete node, completes the workflow |
| WorkflowStart.StartLockedIffUnmet | backend/internal/workflow/manager/state_machine.go:212-254 | with progress leaves, a fresh instance has READY exactly the nodes whose dependencies are met |
| WorkflowStart.StartActivatedOnce | backend/internal/workflow/manager/state_machine.go:238-254 | the nodes handed over at the start are exactly those that start READY, each once |
| WorkflowStart.StartRanked | backend/internal/workflow/manager/state_machine.go:222-236 | acyclic templates give acyclic instances |
| WorkflowStart.AlwaysLockedIffUnmet | backend/internal/workflow/manager/state_machine.go:55-110 | from templates with progress leaves, nothing depending on an end node: in every reachable state a node is LOCKED exactly when its dependencies are unmet |
| WorkflowStart.AlwaysLockedExact | backend/internal/workflow/manager/state_machine.go:55-110 | from templates with progress leaves, without a condition on the end node: LOCKED is exact throughout a run if and only if it strands no node |
| WorkflowLeaves.KeepsLockedExact | backend/internal/workflow/manager/state_machine.go:212-303 | for all templates with given valid tests, LOCKED is exact throughout every run that strands no node if and only if no test without an outcome is for LOCKED, READY, IN_PROGRESS or FAILED |
| WorkflowStart.LockedThoughMet | backend/internal/workflow/manager/state_machine.go:74-94 | three templates and one event after which a node is LOCKED with its dependencies met |
| WorkflowStart.AlwaysUnlockedMet | backend/internal/workflow/manager/state_machine.go:265-303 | from templates with progress leaves, no node is unlocked prematurely in any reachable state |
| WorkflowStart.AlwaysActivatedOnce | backend/internal/workflow/manager/manager.go:162-232 | over a whole run every node that has left LOCKED was handed over once, except a gated end node, which is only ever LOCKED or COMPLETED |
| WorkflowStart.AlwaysSoundStatus | backend/internal/workflow/manager/manager.go:275-323 | from templates: completion soundness, and the status exact up to the last failure or completion that set it, so equal to being finished without failures |
| WorkflowStart.AlwaysSoundEnd | backend/internal/workflow/manager/manager.go:300-322 | from templates with progress leaves: once the status is COMPLETED the end node is complete in every later state and whatever gates it holds, an unlock configuration included |
| WorkflowStart.AlwaysDeadlockFree | backend/internal/workflow/manager/state_machine.go:265-330 | in every reachable incomplete state of an acyclic workflow with progress leaves, nothing depending on an end node, some node can be acted on, other than a gated end node, or is refused |
| WorkflowStart.AlwaysFinishable | backend/internal/workflow/manager/manager.go:95-331 | every reachable state of an acyclic workflow whose leaves ask for COMPLETED alone, nothing depending on an end node, can be continued to COMPLETED by a run of at most two events for each incomplete node |
| NodeStore.WorkflowNodeService.CreateWorkflowNodes | backend/internal/workflow/service/workflow_node_service.go:42-53 | all rows are inserted under their new keys or none is |
| NodeStore.WorkflowNodeService.UpdateWorkflowNodes | backend/internal/workflow/service/workflow_node_service.go:56-85 | the loop saves every node in order and fails exactly when a row is missing, with the rows before the first missing one saved |
| StateMachine.UnlockDependentNodes | backend/internal/workflow/manager/state_machine.go:265-283 | the loop computes the unlock pass and collects the unlocked nodes in order |
| StateMachine.EvaluateWorkflowCompletion | backend/internal/workflow/manager/state_machine.go:305-330 | the end node decides, or all nodes do when there is none |
| StateMachine.CollectNewReady | backend/internal/workflow/manager/state_machine.go:96-101 | keeps exactly the unlocked nodes still READY, so not an end node that was closed |
| StateMachine.SortNodesByID | backend/internal/workflow/manager/state_machine.go:352-356 | the written list is a sorted permutation |
| StateMachine.BeforeExact | backend/internal/workflow/manager/state_machine.go:352-356 | the order of the ids is that of a dictionary |
| StateMachine.WorkflowNodeStateMachine.TransitionToCompleted | backend/internal/workflow/manager/state_machine.go:36-111 | the table afterwards is the table with the completed step, and the written nodes are exactly those that changed, each once and sorted |
| StateMachine.WorkflowNodeStateMachine.TransitionToFailed | backend/internal/workflow/manager/state_machine.go:114-139 | accepted states, the one row written, and nothing else |
| StateMachine.WorkflowNodeStateMachine.TransitionToInProgress | backend/internal/workflow/manager/state_machine.go:142-165 | accepted states, the one row written, and nothing else |
| StateMachine.WorkflowNodeStateMachine.InitializeNodesFromTemplates | backend/internal/workflow/manager/state_machine.go:168-263 | succeeds exactly on resolvable templates with fresh keys, and then adds exactly the instance of the specification |
| WorkflowTemplates.StartedNodeExact | backend/internal/workflow/manager/state_machine.go:178-254 | everything a started node holds: its dependencies are, in order and each as often as it occurs, the nodes of the entries of its template that have one; its resolved configuration means that of the template; READY exactly when it has neither |
| WorkflowTemplates.StartedEndExact | backend/internal/workflow/manager/state_machine.go:211-220 | the end node is that of the last end node template, and there is none when no template is one |
| WorkflowTemplates.MetExact | backend/internal/workflow/manager/state_machine.go:285-303 | in every later state the dependencies of a node are met exactly when what its template waits for holds |
| WorkflowTemplates.AlwaysPlainMet | backend/internal/workflow/manager/state_machine.go:285-303 | whatever leaves test: a node whose template has no unlock configuration leaves LOCKED only when the node of every dependency of the template is COMPLETED |
| WorkflowTemplates.AlwaysTemplateMet | backend/internal/workflow/manager/state_machine.go:265-303 | with progress leaves, no node leaves LOCKED before what its template waits for holds |
| WorkflowTemplates.AlwaysTemplateExact | backend/internal/workflow/manager/state_machine.go:265-303 | and when nothing depends on an end node, exactly when it holds |
| WorkflowTemplates.AlwaysCompleted | backend/internal/workflow/manager/state_machine.go:305-330 | once the status is COMPLETED: the node of the last end node template is COMPLETED in every later state, or all nodes are when there is no such template |
| WorkflowTemplates.AlwaysSoundTemplate | backend/internal/workflow/manager/manager.go:300-322 | and what the template of the end node waits for holds in every later state |
| WorkflowTemplates.AlwaysReported | backend/internal/workflow/manager/manager.go:275-323 | the status is COMPLETED exactly when the end node, or without one every node, is COMPLETED and no failure was reported since |
| WorkflowManager.WorkflowManager.RegisterNodesWithTaskManager | backend/internal/workflow/manager/manager.go:339-368 | registers in order and stops at the first failure |
| WorkflowManager.WorkflowManager.ProcessStateTransition | backend/internal/workflow/manager/manager.go:237-331 | commits exactly the step of the specification, or leaves every table as it was |
| WorkflowManager.WorkflowManager.HandleTaskUpdate | backend/internal/workflow/manager/manager.go:191-235 | a notification for a node is committed exactly when the node's state admits the reported one and no status handler it calls fails; COMPLETED, FAILED and IN_PROGRESS are what the row then holds, with outcome and extended state, a failure fails the workflow, an Initialized report changes nothing; and which nodes reach the task manager |
| WorkflowManager.ReportExact | backend/internal/workflow/manager/manager.go:370-383 | the update made of a report says what was reported, for each of the four states |
| WorkflowManager.ReportedRowsExact | backend/internal/workflow/manager/manager.go:191-235 | a step of the specification leaves in the rows of the workflow exactly what was reported, and moves other rows only from LOCKED |
| WorkflowManager.EndTemplatesExact | backend/internal/workflow/manager/manager.go:120-146 | the end node of a start depends on the end nodes of the workflow templates that have one, in order and each as often as it occurs |
| WorkflowManager.WorkflowManager.StartWorkflowInstance | backend/internal/workflow/manager/manager.go:95-177 | when a start succeeds, and that it adds the instance of the specification without touching other workflows |
| LRU.GetKeeps | backend/internal/task/manager/cache.go:39-51 | a read shows no entry that was not cached |
| LRU.GetPermutes | backend/internal/task/manager/cache.go:39-51 | with unique keys a read is a permutation of the cached entries |
| LRU.CacheIsTop | backend/internal/task/manager/cache.go:39-79 | after any run of Get and Set the cached keys are the top of the stack of all keys ever touched |
| LRU.StackDistance | backend/internal/task/manager/cache.go:39-79 | a key is present exactly when it was set and fewer than capacity distinct other keys were touched since |
| LRU.CachedValue | backend/internal/task/manager/cache.go:39-79 | a key that is present holds the value it was last set to |
| ContainerCache.Cache.Get | backend/internal/task/manager/cache.go:39-51 | the list refines the sequence: the entry found moves to the front, order otherwise kept |
| ContainerCache.Cache.Set | backend/internal/task/manager/cache.go:54-79 | the list refines the sequence: new entry first, the last one evicted beyond capacity |
| ContainerCache.Cache.Delete | backend/internal/task/manager/cache.go:82-93 | exactly that key is removed |
| ContainerCache.Cache.Clear | backend/internal/task/manager/cache.go:96-103 | the list is emptied |
| ContainerCache.Cache.Len | backend/internal/task/manager/cache.go:106-110 | the map is as large as the list |
| ContainerCache.Cache.MoveToFront | backend/internal/task/manager/cache.go:113-119 | pointer surgery moves one node and keeps links, ends and map in step |
| ContainerCache.Cache.AddToFront | backend/internal/task/manager/cache.go:122-134 | pointer surgery prepends one node |
| ContainerCache.Cache.RemoveNode | backend/internal/task/manager/cache.go:137-149 | pointer surgery unlinks one node wherever it stands |
| ContainerCache.Cache.EvictLRU | backend/internal/task/manager/cache.go:152-164 | exactly the last node leaves list and map |
| Plugin.FSMsEndInSinks | backend/internal/task/plugin/simple_form.go:162-189 | in all three plugins a transition that ends the task leads to a state without outgoing edges |
| TaskManager.LocalStateManager.SetState | backend/internal/task/persistence/state_manager.go:66-72 | a write changes memory and the stored local state alike |
| TaskManager.Container.Transition | backend/internal/task/container/container.go:45-66 | memory and row take the same transition, or neither changes |
| TaskManager.Container.Run | backend/internal/task/container/container.go:68-108 | a plugin call leaves container and row in step and answers as the specification |
| TaskManager.TaskManager.GetTask | backend/internal/task/manager/manager.go:266-340 | from cache or store, the container handed out is in step with its row |
| TaskManager.TaskManager.ExecuteTask | backend/internal/task/manager/manager.go:134-154 | answer, row and notifications are those of the manager without a cache |
| TaskManager.TaskManager.GetTaskRenderInfo | backend/internal/task/manager/manager.go:115-131 | rendering answers as the manager without a cache |
| TaskManager.TaskManager.InitTask | backend/internal/task/manager/manager.go:160-229 | a first initialization is that of the specification; a repeated one restarts the task exactly when it is cached, and otherwise fails without effect |
| TaskManager.TaskManager.HandleAll | backend/internal/task/manager/manager.go:115-340 | cache transparency: any run of requests gives the rows, answers and notifications of the manager without a cache, at any capacity |
| TaskSpec.ServeAllKeys | backend/internal/task/manager/manager.go:160-229 | only initializations create task rows |
| TaskNotes.RunServes | backend/internal/task/manager/manager.go:115-262 | over every run each request calls the plugin of its row, answers its reply with the new states if the plugin state moved, and tells exactly that: one update for a successful start, one report or update for an Execute that moved the plugin state |
| TaskNotes.DoneNoteExact | backend/internal/task/manager/manager.go:253-259 | a report to the done handler is that of the call that ended the task, with the workflow of its row and the outputs of its reply |
| TaskNotes.RowOrigin | backend/internal/task/manager/manager.go:160-229 | every row keeps workflow, type, configuration and globals of the request that initialized it |
| TaskStates.RunMeans | backend/internal/task/container/container.go:45-66 | over every run of the three plugins: which task states go with each plugin state, so that a completed payment is Completed |
| TaskStates.WaitMovesExact | backend/internal/task/plugin/wait_for_event.go:101-222 | what each call of a wait stores, which states it leaves, and when it succeeds |
| TaskStates.WaitExact | backend/internal/task/plugin/wait_for_event.go:141-222 | a wait is completed exactly by the callback of a service that was notified |
| TaskEnds.RunEnds | backend/internal/task/manager/manager.go:246-262 | in every run the done handler has been called once for each finished task and never for another |
| TaskEnds.RunKeeps | backend/internal/task/container/container.go:45-66 | task state and plugin state of a finished task never change again |
| TaskEnds.FormDisciplined | backend/internal/task/plugin/simple_form.go:258-300 | only a successful Execute can end a form |
| TaskEnds.PaymentDisciplined | backend/internal/task/plugin/payment.go:181-296 | only a successful Execute can end a payment |
| TaskEnds.WaitDisciplined | backend/internal/task/plugin/wait_for_event.go:141-222 | only a successful Execute can end a wait |
| TaskEnds.FinishedTasksReportOnce | backend/internal/task/manager/manager.go:246-262 | for the three plugins, whatever their handlers compute: one report for each finished task, and the end is final |
| ReviewProtocol.Delivered | oga/internal/service.go:112-138 | however often it is delivered, a request leaves the record PENDING with its data, and when the history survives |
| ReviewActions.DecisionExact | backend/internal/task/plugin/simple_form.go:303-336 | without a transition a form under verification ends Completed exactly when the decision is a text that spells APPROVED in any mixture of cases, and Failed otherwise; nothing else is accepted |
| ReviewActions.TransitionExact | backend/internal/task/plugin/simple_form.go:317-319 | with a transition it is the verdict mapped from the text at its field, the default exactly when the field is missing or not mapped, and an error for any other value |
| ReviewActions.SubmissionExact | backend/internal/task/plugin/simple_form.go:374-507 | what a submission does to the form, and whether it succeeds, by state, fields, address, delivery and answer; it leads to OGA_ACKNOWLEDGED or completes the task by the configuration |
| ReviewActions.SubmissionReceived | backend/internal/task/plugin/simple_form.go:906-924 | the agency then holds a pending record made of what was sent, or what it held before |
| ReviewActions.OutputsExact | backend/internal/task/plugin/simple_form.go:405-421 | every pair a submission reports comes from a mapped field of the response or a field of the form, the response winning, and none is lost |
| ReviewActions.StartExact | backend/internal/task/plugin/simple_form.go:258-272 | a new task is initialized once its form is found, and only once |
| ReviewActions.DraftExact | backend/internal/task/plugin/simple_form.go:359-369 | a draft is stored in the three editable states, and refused without effect in the others |
| ReviewActions.FeedbackExact | backend/internal/task/plugin/simple_form.go:637-667 | a remark that is not blank is appended with the next round to a form under verification; anything else changes nothing |
| ReviewActions.ReviewedRecord | oga/internal/service.go:264-297 | a review that NSW takes leaves response, time and the mapped status in the record, any other changes neither side |
| ReviewActions.RemarkedRecord | oga/internal/service.go:300-326 | a remark that NSW takes is appended to the record, which asks for a new submission |
| ReviewActions.RunOwned | oga/internal/service.go:112-138 | in every run the record of the agency is one made for this task |
| ReviewProtocol.StepAgrees | backend/internal/task/plugin/simple_form.go:274-507 | every step keeps the agreement of the two sides |
| ReviewProtocol.RunAgrees | oga/internal/service.go:112-326 | after every run OGA_ACKNOWLEDGED means PENDING with the stored form, OGA_FEEDBACK_PROVIDED means FEEDBACK_REQUESTED, OGA_REVIEWED means the mapped status of the review both sides hold |
| ReviewProtocol.AgreementExact | backend/internal/task/plugin/simple_form.go:429-439 | agreement after all runs holds exactly for configurations that reach the agency |
| ReviewProtocol.VerdictCoversAcknowledgedForm | backend/internal/task/plugin/simple_form.go:303-336 | a verdict on an acknowledged form concerns the form NSW holds and ends the task as the transition says |
| ReviewHistory.HistoryIsSuffix | oga/internal/store.go:208-243 | after every run rounds count from 1 on both sides and the agency holds exactly the rounds after its last overwrite |
| ReviewHistory.HistoryGrows | backend/internal/task/plugin/simple_form.go:637-667 | the NSW history is append-only |
| ReviewHistory.HistoriesEqualExact | oga/internal/service.go:117-137 | the histories are equal exactly when no delivery overwrote a record while there was feedback |
| ReviewHistory.TruthfulHistoriesEqual | backend/pkg/remote/client.go:91-149 | with submissions delivered once and acknowledged, or neither, the histories are equal |
| ReviewHistory.DeliveredOnceYetLost | oga/internal/service.go:117-137 | a run in which each submission is delivered once and the agency still loses its feedback |
| ReviewHistory.VerdictOnEarlierForm | backend/internal/task/plugin/simple_form.go:374-400 | a run that ends approved with a stored form the agency never received |
| ReviewVerdict.StoredFormExact | backend/internal/task/plugin/simple_form.go:374-439 | over every run under review, the stored form differs from the agency's data exactly when the last refused submission since the last one sent carried other data |
| ReviewVerdict.VerdictExact | backend/internal/task/plugin/simple_form.go:374-400 | a verdict concerns the form NSW holds exactly when that form is not stale in this sense, and ends the task as the transition says |
| ReviewServices.OgaService.CreateApplication | oga/internal/service.go:112-138 | what one delivery does to the record, and that other records are kept |
| ReviewServices.OgaService.MappedStatus | oga/internal/service.go:283-295 | the final status read from the configuration of the task code, DONE when nothing is mapped |
| ReviewServices.OgaService.ReviewApplication | oga/internal/service.go:264-297 | one review is one step of the protocol |
| ReviewServices.OgaService.FeedbackApplication | oga/internal/service.go:300-326 | one feedback is one step of the protocol |
| ReviewServices.ApplicationStore.UpdateStatus | oga/internal/store.go:180-204 | three columns of one row change, or the row is missing |
| ReviewServices.ApplicationStore.AppendFeedback | oga/internal/store.go:208-229 | the entry is appended and the status set |
| ReviewServices.ApplicationStore.UpdateDataAndResetStatus | oga/internal/store.go:231-243 | data and status change, the history stays |
| ReviewServices.SimpleForm.SendFormSubmission | backend/internal/task/plugin/simple_form.go:906-924 | the retries deliver the same request any number of times |
| ReviewServices.SimpleForm.SubmitHandler | backend/internal/task/plugin/simple_form.go:374-507 | the form is stored first, which later failures leave which state, and what the call reports for the global context |
| Extraction.ExtractGlobals | backend/internal/task/plugin/simple_form.go:405-421 | the loop collects the pairs of the specification and stops at the first missing value |
| Extraction.ExtractExact | backend/internal/task/plugin/simple_form.go:405-421 | a form passes exactly when every node that writes has a value, and its pairs are exactly those the nodes write |
| Extraction.ExtractionOrderFree | backend/internal/task/plugin/simple_form.go:405-421 | the order in which Go iterates does not decide whether a form passes, nor its pairs unless two nodes write different values to one name |
| ExtractionOrder.ExtractionOrderExact | backend/internal/task/plugin/simple_form.go:405-421 | with no empty property name, every order gives the same pairs if and only if a value is missing or no two nodes write different values to one name |
| Extraction.ParseResponseData | backend/internal/task/plugin/simple_form.go:941-960 | exactly the mapped fields that the response has are collected, a later path of the given order winning |
| Extraction.ParseResponseExact | backend/internal/task/plugin/simple_form.go:941-960 | every mapped path found gives its field, and every field comes from one |
| Extraction.ParseOrderExact | backend/internal/task/plugin/simple_form.go:941-960 | the fields are the same for every order of the mapping if and only if no name is mapped from two different values |
| ReviewServices.SimpleForm.OgaFeedbackHandler | backend/internal/task/plugin/simple_form.go:637-667 | valid feedback is appended with the next round number, anything else changes nothing |
| ReviewServices.SimpleForm.Execute | backend/internal/task/plugin/simple_form.go:274-300 | resolution, permission, handler and transition together are one step of the protocol |
| PaymentRuns.StepSound | backend/internal/task/plugin/payment.go:181-391 | every call keeps the invariants, grows the history by one exactly on a return to IDLE, and rotates the session in the call that times out |
| PaymentRuns.RunSound | backend/internal/task/plugin/payment.go:568-605 | over every run: rounds numbered in order, one entry for each return to IDLE, IDLE with a session neither initiated nor with a checkout URL |
| PaymentRuns.HistoryGrows | backend/internal/task/plugin/payment.go:679-697 | the transaction history is append-only, whatever clock and clients do |
| PaymentRuns.NoTransactionTwice | backend/internal/task/plugin/payment.go:568-616 | with unique identifiers no transaction of a run is recorded twice |
| PaymentRecords.StartExact | backend/internal/task/plugin/payment.go:181-196 | a start generates the first session, once |
| PaymentRecords.InitiationExact | backend/internal/task/plugin/payment.go:301-391 | when an initiation is taken, and that it keeps the identifiers of the session and notes method, instant and checkout URL |
| PaymentRecords.SuccessExact | backend/internal/task/plugin/payment.go:546-564 | success completes a payment in progress, and nothing else |
| PaymentRecords.FailureExact | backend/internal/task/plugin/payment.go:568-605 | a failure logs the session as FAILED and returns to IDLE with a new one |
| PaymentRecords.RenderingExact | backend/internal/task/plugin/payment.go:200-275 | a rendering logs a timeout exactly when the window of the initiated session is over, and replaces a session exactly when it has expired |
| PaymentRecords.HistoryTells | backend/internal/task/plugin/payment.go:679-697 | every entry of the history of a run tells of one failure or one timeout, with identifiers and instants of the session concerned |
| PaymentRuns.TimelyExact | backend/internal/task/plugin/payment.go:355-371 | an accepted initiation is timely exactly when no timely continuation with unique identifiers records a transaction twice |
| PaymentRuns.TimeoutsRotateExact | backend/internal/task/plugin/payment.go:232-256 | every timeout rotates the session exactly when it was initiated at most the grace period before it was generated |
| PaymentRuns.RotatedInProgressExact | backend/internal/task/plugin/payment.go:232-256 | exactly when a rendering drops the initiation of a payment in progress |
| PaymentRuns.RotatedNeverTimesOut | backend/internal/task/plugin/payment.go:232-256 | after that no sequence of renderings times the payment out |
| PaymentRuns.EarlyStampRecordsTwice | backend/internal/task/plugin/payment.go:355-371 | a run with an early client stamp that records one transaction twice |
| PaymentPlugin.PaymentTask.GetRenderInfo | backend/internal/task/plugin/payment.go:200-275 | one rendering is one step, and shows the session stored afterwards with the lines and the rounded total of the breakdown |
| PaymentPlugin.PaymentTask.InitiateHandler | backend/internal/task/plugin/payment.go:301-391 | one initiation is one step; when it succeeds, and with the checkout URL that the provider gives for the rounded total |
| PaymentPlugin.PaymentTask.FailedHandler | backend/internal/task/plugin/payment.go:568-605 | one failure is one step |
| PaymentPlugin.PaymentTask.RecordTransaction | backend/internal/task/plugin/payment.go:679-697 | one entry is appended with the next round number |
| PaymentBreakdown.RoundsBy | backend/internal/task/plugin/payment.go:424-451 | rounding to two places moves an amount by at most half a cent |
| PaymentBreakdown.CalculateBreakdown | backend/internal/task/plugin/payment.go:395-452 | the two loops give the fixed items, then the percentage items, in order, each line at its turn with its description; the total is the rounded difference of the additions and the others |
| PaymentBreakdown.TotalIsDifference | backend/internal/task/plugin/payment.go:402-441 | the unrounded total is the sum of the amounts of the charged additions minus the sum of the amounts of the other charged items |
| PaymentBreakdown.ChargedTotal | backend/internal/task/plugin/payment.go:395-452 | the same of the fixed items and the percentage items of a configuration, in terms of the configuration |
| PaymentTotals.FeesAddUp | backend/internal/task/plugin/payment.go:401-424 | fixed additions whose quantities and prices are not negative give a total that is not negative and does not fall with any of them |
| PaymentTotals.CompoundedTotal | backend/internal/task/plugin/payment.go:426-449 | with an exact division, the total is that of the fixed items times one factor for each percentage |
| PaymentTotals.AmountExact | backend/internal/task/plugin/payment.go:406-435 | a fixed item costs quantity times price, one of each by default; a percentage item a percentage of the total so far |
| PaymentTotals.LiteralValue | backend/internal/task/plugin/payment.go:491-495 | what is not in braces is read as a decimal, or is the fallback |
| PaymentTotals.PathValue | backend/internal/task/plugin/payment.go:459-489 | a path gives the global number, the global text read as a decimal, or the fallback |
| PaymentTotals.DefaultValue | backend/internal/task/plugin/payment.go:462-474 | a path with a default falls back to the default read as a decimal, or to the fallback |
| PaymentTotals.RoundExact | backend/internal/task/plugin/payment.go:451 | rounding gives the nearest multiple of a cent, the one further from zero when two are equally near |
| PaymentBreakdown.DisplayedTotalNearLines | backend/internal/task/plugin/payment.go:395-452 | the displayed total is within half a cent per line, and one more, of the displayed additions less the other displayed lines, whatever the descriptions |
| PaymentBreakdown.ChargedItems | backend/internal/task/plugin/payment.go:401-449 | the fixed items, then the percentage items, are charged in their order, each as often as it occurs |
| Placeholders.RoundUsesOne | backend/internal/task/plugin/payment.go:498-523 | each round uses up one of the braces that no global value contains |
| Placeholders.PathReplaced | backend/internal/task/plugin/payment.go:507-520 | a round replaces the first placeholder by the text of its global value, or removes it when there is none |
| Placeholders.DefaultReplaced | backend/internal/task/plugin/payment.go:507-520 | with a default, by the value or else by the default, without what follows a second colon |
| Placeholders.EndsWithout | backend/internal/task/plugin/payment.go:498-523 | without one of the two braces among the values the loop ends, after at most as many rounds as the text has of them |
| Placeholders.ResolveString | backend/internal/task/plugin/payment.go:498-523 | wherever the rounds end, the loop computes their result and leaves nothing it could still replace |
| Placeholders.ResolvedIsSubstitution | backend/internal/task/plugin/payment.go:498-523 | on well-formed templates and values without braces, the loop is one simultaneous left-to-right substitution |
| PlaceholderCycles.EndsExactly | backend/internal/task/plugin/payment.go:498-523 | on well-formed texts the loop ends exactly when no reference leads back to a path on its way, and then yields the full expansion |
| PlaceholderCycles.SelfReferenceLoops | backend/internal/task/plugin/payment.go:498-523 | a value that is its own placeholder makes the loop repeat itself for ever |
| FormTasks.CallRefines | backend/internal/task/plugin/simple_form.go:274-507 | what a call of the form plugin does through the manager's API is the form's part of one call of the review |
| ReviewServed.RunHolds | backend/internal/task/manager/manager.go:134-229 | served as requests that carry what its calls meet outside, every run of the review leaves in the stored row exactly its form |
| ReviewServed.ServedReviewsAgree | oga/internal/service.go:112-326 | after every run so served, the row stored at NSW agrees with the record of the agency |
| ReviewServed.ServableRun | backend/internal/task/manager/manager.go:115-229 | for every configuration with a task id and every run that starts once, there are a manager and requests that serve it |
| PaymentTasks.CallRefines | backend/internal/task/plugin/payment.go:181-605 | what a call of the payment plugin does through the manager's API is one step of the payment |
| PaymentTasks.PaymentRowExact | backend/internal/task/manager/manager.go:115-229 | over every run of requests the stored payment is the run of the events meant for it |
| PaymentTasks.ServedPaymentsSound | backend/internal/task/plugin/payment.go:568-697 | every payment the manager serves keeps the invariants, has one entry for each return to IDLE and repeats no transaction |
| PaymentTasks.LosslessCodec | backend/internal/task/plugin/payment.go:624-677 | sessions and transactions have a JSON form that is read back unchanged, whatever calls obtain from outside |
| JsonPath.GetValueByPath | backend/pkg/jsonform/value.go:14-66 | the loop follows the path through objects and indexed arrays |
| JsonPath.GetAppend | backend/pkg/jsonform/value.go:14-66 | a path is followed segment by segment |
| JsonPath.IndexedExact | backend/pkg/jsonform/value.go:9-30 | a segment has an index exactly when it is a name of ASCII letters, digits, `_` and `-` followed by digits in brackets |
| JsonPath.KeyExact | backend/pkg/jsonform/value.go:54-59 | any other segment gives the field of that name |
| JsonPath.ElementExact | backend/pkg/jsonform/value.go:29-52 | an indexed segment gives the element at the number its digits write, and nothing when the field is no array or too short |
| JsonPath.DecimalOfDigits | backend/pkg/jsonform/value.go:45-48 | the digits of a number are read as that number |
| JsonPath.SetThenGet | backend/pkg/jsonform/value.go:14-100 | a written value is read back exactly when every existing ancestor is an object; otherwise nothing changes |
| JsonPath.SetKeepsUnrelated | backend/pkg/jsonform/value.go:71-100 | a write leaves every path that is not prefix-related as it was |
| JsonPath.SetsCommute | backend/pkg/jsonform/value.go:71-100 | writes at paths that are not prefix-related commute |
| JsonPath.MergeGet | backend/internal/task/plugin/simple_form.go:880-902 | what the merged form data hold at a path, from the two sides |
| JsonObject.SetValueByPath | backend/pkg/jsonform/value.go:71-100 | the in-place update of nested objects computes the write on values and shares nothing |
| Prepopulate.TraverseClashFree | backend/pkg/jsonform/traverse.go:13-52 | no two reading nodes of an independent schema have related paths |
| SchemaVisits.Visits | backend/pkg/jsonform/traverse.go:13-52 | every way from the root through properties and items is taken exactly once, and its node is visited at the path that the way writes |
| Schemas.SameVisits | backend/pkg/jsonform/traverse.go:32-43 | every iteration order visits the same nodes at the same paths |
| Prepopulate.PrepopulationOrderFree | backend/internal/task/plugin/simple_form.go:784-834 | prepopulated form data do not depend on the order in which Go iterates over the properties |
| PrepopulateValues.PrepopulatedValue | backend/internal/task/plugin/simple_form.go:784-834 | a field that asks for a global value holds it, unless the existing data hold another or leave no place for one |
| PrepopulateValues.ExistingWins | backend/internal/task/plugin/simple_form.go:784-834 | every value of the existing data that is not an object is still there |
| PrepopulateValues.NothingElse | backend/internal/task/plugin/simple_form.go:784-834 | a path unrelated to every field that reads the store holds what the existing data held |

## Left out

- GORM, Postgres and SQLite, HTTP, authentication, Temporal, uploads and the portals: tables are maps, remote answers are parameters.
- Overlapping transactions: each call is one serialised step, and at most one container of a task is in use.
- Storage errors: only missing rows and duplicate keys fail; the caller of StartWorkflowInstance is taken to roll back after an error.
- Error texts: errors are values that tell the branches apart.
- Plugin in-memory configuration: the schema a plugin fetches once and keeps is read again on every call.
- JSON round trips of locally stored values (feedback, sessions, transactions) are taken to lose nothing.
- 64-bit overflow of instants and durations: they are unbounded integers.
- The form definition a submission is checked against is a parameter of the call, or missing when it cannot be fetched or parsed.
- The review events are the four public actions. Execute passes any other action string through as an edge of the state machine (`backend/internal/task/plugin/simple_form.go:334-335`); calls that name an edge such as OGA_VERIFICATION_APPROVED themselves, without the agency's record, are outside the claims of the review protocol.
- ReviewServed.RunHolds: covers runs that initialize the task once; a start that failed and is tried again is stated by InitTask alone.
- Deliveries that arrive after the submission call has returned are not modelled.
- An officer's callback that NSW has processed but that is reported as failed to the agency is not modelled.
- The review protocol assumes that the configured transition maps only to approval or rejection; the status map may be anything.
- TaskManager.TaskManager.InitTask: a repeated initialization is stated as it behaves, not as idempotent: it restarts a cached task and fails after an eviction.
- StateMachine.SortNodesByID: the library sort is modelled as an insertion sort.
- JsonObject.SetValueByPath: the loop over the segments is a recursion, and the value written must not be shared with the form data.
- Prepopulate.PrepopulationOrderFree: lookups in the global store are any function of the path; property names must not be empty, because an empty one at the root has the path of the root itself.
- Placeholders.ResolveString: global values are their printed texts.
- PaymentBreakdown.CalculateBreakdown: the division by 100 is any function, as its precision does not matter for the bound.
- paymentsv2, pagination, HS codes, webhooks and the CRUD services: their calls read or write single rows without shared state.
