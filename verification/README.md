# AgentClaw: verified models of the in-memory cores

AgentClaw runs tasks through a team of language-model agents. This project models the parts of it whose
correctness does not depend on the models, the network or the database, and proves properties of every input,
run or interleaving:

| files | what they model |
|---|---|
| `PriorityHeap`, `QueueSpec`, `TaskQueue`, `QueueWakeup` | the priority queue with dependencies: the intrusive heap, the role index, the dedup and done sets, and the wake-up channels of its workers |
| `Models`, `Escalation` | model tiers, the escalation ladder, and the resolution of an agent's question |
| `PhaseSpec`, `PhaseRunner`, `PhaseProofs` | the phase machine understand, clarify, plan, implement, its runner, and the review loop around it |
| `Budget` | trimming an agent's context to a token budget |
| `ReplySpec`, `ReplyStore`, `ReplyRaces` | pending questions to a human: two inverse indexes and the channels behind them |
| `Breaker`, `Fallback` | the circuit breaker and the fallback chain with retries |
| `Artifacts`, `LikeSearch`, `Text` | the artifact parser, escaping for SQL LIKE, and the string functions they use |
| `Waiter` | waiting for task results |
| `Skills`, `SkillFiles`, `SkillStore`, `Resolved`, `Scratchpad` | the file-backed stores: learned skills, error patterns, the shared scratchpad |

Objects that change in place are classes whose methods are proved against functions on values
(`TaskQueue.Queue` against `QueueSpec`, `PhaseRunner` against `PhaseSpec`, and so on); what is promised about whole
runs is proved about those functions. Concurrency is modelled by small steps: a run is a list of atomic actions
(critical sections, single channel sends, receives), and the lemmas quantify over all runs. Model calls, stores,
the escalator, clocks and the outcome of writes are parameters that may behave in any way.

## Code and its comments

Where the code does less than its comments or tables say, the model follows the code:

- `pruneSkills` says that anti-patterns are always kept. They are exactly when there are at most thirty of them
  (`Skills.AllAntiKeptIff`); of thirty-one, one is dropped (`Skills.ThirtyOneAntiPatterns`). A skill of more than 150
  lines is no longer protected once it is saved (`SkillFiles.ProtectedIff`, `SkillFiles.LongAntiPatternIsLost`).
- Long skills are said to keep their body in a detail file. Files are named by skill ID, and IDs may repeat. One save
  keeps a body readable exactly when the skill is short or the last long skill with its ID has the same body
  (`SkillFiles.ReadableIff`, `SkillFiles.NamesakeIsLost`), hence always when IDs are distinct. Saving again loses it also
  then: the index forgets the file, or the file is overwritten without the body. After three or more saves of any list, a
  body is readable exactly when the skill is and stays short (`SkillFiles.BodySurvivesIff`,
  `SkillFiles.LongAntiPatternIsLost`).
- A task is said to be handed out once its dependencies are done. It is while each of them is among the newest 5 001
  completions (`QueueSpec.RecentDependenciesAreDone`); one completion beyond the cap and a dependent of the first is
  never ready again unless that one is marked done again (`QueueSpec.OneTooMany`, `QueueSpec.ManyCompletions`).
- The retry table lists 10, 30 and 60 seconds; with three attempts the third entry is never used
  (`Fallback.Continues` allows only the first two).
- `enforceTokenBudget` does not book the truncation marker, so trimming a document never reaches the budget: the result
  fits exactly when the two documents already fit the budget on their own (`Budget.FitsIff`). The excess is at most eight
  tokens (`Budget.BudgetBound`, `Budget.BudgetBoundIsTight`), and trimming again changes nothing
  (`Budget.EnforceIsIdempotent`).
- `ClarifyPhase.Run` moves on although a reply neither resolved its question nor asked to wait; `Chain.Resolve` never
  replies that way (`PhaseProofs.ClarifyResolvesIff`, `Escalation.Chain.Resolve`).
- `MarkDone` and `MarkFailed` accept tasks that are still waiting; then the dedup set no longer matches the heap
  (`QueueSpec.MarkDoneConsistentIff`, `QueueSpec.RetryConsistentIff`).
- The queue's wake-up signals suffice for one worker per role, as the daemon starts them. A worker can be left asleep
  next to ready work exactly when two workers share a role and there is a third worker, or when a worker accepts every
  task and there is another worker (`QueueWakeup.NoLostWakeup`, `QueueWakeup.StrandsIffCrowded`); then only another push
  or completion can wake it (`QueueWakeup.StrandedUntilNews`).
- `Stop` promises that no waiter blocks forever. A registration can lead to a caller that blocks after `Stop`, and for
  good, exactly when its ID is already being waited for (`Waiter.RegisterBlocksIff`, `Waiter.AbandonedForGood`). Either
  caller can be the one: the earlier call because the later one replaced its registration
  (`Waiter.DuplicateTaskCanBlock`), or the later call because the earlier one's clean-up removed it
  (`Waiter.LaterCallerCanBlock`).

## Model

| member | source | states |
|---|---|---|
| PriorityHeap.RootIsMaximal | internal/queue/queue.go:21 | in the max-heap no entry has a higher priority than the root |
| PriorityHeap.PQ.Swap | internal/queue/queue.go:22 | swapping two entries keeps every entry's back-index equal to its position and the bag of entries unchanged |
| PriorityHeap.PQ.Push | internal/queue/queue.go:86-87 | pushing keeps heap order and back-indices and adds exactly the new entry |
| PriorityHeap.PQ.Remove | internal/queue/queue.go:269 | removing at any position keeps heap order and back-indices, takes out exactly that entry and marks it removed |
| PriorityHeap.PQ.PopLast | internal/queue/queue.go:24-32 | the last entry leaves the heap with index -1, the others stay in place |
| QueueSpec.PushKeepsConsistent | internal/queue/queue.go:78-90 | a push keeps waiting IDs distinct, the dedup set exact and waiting tasks apart from done ones |
| QueueSpec.TakeKeepsConsistent | internal/queue/queue.go:268-275 | so does handing out a waiting task, whose ID is then no longer waiting |
| QueueSpec.MarkDoneConsistentIff | internal/queue/queue.go:133-149 | marking done keeps that consistency exactly when the task is not waiting |
| QueueSpec.RetryConsistentIff | internal/queue/queue.go:188-205 | marking failed keeps it exactly when the task is dropped or not waiting |
| QueueSpec.MarkedDoneFrees | internal/queue/queue.go:133-136 | marking done remembers the ID, frees it for the dedup set, and affects no other ID and no waiting task |
| QueueSpec.RetriedWaits | internal/queue/queue.go:188-205 | a retried task that is not done waits once more than before, whatever the dedup set says; without retries left nothing changes |
| QueueSpec.DoneIsNewest | internal/queue/queue.go:166-184 | over any history at most 10 000 completions are remembered: the newest, without repeats, at least the newest 5 001 or all |
| QueueSpec.DoneInFigures | internal/queue/queue.go:36-38 | the cap in figures: at most 10 000 remembered, at least 5 001 once any is forgotten |
| QueueSpec.HalfIsForgotten | internal/queue/queue.go:174-183 | the completion beyond 10 000 makes the oldest 5 000 forgotten at once |
| QueueSpec.DoneWereCalled | internal/queue/queue.go:166-184 | only IDs that were recorded done are remembered |
| QueueSpec.RecentDependenciesAreDone | internal/queue/queue.go:166-184 | a task's dependencies count as done while each is among the newest 5 001 recorded completions |
| QueueSpec.ForgottenForGood | internal/queue/queue.go:166-184 | a completion that was forgotten stays so until its task is marked done again |
| QueueSpec.OneTooMany | internal/queue/queue.go:36-38 | after 10 001 completions without repeats a dependent of the first is not ready, and never will be unless that one is marked done again |
| QueueSpec.ManyCompletions | internal/queue/queue.go:36-38 | such histories exist |
| QueueSpec.DependentIsSignalled | internal/queue/queue.go:138-148 | the role of every waiting dependent is among those MarkDone notifies |
| QueueSpec.OnlyDependentsAreSignalled | internal/queue/queue.go:138-148 | no other role is |
| TaskQueue.Queue.constructor | internal/queue/queue.go:53-63 | a new queue is empty, valid, and without tokens |
| TaskQueue.Queue.Push | internal/queue/queue.go:78-101 | a task whose ID is neither queued nor done joins the waiting ones, any other changes nothing; heap and role index stay valid and free of stale items; role and global channel are signalled exactly when the ID is new |
| TaskQueue.Queue.RoleChannel | internal/queue/queue.go:65-74 | a role's channel is created, empty, on first use only |
| TaskQueue.Queue.CompactRoleIndex | internal/queue/queue.go:278-294 | compaction keeps exactly the live items of the role, each once, and touches no other role |
| TaskQueue.Queue.RemoveFromRoleIndex | internal/queue/queue.go:296-307 | exactly the given item leaves its role's list |
| TaskQueue.Queue.Scan | internal/queue/queue.go:229-256 | the scan finds the first eligible candidate of maximal priority, or none exists, and counts the stale items |
| TaskQueue.Queue.NothingToCompact | internal/queue/queue.go:258-262 | as long as no list keeps a stale item, which every operation preserves, the scan counts none and compaction has no work |
| TaskQueue.Queue.Select | internal/queue/queue.go:221-256 | scanning one role's list finds a best ready task of the whole heap for that role, or nothing exactly when none is ready |
| TaskQueue.Queue.FindReady | internal/queue/queue.go:214-276 | returns a task of maximal priority among all waiting tasks the role accepts with every dependency done, nil exactly when there is none, removes only that item, keeps the role index without stale items, and clears a list of which more than a quarter was stale |
| TaskQueue.Queue.RecordDone | internal/queue/queue.go:166-184 | the eviction loop keeps the done set equal to the done list and within the cap |
| TaskQueue.Queue.MarkDone | internal/queue/queue.go:129-164 | records the completion, frees the ID, and leaves a token for exactly the roles of waiting dependents (besides those already there) and a global one |
| TaskQueue.Queue.DependentsOf | internal/queue/queue.go:138-148 | the roles collected are those of the dependents, in heap order, and collecting them sends nothing |
| TaskQueue.Queue.MarkFailed | internal/queue/queue.go:186-205 | counts the attempt; while retries remain the task gets status queued and waits again, with its role signalled, unless it is done; otherwise it is dropped |
| QueueWakeup.NoLostWakeup | internal/queue/queue.go:78-164 | in every interleaving with one worker per role, a blocked worker whose role has a ready task has a token in its channel or a send to it pending |
| QueueWakeup.QuiescentMeansIdle | internal/queue/queue.go:103-127 | once all sends are done, a worker blocked without a token has no ready task |
| QueueWakeup.StrandsIffCrowded | internal/queue/queue.go:103-164 | over all runs of any pool of workers, one can be left blocked next to a ready task with nobody scanning and nothing on its way to wake it exactly when two share a role and there is a third, or one accepts every task and there is another |
| QueueWakeup.PairAlwaysAssured | internal/queue/queue.go:119-124 | two workers that share a role and are alone have two ways to be woken whenever both are blocked next to a ready task, and one whenever one is |
| QueueWakeup.UncrowdedIsSafe | internal/queue/queue.go:78-164 | no run of any other pool strands a worker |
| QueueWakeup.CrowdedStrands | internal/queue/queue.go:91-100 | in a crowded pool three tasks suffice: their signals collapse into one token per channel, other workers spend them or the role's goes unheard, and one worker stays behind |
| QueueWakeup.SoloAlwaysAssured | internal/queue/queue.go:119-124 | a worker that is alone, also one that accepts every task, has the global token or a send to it pending whenever it is blocked next to a ready task |
| QueueWakeup.StrandedUntilNews | internal/queue/queue.go:119-124 | a stranded worker cannot be woken, whatever the other workers do, until another push or completion |
| QueueWakeup.PoppedAfterDependencies | internal/queue/queue.go:239-250 | every dependency of a popped task was marked done earlier in the run |
| QueueWakeup.RecentDependenciesAreReady | internal/queue/queue.go:239-250 | in every run a waiting task whose dependencies are all among the newest 5 001 completions is ready for its role |
| QueueWakeup.AlwaysConsistent | internal/queue/queue.go:42-51 | runs whose callers mark done or failed only tasks that are not waiting keep IDs distinct, the dedup set exact and heap and done set disjoint |
| QueueWakeup.PushedGetsIn | internal/queue/queue.go:78-90 | in runs with such callers a pushed task is waiting afterwards, unless one with its ID is waiting or remembered as done, and then nothing changes |
| QueueWakeup.OnlyPushesAndPops | internal/queue/queue.go:78-90 | nothing else enters the queue, and a task leaves it only by being found |
| QueueWakeup.WaitsUntilFound | internal/queue/queue.go:268-275 | so a waiting task waits until a worker finds it |
| QueueWakeup.PopsTheBest | internal/queue/queue.go:214-256 | in every run what a worker finds is waiting, accepted by its role, has its dependencies remembered as done, and no such task has a higher priority; it finds nothing only when there is none |
| Models.EscalationChain | internal/domain/model.go:88-102 | the chain starts at the escalation target, goes on level by level and ends with the human, once |
| Models.LadderClimbs | internal/domain/model.go:30-102 | tiers strictly climb along it, and it has at most three levels |
| Models.LadderByName | internal/domain/model.go:47-102 | sonnet, opus and human for every model but these, which start above themselves |
| Models.TargetOutranks | internal/domain/model.go:51-63 | the first level outranks the asking model unless a human asks |
| Escalation.Chain.Resolve | internal/usecase/escalation/chain.go:46-196 | the cache answers; else each model of the ladder is asked until one is a help, that is, its call succeeds and its trimmed reply neither starts with ESCALATE in any letter case nor has more than 800 bytes, and that reply is the answer; else the human decides. The outcome is an answer, a wait or an error and nothing else; the cache leaves the task's checkpoint alone, an answer from a level removes it and is learned, and without an answer it says that the human is asked |
| Escalation.Chain.AskModels | internal/usecase/escalation/chain.go:62-109 | the model loop stops at the first confident level, or after all of them |
| Escalation.AnswersIff | internal/usecase/escalation/chain.go:187-195 | a model answers exactly when it is a help, with its trimmed reply |
| Text.TrimDropsSpace | internal/usecase/escalation/chain.go:191 | trimming takes the white space off both ends, all of it and nothing else |
| Text.AsciiSpace | internal/usecase/escalation/chain.go:191 | which ASCII characters are white space |
| Text.BytesOfText | internal/usecase/escalation/chain.go:192 | lengths in bytes add up, and are the number of characters for ASCII texts |
| Text.DecimalIsNumber | internal/usecase/orchestrator/loop.go:111 | attempts are written as decimal numbers |
| PhaseProofs.ClarifyEffect | internal/usecase/phase/clarify.go:16-116 | clarify parks on an open question, fails in place, or reaches plan with every question settled by the reply to it |
| PhaseProofs.ClarifyResolvesIff | internal/usecase/phase/clarify.go:45-97 | it leaves with every question resolved exactly when each open question got a resolving reply |
| PhaseProofs.ClarifyRecords | internal/usecase/phase/clarify.go:73-76 | each open question gets the answer and the answerer of the reply to it, and keeps ID and text |
| PhaseProofs.ClarifyEnds | internal/usecase/phase/clarify.go:19-115 | the first open question whose reply is no answer decides whether the phase suspends or fails; without one it is done |
| PhaseProofs.UnderstandRecords | internal/usecase/phase/understand.go:31-96 | each question asked is appended open and unanswered, and clarify follows exactly when there is one; a failed analysis keeps the checkpoint's understanding |
| PhaseProofs.AnalysisIsFirstParsed | internal/usecase/phase/understand.go:115-150 | the analysis is the first reply that parses, of at most two, the second only after one that did not parse |
| PhaseProofs.StepKeepsSafe | internal/usecase/phase/runner.go:56-106 | one phase keeps: open questions only while clarifying, implementing only with the supervisor's approval |
| PhaseProofs.AlwaysSafe | internal/usecase/phase/runner.go:37-109 | so does any sequence of runs, suspensions, errors and review-loop rewinds of a fresh task |
| PhaseProofs.LoopKeepsSafe | internal/usecase/orchestrator/loop.go:51-133 | the review loop keeps it, also when it rewinds to implement |
| PhaseProofs.ImplementsApprovedPlan | internal/usecase/phase/plan.go:84-138 | a run that gets to implement leaves the plan that was written and approved by the supervisor in the executed iteration that moved the task there |
| PhaseProofs.PlansWereApproved | internal/usecase/orchestrator/loop.go:109-113 | over any sequence of runs and review loops on a fresh task, a plan being implemented is one approved in one of the calls followed by exactly the feedback of the review loops from that call on, in order |
| PhaseProofs.OneApproval | internal/usecase/phase/plan.go:134-142 | over such a sequence a plan is approved in at most one call, in one iteration |
| PhaseProofs.LoopAddsFeedback | internal/usecase/orchestrator/loop.go:103-113 | a review loop adds to the plan its first attempt leaves exactly the feedback it gives |
| PhaseProofs.LoopDescribes | internal/usecase/orchestrator/loop.go:111 | and its description grows by that feedback, each guidance in full under the number of its attempt |
| PhaseProofs.NotesHoldGuidance | internal/usecase/orchestrator/loop.go:113 | the note added to the plan holds attempt and guidance |
| PhaseProofs.DeliveredWasApproved | internal/usecase/orchestrator/loop.go:87-132 | what a review loop delivers was approved by its reviewer, and every earlier attempt was sent back and saved |
| PhaseProofs.AttemptEnds | internal/usecase/orchestrator/loop.go:58-132 | what one attempt comes to for each outcome of its run, its review and its save |
| PhaseProofs.FinishedMeansDone | internal/usecase/phase/runner.go:31-98 | a result comes back only from a done task and is its output; parking happens only while clarifying with an open question |
| PhaseProofs.ContinuingStepAdvances | internal/usecase/phase/plan.go:166-223 | every continuing step moves to a later phase or uses up a redirect |
| PhaseProofs.RejectionsCount | internal/usecase/phase/plan.go:166-201 | an earlier rejection clears the plan for the next attempt, the third ends the run and keeps it |
| PhaseProofs.UnsavedIsNotDone | internal/usecase/phase/runner.go:58-98 | a phase that cannot save the task fails |
| PhaseProofs.FailedCallsKeep | internal/usecase/phase/plan.go:72-129 | a failed model call leaves the task as it was, up to a plan already written |
| PhaseProofs.TwoRunsSuffice | internal/usecase/phase/runner.go:11-108 | from a fresh task, with collaborators that succeed and never wait, at most two runs and six phases lead to done or to the third rejection |
| PhaseProofs.SixPhasesHappen | internal/usecase/phase/runner.go:11-108 | six phases over two runs do occur |
| PhaseProofs.CutOffAfterFour | internal/usecase/phase/runner.go:11-108 | the loop gives up after exactly four phases |
| PhaseProofs.FirstRun | internal/usecase/phase/runner.go:56-108 | a fresh task with helpful collaborators is cut off in its first run exactly when it has more than four phases to go, and otherwise takes them all, to the implementation's result or the third rejection |
| PhaseProofs.OrdinaryTaskFinishes | internal/usecase/phase/runner.go:56-108 | with the first plan approved one run finishes the task, in four phases with questions and in three without |
| PhaseProofs.DoneStaysDone | internal/usecase/phase/runner.go:100-101 | a task that is done is not run again |
| PhaseProofs.HelpfulRun | internal/usecase/phase/runner.go:56-108 | such a run finishes, is rejected for good, or is cut off after four phases with less left to do |
| PhaseProofs.RunLedger | internal/usecase/phase/implement.go:66-88 | a run's result is exactly what the task's token and cost counters grow by |
| PhaseProofs.LoopLedger | internal/usecase/orchestrator/loop.go:58-132 | under the review loop counters grow by the sum of all attempts' results, at most one per attempt, and the delivered result is the last |
| PhaseProofs.RewindsOnlyImplement | internal/usecase/orchestrator/loop.go:103-132 | every attempt after the first executes exactly one phase, the first at most four |
| PhaseRunner.CallWithRetry | internal/usecase/phase/understand.go:115-150 | one retry, only after a parse failure |
| PhaseRunner.RunUnderstand | internal/usecase/phase/understand.go:28-113 | the in-place update is the understand step of the specification |
| PhaseRunner.RunClarify | internal/usecase/phase/clarify.go:16-116 | the question loop writes the answers the specification says and stops where it stops |
| PhaseRunner.RunPlan | internal/usecase/phase/plan.go:30-223 | approval, redirect and third rejection change the task as specified |
| PhaseRunner.RunImplement | internal/usecase/phase/implement.go:16-106 | output, phase and counters change as specified, also when the save fails |
| PhaseRunner.RunPhases | internal/usecase/phase/runner.go:37-109 | the bounded loop over a mutable task refines the recursive run |
| PhaseRunner.RunLoop | internal/usecase/orchestrator/loop.go:51-133 | the review loop over a mutable task refines its specification |
| Budget.BudgetBound | internal/memory/store.go:463-532 | after trimming, the estimate is at most eight tokens above the budget, or above 400 if that is more |
| Budget.FitsIff | internal/memory/store.go:484-532 | the result fits the budget exactly when the two documents fit it on their own |
| Budget.BudgetBoundIsTight | internal/memory/store.go:442-448 | those eight tokens can be used up |
| Budget.EnforceIsIdempotent | internal/memory/store.go:484-532 | a context within budget is unchanged, and trimming twice is trimming once |
| Budget.CutInOrder | internal/memory/store.go:490-527 | sections are cut strictly in order, lists to prefixes, documents to prefixes of at least 800 bytes plus the marker |
| Budget.CutsAreNeeded | internal/memory/store.go:490-502 | with one list entry more the estimate would exceed the budget |
| Budget.KeptIsMaximal | internal/memory/store.go:490-502 | trimming a list stops as soon as the excess is gone |
| Budget.TrimmedDocTokens | internal/memory/store.go:510-527 | a trimmed document keeps at least 200 tokens and costs four more than was booked |
| Budget.TotalInBytes | internal/memory/store.go:436-439 | the estimate is the bytes over four, rounded up for each text |
| Budget.BoundInBytes | internal/memory/store.go:463-532 | after trimming a context has at most four bytes per token of the budget, or of 400, and 32 more |
| Budget.CutsInBytes | internal/memory/store.go:463-502 | a context that fits in bytes, three to spare for each text, is left alone, and one list entry more would reach the budget up to that rounding |
| Budget.OversizeIsCut | internal/memory/store.go:484-502 | a context with too many bytes loses ADRs, and code once what is left without ADRs still has too many |
| Budget.TrimmedDocBytes | internal/memory/store.go:442-448 | a trimmed document keeps at least its first 800 bytes, in whole tokens, and ends with the marker |
| Budget.TrimList | internal/memory/store.go:490-502 | the loop drops entries from the end as specified and accounts for them |
| Budget.TrimSection | internal/memory/store.go:510-527 | one round of the section loop trims and books as specified |
| Budget.EnforceTokenBudget | internal/memory/store.go:463-532 | the context is changed in place into the specified one, which stays within the bound in bytes and is the same one if it fits |
| ReplySpec.RegisterInverseIff | internal/agent/reply_store.go:35-42 | registering keeps the two indexes mutually inverse exactly when the message ID is new |
| ReplySpec.RemoveKeepsInverse | internal/agent/reply_store.go:46-65 | resolving or giving up on a known message keeps them inverse |
| ReplySpec.TakeFirstIsRemove | internal/agent/reply_store.go:77-91 | resolving by task removes the first listed message from both indexes |
| ReplySpec.UnregisterInverseIff | internal/agent/reply_store.go:128-142 | unregistering keeps them inverse exactly when the message is unknown or of that task |
| ReplySpec.ReregisterInverseIff | internal/agent/reply_store.go:147-171 | reregistering keeps them inverse exactly when the old message is unknown, or of that task with the new ID unused |
| ReplySpec.OthersStayPending | internal/agent/reply_store.go:46-124 | resolving or giving up on a message leaves every other question pending, with its entry, task and order, and removes that message from both indexes |
| ReplySpec.RegisteredLast | internal/agent/reply_store.go:35-42 | registering adds one entry with its channel, task and question at the end of the task's list |
| ReplySpec.ReregisteredInPlace | internal/agent/reply_store.go:147-171 | reregistering moves one entry with its channel to the new message, in the same place of the list |
| ReplyStores.ReplyStore.Register | internal/agent/reply_store.go:35-42 | a fresh channel is entered under the message and listed last for the task |
| ReplyStores.ReplyStore.Resolve | internal/agent/reply_store.go:46-72 | the entry goes and its channel holds the answer; unknown messages change nothing |
| ReplyStores.ReplyStore.ResolveByTask | internal/agent/reply_store.go:77-98 | the first listed message is taken and its channel holds the answer; false exactly when none is listed |
| ReplyStores.ReplyStore.UnregisterByMsgID | internal/agent/reply_store.go:103-124 | the entry goes and its channel is closed without an answer |
| ReplyStores.ReplyStore.Unregister | internal/agent/reply_store.go:128-142 | entry and listing go, the channel is left alone |
| ReplyStores.ReplyStore.Reregister | internal/agent/reply_store.go:147-171 | the entry moves to the new message with its channel and its place in the list |
| ReplyStores.ReplyStore.HasPending | internal/agent/reply_store.go:174-179 | true exactly when some message is listed for the task, which is, while the indexes are inverse, exactly when an entry of the task is pending |
| ReplyRaces.AlwaysSingleOwner | internal/agent/reply_store.go:46-124 | in every interleaving a channel sits in at most one entry or pending operation, untouched until then, and is used at most once |
| ReplyRaces.UsedAtMostOnce | internal/agent/reply_store.go:67-123 | no send hits a closed or full channel and no channel is closed twice, whatever IDs the callers use |
| ReplyRaces.AnswersAreSent | internal/agent/reply_store.go:46-124 | answering a known message leaves the send of that answer to its channel to be done, giving up its close, and nothing else |
| ReplyRaces.AlwaysChronological | internal/agent/reply_store.go:35-171 | with fresh message IDs and matching task IDs the indexes stay inverse and each list in order of asking |
| ReplyRaces.OldestFirst | internal/agent/reply_store.go:77-98 | such callers' ResolveByTask answers the oldest pending question of the task, also after reregistering |
| CircuitBreaker.Breaker.Allow | internal/llm/breaker.go:46-69 | the fields change and requests pass as the atomic operation says |
| CircuitBreaker.Breaker.RecordSuccess | internal/llm/breaker.go:72-78 | closes the circuit and forgets failures and the last error |
| CircuitBreaker.Breaker.RecordFailure | internal/llm/breaker.go:81-90 | counts the failure, keeps its error, and opens at the threshold with the time of that failure |
| CircuitBreaker.RefinesTrace | internal/llm/breaker.go:46-90 | after any history: closed exactly when the failures since the last success are below the threshold, half-open exactly when a probe has passed since the last outcome, opened at the latest failure |
| CircuitBreaker.AdmittedIff | internal/llm/breaker.go:46-69 | a request passes exactly when failures are below the threshold or it is the first one a cooldown after the latest failure |
| CircuitBreaker.OneProbe | internal/llm/breaker.go:54-67 | while tripped, one request passes between two outcomes if any comes after the cooldown, else none |
| CircuitBreaker.UnrecordedProbeBlocks | internal/llm/router.go:107-114 | a probe whose outcome is not recorded blocks every later request |
| CircuitBreaker.ThresholdMatters | internal/llm/breaker.go:36-41 | the failure count decides the closed state on all histories exactly when the threshold is positive |
| Fallback.CallWithFallback | internal/llm/fallback.go:15-75 | the loop over the chain produces the specified log and outcome |
| Fallback.TryModel | internal/llm/fallback.go:32-61 | so does the attempt loop for one model |
| Fallback.FallbackLog | internal/llm/fallback.go:15-75 | the log starts by handing over from the requested model, continues only as allowed (retry after a transient error with the table's delay, next known model after three of them or one permanent), and its last item shows the outcome; the missing last error is read exactly when no model of the chain is known |
| Fallback.ExhaustedIff | internal/llm/fallback.go:66-74 | exhaustion is the outcome, and announced last, exactly when some model is known and each known one gave up |
| Fallback.LogAdvances | internal/llm/fallback.go:19-64 | positions never go back and no call is repeated, so at each position its model is called at most three times, in a row |
| Fallback.CallsBound | internal/llm/fallback.go:19-64 | a model is called at most three times for each time the chain names it, so at most three times when it names it once |
| Fallback.CallsBoundReached | internal/llm/fallback.go:32-61 | when every call fails transiently, known models are called exactly that often |
| Fallback.ThreeCallsTwoPauses | internal/llm/fallback.go:32-61 | transient failures throughout mean three calls with pauses of 10 and 30 seconds |
| Fallback.OneCallDecides | internal/llm/fallback.go:48-60 | a permanent failure, or a response, ends the attempts at a model |
| Fallback.CancelEnds | internal/llm/fallback.go:36-40 | a cancellation during a pause ends everything |
| Fallback.WorkersInTurn | internal/llm/provider.go:76-89 | minimax hands over to kimi and kimi to glm5, and the exhaustion is sent on behalf of the last with its error |
| Fallback.KnownModels | internal/llm/fallback.go:20-23 | exactly the seven model names are known |
| Fallback.ResponseNamesServer | internal/llm/fallback.go:48-52 | a response names the model that served it, marked as a fallback |
| Fallback.FallbackChainFrom | internal/llm/provider.go:80-89 | the rest of the worker chain after the model; empty exactly for its last model and for others |
| Fallback.WorkerChainsAreSafe | internal/llm/router.go:100-103 | for every chain the router passes on the last error is never missing, and the failed model is not in it |
| Artifacts.ParseArtifacts | internal/usecase/git/automation.go:63-134 | the line loop computes the specified parse |
| Artifacts.ParserUndoesPrinter | internal/usecase/git/automation.go:63-134 | printing artifacts with trimmed one-line paths and trimmed, possibly empty, contents free of fences and markers, then parsing, gives the same list |
| Artifacts.ParserUndoesPrinterIff | internal/usecase/git/automation.go:63-134 | for any list of artifacts, parsing undoes printing exactly when all of them are of that kind |
| Artifacts.AnyLayoutIff | internal/usecase/git/automation.go:63-134 | the same for any layout: either comment style, fenced or bare, mixed in one text, and whether or not it ends with a fence |
| Artifacts.TypeByPath | internal/usecase/git/automation.go:85-131 | a path with "test" in it means a test, else ".md" at its end a document, else code |
| Artifacts.BlockParses | internal/usecase/git/automation.go:79-122 | between blocks, one printed block adds exactly its artifact |
| Artifacts.ParsedAreTidy | internal/usecase/git/automation.go:85-131 | every artifact extracted from any text is of that kind: a trimmed one-line path with its type, and trimmed content free of fences and markers |
| LikeSearch.SearchIsLiteral | internal/memory/store.go:363-379 | the search pattern matches exactly the texts containing the query literally, up to the letters LIKE takes for the same |
| LikeSearch.EscapedMatchesItself | internal/memory/store.go:363-368 | an escaped text matches itself letter for letter, whatever pattern follows |
| LikeSearch.EscapeIsInjective | internal/memory/store.go:365-368 | different queries are escaped to different patterns |
| Waiter.FirstSentIsReturned | internal/infra/task/waiter.go:84-97 | a call returns the first result sent to its channel |
| Waiter.HandledIsNeverLost | internal/infra/task/waiter.go:107-146 | a result handled while the call waits is, in every later state, still being delivered or behind a first result that the call, while it waits, can receive |
| Waiter.ReturnedWasReported | internal/infra/task/waiter.go:84-146 | whatever IDs the callers use, a result a call returns was handled for its own task earlier, or is the notice of a Stop |
| Waiter.ReceivedIsReturned | internal/infra/task/waiter.go:84-97 | a call that received a result returns it, and one that was cancelled returns nothing |
| Waiter.StartsAndDeliveries | internal/infra/task/waiter.go:71-126 | a registration starts a call that waits on an empty channel, or is turned away once stopped; a delivery fills an empty channel with its result |
| Waiter.NobodyBlocksAfterStop | internal/infra/task/waiter.go:46-66 | after Stop every call that still waits can receive at once |
| Waiter.DuplicateTaskCanBlock | internal/infra/task/waiter.go:59-82 | registering an ID that is being waited for lets Stop leave the earlier caller blocked for good |
| Waiter.LaterCallerCanBlock | internal/infra/task/waiter.go:84-97 | or the later one, after the earlier caller cleaned up |
| Waiter.RegisterBlocksIff | internal/infra/task/waiter.go:71-97 | registering on a running waiter opens the way to a caller blocked after Stop, and to one blocked for good, exactly when the ID is already being waited for |
| Waiter.AbandonedForGood | internal/infra/task/waiter.go:84-97 | a caller whose channel is empty and out of reach after Stop never receives a result |
| Waiter.EventWaiter.Register | internal/infra/task/waiter.go:71-82 | a fresh channel under the ID, or none once stopped |
| Waiter.EventWaiter.Handle | internal/infra/task/waiter.go:107-146 | only that channel changes, and only if it was empty |
| Waiter.EventWaiter.Stop | internal/infra/task/waiter.go:48-66 | every registered channel ends up non-empty, earlier results kept |
| SkillStores.SkillSet.MarkUsed | internal/state/skills.go:534-553 | each named skill's counters are updated in order, so that each gains as many uses as it was named |
| SkillStores.Learn | internal/state/skills.go:574-635 | one skill per text that is not blank, in order, numbered on |
| SkillStores.SkillSet.ApplyReflection | internal/state/skills.go:528-638 | uses, lessons, patterns, anti-patterns, pruning and saving compose as specified, in the index and the detail files |
| Skills.UsesKeepRates | internal/state/skills.go:540-553 | uses keep success rates between 0 and 1 and touch only the named skills' counters |
| Skills.UsesAreCounted | internal/state/skills.go:534-553 | for every list and all names: the last skill with an ID gains exactly as many uses as it was named, each moving its rate to seven tenths of it, plus three tenths on success, and gets the time if named; earlier namesakes and all other fields stay |
| Skills.RatesConverge | internal/state/skills.go:544-550 | in closed form successes shrink a rate's distance to one, failures the rate itself, by the factor 0.7 each |
| Skills.LearnedInOrder | internal/state/skills.go:574-635 | one unused skill for each text that is not blank, in order, numbered on, teaching it in the field of its kind with that kind's rate |
| Skills.ReflectionTeaches | internal/state/skills.go:528-638 | before pruning there are the known skills with their uses counted, then one new skill for every lesson, pattern and anti-pattern that is not blank, and nothing else |
| Skills.ScoreParts | internal/state/skills.go:825-842 | what an ordinary skill's score is made of: rate, the first ten uses, and age beyond thirty days |
| Skills.WorstAreDropped | internal/state/skills.go:813-856 | pruning drops nothing in favour of a lower score, so no anti-pattern while a skill that is none is kept |
| Skills.AllAntiKeptIff | internal/state/skills.go:813-856 | pruning keeps every anti-pattern exactly when there are at most as many as may stay |
| Skills.ThirtyOneAntiPatterns | internal/state/skills.go:813-856 | of thirty-one anti-patterns one is dropped |
| SkillStores.SkillSet.Save | internal/state/skills.go:395-400 | saving splits off, in order, the bodies of exactly the skills of more than 150 rendered lines |
| SkillStores.SkillSet.AutoSplit | internal/state/skills.go:429-472 | a short skill stays in the index without a file name; a long one leaves its body in its file and only title, summary and file name in the index |
| SkillFiles.FileHoldsLast | internal/state/skills.go:446-458 | after a save the file of an ID holds the last long skill with that ID, or what it held before |
| SkillFiles.ReadableIff | internal/state/skills.go:395-400 | for any list, one save leaves a skill's body readable exactly when the skill is short or the last long skill with its ID has the same body |
| SkillFiles.DistinctStaysReadable | internal/state/skills.go:395-400 | so one save of a list without repeated IDs keeps every body readable |
| SkillFiles.NamesakeIsLost | internal/state/skills.go:446-458 | two long skills with one ID: the first save already loses the body of the first |
| SkillFiles.FilesResave | internal/state/skills.go:395-400 | when all IDs differ, repeated saves treat each entry and its file as they would treat the skill on its own |
| SkillFiles.BodySurvivesIff | internal/state/skills.go:429-472 | for any list and three or more saves, a skill's body is readable exactly when the skill is short, also with the summary saving fills in, or had no body |
| SkillFiles.BodiesAfterRound | internal/state/skills.go:528-638 | in every round of every history the same condition decides which kept bodies are readable; a skill split off earlier has none left in the index |
| SkillFiles.LongAntiPatternIsLost | internal/state/skills.go:429-472 | whatever the wording, an anti-pattern of 150 empty lines loses its protection with one save and its body with three |
| SkillFiles.AutoSplitIsSettled | internal/state/skills.go:429-443 | the 150-line rule and the filled-in summary do not depend on the name of the detail file, which the results on repeated saves ask of a rule |
| SkillFiles.ProtectedIff | internal/state/skills.go:461-471 | a saved skill outranks all ordinary ones exactly when it is an anti-pattern of at most 150 rendered lines |
| SkillFiles.StoredKeeps | internal/state/skills.go:429-472 | saving fills in a missing summary and keeps title, counters and a short skill's body; a file is named exactly beyond 150 lines |
| SkillFiles.RenderedParts | internal/state/skills.go:475-511 | how many lines a rendering has, part by part |
| SkillFiles.AlwaysBounded | internal/state/skills.go:528-638 | over any history of reflections there are at most thirty skills, with success rates between 0 and 1 |
| SkillFiles.ThirtyAreKept | internal/state/skills.go:815-856 | a reflection leaves all skills up to thirty, and exactly thirty of more |
| SkillFiles.ReflectionKeepsOrder | internal/state/skills.go:528-640 | a reflection keeps at most thirty skills with rates in range, and each anti-pattern, known or new, unless everything kept is one |
| SkillFiles.AntiPatternsStay | internal/state/skills.go:528-640 | so in every round of every history; and a kept anti-pattern is in the index afterwards exactly when a skill short enough for the index holds it |
| ResolvedStores.ResolvedStore.Save | internal/state/resolved.go:158-206 | list, file and details after a save, whichever writes fail |
| ResolvedStores.ResolvedStore.MarkResolved | internal/state/resolved.go:212-228 | exactly the first entry with the ID is marked; an error exactly when there is none or the write fails |
| ResolvedStores.MergeStrings | internal/state/resolved.go:326-339 | computes the specified union |
| ResolvedStores.MergedIsUnion | internal/state/resolved.go:325-339 | the union keeps the first list in front, has exactly the elements of both, and adds no repeats |
| ResolvedStores.HistoryIsFaithful | internal/state/resolved.go:152-228 | over any history of successful operations IDs are distinct, an ID is listed if saved, and each entry counts its saves, unites their roles, carries the first and last time, the first pattern and the last non-empty summary, and is resolved exactly when first saved so or marked so since |
| Scratchpads.RawRoundTripIff | internal/state/scratchpad.go:188-256 | the embedded block is found again exactly when it does not contain the closing marker |
| Scratchpads.ExtractUndoesFlush | internal/state/scratchpad.go:188-256 | reading undoes writing for an invertible encoder that emits no '>' |
| Scratchpads.Scratchpad.AddEntry | internal/state/scratchpad.go:65-95 | archive and live file after adding an entry, whichever writes fail |
| Scratchpads.NothingIsLost | internal/state/scratchpad.go:65-95 | archived entries followed by live ones are everything added, in order, with the last fifty live |
| Scratchpads.FileLayout | internal/state/scratchpad.go:188-210 | what the file looks like |

## Left out

- Pop: its blocking loop is not a method of the queue class; the scan is `TaskQueue.Queue.FindReady`, and waiting, waking and cancellation are steps of `QueueWakeup`.
- QueueWakeup.NoLostWakeup: is about one worker for each of some named roles, as the daemon starts them; other pools, also with workers that accept every task, are the subject of `QueueWakeup.StrandsIffCrowded`.
- TaskQueue.Queue.CompactRoleIndex: does not model clearing the cut-off slots of the backing array, which only helps the garbage collector.
- TaskQueue.Queue.Push: takes ID, role, priority and dependencies of a queued task as fixed. Of equal priorities the scan takes the first in its list (`TaskQueue.Queue.Scan`), but no order of that list is claimed.
- PhaseSpec: prompts, JSON decoding, verdict texts, notifications, timestamps and the checkpoint store appear only through what they decide; question IDs are their index. Whether a reviewer's guidance reaches the next plan is not claimed.
- Escalation.Chain.Resolve: takes checkpoint writes as successful, and the cache as an arbitrary answer.
- Escalation.TryAt: models upper-casing only as far as it decides the comparison with an ASCII prefix.
- ReplyStores.ReplyStore: its methods run critical section and send together; their separation is the subject of `ReplyRaces`.
- CircuitBreaker.Breaker: treats each method as atomic; the unlocked read of the closed state is one atomic step. The registry of breakers per provider is not modelled, and recovery is not claimed.
- Fallback.CallWithFallback: does not model the request and response bodies or the optional notification callback, which sees the logged items.
- LikeSearch.SearchIsLiteral: takes the folding of letters as an arbitrary function and the matching rules of LIKE as SQL defines them.
- Waiter: the event bus behind the handlers is not modelled; handlers may run at any time.
- SkillStores.SkillSet.ApplyReflection: takes the sorted order, the shortening of titles and summaries and the last lines of a rendering as given, one clock reading for the whole call, writes as successful and IDs as usable file names; tags, the archived index, relevance scores and the context built from skills are not modelled. Floating-point numbers are reals.
- Scratchpads.Scratchpad.AddEntry: takes the entry's time stamp as given; the archive files are one list, without their daily names.
- PhaseRunner.RunLoop: takes the number of attempts as given, after the default of three for numbers below one.
- ResolvedStores: an index that cannot be read, searching, listing and detail reading are not modelled.
- The second phase machine of the older agent package, the agent pool, HTTP handlers, chat and repository integrations, authentication, databases and the web page are not modelled.
