# Verified model of the Ryvan platform core

This project models, in Dafny, the parts of the platform whose correctness rests on more than one
function: the workflow engine, the audit ledger, path filters, quotas, task scheduling, circuit
breaking, context assembly and trace trees.

**Workflow engine.** `Validator` accepts a definition exactly when it keeps every rule, the last of
which is that `dependsOn` has no cycle. `RunMachine` is a run as a state machine over its steps: each
move is one stretch of the executor between two awaits, so any interleaving of a batch is a sequence
of moves; `Answers` ties the moves to what handlers, conditions and the approval gate answer.
`RunInvariants` keeps one invariant through every move, `RunTheorems` draws what the engine
promises from it, `PlanTheorems` what can be told from the definition alone, and `Executor` is the driver
itself, an object that changes its fields; its history is proved to be a run of the machine.
`WorkflowService` is the periodic tick over the suspended runs.

**Audit ledger.** `Json`, `JsonTree` and `CanonicalJson` show that the canonical serialiser can be
decoded in one way only and decides equality of values; `AuditEntry` and `Ledger` build the hash chain
on it and run concurrent appends through the promise chain.

**Path filters.** `Matching` compares direct matching of dotted paths with containment of the expanded
object; `ArrayFilters` extends the comparison to documents that hold arrays.

**Bounded resources.** `QuotaGuard` counts in fixed windows over two kinds of counter store,
`TaskQueue`, `TaskBooks` and `Scheduler` hand tasks to workers, `CircuitBreaker`, `ProbeGate` and
`ResilienceService` stop calls to a failing dependency. Each has a bound over whole runs.

**Context and traces.** `ContextAssembler` selects greedily within a token budget and accounts for
every drop; `SpanForest` and `Tracer` turn parent pointers into a forest.

Handlers, gates, stores and clocks are outside the model: they may answer anything, and clock readings
of one run never fall.

## Where the code does less than it says

- A tolerated approval that the gate refuses in its first answer does not skip its dependents
  (packages/workflow-engine/src/executor.ts:458-462, unlike lines 284 and 298), so a completed run can
  hold a pending step. `PlanTheorems.CompletionSettlesExactly` says for which definitions.
- `notifyEvent` saves the run before driving it (packages/workflow-engine/src/executor.ts:167-168). Until
  the drive saves again, a tick misses the stored run when some step lacked nothing but this event and no
  step that waits for another reason is due (`WorkflowService.SavedRunMissedExactly`).
- "Exactly one probe" (packages/resilience/src/circuit-breaker.ts:39-42) holds exactly for probes that go
  out alone after a failure (`ProbeGate.GateIsSingleExactly`), and with a success threshold of 2 or more
  one successful probe with nothing else in flight shuts the gate for every later call.
- The two filter forms, said to agree (packages/storage/src/postgres.ts:403-405), differ when one dotted
  key is a prefix of another, and when keys can be read through an array
  (`ArrayFilters.FormsAgreeOnAllObjectsExactly`).
- A task whose `maxAttempts` is 0 or less still starts once (packages/agent-runtime/src/scheduler.ts:182-188);
  `TaskBooks.AllowanceHoldsExactly` says when the bound is kept.
- Queued tasks are drained "so they aren't silently abandoned" (packages/agent-runtime/src/scheduler.ts:48),
  but a submit that is still awaiting its plan queues its task after the drain
  (packages/agent-runtime/src/runtime-service.ts:89-93). `TaskBooks.StopEndsAllExactly` says when a stop
  ends every task.
- Quota windows are fixed (packages/policy-engine/src/quota-guard.ts:91-92), but a request whose key is built
  in one window and counted in the next finds its counter gone. `QuotaGuard.BoundSurvivesExactly` says when
  the limit holds.
- "Every drop is reported" (packages/context/src/naive-assembler.ts:47-48) holds in number, but a message
  object listed twice, or a negative turn limit, makes the report name the wrong turn.

## Model

| member | source | states |
|---|---|---|
| `Validator.FindCycle` | packages/workflow-engine/src/validator.ts:83-116 | null exactly when `dependsOn` is acyclic, and then some rank puts every dependency before its dependents; any path returned is a closed chain of edges |
| `Validator.CycleFinder.Walk` | packages/workflow-engine/src/validator.ts:90-108 | one depth-first visit: a returned cycle is a closed chain; otherwise the id is visited, nothing visited is lost, the path is restored and the finish order stays topological |
| `Validator.FinishOrderRanks` | packages/workflow-engine/src/validator.ts:104-107 | the order in which the search leaves steps is a rank of the graph |
| `Validator.ValidateDefinition` | packages/workflow-engine/src/validator.ts:10-48 | accepts exactly the definitions that keep every rule, and each error names a rule that is really broken |
| `Validator.StepFaultExactly` | packages/workflow-engine/src/validator.ts:50-82 | a step is at fault exactly when it breaks one of the rules, and the rule named is broken while none checked before it is |
| `Validator.CheckSteps` | packages/workflow-engine/src/validator.ts:21-28 | finds a fault exactly when some step breaks a rule of its own or repeats an id |
| `Validator.CheckDependencies` | packages/workflow-engine/src/validator.ts:30-42 | finds a fault exactly when some dependency is unknown or a step depends on itself |
| `WorkflowTypes.RankedIsAcyclic` | packages/workflow-engine/src/validator.ts:83-116 | a graph with a rank has no closed chain, whatever its length |
| `WorkflowTypes.MutualWaitIsACycle` | packages/workflow-engine/src/executor.ts:254-256 | a non-empty set of steps each waiting on another of the set contains a closed chain, so validated steps cannot deadlock |
| `RunMachine.ValidatedIsSound` | packages/workflow-engine/src/validator.ts:44-47 | a validated definition is a plan with known dependencies and no cycle, which is all the executor relies on |
| `RunInvariants.MoveKeepsInv` | packages/workflow-engine/src/executor.ts:346-586 | every single move of a run (begin, handler call, finish, failure, refusal, wait, skip, settle, lapse, compensation, ending) keeps the whole invariant |
| `RunInvariants.RunKeepsInv` | packages/workflow-engine/src/executor.ts:193-246 | the invariant holds after every sequence of moves, however batch members interleave |
| `RunTheorems.OutOfWorkIsSettled` | packages/workflow-engine/src/executor.ts:217-227 | with nothing ready, waiting or fatal every step is completed, skipped or failed with `continueOnError`, if and only if no dependent is stranded behind an approval refused by `request` itself |
| `RunTheorems.CompletedRunIsSettled` | packages/workflow-engine/src/executor.ts:588-616 | a run reported completed has no step pending, running or waiting, unless an approval refused by `request` stranded one |
| `RunTheorems.RefusedApprovalStrandsDependent` | packages/workflow-engine/src/executor.ts:458-462 | a tolerated approval that `request` answers with denied leaves its dependent pending in a completed run |
| `PlanTheorems.CompletionSettlesExactly` | packages/workflow-engine/src/executor.ts:588-616 | every completed run of a validated definition has every step at rest, if and only if no step of the definition depends on an approval with `continueOnError` |
| `PlanTheorems.DependentCanBeStranded` | packages/workflow-engine/src/executor.ts:429-462 | whenever a step depends on such an approval, some run finishes everything else (delivering every event while the run is suspended, resuming it for every schedule at its time), has `request` refuse it and completes with that step pending |
| `RunTheorems.RunIsForward` | packages/workflow-engine/src/executor.ts:346-586 | between any two points of any run a step keeps its status or moves forward; skipped and failed are final and nothing returns to pending |
| `RunTheorems.PendingOnlyFalls` | packages/workflow-engine/src/executor.ts:352-353 | no move adds a pending step and beginning one removes one, the measure by which the driver ends |
| `RunTheorems.CompletionNumbers` | packages/workflow-engine/src/executor.ts:540-551 | completion numbers are exactly 1..k, one step each, and exactly the completed or compensated steps have one |
| `RunTheorems.CompletionIsTopological` | packages/workflow-engine/src/executor.ts:531-551 | a completed step carries a higher number than everything it depends on, directly or through others |
| `RunTheorems.CompensationIsReverseTopological` | packages/workflow-engine/src/executor.ts:632-661 | compensators ran in strictly falling completion order, none twice, and a dependent always before anything it depended on |
| `RunTheorems.HandlersAreAccounted` | packages/workflow-engine/src/executor.ts:471-538 | a step begins at most once, its handler is called at most max(1, maxAttempts) times, every call sees the final output of each dependency, and `outputs` has exactly the completed and compensated steps |
| `RunTheorems.SkipMarksPendingDependents` | packages/workflow-engine/src/executor.ts:560-586 | in every run, the skip after a tolerated failure or a rejecting conditional changes exactly the pending transitive dependents, and afterwards every transitive dependent is skipped |
| `RunTheorems.BlockedDependentsAreSkipped` | packages/workflow-engine/src/executor.ts:384-395 | between batches every dependent, near or far, of a skipped, tolerated-failed or false-conditional step is skipped |
| `RunTheorems.ReadyStepsAreIndependent` | packages/workflow-engine/src/executor.ts:249-258 | no ready step depends on another ready step, directly or through others |
| `RunTheorems.ReadyUntilBegun` | packages/workflow-engine/src/executor.ts:329-341 | a ready step stays ready under every move but its own begin, so no later member of a batch is skipped before it is executed |
| `DriverProofs.TraceIsReachable` | packages/workflow-engine/src/executor.ts:193-246 | whatever the executor object has done is a run of the machine, so everything proved of runs holds of it |
| `DriverProofs.SkipsAreComplete` | packages/workflow-engine/src/executor.ts:567-583 | a set of skips closed under dependents is exactly the pending downstream set |
| `DriverProofs.ReadyAmongExact` | packages/workflow-engine/src/executor.ts:249-258 | filtering in definition order yields exactly the ready steps, each once |
| `Executor.WorkflowExecutor.NextSequence` | packages/workflow-engine/src/executor.ts:545-551 | one past the highest number handed out |
| `Executor.WorkflowExecutor.CompleteStep` | packages/workflow-engine/src/executor.ts:531-538 | the step, its output and its number become exactly what completion prescribes; the number is the count of completions plus one |
| `Executor.WorkflowExecutor.SkipDependents` | packages/workflow-engine/src/executor.ts:560-586 | the work queue ends, skips exactly the pending downstream steps and returns exactly their ids, each once |
| `Executor.WorkflowExecutor.ReadySteps` | packages/workflow-engine/src/executor.ts:248-258 | exactly the pending steps with all dependencies completed, in definition order |
| `Executor.WorkflowExecutor.FatalFailure` | packages/workflow-engine/src/executor.ts:303-315 | the first step in definition order that failed without `continueOnError`, or none exactly when there is none |
| `Executor.WorkflowExecutor.BeginStep` | packages/workflow-engine/src/executor.ts:352-354 | a ready step becomes running and nothing else changes |
| `Executor.WorkflowExecutor.FinishStep` | packages/workflow-engine/src/executor.ts:384-404 | completes the step; a conditional that said no takes its pending dependents with it |
| `Executor.WorkflowExecutor.FailStep` | packages/workflow-engine/src/executor.ts:406-425 | records the failure and reports it exactly when it is not tolerated; a tolerated one still owes the skip |
| `Executor.WorkflowExecutor.AdvanceAction` | packages/workflow-engine/src/executor.ts:471-527 | an unregistered handler breaks the step; when the latest call returned the step finishes with exactly what it returned; when it threw the handler is called again while attempts are left, and otherwise the step breaks with its error |
| `Executor.WorkflowExecutor.AdvanceCondition` | packages/workflow-engine/src/executor.ts:384-395 | what the condition answers on the outputs so far is what the step completes with; if it throws the step breaks with that error |
| `Executor.WorkflowExecutor.AdvanceApproval` | packages/workflow-engine/src/executor.ts:429-469 | without a gate the step breaks; granted completes, denied and expired refuse, pending waits, with a deadline exactly when a time to live is set |
| `Executor.WorkflowExecutor.AdvanceSchedule` | packages/workflow-engine/src/executor.ts:363-374 | completes if its time has come by the clock, otherwise waits for exactly that time |
| `Executor.WorkflowExecutor.AdvanceEvent` | packages/workflow-engine/src/executor.ts:376-382 | always waits, with a deadline exactly when a timeout is set |
| `Answers.HandlersDecide` | packages/workflow-engine/src/executor.ts:471-527 | at every point of every run, for every action: its attempts are its handler calls, all but the last of which threw; if it completed, with what the last one returned; if it failed, unregistered, or with the last error after exactly as many throws as its limit |
| `Answers.AnswersExplainTrace` | packages/workflow-engine/src/executor.ts:348-469 | at every point of every run: a conditional completed or broke as its condition answered, an approval completed, waits or failed as the gate answered the request or a later lookup, the outputs of the run are those of its completed steps, and no step keeps a deadline past its end |
| `Answers.MoveKeepsExplained` | packages/workflow-engine/src/executor.ts:348-469 | each move made on an answer keeps what the answers explain |
| `Executor.WorkflowExecutor.AnswersDecide` | packages/workflow-engine/src/executor.ts:471-527 | the same for the object the driver mutates, whatever calls it has been through |
| `RunMachine.AttemptLimit` | packages/workflow-engine/src/executor.ts:483-484 | the larger of one and the `maxAttempts` of the step's policy, or of the definition's when the step has none, or one |
| `Executor.WorkflowExecutor.RunSlice` | packages/workflow-engine/src/executor.ts:329-337 | for every interleaving of its members: all are begun, all calls end, never more than `maxStepConcurrency` are in flight, steps of later slices stay ready, and a failure is reported exactly when some member failed fatally |
| `Executor.WorkflowExecutor.RunBatch` | packages/workflow-engine/src/executor.ts:317-344 | runs ready steps slice by slice, with at most `maxStepConcurrency` calls in flight at every point, reports a failure exactly when one is fatal, and leaves fewer steps pending |
| `Executor.FirstOutcome` | packages/workflow-engine/src/executor.ts:336-338 | the first failure in slice order |
| `Executor.WorkflowExecutor.SettleWaitingStep` | packages/workflow-engine/src/executor.ts:271-300 | makes exactly the moves that the gate's answer to this lookup or the clock calls for, and none when the step is not due |
| `Executor.WorkflowExecutor.SettleWaitingSteps` | packages/workflow-engine/src/executor.ts:264-301 | makes exactly the moves that the lookups at the gate, numbered in the order they are made, and the clock call for, step by step in definition order, and none when nothing is due |
| `Executor.RoundEndsWaits` | packages/workflow-engine/src/executor.ts:271-300 | in a round every waiting schedule whose time has come completes, every event wait past its deadline lapses, and every waiting approval ends as the gate answers its lookup, once it has decided |
| `Executor.WorkflowExecutor.UndoOrder` | packages/workflow-engine/src/executor.ts:632-635 | exactly the completed steps with a compensator, in strictly falling completion order |
| `Executor.WorkflowExecutor.UndoAll` | packages/workflow-engine/src/executor.ts:637-661 | invokes the registered compensators in that order; exactly those steps whose compensator returned end compensated |
| `Executor.WorkflowExecutor.FailRun` | packages/workflow-engine/src/executor.ts:618-673 | undoes exactly the undoable steps with a registered compensator, latest completion first, changes no other step, and ends compensated exactly when something was undone |
| `Executor.WorkflowExecutor.CompleteRun` | packages/workflow-engine/src/executor.ts:588-616 | with nothing left to do the run always ends completed |
| `Executor.WorkflowExecutor.Turn` | packages/workflow-engine/src/executor.ts:201-240 | every turn of the loop ends the drive or strictly lowers the number of pending steps |
| `Executor.WorkflowExecutor.Drive` | packages/workflow-engine/src/executor.ts:193-246 | the loop ends; the run it returns is the stored one and is completed, failed, compensated, cancelled, or suspended with a step waiting and none ready; with nothing due and nothing ready the steps do not change |
| `Executor.WorkflowExecutor.Resume` | packages/workflow-engine/src/executor.ts:104-116 | drives a suspended run and returns any other as it is; a run the due filter rejects at this clock keeps every step if and only if it has no ready step |
| `Executor.WorkflowExecutor.NotifyEvent` | packages/workflow-engine/src/executor.ts:144-169 | nothing happens exactly when the run is not suspended or no step waits for the type; otherwise each waiting step is completed with the payload, in definition order, before the drive |
| `Executor.WorkflowExecutor.Cancel` | packages/workflow-engine/src/executor.ts:118-138 | a terminal run is returned as it is; otherwise the stored copy becomes cancelled, ended steps stay and all others are skipped |
| `Executor.Start` | packages/workflow-engine/src/executor.ts:61-102 | refuses exactly when a handler or compensator is unregistered, naming the missing ones; otherwise the run is driven to one of its endings |
| `Executor.MissingExactly` | packages/workflow-engine/src/registry.ts:79-92 | a name is reported missing exactly when some step asks for it, as handler or compensator, and nobody has registered it |
| `WorkflowService.WorkflowService.Tick` | packages/workflow-engine/src/workflow-service.ts:118-149 | every run that is suspended and due is resumed, in order and once, or its resume throws and leaves it as it was; every other run is untouched; the result lists the resumed runs; a tick already under way keeps a second one out |
| `WorkflowService.WorkflowService.TryResume` | packages/workflow-engine/src/workflow-service.ts:136-143 | a resumed run is driven on and comes to rest; a resume that throws changes nothing |
| `WorkflowService.DueExactly` | packages/workflow-engine/src/workflow-service.ts:126-134 | the filter admits exactly the suspended runs with a wait that is past its time or has an approval |
| `WorkflowService.SavedRunMissedExactly` | packages/workflow-engine/src/workflow-service.ts:126-134 | the run `notifyEvent` saves before its drive has a ready step and yet is not due at a given time, if and only if in the stored run some pending step lacks nothing but this event and no step that waits for another reason is due |
| `WorkflowService.NotifiedRunCanBeMissed` | packages/workflow-engine/src/executor.ts:165-168 | the run saved by `notifyEvent` before its drive is suspended with a ready step and nothing due, so a crash in between leaves a run the filter never picks up |
| `DriverProofs.SavedRunIsReadyExactly` | packages/workflow-engine/src/executor.ts:154-168 | the run `notifyEvent` saves has a ready step if and only if in the stored run some pending step lacks nothing but this event |
| `DriverProofs.AwaitsExactly` | packages/workflow-engine/src/executor.ts:155-160 | an event reaches exactly the waiting event steps of its own type |
| `JsonTree.PrintUnique` | packages/audit/src/ledger.ts:20-36 | JSON text decodes uniquely: two printed trees, whatever follows them, that give the same text are the same tree followed by the same rest |
| `Json.QuoteUnique` | packages/audit/src/ledger.ts:22 | a quoted string (escapes of section 7 of RFC 8259, lone surrogates escaped) can be read off the front of a text in only one way |
| `CanonicalJson.SortAscends` | packages/audit/src/ledger.ts:33 | keys are sorted by UTF-16 code units, the order of section 3.2.3 of RFC 8785, and distinct keys ascend strictly |
| `CanonicalJson.NormalKeepsMeaning` | packages/audit/src/ledger.ts:29-35 | sorting keys and dropping undefined members at every depth keeps the value |
| `CanonicalJson.CanonicalDecidesMeaning` | packages/audit/src/ledger.ts:12-36 | two JSON values serialise to the same text if and only if they are equal up to key order and dropped undefined members |
| `CanonicalJson.ShapesAre` | packages/audit/src/ledger.ts:25-36 | arrays, objects and strings are punctuated as in RFC 8259 |
| `CanonicalJson.LiteralsAre` | packages/audit/src/ledger.ts:20-23 | null, true and false are written as in RFC 8259, and undefined as null |
| `Json.DecimalReads` | packages/audit/src/ledger.ts:20-23 | an integer is written in decimal without leading zeros and reads back as itself |
| `Json.UnicodeEscapeReads` | packages/audit/src/ledger.ts:20-23 | a unit escaped by number reads back as itself from its four hexadecimal digits |
| `Json.OtherUnitsAre` | packages/audit/src/ledger.ts:20-23 | units other than the short escapes are written as they are, but for control characters and lone surrogates |
| `AuditEntry.HashCommitsToContent` | packages/audit/src/ledger.ts:38-61 | with an injective hash, two entries hash alike if and only if every field agrees, details up to key order and undefined members |
| `AuditEntry.HashingCommits` | packages/audit/src/ledger.ts:46-61 | the entry hash meets the assumption under which the chain theorems are proved |
| `AuditEntry.HashedFields` | packages/audit/src/ledger.ts:46-61 | the hashed object holds the id, sequence, time, actor and action of the entry, each under its own name |
| `AuditEntry.OtherHashedFields` | packages/audit/src/ledger.ts:46-61 | it also holds the resource, outcome, correlation id, details and previous hash, null for what is absent |
| `AuditEntry.HashedActor` | packages/audit/src/ledger.ts:46-61 | the actor's part holds what is known of the actor and nothing else |
| `AuditEntry.NamesAreSpelt` | packages/audit/src/ledger.ts:46-61 | the names of the fields and of the outcomes, spelt out |
| `Ledger.Verify` | packages/audit/src/ledger.ts:96-114 | walks the chain: valid exactly when every link and hash checks out, and `brokenAt` lists the broken entries |
| `Ledger.BrokenAmongExact` | packages/audit/src/ledger.ts:103-111 | a sequence number is reported exactly when an entry with that number fails its link or its hash |
| `Ledger.LastHashCommits` | packages/audit/src/ledger.ts:97-114 | two verified ledgers with the same last hash are equal entry by entry, and so of equal length |
| `Ledger.LastDigestCommits` | packages/audit/src/ledger.ts:46-61 | the same for the digest of canonical JSON |
| `Ledger.TamperingIsDetected` | packages/audit/src/ledger.ts:63-72 | altering, removing or reordering entries while keeping the last hash breaks some entry |
| `Ledger.NextEntryExtends` | packages/audit/src/ledger.ts:116-136 | an entry built on the last stored one keeps the chain verified and the sequences 1..n |
| `Ledger.UnserialisedAppendsFork` | packages/audit/src/ledger.ts:70-72 | two appends that read the same last entry and both write give two entries with one sequence number and a chain that does not verify: serialising is needed |
| `Ledger.EveryInterleavingVerifies` | packages/audit/src/ledger.ts:81-90 | with each call chained on the tail of its time and released only when that turn settles, however calls interleave and whichever reads or writes the store rejects: at most one turn is between its read and its write, stored sequences are 1..n without forks, and the chain verifies |
| `Ledger.MoveKeepsLedger` | packages/audit/src/ledger.ts:86-88 | each turn is behind the one before it, a turn that has begun leaves nothing unsettled before it, and what a turn has read is still the last entry: kept by every call, read and write |
| `Ledger.ChainNeverStalls` | packages/audit/src/ledger.ts:86-88 | while any turn is unsettled, exactly one turn can read or write, so a rejected append holds up nobody |
| `Ledger.AuditLedger.Append` | packages/audit/src/ledger.ts:81-90 | refuses exactly an empty action; otherwise adds a turn with this input, chained on the tail, and moves the tail to it |
| `Ledger.AuditLedger.BeginTurn` | packages/audit/src/ledger.ts:86-117 | run when the promise the turn was chained on has settled, whatever other turns do: reads the last entry, or settles if the store rejects the read |
| `Ledger.AuditLedger.EndTurn` | packages/audit/src/ledger.ts:116-136 | the entry written has the action, resource, correlation id and details given to `append` for this turn, its actor and outcome or else the system actor and success, and the id and time of the write; it links to the entry before it; after a rejected write the store is unchanged |
| `Ledger.NextEntryRecords` | packages/audit/src/ledger.ts:119-130 | the entry built for an input keeps every field given and gives every other its default |
| `Ledger.StoredEntriesAreTheCalls` | packages/audit/src/ledger.ts:81-136 | after any run the stored entries are, in the order of the calls, the inputs of exactly those calls whose write the store accepted |
| `Ledger.AuditLedger.Check` | packages/audit/src/ledger.ts:97-114 | a ledger written only through these turns always verifies clean |
| `Matching.GetByPathWalks` | packages/common/src/matching.ts:25-37 | reading a dotted path is walking its parts, with or without a dot |
| `Matching.JoinSplit` | packages/common/src/matching.ts:32 | splitting at dots loses nothing: joining the parts gives the path back |
| `Matching.MatchesWhere` | packages/common/src/matching.ts:72-78 | true exactly when every key of the filter reads the expected value |
| `Matching.ExpandPaths` | packages/common/src/matching.ts:46-70 | the loop builds the nested object that the specification of expansion describes |
| `Matching.ContainsPut` | packages/common/src/matching.ts:58-66 | adding a path to the expanded object adds exactly that path to what containment demands |
| `Matching.ContainmentIsMatching` | packages/storage/src/postgres.ts:398-410 | for scalar filters without prefix conflicts, an object contains the expanded filter exactly when it matches directly along paths that cross no array, in any key order |
| `Matching.FormsAgreeExactly` | packages/common/src/matching.ts:39-78 | the two forms agree on all documents without arrays if and only if no dotted key is a prefix of another |
| `ArrayFilters.FormsAgreeOnAllObjectsExactly` | packages/common/src/matching.ts:25-78 | for scalar filters the two forms agree on all object documents, arrays included, if and only if no dotted key is a prefix of another and no array could meet all the keys that lead through it (indices, or a final `length` beyond them) |
| `ArrayFilters.CrossingDocument` | packages/common/src/matching.ts:32-36 | if an array could meet them, some document matches the whole filter through an array |
| `ArrayFilters.CrossingMeansReadable` | packages/common/src/matching.ts:32-36 | a document that matches through an array shows that its keys can be read there: indices, or `length` as the last part with that number |
| `Matching.ConflictNeverMatches` | packages/common/src/matching.ts:72-78 | a filter with a prefix conflict matches no document directly |
| `Matching.ArrayPathsDisagree` | packages/common/src/matching.ts:32-36 | a path through an array matches directly and is never contained: why array-free documents are required |
| `QuotaGuard.CounterStore.ReadLive` | packages/policy-engine/src/quota-guard.ts:63-72 | an entry is read until its deadline and deleted from it on |
| `QuotaGuard.CounterStore.Increment` | packages/storage/src/memory.ts:72-87 | the new count and deadline, for the store that sets the deadline once per window and for the one that renews it |
| `QuotaGuard.QuotaGuard.SetLimit` | packages/policy-engine/src/quota-guard.ts:103-118 | rejects exactly the invalid limits and changes nothing then; otherwise replaces the limit with this id where it stands, or adds it at the end |
| `QuotaGuard.QuotaGuard.Consume` | packages/policy-engine/src/quota-guard.ts:152-175 | counts the amount once under every governing limit, each with its own clock readings for key, lookup, deadline and report, returns one exact status each, and allows exactly when none is exceeded |
| `QuotaGuard.SharedCounterExactly` | packages/policy-engine/src/quota-guard.ts:200-216 | under one limit two requests share a counter exactly when their windows are the same and so are the org, user and agent names of their callers, an absent one reading as `*` |
| `QuotaGuard.OthersNeverCount` | packages/policy-engine/src/quota-guard.ts:200-216 | over any history, leaving out all requests of callers with other names changes neither whether a request is admitted nor any status it gets |
| `QuotaGuard.AdmitsExactly` | packages/policy-engine/src/quota-guard.ts:145-175 | a request is admitted exactly when, with its amount, none of its windows is overdrawn, and each status tells the total of its window |
| `QuotaGuard.GovernsExactly` | packages/policy-engine/src/quota-guard.ts:129-133 | a limit governs a request for its resource by a caller who has every name its scope asks for |
| `QuotaGuard.StatusMeans` | packages/policy-engine/src/quota-guard.ts:188-199 | the status tells what is left, whether the limit is passed, and the next instant at which a window begins |
| `QuotaGuard.PeriodsNest` | packages/policy-engine/src/quota-guard.ts:75-80 | a minute has 60000 milliseconds, an hour 60 minutes, a day 24 hours, a month 30 days |
| `QuotaGuard.ApplicableInOrder` | packages/policy-engine/src/quota-guard.ts:129-133 | the limits come in the order in which they were set |
| `QuotaGuard.ApplicableExact` | packages/policy-engine/src/quota-guard.ts:129-133 | exactly the limits for this resource whose scope covers the caller, each once |
| `QuotaGuard.WindowContains` | packages/policy-engine/src/quota-guard.ts:218-221 | every time lies in its window and before the reset time reported |
| `QuotaGuard.RunTracks` | packages/policy-engine/src/quota-guard.ts:46-72 | on either store, over any sequence of requests whose lookups stay within their windows, a counter holds all that was consumed under its key and outlives its window |
| `QuotaGuard.WindowBound` | packages/policy-engine/src/quota-guard.ts:145-175 | per limit and caller, the amount admitted in a window never exceeds the limit while lookups stay within their windows |
| `QuotaGuard.IntervalBound` | packages/policy-engine/src/quota-guard.ts:91-93 | under the same condition, in any interval no longer than a period at most twice the limit is admitted |
| `QuotaGuard.BoundSurvivesExactly` | packages/policy-engine/src/quota-guard.ts:46-57 | a request counted after prompt ones cannot push its window past the limit, on either store, if and only if the store looks its counter up before the window named by its key is over |
| `QuotaGuard.LateRequestOverruns` | packages/policy-engine/src/quota-guard.ts:211-216 | a request that reaches the store after its window finds the counter gone and is admitted on top of a full window |
| `TaskQueue.OrderIsLanes` | packages/agent-runtime/src/task-queue.ts:14-30 | the one ordered list is the four priority lanes joined, most urgent first |
| `TaskQueue.TaskQueue.Enqueue` | packages/agent-runtime/src/task-queue.ts:14-30 | the task joins the back of its lane, a known id leaving its old place first; other lanes keep their order; no duplicates |
| `TaskQueue.TaskQueue.Dequeue` | packages/agent-runtime/src/task-queue.ts:32-38 | yields a task than which no waiting one is more urgent (critical before high before normal before low), and of those as urgent the one that was enqueued first; takes nothing else |
| `TaskQueue.HeadIsNext` | packages/agent-runtime/src/task-queue.ts:3-38 | the head of the list is a waiting task than which none is more urgent, and the first to have arrived among those of its priority |
| `TaskQueue.TaskQueue.Cancel` | packages/agent-runtime/src/task-queue.ts:45-54 | succeeds exactly for a queued id, which leaves its lane and will not be handed out |
| `TaskQueue.InsertIntoLane` | packages/agent-runtime/src/task-queue.ts:20-29 | the position the search finds appends to the task's own lane and leaves the others |
| `TaskQueue.LaneWithout` | packages/agent-runtime/src/task-queue.ts:15-18 | removing an id from the list removes it from its lane alone |
| `TaskBooks.EnteredKeeps` | packages/agent-runtime/src/scheduler.ts:101-193 | every move (submit, queue, start, retry, end) keeps each task on exactly one shelf with its starts counted and bounded |
| `TaskBooks.MovesTell` | packages/agent-runtime/src/scheduler.ts:48-193 | what becomes of the task of each move: where it goes, its status, attempts, start time and error |
| `TaskBooks.MovesTouchOne` | packages/agent-runtime/src/scheduler.ts:48-193 | no move changes any other task |
| `TaskBooks.OverdueExactly` | packages/agent-runtime/src/scheduler.ts:175-180 | an attempt is overdue exactly when more than its timeout has passed since it began |
| `TaskBooks.HistoryBalances` | packages/agent-runtime/src/scheduler.ts:40-193 | the books balance at every point of every history |
| `TaskBooks.EveryHistoryConserves` | packages/agent-runtime/src/scheduler.ts:101-193 | submitted = planning + queued + running + completed + failed + cancelled, disjointly; no task starts more than max(1, maxAttempts) times, and all starts together at most the sum of that |
| `TaskBooks.AllowanceHoldsExactly` | packages/agent-runtime/src/scheduler.ts:130-186 | starts of a task stay within its `maxAttempts` in every history if and only if `maxAttempts` is at least 1 |
| `TaskBooks.FirstStartIsUnchecked` | packages/agent-runtime/src/scheduler.ts:182-186 | submitted, queued and begun, a task has started once whatever its `maxAttempts` |
| `TaskBooks.AllEndedExactly` | packages/agent-runtime/src/scheduler.ts:40-82 | every submitted task is terminal if and only if nothing is planning, queued or running |
| `TaskBooks.StopEndsAllExactly` | packages/agent-runtime/src/scheduler.ts:40-82 | from the state the drain leaves, every way the stop can go on ends with every submitted task terminal, if and only if no submit was still planning |
| `TaskBooks.LateSubmitIsStranded` | packages/agent-runtime/src/runtime-service.ts:66-93 | a submit whose plan is still awaited when the scheduler stops: the drain finds nothing, and the task is queued afterwards |
| `TaskBooks.StrandedForGood` | packages/agent-runtime/src/scheduler.ts:40-54 | a task queued in a stopped scheduler stays queued under everything a stopped scheduler still does, unless somebody cancels it |
| `Scheduler.Scheduler.Submit` | packages/agent-runtime/src/runtime-service.ts:66-89 | a stopped runtime refuses; otherwise the task is submitted and its plan awaited |
| `Scheduler.Scheduler.Planned` | packages/agent-runtime/src/runtime-service.ts:89-93 | once the plan is there the task is queued, whether or not the scheduler still runs |
| `Scheduler.Scheduler.CancelQueued` | packages/agent-runtime/src/runtime-service.ts:99-105 | exactly a queued task is cancelled, and ends so |
| `Scheduler.Scheduler.SubmitResult` | packages/agent-runtime/src/scheduler.ts:101-117 | accepted exactly for a running task of a running scheduler, which then ends completed |
| `Scheduler.Scheduler.FailTask` | packages/agent-runtime/src/scheduler.ts:119-152 | a failed attempt goes back to the queue while attempts remain and ends the task otherwise |
| `Scheduler.Scheduler.FailOverdue` | packages/agent-runtime/src/scheduler.ts:175-180 | exactly the tasks past their timeout when the clock is read for them are failed, each once, and the queue afterwards is, lane by lane, the old one with the retried tasks moved to the back |
| `Scheduler.Scheduler.FillWorkers` | packages/agent-runtime/src/scheduler.ts:182-192 | starts tasks from the head of the queue, in order and each at its own clock reading, until the workers are full or the queue is empty; no task left waiting is more urgent than one it started |
| `Scheduler.Scheduler.StartNext` | packages/agent-runtime/src/scheduler.ts:182-192 | the task started is next in line; it runs from the time read, with one attempt more |
| `Scheduler.Scheduler.Poll` | packages/agent-runtime/src/scheduler.ts:172-193 | a stopped scheduler does nothing; otherwise overdue tasks fail, then free workers take the head of exactly the queue this leaves, and never more than `maxConcurrency` run |
| `Scheduler.Scheduler.Drain` | packages/agent-runtime/src/scheduler.ts:48-54 | cancels everything queued, in order |
| `Scheduler.Scheduler.ForceFail` | packages/agent-runtime/src/scheduler.ts:71-79 | fails every task still running, each once |
| `Scheduler.Scheduler.BeginStop` | packages/agent-runtime/src/scheduler.ts:40-54 | work is no longer taken on and the queue is cancelled in order; whatever follows ends every task exactly if no submit is still planning |
| `Scheduler.Scheduler.EndStop` | packages/agent-runtime/src/scheduler.ts:56-79 | after the grace period whatever still runs is failed; every task is terminal exactly if none is planning and none has been queued since |
| `Scheduler.Scheduler.Stop` | packages/agent-runtime/src/scheduler.ts:40-82 | a stop in which nothing else happens leaves every submitted task terminal if and only if no submit was still planning when the drain ran |
| `CircuitBreaker.EveryHistoryIsSound` | packages/resilience/src/circuit-breaker.ts:43-99 | closed always means fewer consecutive failures than max(1, threshold); an open circuit knows since when; its failure count is zero exactly when the last call to end did so well |
| `CircuitBreaker.FailuresAreInARow` | packages/resilience/src/circuit-breaker.ts:60-91 | after every history the failure count is the number of failures since the last success or reset |
| `CircuitBreaker.OpensExactly` | packages/resilience/src/circuit-breaker.ts:76-91 | a closed circuit opens at the failure that brings the failures in a row to the threshold, at the time of that failure, and at nothing else |
| `CircuitBreaker.LeavesHalfOpenExactly` | packages/resilience/src/circuit-breaker.ts:60-91 | a half-open circuit closes at the success that makes those since the probe enough, opens at any failure, and otherwise stays |
| `CircuitBreaker.LeavesOpenExactly` | packages/resilience/src/circuit-breaker.ts:43-58 | an open circuit is left by a reset, or by asking once a whole timeout has passed |
| `CircuitBreaker.OpenedAtLastFailure` | packages/resilience/src/circuit-breaker.ts:76-91 | past its threshold an open circuit dates from its last failure |
| `CircuitBreaker.OpenAdmitsExactly` | packages/resilience/src/circuit-breaker.ts:46-53 | past its threshold an open circuit admits a call exactly from one reset timeout after the last failure |
| `CircuitBreaker.LateFailureIsNotNoted` | packages/resilience/src/circuit-breaker.ts:85-88 | after a late success, a late failure does not restart the timeout: why the previous rows need the threshold |
| `CircuitBreaker.SecondProbeExactly` | packages/resilience/src/circuit-breaker.ts:39-58 | as long as nothing but asking follows the probe, further calls are refused unless the last call to end before it was a success; then all are admitted |
| `ProbeGate.GateIsSingleExactly` | packages/resilience/src/circuit-breaker.ts:39-58 | with calls told apart: however things go on while a probe is out, nobody else is let through, if and only if no other call was in flight and the last call to end did not end well when it went out |
| `ProbeGate.SecondCallNeedsAnEnding` | packages/resilience/src/circuit-breaker.ts:39-74 | whatever follows a probe, another call gets through before it ends only if the last call to end before it ended well, or a call in flight beside it has ended since |
| `ProbeGate.LateSuccessLetsSecondCallIn` | packages/resilience/src/circuit-breaker.ts:60-74 | with a probe out and the last ending a failure, an earlier call ends well and a second call gets through |
| `ProbeGate.ShutForGoodExactly` | packages/resilience/src/circuit-breaker.ts:60-74 | after a probe that ended well the circuit refuses every later call for good, whatever happens short of a reset, if and only if `successThreshold` is at least 2 and no other call is in flight |
| `CircuitBreaker.LateSuccessWeakensTheGate` | packages/resilience/src/circuit-breaker.ts:60-63 | two calls in flight, one failing and one succeeding late: the half-open circuit then admits a second probe |
| `CircuitBreaker.RecoversExactly` | packages/resilience/src/circuit-breaker.ts:60-74 | as long as nothing but asking follows a successful probe, calls flow again if and only if `successThreshold` is at most 1 |
| `CircuitBreaker.FailedProbeReopens` | packages/resilience/src/circuit-breaker.ts:84-88 | a failed probe closes the gate for one whole reset timeout, exactly |
| `CircuitBreaker.OutageBound` | packages/resilience/src/circuit-breaker.ts:43-91 | whatever the circuit went through before, if from then on every call fails before the next one asks, at most max(1, threshold) + T / resetTimeoutMs calls are admitted in elapsed time T |
| `CircuitBreaker.OutageBoundIsTight` | packages/resilience/src/circuit-breaker.ts:43-91 | after any history that leaves the circuit closed without failures, and for every number of calls, there is an outage that meets the bound exactly |
| `CircuitBreaker.CircuitBreaker.CanAttempt` | packages/resilience/src/circuit-breaker.ts:43-58 | answers what the history so far prescribes and records that it was asked |
| `CircuitBreaker.CircuitBreaker.RecordSuccess` | packages/resilience/src/circuit-breaker.ts:60-74 | the fields become what the history with this success prescribes |
| `CircuitBreaker.CircuitBreaker.RecordFailure` | packages/resilience/src/circuit-breaker.ts:76-91 | the fields become what the history with this failure prescribes |
| `CircuitBreaker.CircuitBreaker.ForceClosed` | packages/resilience/src/circuit-breaker.ts:93-99 | back to a fresh circuit |
| `ResilienceService.ResilienceService.AttemptWithRetries` | packages/resilience/src/resilience-service.ts:214-263 | at most max(1, maxAttempts) invocations, whose answers are those of the guarded function: all but the last failed in a way worth retrying, the call ends well exactly when the last one did, and it gives up only at the limit or on an error not worth retrying |
| `ResilienceService.TriesAreDetermined` | packages/resilience/src/resilience-service.ts:226-260 | the answers of the guarded function alone decide how often it is invoked and how the call ends |
| `ResilienceService.SucceedsExactly` | packages/resilience/src/resilience-service.ts:226-260 | the call succeeds exactly when some answer within the limit is good and all before it are worth retrying |
| `ResilienceService.ResilienceService.Execute` | packages/resilience/src/resilience-service.ts:105-133 | asks the key's own circuit once, reports to it once exactly if admitted, invokes nothing if refused, touches no other key's circuit, and the log of the key records the invocations it made |
| `ResilienceService.ResilienceService.BreakerFor` | packages/resilience/src/resilience-service.ts:265-272 | a known key keeps its circuit, an unknown one gets a fresh circuit of its own |
| `ResilienceService.ResilienceService.ResetCircuit` | packages/resilience/src/resilience-service.ts:190-192 | closes the circuit of this key and no other |
| `ResilienceService.FailingExecutionExtendsOutage` | packages/resilience/src/resilience-service.ts:117-128 | failing executions tell their circuit exactly what an outage tells it |
| `ResilienceService.InvocationBound` | packages/resilience/src/resilience-service.ts:105-133 | over an outage in which no call makes more than max(1, maxAttempts) attempts, the invocations are at most max(1, maxAttempts) * (max(1, threshold) + T / resetTimeoutMs), whatever the circuit heard before |
| `ResilienceService.LoggedInvocationBound` | packages/resilience/src/resilience-service.ts:105-133 | the same bound for what the executions of a key really invoked in any stretch of its log in which all of them failed |
| `ContextAssembler.TakenExactly` | packages/context/src/naive-assembler.ts:96-113 | an item is taken exactly when it fits beside everything taken before it |
| `ContextAssembler.PriorityIsRespected` | packages/context/src/naive-assembler.ts:36-50 | any other choice within the ceiling first differs by leaving out something of higher priority that is taken here |
| `ContextAssembler.RankedIsSorted` | packages/context/src/naive-assembler.ts:80-81 | ranking memories loses none and puts higher scores first |
| `ContextAssembler.RankedIsStable` | packages/context/src/naive-assembler.ts:80-81 | memories of equal score stay in the order given |
| `ContextAssembler.KeptTurnsStayInOrder` | packages/context/src/naive-assembler.ts:96-113 | kept turns are those at the kept positions, in their original order |
| `ContextAssembler.TurnsAreAccounted` | packages/context/src/naive-assembler.ts:88-113 | every turn is kept or dropped, exactly once |
| `ContextAssembler.MemoriesAreAccounted` | packages/context/src/naive-assembler.ts:80-133 | every memory is kept or dropped, as often as it was given |
| `ContextAssembler.EstimateIsExact` | packages/context/src/naive-assembler.ts:72-133 | the estimate is the fixed cost plus all kept costs, and at most the larger of ceiling and fixed cost |
| `ContextAssembler.NothingDroppedWouldFit` | packages/context/src/naive-assembler.ts:96-133 | nothing dropped for tokens would still fit into the finished context |
| `ContextAssembler.LostMemoriesAreReported` | packages/context/src/naive-assembler.ts:80-133 | the report names exactly the dropped memories |
| `ContextAssembler.ReportIsExactWhen` | packages/context/src/naive-assembler.ts:88-109 | the report names exactly the dropped turns under every ceiling, if and only if the turn limit is not negative (or the history is empty) and no turn within it repeats an earlier message object |
| `ContextAssembler.IndexOfIsFirst` | packages/context/src/naive-assembler.ts:104 | `indexOf` finds the first position of a repeated object |
| `ContextAssembler.ApplyCountLimit` | packages/context/src/naive-assembler.ts:170-181 | keeps the first `limit` items, all of them without a limit, and all but the last `-limit` under a negative one, and notes each of the others in order |
| `ContextAssembler.NaiveContextAssembler.FitHistory` | packages/context/src/naive-assembler.ts:96-113 | offers turns newest first and keeps the original order |
| `ContextAssembler.NaiveContextAssembler.FitMemories` | packages/context/src/naive-assembler.ts:122-133 | offers memories in order of rank |
| `ContextAssembler.NaiveContextAssembler.Assemble` | packages/context/src/naive-assembler.ts:59-167 | fails exactly without an instruction; otherwise messages, estimate, report and references are those of the selection the rows above describe |
| `ContextAssembler.CostsAre` | packages/context/src/naive-assembler.ts:24-32 | four characters to a token, rounded up, with four tokens more for a message and eight for a memory |
| `ContextAssembler.MergedExactly` | packages/context/src/naive-assembler.ts:65-66 | field by field the request's budget wins over the assembler's, and 8000 tokens over no ceiling at all |
| `ContextAssembler.FixedCostIs` | packages/context/src/naive-assembler.ts:70-78 | the instruction always counts, and so does the input when there is one |
| `ContextAssembler.HigherScoresFirst` | packages/context/src/naive-assembler.ts:81-86 | memories are offered with falling scores, one without a score counting as zero |
| `ContextAssembler.MessagesAre` | packages/context/src/naive-assembler.ts:136-155 | the instruction comes first and untouched, then one message with the memories, the kept turns in order, and the input last |
| `ContextAssembler.LineOfMemory` | packages/context/src/naive-assembler.ts:144-150 | each kept memory stands whole on a line of its own |
| `ContextAssembler.ReasonsAreRight` | packages/context/src/naive-assembler.ts:81-132 | every drop names the limit that caused it |
| `SpanForest.ForestHoldsEachSpanOnce` | packages/observability/src/tracer.ts:186-208 | walking the tree meets every span of the trace exactly once and nothing else |
| `SpanForest.WalkMeetsOnce` | packages/observability/src/tracer.ts:186-208 | below any span the walk meets exactly its descendants, each once |
| `SpanForest.SpendOfExactly` | packages/observability/src/tracer.ts:178-179 | a span counts with the cost and tokens it reports, and with nothing where it reports none |
| `SpanForest.ForestSpendIsFlatTotal` | packages/observability/src/tracer.ts:157-183 | cost and tokens rolled up over the tree equal the flat totals |
| `Tracer.OpeningKeepsRecord` | packages/observability/src/tracer.ts:38-73 | a new span never becomes the parent of an older one |
| `Tracer.RewritingKeepsRecord` | packages/observability/src/tracer.ts:76-143 | closing or annotating a span keeps every parent older than its child |
| `Tracer.RecordRanksTrace` | packages/observability/src/tracer.ts:186-208 | the order of opening ranks parents before children, so no trace holds a cycle |
| `Tracer.Tracer.StartSpan` | packages/observability/src/tracer.ts:38-73 | fails exactly on an empty trace id or name, drops exactly when the trace is full, and otherwise stores exactly this span |
| `Tracer.ClosedExactly` | packages/observability/src/tracer.ts:76-95 | a span ends as told, well and now unless told otherwise; cost and tokens stay when none are reported; nothing else changes |
| `Tracer.ByStartIsStable` | packages/observability/src/tracer.ts:196-205 | spans that began at the same time stay in the order given |
| `Tracer.Tracer.EndSpan` | packages/observability/src/tracer.ts:75-95 | closes exactly a running span, once, and changes nothing else |
| `Tracer.Tracer.EndByKey` | packages/observability/src/tracer.ts:97-104 | closes the span the key stands for; afterwards the key stands for nothing |
| `Tracer.Tracer.AddEvent` | packages/observability/src/tracer.ts:131-143 | adds one note to a known span and changes nothing else |
| `Tracer.Tracer.Spans` | packages/observability/src/store.ts:25-34 | exactly the spans of the trace, each once, oldest first |
| `Tracer.HasParentExactly` | packages/observability/src/tracer.ts:161-161 | a span has a parent when it names one by an id that is not empty |
| `Tracer.Tracer.Summarise` | packages/observability/src/tracer.ts:157-183 | undefined exactly for an unknown trace; otherwise root, extent, status, counts and totals of its spans |
| `Tracer.RollUp` | packages/observability/src/tracer.ts:210-215 | running beats error, error beats cancelled, cancelled beats ok, and the errors are counted exactly |
| `Tracer.Extent` | packages/observability/src/tracer.ts:162-165 | from the first start to the last end, the end being known exactly when all spans are closed |
| `Tracer.Tracer.Tree` | packages/observability/src/tracer.ts:186-208 | every span is listed once, under its parent if that is of the trace and as a root otherwise, each list oldest first |
| `Tracer.TreeAgreesWithSummary` | packages/observability/src/tracer.ts:157-208 | the tree holds as many spans as the summary counts and its spend is the summary's total |

## Left out

- Executor.WorkflowExecutor.Drive: a cancel may arrive while a batch is running. One that races an approval check or a compensation is left out, since the driver saves there without looking at the abort. One driver per run at a time.
- Executor.Start: requires a validated definition and `maxStepConcurrency` of at least 1; with 0 the source's batch loop would not advance.
- WorkflowService.WorkflowService.Tick: nothing else touches the runs during a tick, and a resume throws, if at all, before it changes the run (its run or definition is gone); a store that throws later is left out.
- PlanTheorems.DependentCanBeStranded: the machine has no clock of its own, so the run it builds does not order the times of different schedules.
- JsonTree.PrintUnique: JSON numbers are integers; fractions, exponents and NaN are left out.
- CanonicalJson.CanonicalDecidesMeaning: the same integers; objects are lists of members, so keys like `__proto__` are ordinary.
- AuditEntry.HashCommitsToContent: the hash is any injective function with a non-empty result, in place of SHA-256.
- Ledger.LastHashCommits: compares well-formed ledgers, in which no object repeats a key, which JavaScript objects cannot do.
- Ledger.EveryInterleavingVerifies: a rejected write has stored nothing.
- Matching.ExpandPaths: nested objects are values rebuilt along the path, where the source writes through a cursor, and an array expected at a shorter key is replaced rather than given a property. Names that JavaScript finds on a prototype, such as `__proto__`, are ordinary keys.
- Matching.FormsAgreeExactly: covers documents without arrays; all object documents are the subject of ArrayFilters.FormsAgreeOnAllObjectsExactly. The `@>` rule that lets a top-level array contain a scalar is left out.
- ArrayFilters.FormsAgreeOnAllObjectsExactly: names that JavaScript finds on a prototype are ordinary keys; a filter such as `{"__proto__.x": 1}` expands to an empty object in the source, and its forms disagree.
- QuotaGuard.WindowBound: the limits stay the same over the run and amounts are non-negative integers.
- QuotaGuard.IntervalBound: the same, and time is the time at which the key is built.
- QuotaGuard.RunTracks: counters whose lookup falls outside the window of their key are the subject of QuotaGuard.BoundSurvivesExactly.
- Scheduler.Scheduler.Stop: nobody starts the scheduler again meanwhile; what may happen during the grace period is in TaskBooks.StopEndsAllExactly. A plan that is rejected leaves its task planning.
- CircuitBreaker.OutageBound: each call is recorded before the next one asks, no call from before the outage ends during it, and the reset timeout is positive; with a timeout of zero no bound exists.
- CircuitBreaker.SecondProbeExactly: only asking follows the probe; any other continuation is the subject of ProbeGate.GateIsSingleExactly.
- CircuitBreaker.RecoversExactly: only asking follows the probe; any other continuation is the subject of ProbeGate.ShutForGoodExactly.
- ResilienceService.ResilienceService.Execute: one execution is one step, so no other one on the key comes between asking and reporting; ProbeGate has the interleavings. Fallback keys, dead letters, circuit snapshots, call totals and policy globs are left out, and the policy for the key is a parameter.
- ResilienceService.InvocationBound: the attempts are bounded by hypothesis; ResilienceService.LoggedInvocationBound has them as executions make them.
- ContextAssembler.NaiveContextAssembler.Assemble: the input arrives rendered, tools are passed through unseen, scores are reals without NaN, a budget field set to undefined counts as absent, and references carry the memory id alone.
- SpanForest.ForestSpendIsFlatTotal: costs are exact reals, where the source adds floating-point numbers in two orders.
- Tracer.TreeAgreesWithSummary: the same exact reals.
- Tracer.Tracer.StartSpan: calls run one at a time, and the generated id is new and not yet named as anybody's parent; interleaved starts, which could pass the span limit, are left out.
- Tracer.Tracer.EndSpan: one step; two interleaved closings, which could both see the span running, are left out.
- Tracer.Tracer.AddEvent: one step; an annotation interleaved with a close, which could undo it, is left out.
- Tracer.Tracer.Summarise: duration, mission and organisation are left out, and costs are exact reals.
- Tracer.Tracer.Tree: nodes are identified by span id and child lists kept in a map, in place of node objects that hold each other. Span kinds, attributes and durations are left out.
- Registry lookup, definition storage, identifiers, timestamps that decide nothing, the logger and the text of most error messages.
- Event emission is left out and taken not to throw; a throwing emitter could end a batch between a status change and its skip.
- Retry delays, handler timeouts and backoff in the executor and in the resilience service: a timeout is one of the ways a handler may throw.
- Handlers, conditions, compensators, the approval gate and the guarded function are arbitrary functions of the call they answer (`Answers.World`; a repeated lookup also of its number); the audit store and the clock may answer anything at any time.
- Step states are values in the map `steps`, replaced at their key, rather than objects; the engine holds no second reference to one.
- Counter keys are tuples, so a colon inside an id cannot make two keys collide; `status`, `warnings` and `removeLimit` would add easy members.
- Cancelling a task that is already running, agent assignment and runtime statistics.
- Storage, network and model drivers, the HTTP console, the user interface, policy rules, budgets, registries, prompts, secrets and missions.
