# Workspace assistant: verified model

The service answers questions about a user's mail, calendar, files and index. A language model
proposes a plan of steps; the plan is validated, rewritten and run wave by wave against agents;
operations that change something wait for the user's approval. Behind the index search stand a
chunker, an embedding cache, a synchronization job under a lease, and a result selection.

This project models that logic in Dafny and proves what holds of it for every input, every run
and every interleaving. `dafny verify dfyconfig.toml` checks all of it. Lemmas switch automatic
induction off: every induction is written out.

| module | what it models |
|---|---|
| `Text`, `Json`, `Fresh` | character classes, identifiers, words and tokens, numerals; JSON values with ordered objects; unused numbers |
| `Graph` | dependency graphs, cycles, topological orders, longest chains, the three-colour search |
| `References` | `$step` references: the validator's generator, the containment test, the resolver |
| `Substitution` | what a sound reference is, what it refers to, and what a value is with its references replaced, all without the traversals |
| `Contracts` | steps, results, errors, and the plan's graph validator |
| `Operations`, `Signatures` | the operation catalogue, strict and tolerant argument validation, the registry; the calls that pass, operation by operation |
| `Planner`, `Routing` | intent constraints on a validated plan, and the routing of contextual lookups |
| `ConstrainedPlans`, `RoutedPlans` | what constraints and routing make of each step, stated without the functions that compute it |
| `Evaluation` | a recursive evaluator over the dependency graph, and the status fold |
| `Waves`, `Executor` | the wave loop over mutable session tables, proved to compute that evaluation |
| `Orchestration` | planning followed by execution |
| `Approvals` | approve and reject requests on mutable tables, one at a time |
| `ApprovalProtocol`, `ApprovalRuns` | executor runs, approvals and rejections interleaved as locked transactions, and what every run keeps |
| `Chunking` | the chunking loop: when it stops, what its chunks cover, what happens to words |
| `EmbeddingCache` | the process-wide cache of embeddings, in touch order |
| `SingleFlight`, `FlightAnswers` | coroutines that share caches and one lock per key, as a step relation; what each of them gets and leaves behind |
| `SyncLease` | the timed, token-checked lease on synchronization, as a step relation |
| `Relevance`, `RelevanceRules` | scoring and greedy deduplicated selection of search results; the rules a candidate is judged by |
| `Indexing`, `Sync` | the item and chunk index under upserts, and one synchronization as a transaction |

## Main results

- The graph validator accepts a plan exactly when the graph invariant holds, and any defect it
  reports is real. The search behind it fails exactly on a cycle; otherwise its finish order is topological.
- The planner's rewrite is not validated again. It keeps the whole graph invariant exactly when
  no constrained step, whose arguments routing does not replace, has a reference for its whole
  arguments. The registry refuses the plans that lose it, so every plan that planning returns is valid.
- What each constraint sets, what each rerouted step searches and which searches are added is stated on the
  steps themselves, as are the calls that argument validation passes.
- The wave loop computes the one consistent assignment of results to steps, which is what the
  recursive evaluator computes. On any closed plan it gets stuck exactly when the graph is cyclic.
  Each step runs in the wave given by its longest dependency chain, and is called at most once.
- Every returned result and stored row is a report of its step: skipped when a dependency has nothing to offer,
  failed with the first reference that leads nowhere, waiting for an approval, or carrying status, data and
  error of the agent's reply to the arguments with every reference replaced by what it leads to.
- The executor never calls an operation that needs approval. In every interleaving such a call
  is made by an approve request, by the owner of a pending approval, with the action stored when
  the executor created it. An approval is decided at most once. Its calls are its executions and the
  calls lost to rollbacks, and a callable action can be called again exactly while it is undecided.
  Agents may answer every attempt differently, and an approval's status tells how its execution was answered.
- An approval that an executed plan stored always reads back and always has its awaiting step.
- Chunking stops on all texts exactly when the overlap is below half the target size.
- A key is computed at most once among all concurrent callers, unless the key is evicted or a
  caller fails to compute, fails to read the shared cache inside the lock, or is cancelled while it
  waits, reads or computes. Each of these alone leads to a second computation in some run.
- Two workers never synchronize one user at once while renewals are timely; a second one enters
  exactly when the first one's lease has lapsed. How late renewals may be is determined exactly.
- The selected search results are the unique best representatives of distinct keys, among the candidates
  that the rules let pass.
- After any sequence of items the index holds the last item of each key with exactly its chunks,
  and a failed synchronization leaves it as it was.

## Where code and intent part

Each of these has a member below that shows it; beside it stands the exact condition.

- Identifiers are trimmed by validation, references are resolved untrimmed: a padded `$step` passes
  validation and then misses its step (`References.PaddedReferenceCounterexample`,
  `References.ValidatedReferenceFailsIff`).
- A path segment such as a superscript digit counts as a digit and cannot be read as a number: it passes
  validation, and on a list resolution is malformed (`References.SuperscriptReferenceCounterexample`,
  `References.WalkIsMalformedIff`).
- An event-shaped workspace query may hold a `$step` key and still pass strict validation
  (`Operations.WorkspaceReferenceCounterexample`, `Operations.StrictWorkspaceReferenceIsInQuery`).
- References are tolerated in a plan's arguments, but never as, or in a list of, the services to search
  (`Signatures.OpenServicesAreRefused`, `Signatures.ValidIffCall`).
- The constraints add keys to arguments that are a reference themselves, which breaks the reference
  (`Planner.SpoiltStepExample`, `Planner.ConstrainedPlanValidity`).
- A rejection fails the execution, and a sibling's approval can turn it completed again
  (`Approvals.RejectThenApprove`).
- A failure between an agent's call and the commit leaves the approval pending, and the call can be made
  again (`ApprovalRuns.RolledBackCallCounterexample`, `ApprovalRuns.CalledAgainIffUndecided`).
- Chunking accepts overlaps at which it never ends (`Chunking.StuckText`, `Chunking.TerminatesIffOverlapIsSmall`).
- The single flight survives none of six disturbances (`SingleFlight.EachCauseIsNeeded`,
  `SingleFlight.ComputedOnceIffUndisturbed`).
- A worker whose lease lapsed stays in the sync body when another enters (`SyncLease.LapseLetsAnotherIn`,
  `SyncLease.EntersIffLapsed`).

## Model

| member | source | states |
|---|---|---|
| Graph.FindOrder | app/schemas/contracts.py:113-128 | visiting every id fails exactly when the graph has a cycle, and otherwise the ids finish in a topological order |
| Graph.CycleSearch.Visit | app/schemas/contracts.py:115-125 | an error means a real cycle; without one the id is finished, the trail is as before, and finished ids have all their dependencies finished before them |
| Graph.TopologicalIsAcyclic | app/schemas/contracts.py:113-128 | a graph with a topological order has no cycle |
| Graph.AcyclicHasOrder | app/schemas/contracts.py:113-128 | a closed graph without a cycle has a topological order |
| Graph.LevellingIsLongestChain | app/orchestration/executor.py:69-74 | a levelling that puts every id just above its highest dependency gives each the length of its longest dependency chain |
| Contracts.ValidateGraph | app/schemas/contracts.py:85-130 | accepts exactly the sound plans: ids distinct, dependencies known, no cycle, and every `$step` object anywhere in a step's arguments well formed and naming a dependency; explains a refusal by a defect the plan has |
| Contracts.ValidateSteps | app/schemas/contracts.py:94-111 | no error means that dependencies are known ids and references stay inside them; an error names a real defect |
| Contracts.ValidateStep | app/schemas/contracts.py:95-111 | the same for one step, with self-dependency |
| Contracts.ExplainedPlanIsInvalid | app/schemas/contracts.py:85-130 | each reported defect excludes the graph invariant |
| Contracts.UniqueIffSetIsAsLarge | app/schemas/contracts.py:87-89 | comparing list and set sizes decides whether step ids are unique |
| Contracts.InvariantMeansSound | app/schemas/contracts.py:85-130 | the graph invariant says of the steps alone that ids are distinct, dependencies known, no chain of dependencies returns to its start, and every `$step` object inside the arguments is sound and names a dependency |
| Text.IdentifierIsTrimmed | app/schemas/contracts.py:9-12 | trimming leaves an identifier alone, so no identifier is padded |
| References.ValidateReference | app/schemas/contracts.py:58-64 | an accepted reference object has no key besides target and path, a string target, and a list of segments as its path; it yields the trimmed target, which is an identifier |
| References.EncodedIsAcceptedIff | app/schemas/contracts.py:58-64 | an object of a target and perhaps a path is accepted exactly when the trimmed target is an identifier and the path holds segments |
| References.ContainsAgrees | app/orchestration/operation_specs.py:300-307 | the containment test holds exactly when the value holds some reference |
| References.FindAgrees | app/schemas/contracts.py:147-157 | where the generator succeeds it yields the trimmed targets of all references, one for one and in order |
| Substitution.ValidatedIffSound | app/schemas/contracts.py:58-64 | a `$step` object is accepted exactly when it has no other key than a path of strings and whole numbers, and its trimmed target is an identifier; that is the id it yields |
| Substitution.FindIsExact | app/schemas/contracts.py:147-157 | the generator succeeds exactly on values in which every `$step` object, reached through keys and list positions without passing another, is sound, and yields exactly the ids they name |
| References.FollowPath | app/orchestration/executor.py:261-297 | the path loop computes the walk of the path from the step's data |
| References.WalkFindsTarget | app/orchestration/executor.py:261-297 | a path resolves to a value exactly when some chain of keys and list positions, spelled in any way that the runtime reads as a number, leads there |
| References.WalkIsMalformedIff | app/orchestration/executor.py:264-269 | a path is malformed exactly when it leads to a list with a segment that `isdigit` accepts and `int` rejects |
| Substitution.ResolutionSubstitutes | app/orchestration/executor.py:249-301 | resolution gives a value exactly when that value is the original with every `$step` object, at any depth of objects and lists, replaced by what its path leads to in its target's data |
| Substitution.WalkStops | app/orchestration/executor.py:261-297 | a failing walk reports the path to the first segment that leads no further, that segment included, and why it does not |
| Substitution.ResolutionFailsWith | app/orchestration/executor.py:249-301 | a failing resolution reports the first reference, in order, that does not lead anywhere, with its step, path and cause |
| Substitution.ReferencesAreHeld | app/orchestration/executor.py:249-301 | the references that resolution meets are those of the `$step` objects inside the value |
| References.ResolutionFailsFirst | app/orchestration/executor.py:249-301 | resolution succeeds exactly when every reference resolves, and otherwise reports the first that does not |
| References.ResolutionReadsOnlyReferences | app/orchestration/executor.py:249-301 | resolution depends only on the results of the steps that references name |
| References.ValidatedReferenceFailsIff | app/orchestration/executor.py:254-269 | a validated reference to a finished step misses it exactly when its target is padded, and is malformed exactly when it meets an unreadable index |
| References.ValidatedFailsIff | app/orchestration/executor.py:249-301 | validated arguments miss a step only through a padded reference and are malformed only through an unreadable index; if every other reference resolves, exactly then |
| References.PaddedReferenceCounterexample | app/orchestration/executor.py:255-260 | a padded reference passes validation and misses its step whatever the results |
| References.SuperscriptReferenceCounterexample | app/orchestration/executor.py:268-269 | the path segment of a superscript digit passes validation and is malformed on every list |
| References.ResolvedFieldsKeepKeys | app/orchestration/executor.py:298 | resolution keeps the keys of an object and resolves each value (`Substitution.ResolutionSubstitutes` says to what) |
| References.ResolveWithoutReferences | app/orchestration/executor.py:298-301 | a value without references resolves to itself |
| Operations.StrictArgumentsHaveNoReference | app/orchestration/operation_specs.py:214-297 | strictly validated arguments of a native operation contain no reference |
| Operations.StrictWorkspaceReferenceIsInQuery | app/orchestration/operation_specs.py:242-243 | for an index search a reference survives strict validation exactly inside the query |
| Operations.WorkspaceReferenceCounterexample | app/orchestration/operation_specs.py:310-326 | and there it can survive |
| Operations.ModesAgree | app/orchestration/operation_specs.py:239-241 | the tolerant mode accepts whatever the strict mode does, and both give one verdict on arguments without references |
| Operations.DeclaredKeysExcludeStep | app/orchestration/operation_specs.py:226-237 | arguments with declared keys only are never a reference themselves |
| Operations.ResolvedArgumentsKeepKeys | app/orchestration/executor.py:110 | tolerantly validated arguments resolve to an object with the same keys |
| Operations.ValidPlanHasValidSteps | app/orchestration/registry.py:53-61 | a plan is accepted exactly when every step's arguments pass the tolerant mode |
| Signatures.ValidIffCall | app/orchestration/operation_specs.py:214-297 | in either mode validation passes exactly the calls of a listed operation whose arguments have its shapes or, where tolerated, hold a reference, which are complete, whose times are in order, and whose role and services are listed ones |
| Signatures.CrashesIff | app/orchestration/operation_specs.py:287-296 | validation fails with a TypeError, not a ValueError, exactly on an otherwise good index search in the tolerant mode whose list of services holds, behind searchable ones only, a list or an object |
| Signatures.OpenServicesAreRefused | app/orchestration/operation_specs.py:287-297 | in the tolerant mode, too, services that are a reference or a list holding one are refused |
| Signatures.RegistryHandsOnCalls | app/orchestration/registry.py:49-75 | the registry supports the listed operations, asks for approval of those that do more than read, and hands a call that passes with nothing left open to the agent as it is; any other raises |
| Signatures.PlanIsAcceptedIff | app/orchestration/registry.py:53-61 | the registry accepts exactly the plans all of whose steps are such calls, open where they hold references |
| Operations.WritesNeedApproval | app/orchestration/registry.py:10-19 | the operations that need approval are exactly those of the catalogue that are no search, no get and no draft |
| Operations.DispatchedWriteHasNoReference | app/orchestration/registry.py:67-75 | an operation that needs approval reaches its agent only with reference-free arguments |
| Planner.ConstrainTimes | app/orchestration/planner.py:131-147 | the start is the intent's or else the plan's; the end is the given one, or computed from the intent's start, or, where only the end is missing, from the plan's; it fails exactly when that computation fails |
| Planner.ConstrainEvent | app/orchestration/planner.py:130-155 | the value of every argument of a new event: start, end, time zone, meeting link, attendees, and all others as before |
| Planner.ConstrainSearch | app/orchestration/planner.py:156-165 | query and services are filled in exactly where the plan has none |
| Planner.ConstrainRange | app/orchestration/planner.py:176-210 | the intent's range replaces the bounds, a calendar search keeping its own lower bound if later; alias keys are gone and every other argument is as before |
| Planner.CanonicalArguments | app/orchestration/planner.py:119-210 | the value of every argument of every kind of step under the constraints, and exactly when and how they fail; fields are the old ones or reference-free, and an unconstrained step keeps its arguments |
| ConstrainedPlans.ConstrainedStepMeetsIntent | app/orchestration/planner.py:119-210 | what each kind of step has for arguments afterwards, read off the intent's entities and the plan's arguments: whose start, end, attendees, range, query and services it has, and that all others stay |
| ConstrainedPlans.StepFailsIff | app/orchestration/planner.py:131-197 | a step cannot be constrained exactly when the end of a new event cannot be computed or a calendar search's own start not compared with the range, and fails with that fault |
| Planner.DateRangeMeans | app/orchestration/planner.py:176-186 | the range is the `date_range` if that is an object and else the `time_range`, if its start and its end are strings |
| Planner.ConstrainedStepDeclared | app/orchestration/planner.py:119-210 | references stay declared exactly unless a constraint applies to arguments that are a reference |
| Planner.ConstrainSteps | app/orchestration/planner.py:98-114 | every step becomes its canonical form with id, service, operation and dependencies as before, or the first step that cannot be constrained gives the error |
| Planner.ConstrainedPlanValidity | app/orchestration/planner.py:98-114 | the constrained plan is valid exactly when no step is spoilt |
| Planner.SpoiltStepExample | app/orchestration/planner.py:119-210 | a valid step that every intent spoils |
| Planner.AcceptedPlanIsNotSpoilt | app/orchestration/registry.py:53-61 | the registry refuses a spoilt step |
| Routing.FreshId | app/orchestration/planner.py:301-308 | the suffix loop ends with the base id or the first suffixed form that is not in use |
| Routing.SuffixedMeans | app/orchestration/planner.py:304-306 | a suffixed id is its base with an underscore and the decimal numeral of the count |
| Routing.RouteContextualRetrieval | app/orchestration/planner.py:243-325 | the loops build the routed plan (`RoutedPlans` says what is in it): rerouted steps in place, then one new search per missing service under a fresh id; they fail exactly when a `services` argument cannot be iterated |
| Routing.RouteStep | app/orchestration/planner.py:261-289 | no native search that waits for a calendar search is left, ids and dependencies stay (`RoutedPlans.RoutedStepsSearchTheirService` says what it becomes) |
| RoutedPlans.RoutedStepsSearchTheirService | app/orchestration/planner.py:261-289 | on a contextual query every native search that depends on a calendar search becomes a search of its own service's index about the first event of its first such dependency; every other step stays as it is |
| RoutedPlans.AddedStepsSearchLackingServices | app/orchestration/planner.py:290-325 | behind them stands one search, mail before files, for each service asked for that no index search lists, about the first event of the plan's first calendar search and dependent on it |
| RoutedPlans.RoutingFailsIff | app/orchestration/planner.py:290-299 | routing fails exactly on a contextual query over a plan with a calendar search and an index search whose services are no list, object or string |
| Routing.AppendKeepsInvariant | app/orchestration/planner.py:309-324 | a step with a new id and known dependencies keeps a plan acyclic, closed, unique and declared |
| Routing.RoutingKeepsValidity | app/orchestration/planner.py:243-325 | the routed plan is valid exactly when every step had declared references or is rerouted |
| Routing.RoutingKeepsShape | app/orchestration/planner.py:261-325 | existing steps keep ids, dependencies and order, and the calendar searches are the same |
| Routing.NoNativeSearchWaits | app/orchestration/planner.py:261-289 | after routing no native mail or file search depends on a calendar search |
| Routing.DesiredServicesAreCovered | app/orchestration/planner.py:290-325 | after routing every service asked for has an index search |
| Routing.RoutingIsIdempotent | app/orchestration/planner.py:243-325 | routing a routed plan gives that plan and no other |
| Routing.RewriteKeepsValidity | app/orchestration/planner.py:90-116 | constraints and routing together keep a plan valid exactly when no step stays spoilt |
| Routing.AcceptedRewriteIsValid | app/orchestration/planner.py:66-77 | a rewritten plan that the registry accepts has the whole graph invariant |
| Routing.ApplyIntentConstraints | app/orchestration/planner.py:90-116 | the rewrite as one operation, with shape, coverage, the exact condition for validity, and how it fails |
| Routing.PlanFromReply | app/orchestration/planner.py:65-86 | one reply comes to a rewritten plan that the registry accepts, or to the error of the check that fails first |
| Routing.YieldedPlanIsValid | app/orchestration/planner.py:65-77 | such a plan is valid, though nothing validates its graph after the rewrite |
| Routing.CreatePlan | app/orchestration/planner.py:24-87 | a second reply is asked for exactly when the first comes to a ValueError, and then decides the outcome; every plan that comes out is valid |
| Evaluation.ValidPlanIsWellFounded | app/schemas/contracts.py:85-130 | the graph invariant gives every step a rank above its dependencies |
| Evaluation.DisposeReadsDependencies | app/orchestration/executor.py:82-180 | what becomes of a step depends on the results of its dependencies alone |
| Evaluation.SolutionIsUnique | app/orchestration/executor.py:69-214 | a plan has one assignment of results in which every step's result follows from those of its dependencies |
| Evaluation.EvaluationIsRecursive | app/orchestration/executor.py:69-214 | that assignment is what the recursive evaluator computes, for any ranks it descends on |
| Evaluation.EveryPlanHasSolution | app/orchestration/executor.py:69-108 | any closed plan, cyclic or not, has a consistent assignment of results, one in which every step behind a cycle is skipped |
| Evaluation.OrderOfStepsIsIrrelevant | app/orchestration/executor.py:65-74 | listing the same steps in another order changes no result |
| Evaluation.StatusesOfEvaluation | app/orchestration/executor.py:82-195 | with agents that complete or fail, a step ends completed, failed, skipped or awaiting approval |
| Evaluation.OnlyCompletedDependenciesAreRead | app/orchestration/executor.py:83-110 | a step gets as far as resolving references exactly when all its dependencies completed |
| Evaluation.SkippedHasCause | app/orchestration/executor.py:83-108 | a skipped step starts a chain of skipped dependencies that ends in a failed or waiting one |
| Evaluation.CommittedStatusIsExact | app/orchestration/executor.py:216-223 | the committed status is failed iff a step failed, awaiting iff one awaits and none failed, completed iff all completed |
| Evaluation.UnresolvedHasCause | app/orchestration/executor.py:109-148 | in a valid plan a reference misses its step only if padded, and resolution is malformed only at an unreadable index |
| Evaluation.CodeTellsCause | app/orchestration/executor.py:94-148 | unless agents reuse the executor's error codes, the code of a result's error tells exactly what became of the step |
| Evaluation.DetailsNameReference | app/orchestration/executor.py:113-134 | the details of a failed resolution give the path so far and name a reference of the step, whose target is a dependency unless padded |
| Waves.SomeStepIsReady | app/orchestration/executor.py:69-76 | in an acyclic plan with steps left, some step is ready |
| Waves.NextWaveIsLevelled | app/orchestration/executor.py:70-74 | each wave takes exactly the steps whose dependencies are done and extends the levels by one |
| Waves.CompleteLevelsAreLongestChains | app/orchestration/executor.py:69-74 | when all waves are over, a step's wave is its longest dependency chain |
| Executor.Settle | app/orchestration/executor.py:82-180 | one step is skipped, failed, gated with an approval row, or handed on for a call, as the evaluator says |
| Executor.Classify | app/orchestration/executor.py:78-180 | a wave's steps are split into those settled at once and those to call, in order |
| Executor.Dispatch | app/orchestration/executor.py:182-195 | gathered calls give each called step the result of its own call (`Executor.RunIsReported` says what that carries) |
| Executor.Record | app/orchestration/executor.py:197-214 | results, rows, approval ids and the remaining steps are updated for exactly the steps of the wave |
| Executor.RunWave | app/orchestration/executor.py:70-214 | one wave writes exactly the rows, approvals and calls of its steps, and removes them from the remaining ones |
| Executor.RunLoop | app/orchestration/executor.py:65-214 | on any closed plan the loop stops; it finds no runnable step exactly when the graph is cyclic, and otherwise its results are consistent, every step is run once, dependencies first, in the wave of its longest chain |
| Executor.Execute | app/orchestration/executor.py:47-225 | an accepted valid plan runs to the end: results in plan order, status fold, rows, approvals and pending ids are all determined, and every result and its row report their step, down to status, data and error of the agent's reply; a refused plan leaves the session unchanged |
| Executor.RunIsReported | app/orchestration/executor.py:82-246 | when an execution is over, every result, and the row stored for it, says of its step that it was skipped behind a failed, skipped or waiting one, or which reference failed, or that it waits, or carries status, data and error of the agent's reply to its arguments with all references replaced |
| Executor.RowIsReported | app/orchestration/executor.py:197-214 | the row that a run stores for a step holds the returned result and the arguments the step ended with |
| Executor.SolutionIsConsistent | app/orchestration/executor.py:69-214 | results of a step's dependencies already decide what any consistent assignment says of the step |
| Executor.ExecutedPlanIsAcyclic | app/orchestration/executor.py:69-76 | only acyclic plans run to the end |
| Executor.StatusesInPlanOrder | app/orchestration/executor.py:216-217 | the fold over the returned list sees exactly the statuses of the result map |
| Executor.CallsNeedNoApproval | app/orchestration/executor.py:153-187 | the executor calls only operations that need no approval, for steps of its run |
| Executor.ApprovalsNeedApproval | app/orchestration/executor.py:153-166 | approvals are created pending, for the caller, and only for operations that need one |
| Executor.EachStepIsCalledOnce | app/orchestration/executor.py:182-195 | no step is called twice |
| Executor.ApprovalsAreGatedSteps | app/orchestration/executor.py:153-166 | an approval row exists exactly for the available, resolved, gated steps, and stores service, operation and resolved arguments |
| Executor.ApprovalHasStepRow | app/orchestration/executor.py:153-214 | every approval has exactly one step row of its own, which awaits it with the same arguments |
| Orchestration.AnswerQuery | app/api/routes/query.py:66-79 | a plan that planning lets through is executed to the end with the results of its evaluation, and no operation that needs approval is called |
| Approvals.StoredActionRoundTrip | app/api/routes/approvals.py:22-31 | reading back the action that the executor stored gives that action, if its arguments are an object |
| Approvals.StoredApprovalIsGood | app/api/routes/approvals.py:22-55 | every approval that an executed plan stores reads back as its action, names a supported operation and has an awaiting step row |
| Approvals.StoredApprovalIsAnswered | app/api/routes/approvals.py:22-55 | so an approve request for it is never refused for an invalid action, an unknown operation or a missing step |
| Approvals.Desk.Pending | app/api/routes/approvals.py:97-112 | passes exactly for a pending approval that the caller owns; an unknown or foreign one is not found, and a settled one no longer pending |
| Approvals.Desk.RefreshExecution | app/api/routes/approvals.py:130-146 | the execution's status becomes the fold over its steps, and no other changes |
| Approvals.Desk.Approve | app/api/routes/approvals.py:16-65 | settles exactly when everything needed is there, and otherwise says which thing is not; any refusal or failure leaves all tables as they were; on success the approval is approved exactly if the reply to the stored action is completed and failed otherwise, and step, log and execution status follow |
| Approvals.Desk.Reject | app/api/routes/approvals.py:68-94 | settles exactly when pending with a step; marks approval rejected, step skipped and execution failed, without a call; that status is the fold over the steps exactly when another step failed |
| Approvals.SettledOnce | app/api/routes/approvals.py:97-112 | in any sequence of approve and reject requests, whatever agents answer each time, once one has settled an approval every later one for it is refused: as no longer pending, or as not found to another user |
| Approvals.RejectThenApprove | app/api/routes/approvals.py:16-94 | after one action is rejected and its sibling approved, the execution is still failed exactly when the sibling or a third step failed, and completed exactly when none of them failed or waits |
| ApprovalProtocol.ExecutorRunsAreAdmissible | app/orchestration/executor.py:153-187 | what the executor commits is what the protocol admits of a run: new pending approvals, and calls that need none |
| ApprovalProtocol.RowIsReadBack | app/api/routes/approvals.py:23-31 | a transaction reads the owner, status and action of the row the executor stored |
| ApprovalProtocol.InvKept | app/api/routes/approvals.py:16-112 | every lock, check, call, commit and rollback keeps the invariant of locks, transactions, tallies and origins |
| ApprovalRuns.DecisionIsFinal | app/api/routes/approvals.py:97-112 | once decided, an approval and its event counts never change again: no call starts after the commit |
| ApprovalRuns.ApprovalsAreDecidedOnce | app/api/routes/approvals.py:16-112 | in every reachable state an approval was decided at most once, by execution or rejection and not by both; its calls are the recorded ones, the lost ones and the one in flight, and none is in flight once it is decided |
| ApprovalRuns.StatusTellsDecision | app/api/routes/approvals.py:45-60 | in every reachable state an approval is approved exactly if its recorded execution was answered completed, failed exactly if it was answered otherwise, and rejected exactly if a reject request committed |
| ApprovalRuns.AtMostOneCall | app/db/session.py:25-32 | a decided approval was called at most once exactly when no call of an executed one, or at most one of a rejected one, was lost to a rollback; without lost calls every approval was called at most once, and a rejected one never |
| ApprovalRuns.CalledAgainIffUndecided | app/api/routes/approvals.py:22-65 | in every reachable state some continuation calls an approval again exactly while it is undecided and its action can be called |
| ApprovalRuns.AnyNumberOfCalls | app/api/routes/approvals.py:33-60 | and then any number of further calls can be reached |
| ApprovalRuns.LostCallLeadsToSecond | app/db/session.py:25-32 | from every reachable state in which a call was lost and nothing decided, a state with two calls is reached |
| ApprovalRuns.RetryCanSucceed | app/api/routes/approvals.py:35-60 | from every reachable state an undecided callable approval can be called in vain and then, answered differently on a retry, be executed exactly once |
| ApprovalRuns.WritesAreApproved | app/api/routes/approvals.py:22-36 | in every reachable state each recorded call that needs approval was made by an approve request of the owner, before any decision, with the action stored when the executor created the approval |
| ApprovalRuns.RolledBackCallCounterexample | app/api/routes/approvals.py:35-60 | every executor run that stores a callable action can be followed by exactly two calls of it |
| Text.CleanedKeepsWords | app/retrieval/chunking.py:3 | cleaning keeps the words, and leaves single blanks between them and nowhere else |
| Text.RunsSplit | app/retrieval/relevance.py:6 | a separator splits the words, or tokens, of a text into those before and those after it |
| Text.RunsAreMaximal | app/retrieval/relevance.py:6 | the words, or tokens, of a text are exactly the stretches of their characters that cannot be extended |
| Chunking.TerminatesIffOverlapIsSmall | app/retrieval/chunking.py:6-27 | for accepted sizes the loop ends on every text exactly when the overlap is below half the target |
| Chunking.StuckText | app/retrieval/chunking.py:15-27 | otherwise it is stuck at the start of half a target of letters, a blank and a target of letters |
| Chunking.SpansAdvance | app/retrieval/chunking.py:17-27 | below half the target, starts strictly increase and every end that is not the last advances by at least half the target less the overlap |
| Chunking.SpanEndsAtLastCut | app/retrieval/chunking.py:16-21 | a span runs to the end of the text if the target reaches it, else to the last blank in the second half of the target, else takes the whole target |
| Chunking.NextStartsBehindFirstBlank | app/retrieval/chunking.py:25-27 | the next span starts behind the first blank of the overlap, or with the overlap if it has none |
| Chunking.ChunkText | app/retrieval/chunking.py:1-28 | on any text on which the loop ends, the chunks are those of its run; blank texts give none, bad sizes an error |
| Chunking.RefusedIff | app/retrieval/chunking.py:3-11 | an error is raised exactly for a text with words under a target below 200, a negative overlap, or an overlap that is not smaller than the target |
| Chunking.RunIsUnique | app/retrieval/chunking.py:15-27 | a text has at most one complete run |
| Chunking.RunCovers | app/retrieval/chunking.py:15-27 | the spans of a run leave no gap, and neighbours overlap by at most the overlap |
| Chunking.ChunkIsTrimmedSpan | app/retrieval/chunking.py:22 | a chunk is its span less at most one leading blank, not empty, no longer than the target, with no blank at either end |
| Chunking.ChunksKeepWords | app/retrieval/chunking.py:17-27 | if every word is shorter than the overlap, neighbouring chunks share whole words, and gluing the word lists over them gives back the words of the text |
| EmbeddingCache.RecentIsInTouchOrder | app/retrieval/search.py:303-315 | the touch history lists each touched key once, ordered by last touch |
| EmbeddingCache.NewestAfterTouch | app/retrieval/search.py:311-315 | moving a key to the end and dropping the oldest keeps exactly the newest 128 keys of the history |
| EmbeddingCache.NewestMeans | app/retrieval/search.py:64-65 | 128 keys stay, and of more those that were touched first go |
| EmbeddingCache.ProcessCache.Get | app/retrieval/search.py:303-308 | a hit is a fresh copy of the cached list, outside the cache, and a touch; contents never change |
| EmbeddingCache.ProcessCache.Remember | app/retrieval/search.py:311-315 | the key holds a fresh copy of the list, the cached keys are the 128 most recently touched, the others keep their lists |
| EmbeddingCache.OutsideWritesAreInvisible | app/retrieval/search.py:303-315 | no write to lists outside the cache changes its contents |
| EmbeddingCache.CallersCannotChangeTheCache | app/retrieval/search.py:308-312 | overwriting the list that was passed in, and one that was returned, with any values does not change what the cache returns |
| SingleFlight.ReturnedEmbeddingIsRight | app/retrieval/search.py:228-283 | in every run, with failures, cancellations and evictions, a caller gets the embedding of its own query |
| SingleFlight.LocksRightKept | app/retrieval/search.py:260-261 | no two coroutines hold one lock |
| SingleFlight.NoDeadlock | app/retrieval/search.py:259-283 | while some coroutine is not done, some coroutine can go on |
| SingleFlight.StalledRunIsDone | app/retrieval/search.py:259-283 | a run that can go no further has brought every coroutine to its end |
| SingleFlight.AtMostNineActions | app/retrieval/search.py:228-283 | in every run a coroutine takes at most nine actions |
| SingleFlight.FlightsAreEmptyAtRest | app/retrieval/search.py:280-283 | when all coroutines are done no flight is left, whatever failed or was cancelled |
| SingleFlight.AtMostOneComputation | app/retrieval/search.py:259-283 | in a run that does not disturb a key, the key is computed at most once |
| SingleFlight.EachCauseIsNeeded | app/retrieval/search.py:259-283 | each of the six causes, as the only disturbance of a run, leads to two computations of the key |
| SingleFlight.ComputedOnceIffUndisturbed | app/retrieval/search.py:259-283 | all runs that only some set of causes disturbs compute the key at most once exactly when that set is empty |
| FlightAnswers.OutcomesAreOwn | app/retrieval/search.py:228-283 | in every run a coroutine raised exactly if one of its own reads, its computation or its write did, was cancelled exactly if it was told to, and otherwise ends with an embedding |
| FlightAnswers.CachedKeyIsAnswered | app/retrieval/search.py:245-247 | a caller whose key is in the process cache is answered from there at once, and nothing changes |
| FlightAnswers.AnswersAreCached | app/retrieval/search.py:248-279 | whatever a caller settles on is in the process cache; a computed embedding goes there first and then to the shared cache |
| FlightAnswers.OtherKeysAreUntouched | app/retrieval/search.py:228-283 | an action changes caches and flights at its own key only, and computes only after a miss inside the lock |
| SyncLease.OthersLeaseIsUntouched | app/workers/tasks.py:98-132 | no move of a worker changes an unexpired key that holds another's token |
| SyncLease.ReleaseLetsNextIn | app/workers/tasks.py:119-132 | releasing a held key makes room for the next worker at once |
| SyncLease.AbandonedKeyExpires | app/workers/tasks.py:34-44 | the key of a worker that vanished keeps others out until it expires, and no longer |
| SyncLease.NoTwoWorkersSync | app/workers/tasks.py:34-82 | while every worker's key is set or renewed less than a lease ago, no two workers are in the sync body for one user |
| SyncLease.PromptWorkersDoNotOverlap | app/workers/tasks.py:98-116 | renewals that are late by less than the lease after one interval suffice for that |
| SyncLease.SlackSufficesIff | app/workers/tasks.py:98-116 | and no larger delay does: that bound holds workers apart in all runs exactly |
| SyncLease.IntervalIsAThird | app/workers/tasks.py:104 | the interval between renewals is the whole third of the lease, and at least one second |
| SyncLease.EntersIffLapsed | app/workers/tasks.py:34-82 | in a run timely so far, a second worker enters beside one in the sync body exactly when the first one's key was last set or renewed a lease ago or longer |
| SyncLease.LapseLetsAnotherIn | app/workers/tasks.py:34-44 | every run goes on, from the first lapse of a lease, to two workers in the body for one user |
| SyncLease.LapseCounterexample | app/workers/tasks.py:39-44 | and leases can lapse |
| Relevance.TokensOfJoined | app/retrieval/relevance.py:43 | the tokens of title and snippet joined by a blank are those of the title followed by those of the snippet |
| Relevance.TitleCoversLess | app/retrieval/relevance.py:44-56 | title coverage never exceeds coverage, so the calibrated score lies between zero and one |
| RelevanceRules.JudgedByEvidence | app/retrieval/relevance.py:30-58 | a candidate passes exactly if its service is asked for, its score reaches the minimum and it holds a term of the query or has a base of six tenths; the score is six tenths of the base, three of the share of terms found and one of the share found in the title |
| RelevanceRules.EvidenceIsUnique | app/retrieval/relevance.py:31-55 | title, snippet, base, terms and the terms found are determined by the candidate's fields and the query |
| RelevanceRules.LowerOfOne | app/retrieval/relevance.py:43 | lower-casing takes each ASCII capital to its small letter and leaves other ASCII characters |
| RelevanceRules.KeyMeans | app/retrieval/relevance.py:93-104 | candidates stand for one resource by service and mail thread, else by external id, else by the lowered title in single blanks |
| Relevance.StableSortSorts | app/retrieval/relevance.py:60 | the sort orders by falling score and keeps equals in their order |
| Relevance.PickBest | app/retrieval/relevance.py:61-70 | the loop picks the best entry of each key in rank order, as many as are due, and leaves out only dominated ones |
| Relevance.SelectRelevantCandidates | app/retrieval/relevance.py:20-70 | the results are that selection among the candidates that pass |
| Relevance.SelectionIsUnique | app/retrieval/relevance.py:61-70 | only one list is such a selection |
| Indexing.TextChunksAreUnique | app/retrieval/indexer.py:52 | at the production size, 850 with an overlap of 100, every text has exactly one list of chunks |
| Indexing.IndexingKeepsAgreement | app/retrieval/indexer.py:19-75 | upserting an item and replacing its chunks keeps one row per key with the last item, and as chunk rows exactly its chunks numbered from zero |
| Indexing.IndexingAllKeepsAgreement | app/retrieval/indexer.py:19-75 | so does any sequence of items |
| Indexing.AgreementMeans | app/retrieval/indexer.py:19-75 | an index that agrees with what was indexed has exactly one row for every resource of a user and service, with its latest item, and each of that item's chunks exactly once, under its number and with its embedding |
| Sync.Session.IndexItem | app/retrieval/indexer.py:19-75 | the upsert and the replacement happen; without vectors the upsert alone does, and with too few or too many the old chunks are deleted as well |
| Sync.Session.IndexAtMost | app/sync/service.py:82-115 | indexes the first entries of the concatenated pages, up to the maximum; succeeds if nothing goes wrong; the cursor is the token of the page at which the listing stops |
| Sync.CursorIsUnique | app/sync/service.py:112-115 | that cursor is determined by pages and maximum |
| Sync.StateKeysDiffer | app/sync/service.py:199-210 | each service of each user has its own state row |
| Sync.Session.IndexAll | app/sync/service.py:117-142 | indexes all entries of the pages |
| Sync.Session.IndexService | app/sync/service.py:56-65 | each service's listing with its own limit and cursor; the calendar keeps none |
| Sync.Session.SyncService | app/sync/service.py:39-80 | completed: all that is wanted is indexed, and the success and the cursor of the listing recorded; failed: rows, chunks, cursor and last success are as before; other state rows never change |
| Sync.SyncKeepsAgreement | app/sync/service.py:39-80 | a completed synchronization leaves the index in agreement with everything ever indexed, even if other texts could be embedded in earlier runs |

## Left out

- Language model calls, prompts and answer synthesis: nothing decidable; a provider's replies are given.
- Query patterns (contextual, next event, meeting link, services asked for): given as booleans and sets.
- Time zones and timestamp arithmetic: end times, the later of two bounds and parsed instants are given functions.
- Google clients, OAuth, token encryption, HTTP routing and Celery scheduling: I/O and library wrappers.
- SQL scoring and embedding values: scores, rows and the embedding function are abstract inputs.
- Floating point: the selection weights are exact rationals.
- Executor: within one execution agents are pure functions of service, operation and arguments, and an approval's id is a function of its step. Approve requests may be answered differently at every attempt.
- Executor.Execute: limits of stored columns, such as 128 characters for a step id, which neither validator checks.
- Recursion limits of the validator's search and of the resolver.
- Which characters are digits and how numbers are spelled: `isdigit` and `int` are given functions, the second partial.
- Texts of error messages; error codes and details are kept.
- Duplicate keys in one JSON object, which a dictionary cannot hold, are read as their first.
- Contracts.ValidateGraph: does not say which of several defects is reported first.
- Approvals.Desk.Approve: a failed HTTP response carries no detail text, and statuses an agent should never report are passed through as the code does.
- Execution status when sibling approvals commit concurrently: the row lock does not cover the execution row, so the fold is stated for one request at a time.
- ApprovalProtocol.InvKept: an executor run commits in one move; its agent calls are not interleaved with approvals.
- SingleFlight: other keys appear only through the shared maps; the order of touches is in `EmbeddingCache`, and an eviction may happen at any time.
- Collisions of key digests, the length check on cached lists, and values in the shared cache that no process wrote.
- SyncLease: a token is the worker's own number, so random tokens never collide; the store's clock is the only one.
- Sync.Session.SyncService: listings are finite page chains given in advance, and the start date sent to the server is not used; whether everything new is listed is not claimed, since the code records the success time after listing and drops entries beyond the maximum.
- A failure while the failure itself is being recorded, which the code lets escape.
- Indexed and deleted timestamps of rows.
- Freshness flags, temporal phrases, result compaction and links: one-branch facts that would add only easy members.
