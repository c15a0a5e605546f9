# HAL recovery runtime: a verified model

This project models the simulation-only recovery runtime and proves properties that span its stages. Three parts:

1. **The simulation chain and its pipeline.** Safety gate, plan builder, adapter simulator, failure injector, rollback
   planner and policy evaluator, each as a loop or a case ladder proved against a specification function; then the
   runner, a class that grows its stage, trace, warning and blocking lists across all its exits, and the report built from
   the normalised stage results. `Chain` composes the stages through the JSON documents they exchange, `Pipeline` runs
   them from the command's inputs.
2. **The evidence bundle.** Collection, the check of the source artifacts, the build, and the independently written check
   of the built bundle. The hash is an uninterpreted function and a directory a map from flat names to bytes.
3. **Shadow aggregation.** Conflict matrix, field coverage, candidate tiles and confidence summary, scores in exact
   hundredths.

JSON payloads are values of `JsonValues.Json`; the field names the code mentions are constructors, every other name is
`Other`. Statuses, modes and reasons are constructors with their texts in the `*Text` functions. The outside world
(hashing, JSON decoding and encoding) is the parameter `World`. Where a result needs reading to invert writing, it says so of
exactly the documents that the run or the build writes. `Worlds` shows that this can be had: whatever the digest, there is a
world in which every object reads back (`FaithfulWorldExists`), so every build and every run does (`BuildsReadBack`,
`RunsReadBack`). A JSON float is a rational number.

Main results, by module: `PlanTheorems`, `InjectionTheorems`, `RollbackPlanner`, `Chain` (final policy in closed form),
`RunTheorems`, `RunReportTheorems`, `RunStatusTheorems`, `RunDetailTheorems`, `TraceTheorems` and `StopOnWarningTheorem`
(every run), `PipelineTheorems` (every run from its inputs; exactly when it blocks and which policy it selects),
`EveryRunTheorems` (its status, warnings and reasons), `SourceStatusTheorems` and `BuiltStatusTheorems` (each status of the two
evidence checks, from files and fields), `EvidenceTheorems`, `EvidenceRoundTrip`, `Shadow`, `ShadowTheorems`,
`ShadowProfile`. `ReasonTheorems`, `RefusalTheorems`, `PolicyTheorems`, `RuntimeTheorems` and `InputTheorems` say of each
validator which reasons it gives and of each stage which input it refuses, exactly.

Three properties hold only under a condition, which is proved to be exact:

- The two evidence checks agree on a fresh output directory if and only if the source payloads cross the boundary or none
  sets `real_execution_allowed` true. The bundle summary looks at every artifact, the source check only at the two policy
  files (`EvidenceRoundTrip.FreshRoundTrip`, with an input in `EvidenceRoundTrip.ChecksCanDiffer` and a world for it in
  `Worlds.ChecksDiffer`).
- The runner, taken alone, respects the dependency graph if and only if its adapter stage is not reached and blocked
  (`RunTheorems.DependenciesRespectedExactly`); on real inputs that never happens (`PipelineTheorems.AdapterNeverStops`).
- The candidate tiles ignore the order of the observations if and only if no tile's roles are tied
  (`ShadowProfile.TilesIgnoreOrderExactly`).

Some proofs begin with a `hide` statement: it keeps definitions that the proof does not need out of the solver's sight.

## Model

| member | source | states |
|---|---|---|
| SafetyGate.Evaluate | src/hal_runtime/safety_gate.py:38-84 | The failure, warning and degraded fields are those of the declarative gate: five exact fields, a profile id, four lists, the optional route list. |
| SafetyGate.GatePassesExactlyConforming | src/hal_runtime/safety_gate.py:38-84 | The gate passes exactly the conforming profiles and degrades exactly those of them without `preferred_routes`. |
| ReasonTheorems.GateFaultsAreExact | src/hal_runtime/safety_gate.py:38-84 | A failure reason is given if and only if the profile has that fault, field by field, and the only warning is a missing route list. |
| Ids.ReadPadded | src/hal_runtime/plan_builder.py:58-60 | Reading the digits of a zero-padded number gives the number back, for every width. |
| Ids.ActIdInjective | src/hal_runtime/plan_builder.py:58-60 | Action ids are injective in the counter, also past 999 where the padding stops. |
| Ids.RbIdInjective | src/hal_runtime/rollback_planner.py:59-75 | Rollback ids are injective in the counter. |
| PlanBuilder.IndexRoutes | src/hal_runtime/plan_builder.py:50-53 | The route index filled in one pass gives every workload id exactly the result of a linear scan of the routes. |
| PlanBuilder.ClassifyWorkload | src/hal_runtime/plan_builder.py:55-134 | The decision ladder over the index yields the record that the scan-based specification prescribes. |
| PlanBuilder.PlanWorkloads | src/hal_runtime/plan_builder.py:46-134 | Counter and growing lists hold, after every workload, the planned and the blocked records so far in source order. |
| PlanBuilder.RejectCandidates | src/hal_runtime/plan_builder.py:136-154 | Every requested action adds one blocked record and nothing to the planned list; the counter advances by the number of candidates. |
| PlanBuilder.BuildRuntimePlan | src/hal_runtime/plan_builder.py:21-164 | The loop-built plan is the plan of the specification: blocked, degraded or full. |
| PlanTheorems.PlanConservesEntries | src/hal_runtime/plan_builder.py:46-163 | After a passed, non-degraded gate every source entry yields exactly one record, numbered from 1, in exactly one of the two lists, both in source order. |
| PlanTheorems.PlanIdsAreUnique | src/hal_runtime/plan_builder.py:46-163 | The ids across planned and blocked records are pairwise distinct. |
| PlanTheorems.OneRouteExactly | src/hal_runtime/plan_builder.py:50-53 | A scan returns exactly one route if and only if one position of the route list, and no other, is for the workload, and then it is the route at that position. |
| PlanTheorems.PlannedExactlyWhenPlannable | src/hal_runtime/plan_builder.py:83-134 | An object workload is planned if and only if it is plannable at some route position, and then its record carries that route. |
| PlanTheorems.ReasonIsFirstRefusal | src/hal_runtime/plan_builder.py:55-134 | The reason of a blocked workload is the first condition of the ladder that it violates. |
| PlanTheorems.RecordCarriesEntry | src/hal_runtime/plan_builder.py:103-134 | A record carries its entry's id, role, targets and route. |
| PlanTheorems.RequestsAreRefused | src/hal_runtime/plan_builder.py:136-154 | Every requested action is blocked as an unsupported source, under its own type and workload id. |
| PlanTheorems.BlockReasonsAreTheRecords | src/hal_runtime/plan_builder.py:25-44 | The plan's block reasons are those of the gate, the missing routes, or, each once, those of the blocked records. |
| PlanTheorems.PlannedAssigns | src/hal_runtime/plan_builder.py:83-134 | Every planned action assigns a workload. |
| RuntimePlan.ValidateRuntimePlan | src/hal_runtime/adapter_simulator.py:57-93 | The reason lists collected in loops are the structural and safety reasons of the specification. |
| RuntimePlan.StructurallyValidExactlyWellFormed | src/hal_runtime/adapter_simulator.py:57-93 | No structural reason is given exactly for well-formed plan documents. |
| ReasonTheorems.PlanFaultsAreExact | src/hal_runtime/adapter_simulator.py:57-80 | A structural reason is given if and only if the plan document has that fault. |
| ReasonTheorems.PlanBoundaryIsExact | src/hal_runtime/adapter_simulator.py:80-93 | A safety reason is given if and only if the field it names is there and states something else. |
| RuntimePlan.BuiltPlanValidates | src/hal_runtime/adapter_simulator.py:57-93 | For every profile the built plan document is structurally valid, and its safety boundary passes if and only if the profile's hardware, review and claim fields are exact. |
| RuntimePlan.DocumentShowsPlan | src/hal_runtime/models.py:31-76 | The plan document shows the planned records as its actions and the blocked ones beside them, in order, each with its fields. |
| RuntimePlan.PassedGateBuildsAcceptedPlan | src/hal_runtime/plan_builder.py:25-44 | A passed gate implies full acceptance by the plan validator. |
| Adapters.ResolvedIsAcceptedUnlessRoleEmpty | src/hal_runtime/adapter_registry.py:29-66 | A resolved action is accepted by its adapter except exactly when `role` is the empty string. |
| Adapters.FirstSupportingIsFor | src/hal_runtime/adapter_registry.py:29-47 | The registry finds an adapter exactly for the three supported roles, and it supports the role asked for. |
| Adapters.RunAdapters | src/hal_runtime/adapter_simulator.py:211-271 | The results appended in the loop are one result per action, in order. |
| Adapters.SimulatePlan | src/hal_runtime/adapter_simulator.py:96-294 | The stage reports invalid, unsafe, non-executable and simulated plans as specified. |
| Adapters.ReportCountsEveryAction | src/hal_runtime/adapter_report.py:16-106 | On an accepted plan simulated, blocked and skipped counts sum to the number of actions; the simulation passes exactly when the plan is executable and every action is accepted. |
| Adapters.ResolvedExactly | src/hal_runtime/adapter_registry.py:29-66 | An action resolves if and only if it assigns a workload and names one role, in one field or both, that an adapter supports; the adapter supports a stated role. |
| Adapters.ResultIsExact | src/hal_runtime/adapter_simulator.py:211-271 | What becomes of an action, its adapter and its reason, from its type and the roles it states. |
| Adapters.ResultCarriesAction | src/hal_runtime/adapter_simulator.py:211-271 | A result carries its action's id, type and workload. |
| Adapters.PlannedAcceptedExactly | src/hal_runtime/adapter_registry.py:29-66 | The action of a planned record is accepted if and only if its role is one of the three supported ones. |
| Adapters.AdapterReportIsExact | src/hal_runtime/adapter_report.py:16-55 | On an accepted plan the stage is skipped, has blocks or passes exactly as the plan is not executable, rejects some action or neither; it warns in the first two cases, of the plan's status or of the rejections. |
| RefusalTheorems.AdapterRefusalsAreExact | src/hal_runtime/adapter_simulator.py:96-160 | The stage is invalid if and only if the plan document has a fault, and blocked if and only if it has none and steps over its boundary; a refusal tries no action. |
| RefusalTheorems.DocumentTellsAdapterReport | src/hal_runtime/adapter_report.py:16-55 | Two adapter reports with the same document agree in status, counts and both reason lists. |
| FailureInjector.ScenarioRefusedExactlyUnlessAccepted | src/hal_runtime/failure_models.py:82-103 | A scenario has no refusal reason exactly when its mode is supported and its boundary fields are exact. |
| FailureInjector.ModesByText | src/hal_runtime/failure_models.py:82-103 | Modes and their texts match one to one; three texts stop safely, two revert. |
| ReasonTheorems.ScenarioFaultsAreExact | src/hal_runtime/failure_models.py:82-103 | A refusal reason is given if and only if the scenario has that fault. |
| FailureInjector.FindTargetIndex | src/hal_runtime/failure_injector.py:103-110 | The target position is the first action with the named id, else the second action for a partial failure, else the first. |
| InjectionTheorems.TargetIsNamedOrDefault | src/hal_runtime/failure_injector.py:103-110 | The target is a real position: the first action carrying the requested id whenever one does, and only otherwise the default of the mode. |
| FailureInjector.RunToFailure | src/hal_runtime/failure_injector.py:34-72 | The loop that moves its own target on a rejection computes simulated, failed and skipped lists as the closed form over the failure point. |
| FailureInjector.SimulateWithoutInjection | src/hal_runtime/failure_injector.py:75-100 | Without injection every action is tried and lands in the simulated or the failed list. |
| FailureInjector.InjectFailure | src/hal_runtime/failure_injector.py:12-72 | The injection result of every mode is that of the specification. |
| InjectionTheorems.FailurePointIsMinimum | src/hal_runtime/failure_injector.py:34-58 | The failure point is the smaller of the target and the first rejected position. |
| InjectionTheorems.InjectedFailureShape | src/hal_runtime/failure_injector.py:34-72 | For every injecting mode and non-empty action list the outcomes are simulated^k, one failed, then all skipped, with k that minimum, and the three id lists concatenate to the plan's ids in order. |
| InjectionTheorems.UndisturbedAgreesWithAdapters | src/hal_runtime/failure_injector.py:75-100 | On every executable valid plan, mode `none` marks simulated exactly what the adapter simulator reports simulated and failed exactly what it blocks. |
| InjectionTheorems.InjectedIsPrefixOfAdapters | src/hal_runtime/failure_injector.py:42-50 | Under an injected failure the simulated ids are a prefix of the adapter results, all accepted there. |
| InjectionTheorems.StrategyIsTheModes | src/hal_runtime/failure_injector.py:117-124 | A safe-stop mode injects with a safe stop, an unavailable route with a rollback to the start, a partial failure with a revert of what completed. |
| InjectionTheorems.ReasonsAreTheModes | src/hal_runtime/failure_injector.py:34-72 | An injected failure gives its mode and the failed action as reason, and a timeout forbids the retry. |
| InjectionTheorems.BoundaryFailureSkipsAll | src/hal_runtime/failure_injector.py:20-33 | A forced boundary failure skips every action and takes none. |
| InjectionTheorems.UndisturbedTriesAll | src/hal_runtime/failure_injector.py:75-100 | Without a failure every action is tried and lands, by its verdict, in one of the two lists; a rejection stops safely. |
| InjectionTheorems.UndisturbedReasonsAre | src/hal_runtime/failure_injector.py:75-100 | Without a failure the reasons are exactly those of the rejected actions. |
| RollbackPlanner.PlanReverts | src/hal_runtime/rollback_planner.py:59-75 | The markers appended in the loop are the simulated ids reversed, numbered from 1. |
| RollbackPlanner.BuildRollbackPlan | src/hal_runtime/rollback_planner.py:19-151 | Every case of the ladder gives the rollback plan of the specification. |
| RollbackPlanner.RollbackUndoesSimulation | src/hal_runtime/rollback_planner.py:59-141 | When rollback is required, replaying the markers on the stack of simulated actions pops the matching top each time and ends empty; markers are numbered without gaps and the safe-stop marker, if any, is last. |
| RollbackPlanner.RequiredRollbackPlansReverts | src/hal_runtime/rollback_models.py:139-153 | A required rollback reports as many planned reverts as actions were simulated, and at least one. |
| RollbackPlanner.RollbackFollowsRequests | src/hal_runtime/rollback_planner.py:19-151 | Plan state, strategy and report status of a rollback follow from what it asks for; a plain rollback keeps the strategy of the injection. |
| RollbackPlanner.MarkersSayWhy | src/hal_runtime/rollback_planner.py:59-141 | Every marker gives the reason of its kind, and a safe stop names the failed action. |
| RollbackPlanner.SimulateFailure | src/hal_runtime/rollback_simulator.py:27-225 | The failure stage checks structure, plan boundary and scenario in that order and then injects and plans as specified. |
| RefusalTheorems.FailureRefusalsAreExact | src/hal_runtime/rollback_simulator.py:27-130 | The failure stage refuses a faulty plan, then one over its boundary, then a faulty scenario, each exactly then; a refusal plans nothing and gives the reasons of what it refuses. |
| RefusalTheorems.DocumentTellsRollbackReport | src/hal_runtime/rollback_models.py:98-129 | Two rollback reports with the same document agree in status, strategy, requests, planned reverts and reasons. |
| PolicyEvaluator.CollectMatches | src/hal_runtime/policy_evaluator.py:63-88 | The match set holds exactly the rules whose condition holds. |
| PolicyEvaluator.ScanPrecedence | src/hal_runtime/policy_audit.py:54-58 | Scanning the match set in precedence order finds the deciding rule. |
| PolicyEvaluator.DecidingRuleIsLeast | src/hal_runtime/policy_audit.py:9-58 | The deciding rule matches, and no matching rule has higher precedence. |
| PolicyEvaluator.DecidingRule | src/hal_runtime/policy_evaluator.py:32-91 | The deciding rule in closed form over the signals read from the inputs. |
| PolicyEvaluator.EvaluatePolicy | src/hal_runtime/policy_evaluator.py:24-137 | Match collection, precedence scan and outcome give the decision of the specification. |
| PolicyTheorems.OutcomeIsExact | src/hal_runtime/policy_evaluator.py:140-211 | On any plan, mode and reports: each status and each selected policy if and only if the reports ask for it, written out in their fields. |
| PolicyTheorems.ReasonsAreExact | src/hal_runtime/policy_evaluator.py:110-211 | The reasons of a decision by what is asked for; a broken boundary blocks with the texts the report gives, or with the fallback. |
| PolicyTheorems.WarningsAreExact | src/hal_runtime/policy_evaluator.py:214-236 | A warning or warning input is there if and only if the plan or a report calls for it. |
| PolicySimulator.ValidatePolicyConfig | src/hal_runtime/policy_config.py:58-103 | The reason lists of the loops are the structural and safety reasons of the specification. |
| PolicySimulator.ConfigRefusedExactlyUnlessAccepted | src/hal_runtime/policy_config.py:58-103 | A configuration has no reason of either kind exactly when every field is present, typed and within the boundary. |
| PolicyTheorems.ConfigFaultsAreExact | src/hal_runtime/policy_config.py:58-85 | A structural reason is given if and only if the configuration has that fault. |
| PolicyTheorems.ConfigBoundaryIsExact | src/hal_runtime/policy_config.py:86-103 | A safety reason is given if and only if the field it names does not state what it must. |
| PolicySimulator.AcceptedReportLoads | src/hal_runtime/policy_simulator.py:202-245 | An optional report loads without error exactly when it has the required fields, the exact boundary and the field types; a missing field is reported by name, and it is the first one missing. |
| PolicySimulator.AcceptedInputsReachEvaluator | src/hal_runtime/policy_simulator.py:36-199 | With an accepted plan and accepted reports the evaluator decides if and only if the configuration is accepted; otherwise the stage blocks. |
| PolicySimulator.SimulatePolicy | src/hal_runtime/policy_simulator.py:36-199 | The staged checks, in their order, give the decision of the specification. |
| PolicyTheorems.RefusalsAreExact | src/hal_runtime/policy_simulator.py:36-199 | For any inputs: which of the four refusals applies, with its status, policy, rule and reasons, and the evaluator exactly past all of them. |
| PolicyTheorems.DocumentTellsDecision | src/hal_runtime/policy_models.py:70-96 | Two decisions with the same document agree in mode, policy, status and both warning lists. |
| Chain.AdapterReportPasses | src/hal_runtime/adapter_report.py:16-55 | Every adapter report passes the policy stage's report check. |
| Chain.RollbackReportPasses | src/hal_runtime/rollback_report.py:13-66 | Every rollback report passes the policy stage's report check. |
| Chain.AdapterBlocksOnlyRefusedPlans | src/hal_runtime/adapter_simulator.py:96-160 | The adapter stage blocks exactly on plans the validator refuses. |
| Chain.FailureStageOutcome | src/hal_runtime/rollback_simulator.py:27-130 | On an accepted plan the failure stage blocks on a refused scenario and otherwise reports the planned rollback. |
| Chain.PolicyClosedFormOnPlans | src/hal_runtime/policy_evaluator.py:63-211 | The closed form of policy and status on any plan document a passed gate can produce. |
| Chain.PolicyClosedForm | src/hal_runtime/policy_evaluator.py:63-211 | After a passed gate, an accepted scenario and an accepted configuration, the policy stage completes; its policy and its status are functions of degradation, failure mode, the number k of actions simulated before the failure and rejection: rollback iff injecting and k > 0, safe stop iff a safe-stop mode and k = 0, human review iff nothing failed and nothing was rejected, otherwise no action. |
| Chain.PolicyModeIsIrrelevant | src/hal_runtime/policy_rules.py:26-56 | All accepted configurations, in all six modes, select the same policy with the same status in a pipeline run. |
| Chain.DecisionIsExact | src/hal_runtime/policy_evaluator.py:24-236 | The whole decision of a run: policy, status, rule, reasons, warnings and warning inputs, from the same four values. |
| Chain.PolicyWarnsExactly | src/hal_runtime/policy_evaluator.py:214-236 | The policy stage warns exactly on a degraded plan, a rejected action, a safe stop or a rollback. |
| Chain.FailureStageIsExact | src/hal_runtime/rollback_report.py:13-66 | The whole failure report of a run: status, strategy, the three counts and the planned reverts, in closed form. |
| PipelineReport.NormalizeStageResults | src/hal_runtime/pipeline_report.py:224-250 | The index-based normalisation is the specification: the last result of each name, missing stages filled in as skipped. |
| PipelineReport.NormalizeIsCanonical | src/hal_runtime/pipeline_report.py:224-273 | Normalisation of any list gives the seven stages in registry order, each with its reason, and is idempotent. |
| PipelineReport.ReportIsConsistent | src/hal_runtime/pipeline_report.py:98-313 | For any results the status counts sum to seven, and all consistency checks hold exactly when the skipped-evidence flag agrees with the evidence stage; then they add no warning. |
| RunDetailTheorems.CountsAreExact | src/hal_runtime/pipeline_report.py:302-313 | Each count of the report is the number of normalised stages with that status. |
| RunDetailTheorems.MissingReasonIsFirstText | src/hal_runtime/pipeline_report.py:253-273 | A given reason is kept; a missing one is the first text the stage gives, or the default of its status. |
| PipelineRunner.Run.constructor | src/hal_runtime/pipeline_runner.py:70-81 | A run starts with the started event, empty lists and the evidence flag of its option. |
| PipelineRunner.Run.Fail | src/hal_runtime/pipeline_runner.py:186-197 | Records a stopped stage, its event and its blocking reason. |
| PipelineRunner.Run.Warn | src/hal_runtime/pipeline_runner.py:180-183 | Appends the warnings and one warning event for each. |
| PipelineRunner.Run.Complete | src/hal_runtime/pipeline_runner.py:245-259 | Records a completed stage with its warnings and events. |
| PipelineRunner.Run.Skip | src/hal_runtime/pipeline_runner.py:579-604 | Appends one skipped result and one event per named stage. |
| PipelineRunner.Run.SkipRemainingAfterWarning | src/hal_runtime/pipeline_runner.py:607-615 | Skips every registry stage not yet present but the first and the last, for `stop_on_warning`. |
| PipelineRunner.Run.FinishBlocked | src/hal_runtime/pipeline_runner.py:618-661 | Ends a run as blocked with exit code 2. |
| PipelineRunner.Run.FinishWithWarnings | src/hal_runtime/pipeline_runner.py:664-707 | Ends a run as completed with warnings, exit code 0 and no blocking reasons. |
| PipelineRunner.Run.FinishNormally | src/hal_runtime/pipeline_runner.py:444-480 | The normal end: status and exit code follow from the blocking and warning lists. |
| PipelineRunner.Run.Finish | src/hal_runtime/pipeline_runner.py:729-748 | The completion event is popped and re-appended after the terminal-state and consistency events. |
| RunTheorems.RunEndsAsExpected | src/hal_runtime/pipeline_runner.py:156-463 | A run that loads ends exactly where its stage facts say, in the stage shape that goes with it. |
| RunTheorems.BlockedAdapterFallsThrough | src/hal_runtime/pipeline_runner.py:227-274 | If the adapter stage blocked, the failure stage would run with a dependency not completed. |
| RunTheorems.DependenciesRespectedExactly | src/hal_runtime/pipeline_stages.py:27-39 | A run respects the dependency graph if and only if its adapter stage is not reached and blocked. |
| RunTheorems.EachNeedsThePrevious | src/hal_runtime/pipeline_stages.py:27-39 | Every inner stage depends on the one before it and on nothing after it, so through the chain on them all. |
| RunReportTheorems.TerminalStateIsFaithful | src/hal_runtime/pipeline_report.py:325-360 | Exit 0 if and only if no stage stopped if and only if no blocking stage is named; otherwise the terminal stage is the unique stopped one, or the report when the dry run raised. |
| RunReportTheorems.RunReportIsConsistent | src/hal_runtime/pipeline_report.py:408-438 | On every run whose adapter stage does not stop the counts sum to seven and every consistency check is true. |
| RunStatusTheorems.RunIsToldByStages | src/hal_runtime/pipeline_runner.py:444-480 | With exit code 0 a run completed with warnings if and only if it warned, if and only if some stage before the report completed with warnings, and the report stage shows the same; with exit code 2 its reasons are those of its stopped stages. |
| RunStatusTheorems.FinalLists | src/hal_runtime/pipeline_runner.py:156-480 | The warnings of a run are those of the stages it completed, in order, and its one blocking reason is that of the stage that stopped. |
| RunStatusTheorems.TerminalIsExact | src/hal_runtime/pipeline_report.py:325-360 | The terminal state in full: stage, exit reason, blocking stage and failure category, from where and why the run ended. |
| RunDetailTheorems.FailedTerminalNamesStage | src/hal_runtime/pipeline_report.py:325-345 | The terminal state of a run that failed or got invalid input names the first failed stage, whatever the results. |
| RunDetailTheorems.SkipsAreExact | src/hal_runtime/pipeline_runner.py:579-615 | Every skipped stage says why: it comes after the stage that stopped, after the warning that ended the run, or evidence was not wanted. |
| RunDetailTheorems.MatrixIsExact | src/hal_runtime/pipeline_report.py:276-299 | The stage matrix gives every stage's status, whether it ran, and the reason it was skipped, stopped or warned. |
| RunDetailTheorems.EvidenceSummaryIsExact | src/hal_runtime/pipeline_report.py:363-405 | The evidence summary is that of the evidence stage, which either ran or was skipped. |
| RunDetailTheorems.EvidenceFlagIsExact | src/hal_runtime/pipeline_runner.py:310-366 | The skipped-evidence flag is raised exactly by the option, by a blocked policy stage and by one whose warnings end the run. |
| TraceTheorems.TraceIsDisciplined | src/hal_runtime/pipeline_runner.py:159-463 | On every run the inner stages have one start and one matching close exactly if they ran, in order, and the trace ends with terminal state, consistency check and the only completion event. |
| RunDetailTheorems.TraceTellsStages | src/hal_runtime/pipeline_runner.py:180-259 | On every run the warning, failure and skip events are, in order and with their stages, exactly what the stage results give. |
| StopOnWarningTheorem.StopOnWarningRelation | src/hal_runtime/pipeline_runner.py:215-366 | Against the same facts without the flag: equal up to the first warned stage, then everything but the report skipped and exit 0; equal runs if there is none. |
| RuntimeStage.SimulateProfile | src/hal_runtime/dry_run_executor.py:39-118 | The dry run of a profile is its gate result and its plan. |
| RuntimeStage.BundlePassesExactly | src/hal_runtime/bundle_validator.py:40-165 | A bundle passes exactly when it has a profile, every artifact is readable and about that profile and nothing failed; it degrades exactly on an absent artifact or a degraded solver. |
| RuntimeTheorems.BundleStatusIsExact | src/hal_runtime/bundle_validator.py:40-165 | The status of a bundle is the first thing wrong with it, in terms of its artifacts' fields. |
| RuntimeTheorems.BundleReasonsAreExact | src/hal_runtime/bundle_validator.py:40-165 | The reasons name exactly the artifacts that are undecodable, about another profile, or absent. |
| RuntimeTheorems.BundleWarningsAreExact | src/hal_runtime/bundle_validator.py:138-178 | A passing bundle hands on the comparison's warnings, any other none. |
| RuntimeStage.SimulateBundle | src/hal_runtime/dry_run_executor.py:121-253 | A refused bundle gives an empty blocked plan; an accepted one the dry run of its profile. |
| RuntimeStage.CollectRuntimeWarnings | src/hal_runtime/pipeline_runner.py:568-576 | The warnings collected in the loop are the two list fields and the degraded flag, without repetition. |
| RuntimeStage.RuntimeBlocksExactly | src/hal_runtime/pipeline_runner.py:548-565 | The runtime stage lets a dry run pass exactly when its gate passed. |
| RuntimeStage.ProfileRunWarnings | src/hal_runtime/report.py:27-45 | A profile run warns exactly when it is degraded. |
| RuntimeTheorems.ReportShowsProfile | src/hal_runtime/dry_run_executor.py:39-118 | The report of a profile's dry run states the gate's outcome and what the profile itself states. |
| RuntimeTheorems.BundleRunWarnings | src/hal_runtime/pipeline_runner.py:568-576 | What a bundle run warns of, each once: the comparison's warnings, missing routes behind a passed gate, and the bundle's own degradation; a refused bundle warns of nothing. |
| PipelineInputs.StageFiles | src/hal_runtime/pipeline_runner.py:794-826 | Copying file after file gives the staging directory of the specification. |
| PipelineInputs.CopiedHolds | src/hal_runtime/pipeline_runner.py:794-826 | No copy overwrites another: the staging directory holds exactly the present files, each under its own name. |
| InputTheorems.SimulationIsStaged | src/hal_runtime/pipeline_runner.py:794-826 | Plan, runtime report and adapter report are staged, encoded, under their names. |
| InputTheorems.DecisionsAreStaged | src/hal_runtime/pipeline_runner.py:794-826 | So are the rollback plan and report and the policy decision and report. |
| InputTheorems.TracesAreStaged | src/hal_runtime/pipeline_runner.py:794-826 | So are the four traces, as they are. |
| Pipeline.DryRunStage | src/hal_runtime/pipeline_runner.py:159-221 | The runtime segment of the runner, all four of its exits. |
| Pipeline.AdapterStage | src/hal_runtime/pipeline_runner.py:223-266 | The adapter segment, including the fall-through of a blocked stage. |
| Pipeline.FailureStage | src/hal_runtime/pipeline_runner.py:268-308 | The failure segment. |
| Pipeline.PolicyStage | src/hal_runtime/pipeline_runner.py:310-366 | The policy segment. |
| Pipeline.EvidenceStage | src/hal_runtime/pipeline_runner.py:368-442 | The evidence segment: disabled, faulted, failed or passed. |
| Pipeline.RunPipeline | src/hal_runtime/pipeline_runner.py:53-480 | From inputs to result, the imperative runner computes the run of the facts that its stages give. |
| InputTheorems.InputRefusedExactly | src/hal_runtime/pipeline_runner.py:483-511 | The inputs are accepted if and only if exactly one of profile and bundle is given, every path is of the right kind and resolves, and the output stays outside the input; a refusal gives a true reason. |
| InputTheorems.LoadIsExact | src/hal_runtime/pipeline_runner.py:117-130 | A profile loads if and only if its file holds an object, which then is the profile; a bundle unless its profile file is there and holds none. |
| InputTheorems.BundleLoadIsExact | src/hal_runtime/bundle_loader.py:48-88 | A loaded bundle holds what its five files hold. |
| InputTheorems.ScenarioReadExactly | src/hal_runtime/rollback_simulator.py:227-239 | A scenario is accepted if and only if none is given or the file holds an acceptable object. |
| InputTheorems.ConfigReadExactly | src/hal_runtime/policy_config.py:46-55 | A configuration is accepted if and only if none is given or the file holds an acceptable object. |
| PipelineTheorems.AdapterNeverStops | src/hal_runtime/pipeline_runner.py:227-243 | On no input does the adapter stage block: its fall-through branch is unreachable. |
| PipelineTheorems.EveryRunRespectsDependencies | src/hal_runtime/pipeline_stages.py:27-39 | On every run each stage that ran has its declared dependencies done, at most one stage stopped, and later stages but the report are skipped. |
| PipelineTheorems.EveryRunEndsFaithfully | src/hal_runtime/pipeline_report.py:325-360 | On every run from inputs the terminal state is faithful. |
| PipelineTheorems.EveryReportIsConsistent | src/hal_runtime/pipeline_report.py:276-438 | On every run from inputs the report's counts sum to seven and all its checks hold. |
| PipelineTheorems.GatePassesExactly | src/hal_runtime/dry_run_executor.py:39-253 | The gate of a loaded run passes exactly on a conforming profile, and around it an acceptable bundle if one was given. |
| PipelineTheorems.ExactBlocking | src/hal_runtime/pipeline_runner.py:100-442 | Without `stop_on_warning` any run, on a profile or on a bundle, exits 2 if and only if its inputs do not load, the dry run raises, the gate asks more than the input has, the scenario or the configuration is refused, or evidence is wanted and its builder fails, a required document exceeds the size limit, or a supporting bundle artifact crosses the boundary or names another profile; it exits 0 otherwise. |
| PipelineTheorems.CompletedPolicyIsClosedForm | src/hal_runtime/pipeline_runner.py:310-358 | Whenever a run on a profile or a bundle, under any options, completes its policy stage, the selected policy and the policy status are the closed form. |
| EveryRunTheorems.EveryRunTellsItsStatus | src/hal_runtime/pipeline_runner.py:444-480 | On all inputs and options: a run that loads has the status its warnings and stages call for, the report stage agreeing; one that does not load is invalid with exit code 2. |
| EveryRunTheorems.EveryRunReportsItsFacts | src/hal_runtime/pipeline_runner.py:156-480 | On all inputs and options: warnings, blocking reasons and terminal state are those the stages give. |
| EveryRunTheorems.EveryRunSaysInDetail | src/hal_runtime/pipeline_report.py:276-405 | On all inputs and options: skip reasons, stage matrix and evidence summary. |
| EveryRunTheorems.RuntimeFactsAreExact | src/hal_runtime/pipeline_runner.py:548-576 | From the input: the runtime stage blocks on a bundle that is not acceptable, then on a profile that does not conform, and what it warns of. |
| EveryRunTheorems.AdapterFactsAreExact | src/hal_runtime/pipeline_runner.py:223-266 | From the input: the adapter stage behind a passed gate never blocks and warns of a degraded plan or of what its rejected actions give. |
| EveryRunTheorems.RejectionsAreByRole | src/hal_runtime/adapter_simulator.py:211-271 | On the plan of a profile an action is rejected if and only if its role is unsupported, and always for one reason. |
| EveryRunTheorems.LaterFactsAreExact | src/hal_runtime/pipeline_runner.py:268-366 | From the input: the failure stage blocks exactly on a refused scenario, the policy stage on a configuration that is faulty or out of bounds, each with its reason; and what the policy stage warns of. |
| EveryRunTheorems.EvidenceFactsAreExact | src/hal_runtime/pipeline_runner.py:368-442 | From the staged files: a builder fault and a failing status block with their texts, a passing status hands on the warnings of the source check. |
| EvidenceStageTheorems.EvidencePassesExactly | src/hal_runtime/evidence_validator.py:69-125 | After a passed gate the evidence stage passes exactly when the four required documents fit the size limit and every supporting bundle artifact within it keeps to the boundary and names no other profile; so everything the run itself writes passes every check there. |
| EvidenceStageTheorems.NoPolicyIsForbidden | src/hal_runtime/evidence_validator.py:29-37 | No policy the evaluator can select contains a forbidden word. |
| EvidenceSource.CollectEvidence | src/hal_runtime/evidence_collector.py:20-61 | The scan of the sorted directory keeps exactly the visible, recognised files within the size limit and lists the rest. |
| EvidenceSource.ParseArtifacts | src/hal_runtime/evidence_validator.py:41-67 | The parsed map, the unreadable required files and the warnings are those of the specification. |
| EvidenceSource.SourceSafetyViolations | src/hal_runtime/evidence_validator.py:385-410 | The violations appended in the loops are the boundary and policy violations in order. |
| EvidenceSource.NoViolationExactlySafe | src/hal_runtime/evidence_validator.py:385-410 | No violation is found exactly when every payload keeps to the simulation-only boundary. |
| EvidenceSource.CollectProfileIds | src/hal_runtime/evidence_validator.py:485-496 | Each file contributes the first non-empty id it states. |
| EvidenceSource.MismatchesExactlyWhenDifferent | src/hal_runtime/evidence_validator.py:499-507 | A mismatch is reported exactly when two stated profile ids differ. |
| EvidenceCheck.ExpectedOptionalArtifacts | src/hal_runtime/evidence_schema.py:123-133 | The missing optional artifacts are those the present ones call for. |
| EvidenceCheck.ValidateCollected | src/hal_runtime/evidence_validator.py:40-153 | The source check with its own case ladder gives the highest-priority failing row. |
| EvidenceCheck.LadderIsVerdict | src/hal_runtime/evidence_validator.py:109-124 | The ladder of the source check and the priority table of the bundle check pick the same status. |
| EvidenceCheck.VerdictIsHighestFailingRow | src/hal_runtime/evidence_validator.py:309-331 | The status is the highest-priority failing row, and passing exactly when no row but the warnings row failed. |
| EvidenceCheck.BuildValidationMatrix | src/hal_runtime/evidence_schema.py:71-87 | The matrix filled in the loop has one row per failure list and a warnings row that never fails. |
| EvidenceCheck.VerdictFollowsMatrix | src/hal_runtime/evidence_schema.py:71-87 | The status passes exactly when every matrix row does, and warns exactly when the warnings row does. |
| EvidenceCheck.SourcePassesExactlyWhenConsistent | src/hal_runtime/evidence_validator.py:109-125 | The source check passes exactly on safe, readable, complete and mutually consistent artifacts. |
| SourceStatusTheorems.SourceStatusIsExact | src/hal_runtime/evidence_validator.py:109-124 | The status of the source check from files and payload fields: the first of six things wrong, written out, otherwise whether there is something to warn of. |
| SourceStatusTheorems.DifferingSelectionsNeverPass | src/hal_runtime/evidence_validator.py:510-517 | Report and decision that select two different policies never pass, and with nothing of higher priority wrong that is the status. |
| SourceStatusTheorems.BlockedPlanNeverPasses | src/hal_runtime/evidence_validator.py:520-531 | A blocked plan beside a decision that allows a dry run never passes, and with nothing of higher priority wrong that is the status. |
| SourceStatusTheorems.ViolationsAreExact | src/hal_runtime/evidence_validator.py:385-410 | A violation is found if and only if a payload crosses the boundary in that way, field by field. |
| SourceStatusTheorems.SourceReasonsAreExact | src/hal_runtime/evidence_validator.py:75-108 | Every row of the source check names exactly what is wrong. |
| SourceStatusTheorems.ReasonTextsAreExact | src/hal_runtime/evidence_validator.py:75-124 | The reasons of the source check, as texts, are exactly those of its status: the files or the comparison that make it fail. |
| SourceStatusTheorems.BlamedExactly | src/hal_runtime/evidence_validator.py:499-507 | The files blamed for differing ids are those that state another id than the plan, or than the first file that states one. |
| SourceStatusTheorems.WarningsAreExact | src/hal_runtime/evidence_validator.py:41-108 | The warnings are exactly the files too large, the optional ones unreadable, other versions, and the optional artifacts called for and missing. |
| SourceStatusTheorems.UnsupportedExactly | src/hal_runtime/evidence_collector.py:20-61 | The unsupported files are the visible ones that are not recognised. |
| SourceStatusTheorems.ParsedExactly | src/hal_runtime/evidence_validator.py:41-67 | A payload is what a kept JSON file that decodes to an object holds. |
| EvidenceBundle.EvidenceOutput.CopyArtifacts | src/hal_runtime/evidence_bundle_builder.py:28-44 | Artifacts are copied over what the directory already holds, and nothing else changes. |
| EvidenceBundle.EvidenceOutput.Build | src/hal_runtime/evidence_bundle_builder.py:17-106 | A build leaves the three documents and the copies, and reports the source check. |
| EvidenceBundle.ClaimTextEnds | src/hal_runtime/evidence_report.py:63-66 | Exactly the claim violations make the summary's claim flag false. |
| EvidenceRoundTrip.SummaryIsExact | src/hal_runtime/evidence_report.py:52-66 | The four flags of the safety summary, over the payloads and the violations. |
| EvidenceRoundTrip.ReportSaysPassed | src/hal_runtime/evidence_report.py:128-169 | The report says it passed exactly when its status is one of the two passing ones. |
| EvidenceRoundTrip.WarningsAreGivenTwice | src/hal_runtime/evidence_report.py:128-169 | Without its first warning field the report reads back the same warnings from the second. |
| EvidenceBuilt.LoadDocuments | src/hal_runtime/evidence_validator.py:165-177 | The loop loads exactly the documents that decode to objects and lists the others. |
| EvidenceBuilt.IndexEntries | src/hal_runtime/evidence_validator.py:186-193 | The entry map keeps the last entry per name, the names their first position. |
| EvidenceBuilt.CheckEntries | src/hal_runtime/evidence_validator.py:200-214 | Missing copies and mismatches are those of the specification, in entry order. |
| EvidenceBuilt.CarryOver | src/hal_runtime/evidence_validator.py:254-281 | The chain of status comparisons puts the reported reasons in the one row of their status. |
| EvidenceBuilt.DetermineStatus | src/hal_runtime/evidence_validator.py:309-323 | The loop over the priority table finds the verdict. |
| EvidenceBuilt.ValidateBuilt | src/hal_runtime/evidence_validator.py:156-382 | The bundle check computes rows, warnings and status as specified, or raises when the report's warnings cannot be iterated. |
| BuiltStatusTheorems.BuiltStatusIsExact | src/hal_runtime/evidence_validator.py:295-331 | The status of a built bundle from the bytes of its documents and files: claims, unread documents, manifest, missing files, altered files and what the report carries over, in order of priority. |
| BuiltStatusTheorems.FileRowsAreExact | src/hal_runtime/evidence_validator.py:200-214 | The copy row names exactly the entries without a file, the hash row exactly those whose file has another digest or size. |
| BuiltStatusTheorems.ManifestRowIsExact | src/hal_runtime/evidence_validator.py:186-236 | The manifest row names exactly what is wrong: no list, unlisted files, missing bundle ids, a wrong count. |
| BuiltStatusTheorems.SafetyRowIsExact | src/hal_runtime/evidence_validator.py:216-281 | The safety row names exactly the wrong claims of documents and summary and the violations the report carries over. |
| BuiltStatusTheorems.JsonRowIsExact | src/hal_runtime/evidence_validator.py:165-177 | The JSON row names the documents that are not read and what the report blames on bad JSON. |
| BuiltStatusTheorems.ReportedRowsAreExact | src/hal_runtime/evidence_validator.py:254-281 | The other rows hold exactly the reasons the report gives under their status. |
| BuiltStatusTheorems.BuiltWarningsAreExact | src/hal_runtime/evidence_validator.py:218-252 | There is no result exactly when the report's warnings cannot be iterated; otherwise the warnings are the differing versions and what the report warns of. |
| BuiltStatusTheorems.BuiltFlagsAreExact | src/hal_runtime/evidence_validator.py:332-345 | The bundle counts as loaded and its hashes as verified exactly when the documents and files say so. |
| EvidenceTheorems.PassesExactlyWhenIntact | src/hal_runtime/evidence_validator.py:156-331 | A bundle passes exactly when its documents load, state their boundary, are complete, match the files one to one and report a passing source check. |
| EvidenceTheorems.PassingMeansBijection | src/hal_runtime/evidence_validator.py:186-214 | Passing means the manifest names are the artifact files, each with equal hash and size. |
| EvidenceTheorems.PassingPinsContents | src/hal_runtime/evidence_validator.py:200-214 | With an injective hash, two passing bundles with the same documents have the same files. |
| EvidenceRoundTrip.BuildThenCheck | src/hal_runtime/evidence_validator.py:254-331 | Checking a built bundle gives the source status, overruled only by a real-execution flag in any artifact or by leftover files. |
| EvidenceRoundTrip.FreshRoundTrip | src/hal_runtime/evidence_validator.py:254-331 | In a fresh directory the two checks agree if and only if the payloads cross the boundary already at the source or none sets `real_execution_allowed` true; otherwise the later check blocks. |
| EvidenceRoundTrip.NeverMoreLenient | src/hal_runtime/evidence_validator.py:254-331 | Whatever the output directory held, the later check is never more lenient. |
| EvidenceRoundTrip.LiveOutsidePolicyFiles | src/hal_runtime/evidence_report.py:56-58 | Unless the source was blocked, such a flag can only stand outside the two policy files. |
| EvidenceRoundTrip.ChecksCanDiffer | src/hal_runtime/evidence_report.py:52-66 | A source directory that passes the source check, all required artifacts present and consistent, whose bundle is blocked. |
| Worlds.ChecksDiffer | src/hal_runtime/evidence_report.py:52-66 | With any digest there is a world and a source directory such that the source check passes and the check of the bundle built from it blocks. |
| Shadow.GroupByTile | src/hal_runtime/shadow_quality.py:162-165 | One pass groups every tile's rows in order. |
| Shadow.CollectValues | src/hal_runtime/shadow_quality.py:377-378 | The distinct values of a group, sorted. |
| Shadow.BuildConflictMatrix | src/hal_runtime/shadow_quality.py:159-244 | Grouping, classification and counters give the matrix of the specification. |
| Shadow.MatrixIgnoresOrder | src/hal_runtime/shadow_quality.py:159-244 | Permuting the observations leaves the conflict matrix unchanged. |
| Shadow.CountIsSumOfCounters | src/hal_runtime/shadow_quality.py:240-244 | The conflict count is the sum of the four counters. |
| ShadowTheorems.KindIsFirstClash | src/hal_runtime/shadow_quality.py:159-244 | The kind of a tile's conflict is the first way in which two of its rows differ: known status or pass/fail, known role, measurement, identity; none if no two do. |
| ShadowTheorems.ListedExactly | src/hal_runtime/shadow_quality.py:159-244 | A tile is listed with a kind if and only if that is the first way in which two of its rows differ. |
| ShadowTheorems.UnlistedExactly | src/hal_runtime/shadow_quality.py:159-244 | A tile is not listed if and only if its rows agree in all four ways. |
| ShadowTheorems.ConflictsListTheirRows | src/hal_runtime/shadow_quality.py:211-238 | A listed conflict shows exactly the values its tile's rows have. |
| ShadowTheorems.ConflictsAscend | src/hal_runtime/shadow_quality.py:159-244 | The conflicts stand in the order of their tile ids. |
| ShadowTheorems.CountersAreExact | src/hal_runtime/shadow_quality.py:202-244 | Each counter is the number of tiles with that kind of conflict. |
| ShadowProfile.BuildFieldCoverage | src/hal_runtime/shadow_quality.py:127-143 | The nested counting loops give the coverage of the specification. |
| ShadowProfile.CoverageIgnoresOrder | src/hal_runtime/shadow_quality.py:127-143 | Permuting the observations leaves the field coverage unchanged. |
| ShadowTheorems.CoverageIsNearest | src/hal_runtime/shadow_quality.py:127-143 | Every coverage figure is the hundredth nearest to the exact fraction of present values. |
| ShadowTheorems.OverallCoverageIsNearest | src/hal_runtime/shadow_quality.py:127-143 | The overall coverage is the hundredth nearest to the share of present values over all fifteen fields. |
| ShadowTheorems.PresentExactly | src/hal_runtime/shadow_quality.py:366-374 | A field counts as present when it holds something other than nothing or an empty text and, for status, role and pass/fail, other than "unknown". |
| ShadowProfile.BuildCandidateTiles | src/hal_runtime/shadow_profile_builder.py:29-50 | The tiles built per group are those of the specification. |
| ShadowTheorems.TilesAreExact | src/hal_runtime/shadow_profile_builder.py:29-90 | Each tile's status, over its rows: degraded on a conflict, a degraded row or pass beside fail, otherwise blocked on a fail, available on a pass, else unknown; its confidence is the least of its rows, its count their number. |
| ShadowTheorems.EarliestModeIsChosen | src/hal_runtime/shadow_profile_builder.py:93-97 | Of the roles that no other outnumbers the one met first is chosen. |
| ShadowProfile.TilesAscend | src/hal_runtime/shadow_profile_builder.py:34-50 | The tiles stand in strictly ascending code-point order of their ids. |
| ShadowProfile.TilesIgnoreOrder | src/hal_runtime/shadow_profile_builder.py:29-50 | Permuting the observations leaves every tile's place, status, confidence and evidence count unchanged. |
| ShadowProfile.MostCommonIsMode | src/hal_runtime/shadow_profile_builder.py:93-97 | The role chosen is one that no other role outnumbers. |
| ShadowProfile.MostCommonIgnoresOrderExactly | src/hal_runtime/shadow_profile_builder.py:93-97 | The role chosen from a list is the same for every reordering of the list if and only if no two roles tie for the most occurrences. |
| ShadowProfile.RoleIgnoresOrderExactly | src/hal_runtime/shadow_profile_builder.py:37-39 | A tile's role is the same for every reordering of the observations if and only if its roles are not tied. |
| ShadowProfile.TilesIgnoreOrderExactly | src/hal_runtime/shadow_profile_builder.py:29-50 | The whole tile list is the same for every reordering of the observations if and only if no tile's roles are tied. |
| ShadowProfile.BuildConfidenceSummary | src/hal_runtime/shadow_quality.py:257-279 | The loop's counts, sum, minimum and maximum give the summary of the specification. |
| ShadowProfile.AverageIsBetween | src/hal_runtime/shadow_quality.py:257-279 | The rounded average lies between the reported minimum and maximum, and the band counts sum to the number of tiles. |
| ShadowProfile.RoundingStaysBetween | src/hal_runtime/shadow_quality.py:381-392 | Rounding to hundredths never leaves an interval with hundredth ends. |
| ShadowProfile.AddConflictWarnings | src/hal_runtime/shadow_quality.py:101-124 | Exactly the observations on conflicting tiles are updated, in order. |
| ShadowProfile.WarnedOnce | src/hal_runtime/shadow_quality.py:113-124 | An observation on a conflicting tile loses a high band and names the conflict, any other is untouched, and a second pass changes nothing. |
| ShadowTheorems.ScoreIsCapped | src/hal_runtime/shadow_quality.py:101-124 | A conflict caps the score at sixty, leaves lower scores as they are, and adds its one warning. |
| ShadowTheorems.BandsAreQuarters | src/hal_runtime/shadow_quality.py:349-356 | The bands are the quarters of the scale. |

## Left out

- File I/O, directory walking, temporary directories, JSON text syntax and SHA-256: `World` and the inputs stand for them.
- Command line, review gate, review decision, promotion, release contract and schema documents: constants and flat checks.
- Event traces of the single stages; only the pipeline trace is modelled. Their bytes are arbitrary inputs of a run.
- Pipeline summary, artifact index and transition log; a continue entry of the log says a stage completed even when it was
  skipped, so nothing is claimed about those texts.
- Artifact directory and primary artifact names in stage results, descriptive constants and known limitations in reports.
- The documents hold the fields that a later stage or check reads; the others (for example evidence confidence, policy
  decision path, conflict reasons and rule results) are not written.
- The evidence report's own `profile_id`, which comes from iterating a Python set.
- Exceptions on unhashable JSON values, for example a list as a failure mode; in the runner they are part of the abstract
  "dry run raised" fault.
- The second load of the profile by the dry run: it is taken to read what the first one read.
- Compatibility events of a bundle dry run: informational only.
- Reading and normalising shadow rows, the quality score of a single observation and the shadow reports.
- IEEE rounding: scores are exact hundredths; observation numbers other than the confidence are kept as printed text. JSON
  floats have no NaN or infinity.
- JsonValues.PyStr: the text of a float, list or object is a placeholder; no proved property depends on it.
- PipelineInputs.Load: the reason for undecodable JSON omits the decoder's line and column.
- EvidenceBuilt.ValidateBuilt: for a report whose `consistency_warnings` is an object the warning texts are placeholders, one
  per key; an entry name with a path separator counts as a missing copy.
- Adapters.SimulatePlan: stage events, the `validation_reasons` field of an invalid plan and the per-status result summary are
  left out.
- RollbackPlanner.SimulateFailure: the failure trace events and the descriptive report fields that nothing reads are left out.
- PolicyEvaluator.EvaluatePolicy: conflict reasons, decision path, per-rule results and blocking inputs are left out; the
  deciding rule, the selected policy, the status and both warning lists are there.
- PolicySimulator.SimulatePolicy: stage events and the decision path are left out.
- RuntimeStage.SimulateProfile: stage events and the report fields that no later stage or check reads are left out.
- RuntimeStage.SimulateBundle: as for a profile; the compatibility events are left out too.
- Pipeline.RunPipeline: the result is exit code, status, stage results, trace, warnings and blocking reasons; pipeline summary,
  artifact index and transition log are left out.
- EvidenceBundle.EvidenceOutput.Build: the event trace and the descriptive fields of the three documents are left out.
- PlanBuilder.BuildRuntimePlan: a list field of another type counts as empty; a passed gate excludes that case.
