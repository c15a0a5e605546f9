/** Which plan documents and scenarios the adapter and the failure stage refuse, and what they then report. */
module RefusalTheorems {
  import opened Base
  import opened JsonValues
  import opened Reasons
  import opened RuntimePlan
  import opened Adapters
  import opened FailureInjector
  import opened RollbackPlanner
  import opened ReasonTheorems

  /** The adapter stage refuses a plan document for its faults, and after that for its boundary; a refusal tries no
      action. */
  lemma AdapterRefusalsAreExact(plan: Object)
    ensures var r := SimulateReport(plan);
      && (r.status == InvalidPlan <==> PlanFaulty(plan))
      && (r.status == SafetyBlocked <==> !PlanFaulty(plan) && PlanUnsafe(plan))
      && (r.status == InvalidPlan || r.status == SafetyBlocked ==>
            r.results == [] && r.simulated == r.blocked == r.skipped == 0)
      && (r.status == InvalidPlan ==> r.blockReasons == [] && r.safetyReasons == [])
      && (r.status == SafetyBlocked ==>
            r.blockReasons == ["safety_boundary_failed"] && r.safetyReasons == TextsOf(Validation(plan).safety))
  {
    hide PlanFaulty, PlanUnsafe, Validation, PlanActions, Results, NONEXECUTABLE, TextsOf;
    PlanRefusedExactly(plan);
    var reasons := ["safety_boundary_failed"];
    assert reasons + BlockReasons([]) == reasons;
    DedupOfDistinct(reasons);
    assert BlockReasons([]) == [] && Dedup<string>([] + []) == [];
  }

  /** A scenario that was not read, or has a fault. */
  ghost predicate ScenarioFaulty(input: ScenarioInput) {
    input.UnreadableScenario? || (input.GivenScenario? && exists r :: ScenarioFault(input.raw, r))
  }

  lemma ScenarioRefusedExactly(input: ScenarioInput)
    ensures LoadScenario(input).reasons != [] <==> ScenarioFaulty(input)
    ensures LoadScenario(input).reasons == match input
                                           case NoScenario => []
                                           case UnreadableScenario(error) => [error]
                                           case GivenScenario(raw) => TextsOf(ScenarioReasons(raw))
  {
    hide ScenarioFault, ScenarioReasons;
    if input.GivenScenario? {
      ScenarioFaultsAreExact(input.raw);
      SomeExactly(ScenarioReasons(input.raw));
    }
  }

  /** The failure stage refuses a plan document for its faults, then for its boundary, then a faulty scenario. A refusal
      injects nothing, plans nothing and gives the reasons of what it refuses. */
  lemma FailureRefusalsAreExact(plan: Object, input: ScenarioInput)
    ensures var r := FailureReport(plan, input);
      && (r.status == ReportInvalidPlan <==> PlanFaulty(plan))
      && (r.status == ReportPlanBlocked <==> !PlanFaulty(plan) && PlanUnsafe(plan))
      && (r.status == ReportScenarioBlocked <==> !PlanFaulty(plan) && !PlanUnsafe(plan) && ScenarioFaulty(input))
      && (r.status == ReportInvalidPlan ==> r.reasons == TextsOf(Validation(plan).structural))
      && (r.status == ReportPlanBlocked ==> r.reasons == TextsOf(Validation(plan).safety))
      && (r.status == ReportScenarioBlocked ==> r.reasons == LoadScenario(input).reasons)
      && (PlanFaulty(plan) || PlanUnsafe(plan) || ScenarioFaulty(input) ==>
            && r.simulatedBefore == r.failedCount == r.skippedCount == r.revertsPlanned == 0
            && r.plan.noAction && !r.plan.required && !r.plan.safeStop && r.plan.markers == [])
  {
    hide PlanFaulty, PlanUnsafe, Validation, PlanActions, NONEXECUTABLE, TextsOf, LoadScenario, InjectionOf, RollbackOf;
    hide StatusText;
    PlanRefusedExactly(plan);
    ScenarioRefusedExactly(input);
  }

  // ---- the documents of the two stages ----

  lemma AdapterTextsTell(a: AdapterStatus, b: AdapterStatus)
    requires AdapterStatusText(a) == AdapterStatusText(b)
    ensures a == b
  {
    AdapterTextLength(a);
    AdapterTextLength(b);
  }

  lemma AdapterTextLength(s: AdapterStatus)
    ensures |AdapterStatusText(s)| == match s
                                      case InvalidPlan => 12
                                      case SafetyBlocked => 23
                                      case SkippedNotExecutable => 27
                                      case CompletedWithBlocks => 40
                                      case AdapterPassed => 25
  {
  }

  /** An adapter report reads back from its document: status, counts and both reason lists. */
  lemma DocumentTellsAdapterReport(a: AdapterReport, b: AdapterReport)
    requires AdapterReportToJson(a) == AdapterReportToJson(b)
    ensures a.status == b.status && a.simulated == b.simulated && a.blocked == b.blocked
    ensures a.blockReasons == b.blockReasons && a.safetyReasons == b.safetyReasons
  {
    hide AdapterStatusText;
    var x, y := AdapterReportToJson(a), AdapterReportToJson(b);
    assert x[AdapterSimulationStatus] == y[AdapterSimulationStatus] && x[SimulatedActions] == y[SimulatedActions];
    assert x[BlockedActions] == y[BlockedActions] && x[AdapterBlockReasons] == y[AdapterBlockReasons];
    assert x[AdapterSafetyFailureReasons] == y[AdapterSafetyFailureReasons];
    AdapterTextsTell(a.status, b.status);
    StringItemsOfStrList(a.blockReasons);
    StringItemsOfStrList(b.blockReasons);
    StringItemsOfStrList(a.safetyReasons);
    StringItemsOfStrList(b.safetyReasons);
  }

  lemma RollbackTextsTell(a: RollbackStatus, b: RollbackStatus, x: Strategy, y: Strategy)
    ensures RollbackStatusText(a) == RollbackStatusText(b) ==> a == b
    ensures StrategyText(x) == StrategyText(y) ==> x == y
  {
    hide RollbackStatusText, StrategyText;
    RollbackTextLength(a);
    RollbackTextLength(b);
    StrategyTextLength(x);
    StrategyTextLength(y);
  }

  lemma RollbackTextLength(s: RollbackStatus)
    ensures |RollbackStatusText(s)| == match s
                                       case ReportInvalidPlan => 12
                                       case ReportPlanBlocked => 28
                                       case ReportScenarioBlocked => 32
                                       case ReportNotRequired => 21
                                       case ReportNoAction => 15
                                       case ReportSafeStop => 17
                                       case ReportPlanGenerated => 23
  {
  }

  lemma StrategyTextLength(s: Strategy)
    ensures |StrategyText(s)| == match s
                                 case NoStrategy => 4
                                 case SafeStop => 9
                                 case RollbackToStart => 32
                                 case RevertCompleted => 34
                                 case TakeNoAction => 15
                                 case RevertThenStop => 49
  {
  }

  /** A rollback report reads back from its document: status, strategy, what it asks for, the planned reverts and the
      reasons. */
  lemma DocumentTellsRollbackReport(a: RollbackReport, b: RollbackReport)
    requires RollbackReportToJson(a) == RollbackReportToJson(b)
    ensures a.plan.required == b.plan.required && a.plan.safeStop == b.plan.safeStop
            && a.plan.noAction == b.plan.noAction
    ensures a.revertsPlanned == b.revertsPlanned && a.reasons == b.reasons
    ensures a.status == b.status && a.plan.strategy == b.plan.strategy
  {
    hide RollbackStatusText, StrategyText;
    var x, y := RollbackReportToJson(a), RollbackReportToJson(b);
    assert x[RollbackRequired] == y[RollbackRequired] && x[SafeStopRequired] == y[SafeStopRequired];
    assert x[NoActionTaken] == y[NoActionTaken] && x[FailureReasons] == y[FailureReasons];
    assert x[SimulatedRevertActionsPlanned] == y[SimulatedRevertActionsPlanned];
    assert x[RollbackSimulationStatus] == y[RollbackSimulationStatus] && x[RollbackStrategy] == y[RollbackStrategy];
    RollbackTextsTell(a.status, b.status, a.plan.strategy, b.plan.strategy);
    StringItemsOfStrList(a.reasons);
    StringItemsOfStrList(b.reasons);
  }
}
