/** Inert rollback markers for an injected failure, and the failure stage that plans them. */
module RollbackPlanner {
  import opened Base
  import opened JsonValues
  import opened Ids
  import opened Reasons
  import opened RuntimePlan
  import opened Adapters
  import opened FailureInjector

  datatype MarkerKind = SimulatedRevert | SafeStopMarker

  datatype Marker = Marker(id: string, kind: MarkerKind, source: Option<string>, reason: string)

  datatype PlanState =
    | NothingTaken | NotRequired | RevertsAndStopPlanned | StopOnly | RevertsPlanned | PlanRefused | PlanInvalid

  datatype RollbackPlan = RollbackPlan(
    required: bool, safeStop: bool, noAction: bool, status: PlanState, strategy: Strategy, markers: seq<Marker>)

  const REVERT_REASON := "source_action_was_simulated_before_injected_failure"
  const STOP_REASON := "simulated_failure_requires_safe_stop"

  function RevertAt(simulated: seq<string>, i: nat): Marker
    requires i < |simulated|
  {
    Marker(RbId(i + 1), SimulatedRevert, Some(simulated[|simulated| - 1 - i]), REVERT_REASON)
  }

  /** The simulated actions in reverse, numbered from 1. */
  function Reverts(simulated: seq<string>): seq<Marker> {
    seq(|simulated|, i requires 0 <= i < |simulated| => RevertAt(simulated, i))
  }

  function StopMarker(n: nat, source: Option<string>): Marker {
    Marker(RbId(n), SafeStopMarker, source, STOP_REASON)
  }

  const NO_ACTION: RollbackPlan := RollbackPlan(false, false, true, NothingTaken, TakeNoAction, [])

  function RollbackOf(planStatus: string, mode: Mode, injection: Injection): RollbackPlan {
    var reverts := Reverts(injection.simulated);
    if planStatus in NONEXECUTABLE then NO_ACTION
    else if mode.NoFailure? && injection.failed == [] then
      RollbackPlan(false, false, false, NotRequired, NoStrategy, [])
    else if mode.ForcedBoundary? then NO_ACTION
    else if SafeStopMode(mode) && injection.simulated != [] then
      RollbackPlan(true, true, false, RevertsAndStopPlanned, RevertThenStop,
                   reverts + [StopMarker(|reverts| + 1, injection.failureAction)])
    else if SafeStopMode(mode) then
      RollbackPlan(false, true, false, StopOnly, SafeStop, [StopMarker(1, injection.failureAction)])
    else if (injection.strategy.RevertCompleted? || injection.strategy.RollbackToStart?)
            && injection.simulated != [] then
      RollbackPlan(true, false, false, RevertsPlanned, injection.strategy, reverts)
    else NO_ACTION
  }

  method PlanReverts(simulated: seq<string>) returns (markers: seq<Marker>)
    ensures markers == Reverts(simulated)
  {
    markers := [];
    for i := 0 to |simulated|
      invariant |markers| == i && forall j :: 0 <= j < i ==> markers[j] == RevertAt(simulated, j)
    {
      markers := markers + [Marker(RbId(i + 1), SimulatedRevert, Some(simulated[|simulated| - 1 - i]), REVERT_REASON)];
    }
  }

  method BuildRollbackPlan(planStatus: string, mode: Mode, injection: Injection) returns (plan: RollbackPlan)
    ensures plan == RollbackOf(planStatus, mode, injection)
  {
    if planStatus in NONEXECUTABLE {
      return NO_ACTION;
    }
    if mode.NoFailure? && injection.failed == [] {
      return RollbackPlan(false, false, false, NotRequired, NoStrategy, []);
    }
    if mode.ForcedBoundary? {
      return NO_ACTION;
    }
    var markers: seq<Marker>;
    if SafeStopMode(mode) && injection.simulated != [] {
      markers := PlanReverts(injection.simulated);
      markers := markers + [Marker(RbId(|markers| + 1), SafeStopMarker, injection.failureAction, STOP_REASON)];
      return RollbackPlan(true, true, false, RevertsAndStopPlanned, RevertThenStop, markers);
    }
    if SafeStopMode(mode) {
      markers := [Marker(RbId(1), SafeStopMarker, injection.failureAction, STOP_REASON)];
      return RollbackPlan(false, true, false, StopOnly, SafeStop, markers);
    }
    if (injection.strategy.RevertCompleted? || injection.strategy.RollbackToStart?)
       && injection.simulated != [] {
      markers := PlanReverts(injection.simulated);
      return RollbackPlan(true, false, false, RevertsPlanned, injection.strategy, markers);
    }
    return NO_ACTION;
  }

  // ---- rollback undoes the simulation ----

  /** Undo a stack of simulated actions: a revert must name the top, a safe stop needs nothing left to revert. */
  function Unwind(stack: seq<string>, markers: seq<Marker>): Option<seq<string>> {
    if markers == [] then Some(stack)
    else
      var m := markers[0];
      match m.kind
      case SimulatedRevert =>
        if stack != [] && m.source == Some(stack[|stack| - 1]) then Unwind(stack[..|stack| - 1], markers[1..]) else None
      case SafeStopMarker => if stack == [] then Unwind(stack, markers[1..]) else None
  }

  lemma {:induction false} RevertsUnwind(simulated: seq<string>, i: nat, rest: seq<Marker>)
    requires i <= |simulated|
    ensures Unwind(simulated[..|simulated| - i], Reverts(simulated)[i..] + rest) == Unwind([], rest)
    decreases |simulated| - i
  {
    var all, n := Reverts(simulated), |simulated|;
    if i == n {
      assert simulated[..0] == [] && all[n..] + rest == rest;
    } else {
      RevertsUnwind(simulated, i + 1, rest);
      var stack := simulated[..n - i];
      assert (all[i..] + rest)[0] == all[i] == RevertAt(simulated, i);
      assert (all[i..] + rest)[1..] == all[i + 1..] + rest;
      assert stack[..|stack| - 1] == simulated[..n - (i + 1)];
    }
  }

  /** Rollback is a true inverse: whenever it is required, replaying the markers on the stack of simulated actions
      pops the matching action each time and ends empty; the markers are numbered 1, 2, 3, ... without gaps, and a
      safe-stop marker, present exactly when a safe stop is required, comes last. */
  lemma RollbackUndoesSimulation(planStatus: string, mode: Mode, injection: Injection)
    ensures var p := RollbackOf(planStatus, mode, injection);
      && (p.required ==> injection.simulated != [] && Unwind(injection.simulated, p.markers) == Some([]))
      && (forall i :: 0 <= i < |p.markers| ==> p.markers[i].id == RbId(i + 1))
      && (forall i :: 0 <= i < |p.markers| ==>
          (p.markers[i].kind == SafeStopMarker <==> p.safeStop && i == |p.markers| - 1))
      && (p.safeStop ==> p.markers != [])
      && |p.markers| == (if p.required then |injection.simulated| else 0) + (if p.safeStop then 1 else 0)
  {
    var s, p := injection.simulated, RollbackOf(planStatus, mode, injection);
    if p.required {
      var rest := if p.safeStop then [StopMarker(|s| + 1, injection.failureAction)] else [];
      RevertsUnwind(s, 0, rest);
      assert s[..|s|] == s && Reverts(s)[0..] + rest == p.markers;
      if p.safeStop { assert rest[1..] == []; }
    }
  }

  /** The state, the strategy and the report of a rollback plan follow from its three requests: reverting comes with the
      strategy of the injection, alone or before a safe stop. */
  lemma RollbackFollowsRequests(planStatus: string, mode: Mode, injection: Injection)
    ensures var p := RollbackOf(planStatus, mode, injection);
      && (p.noAction ==> !p.required && !p.safeStop)
      && (p.status == NothingTaken <==> p.noAction)
      && (p.status == NotRequired <==> !p.noAction && !p.required && !p.safeStop)
      && (p.status == RevertsAndStopPlanned <==> p.required && p.safeStop)
      && (p.status == RevertsPlanned <==> p.required && !p.safeStop)
      && (p.status == StopOnly <==> p.safeStop && !p.required)
      && (p.strategy == TakeNoAction <==> p.noAction) && (p.strategy == RevertThenStop <==> p.required && p.safeStop)
      && (p.required && !p.safeStop ==> p.strategy == injection.strategy)
      && (p.strategy == SafeStop <==> p.safeStop && !p.required)
      && (ReportStatus(p) == ReportPlanGenerated <==> p.required)
      && (ReportStatus(p) == ReportSafeStop <==> p.safeStop && !p.required)
      && (ReportStatus(p) == ReportNoAction <==> p.noAction)
      && (ReportStatus(p) == ReportNotRequired <==> !p.noAction && !p.required && !p.safeStop)
  {
  }

  /** Every marker says why it is there, and a safe stop names the failed action. */
  lemma MarkersSayWhy(planStatus: string, mode: Mode, injection: Injection)
    ensures var p := RollbackOf(planStatus, mode, injection);
      && (forall i :: 0 <= i < |p.markers| ==>
            p.markers[i].reason == match p.markers[i].kind
                                   case SimulatedRevert => "source_action_was_simulated_before_injected_failure"
                                   case SafeStopMarker => "simulated_failure_requires_safe_stop")
      && (forall i :: 0 <= i < |p.markers| && p.markers[i].kind == SafeStopMarker ==>
            p.markers[i].source == injection.failureAction)
  {
  }

  // ---- the failure stage and its report ----

  datatype ScenarioInput = NoScenario | UnreadableScenario(error: string) | GivenScenario(raw: Object)

  datatype LoadedScenario = LoadedScenario(scenario: Scenario, reasons: seq<string>)

  function LoadScenario(input: ScenarioInput): LoadedScenario {
    match input
    case NoScenario => LoadedScenario(DefaultScenario(), [])
    case UnreadableScenario(error) => LoadedScenario(DefaultScenario(), [error])
    case GivenScenario(raw) =>
      var mode := Get(raw, FailureMode);
      if ScenarioReasons(raw) != [] then
        LoadedScenario(Scenario(PyStr(GetOr(raw, ScenarioId, Str("SCN_INVALID"))),
                                ModeFromText(if mode.Str? then mode.s else "unknown"), None),
                                TextsOf(ScenarioReasons(raw)))
      else LoadedScenario(ScenarioFromMapping(raw), [])
  }

  datatype RollbackStatus =
    | ReportInvalidPlan | ReportPlanBlocked | ReportScenarioBlocked
    | ReportNotRequired | ReportNoAction | ReportSafeStop | ReportPlanGenerated

  function RollbackStatusText(s: RollbackStatus): string {
    match s
    case ReportInvalidPlan => "invalid_plan"
    case ReportPlanBlocked => "blocked_plan_safety_boundary"
    case ReportScenarioBlocked => "blocked_scenario_safety_boundary"
    case ReportNotRequired => "rollback_not_required"
    case ReportNoAction => "no_action_taken"
    case ReportSafeStop => "safe_stop_planned"
    case ReportPlanGenerated => "rollback_plan_generated"
  }

  function StrategyText(s: Strategy): string {
    match s
    case NoStrategy => "none"
    case SafeStop => "safe_stop"
    case RollbackToStart => "rollback_to_pre_simulation_state"
    case RevertCompleted => "simulated_revert_completed_actions"
    case TakeNoAction => "no_action_taken"
    case RevertThenStop => "simulated_revert_completed_actions_with_safe_stop"
  }

  /** `build_rollback_report` with the fields the later stages read. */
  datatype RollbackReport = RollbackReport(
    status: RollbackStatus, planProfile: Option<string>, mode: Mode, simulatedBefore: nat, failedCount: nat,
    skippedCount: nat, plan: RollbackPlan, revertsPlanned: nat, reasons: seq<string>)

  function CountReverts(markers: seq<Marker>): nat {
    if markers == [] then 0
    else CountReverts(markers[..|markers| - 1]) + if markers[|markers| - 1].kind == SimulatedRevert then 1 else 0
  }

  function ReportStatus(p: RollbackPlan): RollbackStatus {
    match p.status
    case NotRequired => ReportNotRequired
    case NothingTaken => ReportNoAction
    case StopOnly => ReportSafeStop
    case _ => ReportPlanGenerated
  }

  function BuildRollbackReport(plan: Object, mode: Mode, injection: Injection, p: RollbackPlan,
                               status: RollbackStatus): RollbackReport {
    RollbackReport(status, StringOrNone(Get(plan, ProfileId)), mode, |injection.simulated|, |injection.failed|,
                   |injection.skipped|, p, CountReverts(p.markers), injection.reasons)
  }

  function EmptyInjection(reasons: seq<string>): Injection {
    Injection([], [], [], reasons, TakeNoAction, None, [])
  }

  function BlockedReport(plan: Object, mode: Mode, planStatus: PlanState, status: RollbackStatus,
                         reasons: seq<string>): RollbackReport {
    BuildRollbackReport(plan, mode, EmptyInjection(reasons), NO_ACTION.(status := planStatus), status)
  }

  function StatusText(plan: Object): string {
    PyStr(GetOr(plan, PlanStatus, Str("unknown")))
  }

  /** `simulate_failure_file` on a loaded plan. */
  function FailureReport(plan: Object, input: ScenarioInput): RollbackReport {
    var v, loaded := Validation(plan), LoadScenario(input);
    var s := loaded.scenario;
    if !v.StructurallyValid() then BlockedReport(plan, s.mode, PlanInvalid, ReportInvalidPlan, TextsOf(v.structural))
    else if !v.SafetyPassed() then
      BlockedReport(plan, s.mode, PlanRefused, ReportPlanBlocked, TextsOf(v.safety))
    else if loaded.reasons != [] then
      BlockedReport(plan, s.mode, PlanRefused, ReportScenarioBlocked, loaded.reasons)
    else
      LoadedModeSupported(input);
      var status := StatusText(plan);
      var injection :=
        if status in NONEXECUTABLE then EmptyInjection(["source_plan_not_executable:" + status])
        else InjectionOf(PlanActions(plan), s);
      var p := RollbackOf(status, s.mode, injection);
      BuildRollbackReport(plan, s.mode, injection, p, ReportStatus(p))
  }

  lemma LoadedModeSupported(input: ScenarioInput)
    requires LoadScenario(input).reasons == []
    ensures ModeSupported(LoadScenario(input).scenario.mode)
  {
    if input.GivenScenario? { ScenarioRefusedExactlyUnlessAccepted(input.raw); }
  }

  method SimulateFailure(plan: Object, input: ScenarioInput) returns (report: RollbackReport)
    ensures report == FailureReport(plan, input)
  {
    var v := ValidateRuntimePlan(plan);
    var loaded := LoadScenario(input);
    var s := loaded.scenario;
    if !v.StructurallyValid() {
      return BlockedReport(plan, s.mode, PlanInvalid, ReportInvalidPlan, TextsOf(v.structural));
    }
    if !v.SafetyPassed() {
      return BlockedReport(plan, s.mode, PlanRefused, ReportPlanBlocked, TextsOf(v.safety));
    }
    if loaded.reasons != [] {
      return BlockedReport(plan, s.mode, PlanRefused, ReportScenarioBlocked, loaded.reasons);
    }
    LoadedModeSupported(input);
    var status := StatusText(plan);
    var injection;
    if status in NONEXECUTABLE {
      injection := EmptyInjection(["source_plan_not_executable:" + status]);
    } else {
      injection := InjectFailure(PlanActions(plan), s);
    }
    var p := BuildRollbackPlan(status, s.mode, injection);
    report := BuildRollbackReport(plan, s.mode, injection, p, ReportStatus(p));
  }

  /** `RollbackReport.to_dict` */
  function RollbackReportToJson(r: RollbackReport): Object {
    map[RuntimeVersion := Str(RUNTIME_VERSION), SimulationOnly := Bool(true), HardwareControlEnabled := Bool(false),
        ClaimBoundary := Str(CLAIM_BOUNDARY), RollbackSimulationStatus := Str(RollbackStatusText(r.status)),
        RollbackRequired := Bool(r.plan.required), SafeStopRequired := Bool(r.plan.safeStop),
        NoActionTaken := Bool(r.plan.noAction), RollbackStrategy := Str(StrategyText(r.plan.strategy)),
        SimulatedRevertActionsPlanned := Int(r.revertsPlanned), FailureReasons := StrList(r.reasons),
        SourcePlanSummary := SummaryJson(r.planProfile)]
  }

  /** `RollbackPlan.to_dict` */
  function RollbackPlanToJson(r: RollbackReport): Object {
    map[RuntimeVersion := Str(RUNTIME_VERSION), SimulationOnly := Bool(true), HardwareControlEnabled := Bool(false),
        ClaimBoundary := Str(CLAIM_BOUNDARY), FailureMode := Str(ModeText(r.mode)),
        RollbackRequired := Bool(r.plan.required),
        SafeStopRequired := Bool(r.plan.safeStop), NoActionTaken := Bool(r.plan.noAction),
        RollbackStrategy := Str(StrategyText(r.plan.strategy))]
  }

  lemma {:induction false} RevertsCount(simulated: seq<string>, n: nat)
    requires n <= |simulated|
    ensures CountReverts(Reverts(simulated)[..n]) == n
  {
    if n > 0 {
      RevertsCount(simulated, n - 1);
      assert Reverts(simulated)[..n][..n - 1] == Reverts(simulated)[..n - 1];
    }
  }

  /** A required rollback always reports at least one planned revert: as many as there were simulated actions. */
  lemma RequiredRollbackPlansReverts(planStatus: string, mode: Mode, injection: Injection)
    ensures var p := RollbackOf(planStatus, mode, injection);
      p.required ==> CountReverts(p.markers) == |injection.simulated| > 0
  {
    var s, p := injection.simulated, RollbackOf(planStatus, mode, injection);
    if p.required {
      RevertsCount(s, |s|);
      assert Reverts(s)[..|s|] == Reverts(s);
      if p.safeStop {
        assert p.markers[..|p.markers| - 1] == Reverts(s);
      }
    }
  }
}
