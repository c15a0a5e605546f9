/** Why a profile, workload, plan, scenario, configuration or report was refused, and the text written into reports. */
module Reasons {
  import opened JsonValues

  datatype Reason =
    // any checked field
    | MissingField(f: Field) | MustBe(f: Field, what: string) | MustBeList(f: Field) | MustBeStringList(f: Field)
    | MustBeString(f: Field) | MustBeBoolean(f: Field) | MustBeCount(f: Field)
    // gate
    | IsRequired(f: Field) | ProfileIdEmpty | PreferredRoutesMissing
    // plan records
    | WorkloadNotObject | UnsupportedActionType | WorkloadIdEmpty | RoleNotAllowed | TargetsEmpty | RouteNotUnique
    | RouteStatusWrong | RouteIdEmpty | RouteTargetsDiffer | UnsupportedActionSource
    // compiler bundle
    | BundleReason(text: string)
    // plan, scenario and configuration documents
    | ActionsNotObjects | PlanStatusUnsupported | UnsupportedFailureMode(mode: string)
    | UnsupportedPolicyMode(mode: string)
    // adapter and rollback reports
    | ReportUnreadable(kind: ReportKind) | ReportNotObject(kind: ReportKind)
    | ReportFieldMissing(kind: ReportKind, f: Field)
    | ReportBoundaryFailed(kind: ReportKind) | ReportFieldMistyped(kind: ReportKind)

  datatype ReportKind = AdapterKind | RollbackKind

  /** The JSON name of a field that can appear in a reason. */
  function FieldName(f: Field): string {
    match f
    case RuntimeVersion => "runtime_version"
    case ExecutionMode => "execution_mode"
    case HardwareControlEnabled => "hardware_control_enabled"
    case HumanReviewRequired => "human_review_required"
    case ClaimBoundary => "claim_boundary"
    case VoltagePolicy => "voltage_policy"
    case RuntimeLoaderHint => "runtime_loader_hint"
    case AssignedWorkloads => "assigned_workloads"
    case UnassignedWorkloads => "unassigned_workloads"
    case BlockedRoles => "blocked_roles"
    case AllowedRoles => "allowed_roles"
    case PreferredRoutes => "preferred_routes"
    case Actions => "actions"
    case BlockedActions => "blocked_actions"
    case PlanStatus => "plan_status"
    case PlanBlockReasons => "plan_block_reasons"
    case ScenarioId => "scenario_id"
    case FailureMode => "failure_mode"
    case InjectionStage => "injection_stage"
    case SimulationOnly => "simulation_only"
    case PolicyConfigId => "policy_config_id"
    case PolicyMode => "policy_mode"
    case AllowRetry => "allow_retry"
    case AllowRealExecution => "allow_real_execution"
    case AllowHardwareControl => "allow_hardware_control"
    case MaxAllowedBlockedActions => "max_allowed_blocked_actions"
    case MaxAllowedDegradedFlags => "max_allowed_degraded_flags"
    case Notes => "notes"
    case AdapterSimulationStatus => "adapter_simulation_status"
    case SimulatedActions => "simulated_actions"
    case AdapterBlockReasons => "adapter_block_reasons"
    case RollbackSimulationStatus => "rollback_simulation_status"
    case RollbackRequired => "rollback_required"
    case SafeStopRequired => "safe_stop_required"
    case NoActionTaken => "no_action_taken"
    case RollbackStrategy => "rollback_strategy"
    case SimulatedRevertActionsPlanned => "simulated_revert_actions_planned"
    case Other(name) => name
    case _ => "field"
  }

  function ReportText(kind: ReportKind): string {
    match kind
    case AdapterKind => "invalid_adapter_report"
    case RollbackKind => "invalid_rollback_report"
  }

  function Text(r: Reason): string {
    match r
    case MissingField(f) => "missing_required_field:" + FieldName(f)
    case MustBe(f, what) => FieldName(f) + "_must_be_" + what
    case MustBeList(f) => FieldName(f) + "_must_be_list"
    case MustBeStringList(f) => FieldName(f) + "_must_be_string_list"
    case MustBeString(f) => FieldName(f) + "_must_be_string"
    case MustBeBoolean(f) => FieldName(f) + "_must_be_boolean"
    case MustBeCount(f) => FieldName(f) + "_must_be_nonnegative_integer"
    case IsRequired(f) =>
      if f == UnassignedWorkloads then "missing_unassigned_workloads" else FieldName(f) + "_is_required"
    case ProfileIdEmpty => "profile_id_must_be_non_empty_string"
    case PreferredRoutesMissing => "preferred_routes_missing"
    case WorkloadNotObject => "workload_mapping_must_be_object"
    case UnsupportedActionType => "unsupported_action_type"
    case WorkloadIdEmpty => "workload_id_must_be_non_empty_string"
    case RoleNotAllowed => "workload_role_not_allowed"
    case TargetsEmpty => "target_tiles_must_be_non_empty_string_list"
    case RouteNotUnique => "exactly_one_route_required_for_workload"
    case RouteStatusWrong => "route_status_must_be_candidate_simulated"
    case RouteIdEmpty => "route_id_must_be_non_empty_string"
    case RouteTargetsDiffer => "route_target_tiles_must_match_workload"
    case UnsupportedActionSource => "unsupported_action_source"
    case BundleReason(text) => text
    case ActionsNotObjects => "actions_must_contain_objects"
    case PlanStatusUnsupported => "plan_status_not_supported"
    case UnsupportedFailureMode(mode) => "unsupported_failure_mode:" + mode
    case UnsupportedPolicyMode(mode) => "unsupported_policy_mode:" + mode
    case ReportUnreadable(kind) => ReportText(kind)
    case ReportNotObject(kind) => ReportText(kind) + ":not_object"
    case ReportFieldMissing(kind, f) => ReportText(kind) + ":missing_required_field:" + FieldName(f)
    case ReportBoundaryFailed(kind) => ReportText(kind) + ":safety_boundary_failed"
    case ReportFieldMistyped(kind) => ReportText(kind) + ":invalid_field_type"
  }

  function TextsOf(rs: seq<Reason>): seq<string> {
    seq(|rs|, i requires 0 <= i < |rs| => Text(rs[i]))
  }
}
