/** Policy precedence: which rule decides, and what it selects. */
module PolicyEvaluator {
  import opened Base
  import opened JsonValues

  datatype Rule =
    | InvalidInput | PolicyConfigBoundary | RuntimePlanBoundary | AdapterBoundary | RollbackNoAction
    | RollbackWithSafeStop | RollbackNeeded | SafeStopNeeded | SourceNotExecutable | AdapterBlocks
    | DegradedPlan | ConservativeReview | AllowedWithWarnings

  const PRECEDENCE: seq<Rule> := [
    InvalidInput, PolicyConfigBoundary, RuntimePlanBoundary, AdapterBoundary, RollbackNoAction,
    RollbackWithSafeStop, RollbackNeeded, SafeStopNeeded, SourceNotExecutable, AdapterBlocks,
    DegradedPlan, ConservativeReview, AllowedWithWarnings]

  const POLICY_MODES: set<string> := {
    "conservative_default", "safe_stop_first", "rollback_if_prior_actions", "no_retry_v0_5_0",
    "degraded_requires_review", "no_action_on_boundary_failure"}

  datatype Policy =
    | SelectNoAction | SelectRollbackThenStop | SelectRollback | SelectSafeStop | SelectHumanReview
    | SelectBlockedBoundary | SelectBlockedArtifacts

  function PolicyText(p: Policy): string {
    match p
    case SelectNoAction => "no_action_taken"
    case SelectRollbackThenStop => "rollback_then_safe_stop_simulation_only"
    case SelectRollback => "rollback_simulation_only"
    case SelectSafeStop => "safe_stop_simulation_only"
    case SelectHumanReview => "human_review_required"
    case SelectBlockedBoundary => "blocked_by_safety_boundary"
    case SelectBlockedArtifacts => "blocked_invalid_artifacts"
  }

  datatype PolicyState =
    | InvalidPolicyInput | BlockedBySafetyBoundary | BlockedArtifacts | BlockedConfigBoundary
    | StateNoAction | StateRollback | StateSafeStop | StateHumanReview

  function PolicyStateText(s: PolicyState): string {
    match s
    case InvalidPolicyInput => "invalid_policy_input"
    case BlockedBySafetyBoundary => "blocked_by_safety_boundary"
    case BlockedArtifacts => "blocked_invalid_artifacts"
    case BlockedConfigBoundary => "blocked_policy_config_safety_boundary"
    case StateNoAction => "policy_no_action_taken"
    case StateRollback => "policy_rollback_required"
    case StateSafeStop => "policy_safe_stop_required"
    case StateHumanReview => "policy_requires_human_review"
  }

  predicate StartsWith(s: string, prefix: string) {
    prefix <= s
  }

  /** The switches the evaluator reads off its input payloads. */
  datatype Signals = Signals(
    adapterSafety: bool, rollbackBoundary: bool, noAction: bool, rollback: bool, safeStop: bool,
    adapterBlocks: bool, degraded: bool, notExecutable: bool, planWarnings: bool)

  predicate FlagSet(report: Option<Object>, f: Field) {
    report.Some? && Get(report.value, f) == Bool(true)
  }

  predicate HasAdapterBlocks(adapter: Option<Object>) {
    adapter.Some? && Get(adapter.value, BlockedActions).Int? && Get(adapter.value, BlockedActions).i > 0
  }

  function StatusOf(plan: Object): string {
    PyStr(GetOr(plan, PlanStatus, Str("unknown")))
  }

  function SignalsOf(plan: Object, adapter: Option<Object>, rollback: Option<Object>): Signals {
    var status := StatusOf(plan);
    Signals(
      adapter.Some? && Get(adapter.value, AdapterSimulationStatus) == Str("blocked_safety_boundary"),
      rollback.Some? && StartsWith(PyStr(GetOr(rollback.value, RollbackSimulationStatus, Str(""))), "blocked_"),
      FlagSet(rollback, NoActionTaken), FlagSet(rollback, RollbackRequired), FlagSet(rollback, SafeStopRequired),
      HasAdapterBlocks(adapter),
      status == "degraded_no_execution_plan" || Truthy(Get(plan, DegradedBundleMode)),
      status in {"blocked_by_safety_gate", "blocked_by_bundle_validation"},
      status == "planned_with_blocks" || Truthy(Get(plan, PlanBlockReasons)))
  }

  /** When each rule matches. */
  predicate RuleMatches(s: Signals, r: Rule) {
    match r
    case AdapterBoundary => s.adapterSafety || s.rollbackBoundary
    case RollbackNoAction => s.noAction
    case RollbackWithSafeStop => s.rollback && s.safeStop
    case RollbackNeeded => s.rollback
    case SafeStopNeeded => s.safeStop
    case SourceNotExecutable => s.notExecutable
    case AdapterBlocks => s.adapterBlocks
    case DegradedPlan => s.degraded
    case ConservativeReview => true
    case AllowedWithWarnings => s.planWarnings
    case _ => false
  }

  /** Scan the precedence order for the first rule that matches. */
  function FirstMatched(s: Signals, i: nat): Rule
    requires i <= |PRECEDENCE|
    decreases |PRECEDENCE| - i
  {
    if i == |PRECEDENCE| then ConservativeReview
    else if RuleMatches(s, PRECEDENCE[i]) then PRECEDENCE[i]
    else FirstMatched(s, i + 1)
  }

  function Rank(r: Rule): nat {
    match r
    case InvalidInput => 0
    case PolicyConfigBoundary => 1
    case RuntimePlanBoundary => 2
    case AdapterBoundary => 3
    case RollbackNoAction => 4
    case RollbackWithSafeStop => 5
    case RollbackNeeded => 6
    case SafeStopNeeded => 7
    case SourceNotExecutable => 8
    case AdapterBlocks => 9
    case DegradedPlan => 10
    case ConservativeReview => 11
    case AllowedWithWarnings => 12
  }

  lemma RankIsPosition(r: Rule)
    ensures Rank(r) < |PRECEDENCE| && PRECEDENCE[Rank(r)] == r
  {
  }

  lemma RankOfPosition(i: nat)
    requires i < |PRECEDENCE|
    ensures Rank(PRECEDENCE[i]) == i
  {
  }

  lemma {:induction false} FirstMatchedFrom(s: Signals, i: nat, r: Rule)
    requires i <= Rank(r) && RuleMatches(s, r)
    requires i <= |PRECEDENCE|
    ensures RuleMatches(s, FirstMatched(s, i))
    ensures i <= Rank(FirstMatched(s, i)) <= Rank(r)
    decreases |PRECEDENCE| - i
  {
    RankIsPosition(r);
    RankOfPosition(i);
    if !RuleMatches(s, PRECEDENCE[i]) {
      FirstMatchedFrom(s, i + 1, r);
    }
  }

  /** The deciding rule is the matching rule of highest precedence. */
  lemma DecidingRuleIsLeast(s: Signals)
    ensures RuleMatches(s, FirstMatched(s, 0))
    ensures forall r :: RuleMatches(s, r) ==> Rank(FirstMatched(s, 0)) <= Rank(r)
  {
    FirstMatchedFrom(s, 0, ConservativeReview);
    forall r | RuleMatches(s, r) ensures Rank(FirstMatched(s, 0)) <= Rank(r) {
      FirstMatchedFrom(s, 0, r);
    }
  }

  datatype Decision = Decision(
    mode: string, selected: Policy, status: PolicyState, rule: Rule, reasons: seq<string>, blocked: seq<string>,
    warnings: seq<string>, warningInputs: seq<string>)

  /** `int(rollback_report.get("simulated_revert_actions_planned", 0))` */
  function PriorReverts(rollback: Option<Object>): int {
    if rollback.Some? && Get(rollback.value, SimulatedRevertActionsPlanned).Int?
    then Get(rollback.value, SimulatedRevertActionsPlanned).i else 0
  }

  function BoundaryReasons(adapter: Option<Object>, rollback: Option<Object>): seq<string> {
    var source := if adapter.Some? then Get(adapter.value, AdapterSafetyFailureReasons)
                  else if rollback.Some? then Get(rollback.value, FailureReasons) else Null;
    var texts := if source.List? then StringItems(source.items) else [];
    if texts == [] then ["policy_input_safety_boundary_failed"] else texts
  }

  /** selected policy, status, reasons, blocking reasons */
  function OutcomeFor(rule: Rule, planStatus: string, mode: string, adapter: Option<Object>, rollback: Option<Object>):
    (Policy, PolicyState, seq<string>, seq<string>)
  {
    match rule
    case AdapterBoundary =>
      (if mode == "no_action_on_boundary_failure" then SelectNoAction else SelectBlockedBoundary,
       BlockedBySafetyBoundary, [], BoundaryReasons(adapter, rollback))
    case RollbackNoAction => (SelectNoAction, StateNoAction, ["rollback_report_no_action_taken"], [])
    case RollbackWithSafeStop =>
      (SelectRollbackThenStop, StateRollback, ["rollback_required", "safe_stop_required"], [])
    case RollbackNeeded =>
      if mode == "rollback_if_prior_actions" && PriorReverts(rollback) <= 0 then
        (SelectNoAction, StateNoAction, ["rollback_requested_without_prior_simulated_actions"], [])
      else (SelectRollback, StateRollback, ["rollback_required"], [])
    case SafeStopNeeded => (SelectSafeStop, StateSafeStop, ["safe_stop_required"], [])
    case SourceNotExecutable =>
      (SelectNoAction, StateNoAction, ["source_plan_not_executable:" + planStatus], [])
    case AdapterBlocks => (SelectHumanReview, StateHumanReview, ["adapter_blocks_present"], [])
    case DegradedPlan => (SelectHumanReview, StateHumanReview, ["degraded_mode_requires_human_review"], [])
    case _ => (SelectHumanReview, StateHumanReview, ["conservative_default_requires_human_review"], [])
  }

  function WarningInputs(plan: Object, adapter: Option<Object>, rollback: Option<Object>): seq<string> {
    Dedup(
      (if HasAdapterBlocks(adapter)
       then ["adapter_report.blocked_actions", "adapter_report.adapter_block_reasons"] else [])
      + (if Get(plan, PlanStatus) == Str("degraded_no_execution_plan")
         then ["runtime_plan.degraded_no_execution_plan"] else [])
      + (if Truthy(Get(plan, DegradedBundleMode)) then ["bundle.degraded_missing_artifacts"] else [])
      + (if FlagSet(rollback, SafeStopRequired) then ["rollback_report.safe_stop_required"] else [])
      + (if FlagSet(rollback, RollbackRequired) then ["rollback_report.rollback_required"] else []))
  }

  function AdapterReasons(adapter: Option<Object>): seq<string> {
    if adapter.Some? && Get(adapter.value, AdapterBlockReasons).List?
    then StringItems(Get(adapter.value, AdapterBlockReasons).items) else []
  }

  function WarningReasonsFor(adapter: Option<Object>, rollback: Option<Object>, inputs: seq<string>): seq<string> {
    Dedup(
      (if "adapter_report.blocked_actions" in inputs then ["adapter_blocks_present"] + AdapterReasons(adapter) else [])
      + (if "runtime_plan.degraded_no_execution_plan" in inputs then ["degraded_mode_requires_human_review"] else [])
      + (if "bundle.degraded_missing_artifacts" in inputs then ["degraded_bundle_mode"] else [])
      + (if FlagSet(rollback, RollbackRequired) then ["rollback_required"] else [])
      + (if FlagSet(rollback, SafeStopRequired) then ["safe_stop_required"] else []))
  }

  function DecisionFor(rule: Rule, planStatus: string, mode: string, adapter: Option<Object>,
                       rollback: Option<Object>, inputs: seq<string>): Decision
  {
    var o := OutcomeFor(rule, planStatus, mode, adapter, rollback);
    var retry := if mode == "no_retry_v0_5_0" && rule == ConservativeReview then ["retry_forbidden_in_v0_5_0"] else [];
    Decision(mode, o.0, o.1, rule, Dedup(retry + o.2), Dedup(o.3), WarningReasonsFor(adapter, rollback, inputs), inputs)
  }

  function DecisionOf(plan: Object, mode: string, adapter: Option<Object>, rollback: Option<Object>): Decision {
    DecisionFor(FirstMatched(SignalsOf(plan, adapter, rollback), 0), StatusOf(plan), mode, adapter, rollback,
                WarningInputs(plan, adapter, rollback))
  }

  // ---- the evaluator as the source writes it ----

  /** Record a rule if its condition holds. */
  method Match(matches: set<Rule>, condition: bool, rule: Rule) returns (matches': set<Rule>)
    ensures forall r :: r in matches' <==> r in matches || (condition && r == rule)
  {
    matches' := matches;
    if condition {
      matches' := matches' + {rule};
    }
  }

  predicate FromRollback(r: Rule) {
    r in {AdapterBoundary, RollbackNoAction, RollbackWithSafeStop, RollbackNeeded, SafeStopNeeded}
  }

  method MatchRollback(s: Signals) returns (matches: set<Rule>)
    ensures forall r :: r in matches <==> FromRollback(r) && RuleMatches(s, r)
  {
    matches := Match({}, s.adapterSafety || s.rollbackBoundary, AdapterBoundary);
    matches := Match(matches, s.noAction, RollbackNoAction);
    matches := Match(matches, s.rollback && s.safeStop, RollbackWithSafeStop);
    matches := Match(matches, s.rollback, RollbackNeeded);
    matches := Match(matches, s.safeStop, SafeStopNeeded);
  }

  method CollectMatches(s: Signals) returns (matches: set<Rule>)
    ensures forall r :: r in matches <==> RuleMatches(s, r)
  {
    matches := MatchRollback(s);
    matches := Match(matches, true, ConservativeReview);
    matches := Match(matches, s.notExecutable, SourceNotExecutable);
    matches := Match(matches, s.adapterBlocks, AdapterBlocks);
    matches := Match(matches, s.degraded, DegradedPlan);
    matches := Match(matches, s.planWarnings, AllowedWithWarnings);
  }

  method ScanPrecedence(matches: set<Rule>, ghost s: Signals) returns (rule: Rule)
    requires forall r :: r in matches <==> RuleMatches(s, r)
    ensures rule == FirstMatched(s, 0)
  {
    for i := 0 to |PRECEDENCE|
      invariant FirstMatched(s, 0) == FirstMatched(s, i)
    {
      if PRECEDENCE[i] in matches {
        return PRECEDENCE[i];
      }
    }
    return ConservativeReview;
  }

  method EvaluatePolicy(plan: Object, mode: string, adapter: Option<Object>, rollback: Option<Object>)
    returns (d: Decision)
    ensures d == DecisionOf(plan, mode, adapter, rollback)
  {
    var s := SignalsOf(plan, adapter, rollback);
    var matches := CollectMatches(s);
    var rule := ScanPrecedence(matches, s);
    d := DecisionFor(rule, StatusOf(plan), mode, adapter, rollback, WarningInputs(plan, adapter, rollback));
  }

  /** Which signals lead to which rule: the precedence order written as a ladder. */
  lemma DecidingRule(s: Signals)
    ensures FirstMatched(s, 0) ==
      if s.adapterSafety || s.rollbackBoundary then AdapterBoundary
      else if s.noAction then RollbackNoAction
      else if s.rollback && s.safeStop then RollbackWithSafeStop
      else if s.rollback then RollbackNeeded
      else if s.safeStop then SafeStopNeeded
      else if s.notExecutable then SourceNotExecutable
      else if s.adapterBlocks then AdapterBlocks
      else if s.degraded then DegradedPlan
      else ConservativeReview
  {
    DecidingRuleIsLeast(s);
    var r := FirstMatched(s, 0);
    assert RuleMatches(s, AdapterBoundary) ==> Rank(r) <= Rank(AdapterBoundary);
    assert RuleMatches(s, RollbackNoAction) ==> Rank(r) <= Rank(RollbackNoAction);
    assert RuleMatches(s, RollbackWithSafeStop) ==> Rank(r) <= Rank(RollbackWithSafeStop);
    assert RuleMatches(s, RollbackNeeded) ==> Rank(r) <= Rank(RollbackNeeded);
    assert RuleMatches(s, SafeStopNeeded) ==> Rank(r) <= Rank(SafeStopNeeded);
    assert RuleMatches(s, SourceNotExecutable) ==> Rank(r) <= Rank(SourceNotExecutable);
    assert RuleMatches(s, AdapterBlocks) ==> Rank(r) <= Rank(AdapterBlocks);
    assert RuleMatches(s, DegradedPlan) ==> Rank(r) <= Rank(DegradedPlan);
    assert RuleMatches(s, ConservativeReview) ==> Rank(r) <= Rank(ConservativeReview);
  }
}
