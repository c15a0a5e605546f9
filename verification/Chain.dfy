/** The simulation chain end to end: gate, plan, adapters, failure, rollback and policy, joined by their JSON
    documents. */
module Chain {
  import opened Base
  import opened JsonValues
  import opened SafetyGate
  import opened PlanBuilder
  import opened Reasons
  import opened RuntimePlan
  import opened Adapters
  import opened FailureInjector
  import opened InjectionTheorems
  import opened RollbackPlanner
  import opened PolicyEvaluator
  import opened PolicySimulator

  function PlanDoc(profile: Object): Object {
    PlanToJson(PlanOf(profile))
  }

  function AdapterDoc(plan: Object): Object {
    AdapterReportToJson(SimulateReport(plan))
  }

  function RollbackDoc(plan: Object, scenario: ScenarioInput): Object {
    RollbackReportToJson(FailureReport(plan, scenario))
  }

  /** The policy stage as the pipeline runs it: on the plan and on the two reports just written. */
  function PolicyOf(plan: Object, scenario: ScenarioInput, config: ConfigInput): Decision {
    PolicyOutcome(plan, config, ReportPayload(AdapterDoc(plan)), ReportPayload(RollbackDoc(plan, scenario)))
  }

  // ---- every report written upstream passes every check downstream ----

  lemma AdapterReportPasses(r: AdapterReport)
    ensures ReportAccepted(AdapterKind, AdapterReportToJson(r))
  {
    TextsOfStrList(r.blockReasons);
  }

  lemma RollbackReportPasses(r: RollbackReport)
    ensures ReportAccepted(RollbackKind, RollbackReportToJson(r))
  {
  }

  // ---- the failure stage in closed form ----

  /** What the rollback plan asks for, by failure mode and number k of actions simulated before the failure. */
  lemma RollbackAsks(planStatus: string, mode: Mode, injection: Injection, k: nat)
    requires planStatus !in NONEXECUTABLE && ModeSupported(mode) && k == |injection.simulated|
    requires Injecting(mode) ==> injection.strategy == StrategyFor(mode)
    requires mode.NoFailure? && injection.failed != [] ==> injection.strategy == SafeStop
    ensures var p := RollbackOf(planStatus, mode, injection);
      && (p.required <==> Injecting(mode) && k > 0)
      && (p.safeStop <==> SafeStopMode(mode))
      && (p.noAction <==>
          mode.ForcedBoundary? || (mode.NoFailure? && injection.failed != []) || (RevertMode(mode) && k == 0))
  {
  }

  /** The number of actions simulated before an injected failure. */
  function SimulatedBefore(plan: Object, s: Scenario): nat {
    var actions := PlanActions(plan);
    if Injecting(s.mode) && actions != [] then FailurePoint(VerdictsOf(Probes(actions)), TargetIndex(actions, s)) else 0
  }

  lemma InjectionCounts(plan: Object, s: Scenario)
    requires ExecutablePlan(plan) && ModeSupported(s.mode)
    ensures var r := InjectionOf(PlanActions(plan), s);
      && (Injecting(s.mode) ==> |r.simulated| == SimulatedBefore(plan, s) && r.strategy == StrategyFor(s.mode))
      && (s.mode.NoFailure? ==> (r.failed != [] <==> SimulateReport(plan).blocked > 0))
      && (s.mode.NoFailure? && r.failed != [] ==> r.strategy == SafeStop)
  {
    if Injecting(s.mode) {
      var actions := PlanActions(plan);
      InjectingModesInject(actions, s);
      if actions != [] {
        FailurePointIsMinimum(VerdictsOf(Probes(actions)), TargetIndex(actions, s));
      }
    } else if s.mode.NoFailure? {
      UndisturbedAgreesWithAdapters(plan, s);
      BlockedExactlyWhenRejected(SimulateReport(plan).results);
    }
  }

  lemma {:induction false} BlockedExactlyWhenRejected(results: seq<MockResult>)
    ensures |ResultIds(results, false)| == |results| - CountSimulated(results)
  {
    if results != [] { BlockedExactlyWhenRejected(results[..|results| - 1]); }
  }

  // ---- stage statuses after an accepted plan ----

  ghost predicate ScenarioInputAccepted(input: ScenarioInput) {
    input.NoScenario? || (input.GivenScenario? && ScenarioAccepted(input.raw))
  }

  predicate AdapterBlocked(status: AdapterStatus) {
    status.InvalidPlan? || status.SafetyBlocked?
  }

  predicate FailureBlocked(status: RollbackStatus) {
    status.ReportInvalidPlan? || status.ReportScenarioBlocked? || status.ReportPlanBlocked?
  }

  predicate PolicyBlocked(status: PolicyState) {
    status.InvalidPolicyInput? || status.BlockedBySafetyBoundary? || status.BlockedArtifacts?
      || status.BlockedConfigBoundary?
  }

  lemma AdapterBlocksOnlyRefusedPlans(plan: Object)
    ensures AdapterBlocked(SimulateReport(plan).status) <==> !Validation(plan).SafetyPassed()
  {
  }

  lemma ScenarioLoadsExactlyAccepted(input: ScenarioInput)
    ensures LoadScenario(input).reasons == [] <==> ScenarioInputAccepted(input)
    ensures ScenarioInputAccepted(input) ==> ModeSupported(LoadScenario(input).scenario.mode)
  {
    if input.GivenScenario? { ScenarioRefusedExactlyUnlessAccepted(input.raw); }
  }

  /** The injection the failure stage plans a rollback for. */
  function StageInjection(plan: Object, s: Scenario): Injection
    requires ModeSupported(s.mode)
  {
    if StatusText(plan) in NONEXECUTABLE then EmptyInjection(["source_plan_not_executable:" + StatusText(plan)])
    else InjectionOf(PlanActions(plan), s)
  }

  lemma FailureStageOutcome(plan: Object, input: ScenarioInput)
    requires Validation(plan).SafetyPassed()
    ensures !ScenarioInputAccepted(input) ==> FailureReport(plan, input).status == ReportScenarioBlocked
    ensures ScenarioInputAccepted(input) ==>
      var s := LoadScenario(input).scenario;
      && ModeSupported(s.mode)
      && var r, injection := FailureReport(plan, input), StageInjection(plan, s);
         && r.plan == RollbackOf(StatusText(plan), s.mode, injection)
         && r.status == ReportStatus(r.plan)
         && r.revertsPlanned == CountReverts(r.plan.markers)
  {
    ScenarioLoadsExactlyAccepted(input);
  }

  lemma UnblockedStatusText(s: RollbackStatus)
    requires !FailureBlocked(s)
    ensures !StartsWith(RollbackStatusText(s), "blocked_")
  {
    assert RollbackStatusText(s)[0] != "blocked_"[0];
  }

  // ---- the final policy ----

  lemma AdapterSignals(a: AdapterReport)
    ensures Get(AdapterReportToJson(a), AdapterSimulationStatus) == Str(AdapterStatusText(a.status))
    ensures HasAdapterBlocks(Some(AdapterReportToJson(a))) <==> a.blocked > 0
  {
  }

  lemma AdapterTextsDiffer(s: AdapterStatus)
    ensures AdapterStatusText(s) == "blocked_safety_boundary" <==> s == SafetyBlocked
  {
  }

  lemma RollbackSignals(r: RollbackReport)
    ensures var doc := Some(RollbackReportToJson(r));
      && FlagSet(doc, NoActionTaken) == r.plan.noAction
      && FlagSet(doc, RollbackRequired) == r.plan.required
      && FlagSet(doc, SafeStopRequired) == r.plan.safeStop
      && PyStr(GetOr(doc.value, RollbackSimulationStatus, Str(""))) == RollbackStatusText(r.status)
      && PriorReverts(doc) == r.revertsPlanned
  {
  }

  /** What the rollback plan of a report leads to. */
  function SelectedBy(p: RollbackPlan): Policy {
    if p.noAction then SelectNoAction
    else if p.required then if p.safeStop then SelectRollbackThenStop else SelectRollback
    else if p.safeStop then SelectSafeStop else SelectHumanReview
  }

  function RuleBy(p: RollbackPlan): Rule {
    if p.noAction then RollbackNoAction
    else if p.required then if p.safeStop then RollbackWithSafeStop else RollbackNeeded
    else if p.safeStop then SafeStopNeeded else ConservativeReview
  }

  /** The policy status that goes with it: a required rollback outranks a safe stop. */
  function StateBy(p: RollbackPlan): PolicyState {
    if p.noAction then StateNoAction
    else if p.required then StateRollback
    else if p.safeStop then StateSafeStop else StateHumanReview
  }

  /** The deciding rule in a pipeline run depends only on what the rollback plan asks for, and below that on review
      reasons that all lead to human review. */
  lemma PipelineRule(plan: Object, a: AdapterReport, r: RollbackReport)
    requires !AdapterBlocked(a.status) && !FailureBlocked(r.status)
    requires StatusOf(plan) !in {"blocked_by_safety_gate", "blocked_by_bundle_validation"}
    ensures var rule := FirstMatched(SignalsOf(plan, Some(AdapterReportToJson(a)), Some(RollbackReportToJson(r))), 0);
      rule == RuleBy(r.plan) || (RuleBy(r.plan) == ConservativeReview && rule in {AdapterBlocks, DegradedPlan})
  {
    AdapterSignals(a);
    RollbackSignals(r);
    UnblockedStatusText(r.status);
    AdapterTextsDiffer(a.status);
    DecidingRule(SignalsOf(plan, Some(AdapterReportToJson(a)), Some(RollbackReportToJson(r))));
  }

  lemma OutcomeSelects(rule: Rule, p: RollbackPlan, status: string, mode: string, adapter: Option<Object>,
                       rollback: Option<Object>)
    requires rule == RuleBy(p) || (RuleBy(p) == ConservativeReview && rule in {AdapterBlocks, DegradedPlan})
    requires p.required ==> PriorReverts(rollback) > 0
    ensures OutcomeFor(rule, status, mode, adapter, rollback).0 == SelectedBy(p)
    ensures OutcomeFor(rule, status, mode, adapter, rollback).1 == StateBy(p)
  {
  }

  /** Whatever the policy mode, the evaluator selects what the rollback plan leads to. */
  lemma EvaluatorSelects(plan: Object, mode: string, a: AdapterReport, r: RollbackReport)
    requires !AdapterBlocked(a.status) && !FailureBlocked(r.status)
    requires StatusOf(plan) !in {"blocked_by_safety_gate", "blocked_by_bundle_validation"}
    requires r.plan.required ==> r.revertsPlanned > 0
    ensures var d := DecisionOf(plan, mode, Some(AdapterReportToJson(a)), Some(RollbackReportToJson(r)));
      d.selected == SelectedBy(r.plan) && d.status == StateBy(r.plan)
  {
    PipelineRule(plan, a, r);
    RollbackSignals(r);
    var adapter, rollback := Some(AdapterReportToJson(a)), Some(RollbackReportToJson(r));
    OutcomeSelects(FirstMatched(SignalsOf(plan, adapter, rollback), 0), r.plan, StatusOf(plan), mode, adapter,
                   rollback);
  }

  /** The selected policy as a function of degradation, failure mode, the number k of actions simulated before an
      injected failure, and whether the adapters rejected any action. */
  function FinalPolicy(degraded: bool, mode: Mode, k: nat, rejected: bool): Policy {
    if degraded || mode.ForcedBoundary? then SelectNoAction
    else if mode.NoFailure? then if rejected then SelectNoAction else SelectHumanReview
    else if SafeStopMode(mode) then if k > 0 then SelectRollbackThenStop else SelectSafeStop
    else if k > 0 then SelectRollback else SelectNoAction
  }

  /** The policy status, of the same four switches: rollback when something simulated is to be reverted, safe stop when
      nothing is, human review when nothing failed, no action otherwise. */
  function FinalState(degraded: bool, mode: Mode, k: nat, rejected: bool): PolicyState {
    if !degraded && Injecting(mode) && k > 0 then StateRollback
    else if !degraded && SafeStopMode(mode) then StateSafeStop
    else if !degraded && mode.NoFailure? && !rejected then StateHumanReview
    else StateNoAction
  }

  /** A plan document as a passed gate produces it: accepted, and executable or degraded. */
  ghost predicate GatedPlan(plan: Object) {
    && Validation(plan).SafetyPassed()
    && Get(plan, PlanStatus).Str?
    && (plan[PlanStatus].s in EXECUTABLE || DegradedStatus(plan))
  }

  predicate DegradedStatus(plan: Object) {
    Get(plan, PlanStatus) == Str("degraded_no_execution_plan")
  }

  lemma GatedPlanStatus(plan: Object)
    requires GatedPlan(plan)
    ensures StatusOf(plan) !in {"blocked_by_safety_gate", "blocked_by_bundle_validation"}
    ensures StatusText(plan) in NONEXECUTABLE <==> DegradedStatus(plan)
    ensures !DegradedStatus(plan) ==> ExecutablePlan(plan)
  {
  }

  /** What the failure stage asks for. */
  lemma StageRollbackAsks(plan: Object, input: ScenarioInput)
    requires GatedPlan(plan) && ScenarioInputAccepted(input)
    ensures var s := LoadScenario(input).scenario;
      Asks(FailureReport(plan, input).plan, DegradedStatus(plan), s.mode, SimulatedBefore(plan, s),
           SimulateReport(plan).blocked > 0)
  {
    FailureStageOutcome(plan, input);
    GatedPlanStatus(plan);
    var s := LoadScenario(input).scenario;
    var injection := StageInjection(plan, s);
    if !DegradedStatus(plan) {
      InjectionCounts(plan, s);
      RollbackAsks(StatusText(plan), s.mode, injection, |injection.simulated|);
    }
  }

  /** The requests of a rollback plan as a function of degradation, failure mode, k and rejection. */
  ghost predicate Asks(p: RollbackPlan, degraded: bool, mode: Mode, k: nat, rejected: bool) {
    && ModeSupported(mode)
    && (degraded ==> p.noAction && !p.required && !p.safeStop)
    && (!degraded ==>
         && (p.required <==> Injecting(mode) && k > 0)
         && (p.safeStop <==> SafeStopMode(mode))
         && (p.noAction <==> mode.ForcedBoundary? || (mode.NoFailure? && rejected) || (RevertMode(mode) && k == 0)))
  }

  lemma AsksMeanFinalPolicy(p: RollbackPlan, degraded: bool, mode: Mode, k: nat, rejected: bool)
    requires Asks(p, degraded, mode, k, rejected)
    ensures SelectedBy(p) == FinalPolicy(degraded, mode, k, rejected)
    ensures StateBy(p) == FinalState(degraded, mode, k, rejected)
  {
  }

  lemma SelectedInPipeline(plan: Object, config: ConfigInput, a: AdapterReport, r: RollbackReport)
    requires GatedPlan(plan) && ConfigInputAccepted(config)
    requires !AdapterBlocked(a.status) && !FailureBlocked(r.status)
    requires r.plan.required ==> r.revertsPlanned > 0
    ensures var d := PolicyOutcome(plan, config, ReportPayload(AdapterReportToJson(a)),
                                   ReportPayload(RollbackReportToJson(r)));
      d.selected == SelectedBy(r.plan) && d.status == StateBy(r.plan)
  {
    AdapterReportPasses(a);
    RollbackReportPasses(r);
    GatedPlanStatus(plan);
    AcceptedInputsReachEvaluator(plan, config, AdapterReportToJson(a), RollbackReportToJson(r));
    EvaluatorSelects(plan, ModeOf(config), a, r);
  }

  lemma StageReportFacts(plan: Object, input: ScenarioInput)
    requires Validation(plan).SafetyPassed() && ScenarioInputAccepted(input)
    ensures var r := FailureReport(plan, input);
      && !FailureBlocked(r.status)
      && (r.plan.required ==> r.revertsPlanned > 0)
  {
    hide Validation, FailureReport, LoadScenario, RollbackOf, StatusText, StageInjection, CountReverts;
    hide ScenarioInputAccepted;
    FailureStageOutcome(plan, input);
    var s := LoadScenario(input).scenario;
    RequiredRollbackPlansReverts(StatusText(plan), s.mode, StageInjection(plan, s));
  }

  /** The injected-failure count and the rejection switch of a plan. */
  function PolicyOn(plan: Object, s: Scenario): Policy {
    FinalPolicy(DegradedStatus(plan), s.mode, SimulatedBefore(plan, s), SimulateReport(plan).blocked > 0)
  }

  function StateOn(plan: Object, s: Scenario): PolicyState {
    FinalState(DegradedStatus(plan), s.mode, SimulatedBefore(plan, s), SimulateReport(plan).blocked > 0)
  }

  lemma FinalStateUnblocked(degraded: bool, mode: Mode, k: nat, rejected: bool)
    ensures !PolicyBlocked(FinalState(degraded, mode, k, rejected))
  {
  }

  /** Final-policy closed form on any accepted plan document that a passed gate can produce. */
  lemma PolicyClosedFormOnPlans(plan: Object, input: ScenarioInput, config: ConfigInput)
    requires GatedPlan(plan) && ScenarioInputAccepted(input) && ConfigInputAccepted(config)
    ensures PolicyOf(plan, input, config).selected == PolicyOn(plan, LoadScenario(input).scenario)
    ensures PolicyOf(plan, input, config).status == StateOn(plan, LoadScenario(input).scenario)
    ensures !PolicyBlocked(PolicyOf(plan, input, config).status)
  {
    hide GatedPlan, ConfigInputAccepted, ScenarioInputAccepted, LoadScenario, SimulateReport, SimulatedBefore, Asks;
    hide FailureReport, PolicyOutcome, AdapterReportToJson, RollbackReportToJson, Validation, AdapterBlocked;
    hide FailureBlocked, DegradedStatus, PolicyBlocked, SelectedBy, StateBy, FinalPolicy, FinalState;
    PlanIsAccepted(plan);
    AdapterBlocksOnlyRefusedPlans(plan);
    StageReportFacts(plan, input);
    SelectedInPipeline(plan, config, SimulateReport(plan), FailureReport(plan, input));
    StageRollbackAsks(plan, input);
    var s := LoadScenario(input).scenario;
    AsksMeanFinalPolicy(FailureReport(plan, input).plan, DegradedStatus(plan), s.mode, SimulatedBefore(plan, s),
                        SimulateReport(plan).blocked > 0);
    FinalStateUnblocked(DegradedStatus(plan), s.mode, SimulatedBefore(plan, s), SimulateReport(plan).blocked > 0);
  }

  lemma PassedGateGivesGatedPlan(profile: Object)
    requires Gate(profile).passed
    ensures GatedPlan(PlanDoc(profile))
    ensures DegradedStatus(PlanDoc(profile)) <==> Gate(profile).degraded
  {
    PassedGateBuildsAcceptedPlan(profile);
    BuiltPlanStatus(profile);
  }

  /** Final-policy closed form, from the profile: after a passed gate, an accepted scenario and an accepted
      configuration, the policy stage completes and selects the closed form, in every policy mode alike. */
  lemma PolicyClosedForm(profile: Object, input: ScenarioInput, config: ConfigInput)
    requires Gate(profile).passed && ScenarioInputAccepted(input) && ConfigInputAccepted(config)
    ensures var plan, s := PlanDoc(profile), LoadScenario(input).scenario;
      && PolicyOf(plan, input, config).selected ==
           FinalPolicy(Gate(profile).degraded, s.mode, SimulatedBefore(plan, s), SimulateReport(plan).blocked > 0)
      && PolicyOf(plan, input, config).status ==
           FinalState(Gate(profile).degraded, s.mode, SimulatedBefore(plan, s), SimulateReport(plan).blocked > 0)
      && !PolicyBlocked(PolicyOf(plan, input, config).status)
  {
    hide Gate, PlanDoc, PolicyOf, ScenarioInputAccepted, ConfigInputAccepted, GatedPlan, DegradedStatus;
    hide LoadScenario, SimulateReport, SimulatedBefore, PolicyBlocked, FinalPolicy, FinalState;
    PassedGateGivesGatedPlan(profile);
    PolicyClosedFormOnPlans(PlanDoc(profile), input, config);
  }

  // ---- the whole decision ----

  /** Why the evaluator decides so: what the rollback plan asks for, or the conservative default. */
  function FinalReasons(p: RollbackPlan, config: string): seq<string> {
    if p.noAction then ["rollback_report_no_action_taken"]
    else if p.required || p.safeStop then
      (if p.required then ["rollback_required"] else []) + (if p.safeStop then ["safe_stop_required"] else [])
    else
      (if config == "no_retry_v0_5_0" then ["retry_forbidden_in_v0_5_0"] else [])
      + ["conservative_default_requires_human_review"]
  }

  /** The inputs it warns of: rejected actions, a degraded plan, a safe stop, a rollback. */
  function FinalWarningInputs(p: RollbackPlan, degraded: bool, rejected: bool): seq<string> {
    (if rejected then ["adapter_report.blocked_actions", "adapter_report.adapter_block_reasons"] else [])
    + (if degraded then ["runtime_plan.degraded_no_execution_plan"] else [])
    + (if p.safeStop then ["rollback_report.safe_stop_required"] else [])
    + (if p.required then ["rollback_report.rollback_required"] else [])
  }

  /** And why: the rejections with the adapters' reasons, the degradation, what is asked for. */
  function FinalWarnings(p: RollbackPlan, degraded: bool, rejected: bool, rejections: seq<string>): seq<string> {
    (if rejected then ["adapter_blocks_present"] + rejections else [])
    + (if degraded then ["degraded_mode_requires_human_review"] else [])
    + (if p.required then ["rollback_required"] else []) + (if p.safeStop then ["safe_stop_required"] else [])
  }

  lemma RequestedRule(plan: Object, a: AdapterReport, r: RollbackReport)
    requires !AdapterBlocked(a.status) && !FailureBlocked(r.status)
    requires StatusOf(plan) !in {"blocked_by_safety_gate", "blocked_by_bundle_validation"}
    requires r.plan.noAction || r.plan.required || r.plan.safeStop
    ensures FirstMatched(SignalsOf(plan, Some(AdapterReportToJson(a)), Some(RollbackReportToJson(r))), 0) ==
            RuleBy(r.plan)
  {
    hide AdapterBlocked, FailureBlocked, SignalsOf, FirstMatched, AdapterReportToJson, RollbackReportToJson, StatusOf;
    PipelineRule(plan, a, r);
  }

  /** With nothing asked for, nothing rejected and no degradation, only the conservative default is left. */
  lemma DefaultRule(plan: Object, a: AdapterReport, r: RollbackReport)
    requires !AdapterBlocked(a.status) && !FailureBlocked(r.status)
    requires StatusOf(plan) !in {"blocked_by_safety_gate", "blocked_by_bundle_validation", "degraded_no_execution_plan"}
    requires !r.plan.noAction && !r.plan.required && !r.plan.safeStop
    requires a.blocked == 0 && !Truthy(Get(plan, DegradedBundleMode))
    ensures FirstMatched(SignalsOf(plan, Some(AdapterReportToJson(a)), Some(RollbackReportToJson(r))), 0)
            == ConservativeReview
  {
    hide AdapterBlocked, FailureBlocked, AdapterReportToJson, RollbackReportToJson, FirstMatched, AdapterStatusText;
    hide RollbackStatusText;
    AdapterSignals(a);
    PipelineRule(plan, a, r);
    DecidingRule(SignalsOf(plan, Some(AdapterReportToJson(a)), Some(RollbackReportToJson(r))));
  }

  lemma RuleReasons(p: RollbackPlan, planStatus: string, config: string, adapter: Option<Object>,
                    rollback: Option<Object>, inputs: seq<string>)
    requires p.noAction ==> !p.required && !p.safeStop
    requires p.required ==> PriorReverts(rollback) > 0
    ensures var d := DecisionFor(RuleBy(p), planStatus, config, adapter, rollback, inputs);
            d.reasons == Dedup(FinalReasons(p, config)) && d.blocked == []
  {
    hide PriorReverts, WarningReasonsFor, Dedup, OutcomeFor, RuleBy, FinalReasons;
    RuleOutcome(p, planStatus, config, adapter, rollback);
    DedupOfDistinct<string>([]);
  }

  lemma SmallSums(a: string, b: string)
    ensures [a] + [b] == [a, b] && [a] + [] == [a] && [] + [b] == [b]
  {
  }

  lemma RuleOutcome(p: RollbackPlan, planStatus: string, config: string, adapter: Option<Object>,
                    rollback: Option<Object>)
    requires p.noAction ==> !p.required && !p.safeStop
    requires p.required ==> PriorReverts(rollback) > 0
    ensures var o := OutcomeFor(RuleBy(p), planStatus, config, adapter, rollback);
            var retry := if config == "no_retry_v0_5_0" && RuleBy(p) == ConservativeReview
                         then ["retry_forbidden_in_v0_5_0"] else [];
            retry + o.2 == FinalReasons(p, config) && o.3 == []
  {
    hide PriorReverts, BoundaryReasons;
    SmallSums("rollback_required", "safe_stop_required");
    var o := OutcomeFor(RuleBy(p), planStatus, config, adapter, rollback);
    assert [] + o.2 == o.2;
  }

  lemma WarningInputsInPipeline(plan: Object, a: AdapterReport, r: RollbackReport)
    requires !Truthy(Get(plan, DegradedBundleMode))
    ensures WarningInputs(plan, Some(AdapterReportToJson(a)), Some(RollbackReportToJson(r))) ==
            Dedup(FinalWarningInputs(r.plan, DegradedStatus(plan), a.blocked > 0))
  {
    hide AdapterReportToJson, RollbackReportToJson, Dedup, HasAdapterBlocks, FlagSet;
    AdapterSignals(a);
    RollbackSignals(r);
    var first := if a.blocked > 0 then ["adapter_report.blocked_actions", "adapter_report.adapter_block_reasons"]
      else [];
    var second := if DegradedStatus(plan) then ["runtime_plan.degraded_no_execution_plan"] else [];
    assert first + second + [] == first + second;
  }

  lemma TextsDiffer()
    ensures |"adapter_report.blocked_actions"| == 30 && |"adapter_report.adapter_block_reasons"| == 36
    ensures |"runtime_plan.degraded_no_execution_plan"| == 39 && |"rollback_report.safe_stop_required"| == 34
    ensures |"rollback_report.rollback_required"| == 33 && |"bundle.degraded_missing_artifacts"| == 33
    ensures "rollback_report.rollback_required"[0] != "bundle.degraded_missing_artifacts"[0]
  {
  }

  lemma InputsSay(p: RollbackPlan, degraded: bool, rejected: bool)
    ensures var inputs := Dedup(FinalWarningInputs(p, degraded, rejected));
            && ("adapter_report.blocked_actions" in inputs <==> rejected)
            && ("runtime_plan.degraded_no_execution_plan" in inputs <==> degraded)
            && "bundle.degraded_missing_artifacts" !in inputs
  {
    hide Dedup;
    TextsDiffer();
    var all := FinalWarningInputs(p, degraded, rejected);
    if rejected { assert all[0] == "adapter_report.blocked_actions"; }
    if degraded { assert all[if rejected then 2 else 0] == "runtime_plan.degraded_no_execution_plan"; }
  }

  lemma WarningsInPipeline(plan: Object, a: AdapterReport, r: RollbackReport)
    ensures WarningReasonsFor(Some(AdapterReportToJson(a)), Some(RollbackReportToJson(r)),
                              Dedup(FinalWarningInputs(r.plan, DegradedStatus(plan), a.blocked > 0))) ==
            Dedup(FinalWarnings(r.plan, DegradedStatus(plan), a.blocked > 0, a.blockReasons))
  {
    hide AdapterReportToJson, RollbackReportToJson, Dedup, FlagSet, FinalWarningInputs, DegradedStatus, AdapterReasons;
    RollbackSignals(r);
    InputsSay(r.plan, DegradedStatus(plan), a.blocked > 0);
    ReasonsOfReport(a);
    var first := if a.blocked > 0 then ["adapter_blocks_present"] + a.blockReasons else [];
    var second := if DegradedStatus(plan) then ["degraded_mode_requires_human_review"] else [];
    assert first + second + [] == first + second;
  }

  lemma ReasonsOfReport(a: AdapterReport)
    ensures AdapterReasons(Some(AdapterReportToJson(a))) == a.blockReasons
  {
    hide AdapterStatusText;
    StringItemsOfStrList(a.blockReasons);
  }

  /** The decision that goes with a rollback plan. */
  function DecisionBy(p: RollbackPlan, degraded: bool, a: AdapterReport, config: string): Decision {
    Decision(config, SelectedBy(p), StateBy(p), RuleBy(p), Dedup(FinalReasons(p, config)), [],
             Dedup(FinalWarnings(p, degraded, a.blocked > 0, a.blockReasons)),
             Dedup(FinalWarningInputs(p, degraded, a.blocked > 0)))
  }

  /** The rollback plan of an unblocked failure stage is one the evaluator follows to the letter. */
  ghost predicate Followed(plan: Object, a: AdapterReport, r: RollbackReport) {
    && !AdapterBlocked(a.status) && !FailureBlocked(r.status) && !Truthy(Get(plan, DegradedBundleMode))
    && (r.plan.required ==> r.revertsPlanned > 0)
    && (r.plan.noAction ==> !r.plan.required && !r.plan.safeStop)
    && (RuleBy(r.plan) == ConservativeReview ==> a.blocked == 0 && !DegradedStatus(plan))
  }

  lemma FollowedRule(plan: Object, a: AdapterReport, r: RollbackReport)
    requires GatedPlan(plan) && Followed(plan, a, r)
    ensures FirstMatched(SignalsOf(plan, Some(AdapterReportToJson(a)), Some(RollbackReportToJson(r))), 0) ==
            RuleBy(r.plan)
  {
    hide GatedPlan, AdapterReportToJson, RollbackReportToJson, SignalsOf, FirstMatched, AdapterBlocked, FailureBlocked;
    GatedPlanStatus(plan);
    if r.plan.noAction || r.plan.required || r.plan.safeStop {
      RequestedRule(plan, a, r);
    } else {
      UndegradedStatus(plan);
      DefaultRule(plan, a, r);
    }
  }

  lemma UndegradedStatus(plan: Object)
    requires GatedPlan(plan) && !DegradedStatus(plan)
    ensures StatusOf(plan) != "degraded_no_execution_plan"
  {
  }

  lemma DecisionOnPlan(plan: Object, config: ConfigInput, a: AdapterReport, r: RollbackReport)
    requires GatedPlan(plan) && ConfigInputAccepted(config) && Followed(plan, a, r)
    ensures PolicyOutcome(plan, config, ReportPayload(AdapterReportToJson(a)), ReportPayload(RollbackReportToJson(r)))
            == DecisionBy(r.plan, DegradedStatus(plan), a, ModeOf(config))
  {
    hide GatedPlan, ConfigInputAccepted, AdapterReportToJson, RollbackReportToJson, SignalsOf, FirstMatched,
    PolicyOutcome;
    hide AdapterBlocked, FailureBlocked, WarningReasonsFor, WarningInputs, FinalWarnings, FinalWarningInputs;
    hide FinalReasons, Dedup, PriorReverts, DegradedStatus, OutcomeFor, ReportAccepted, SelectedBy, StateBy, ModeOf;
    var adapter, rollback := Some(AdapterReportToJson(a)), Some(RollbackReportToJson(r));
    AdapterReportPasses(a);
    RollbackReportPasses(r);
    PlanIsAccepted(plan);
    AcceptedInputsReachEvaluator(plan, config, AdapterReportToJson(a), RollbackReportToJson(r));
    FollowedRule(plan, a, r);
    RollbackSignals(r);
    WarningInputsInPipeline(plan, a, r);
    WarningsInPipeline(plan, a, r);
    RuleReasons(r.plan, StatusOf(plan), ModeOf(config), adapter, rollback, WarningInputs(plan, adapter, rollback));
    OutcomeSelects(RuleBy(r.plan), r.plan, StatusOf(plan), ModeOf(config), adapter, rollback);
  }

  lemma PlanIsAccepted(plan: Object)
    requires GatedPlan(plan)
    ensures Validation(plan).SafetyPassed()
  {
  }

  lemma BuiltPlansAreNotBundled(profile: Object)
    ensures !Truthy(Get(PlanDoc(profile), DegradedBundleMode))
  {
  }

  lemma AsksAreFollowed(p: RollbackPlan, degraded: bool, mode: Mode, k: nat, rejected: bool)
    requires Asks(p, degraded, mode, k, rejected)
    ensures p.noAction ==> !p.required && !p.safeStop
    ensures RuleBy(p) == ConservativeReview ==> !rejected && !degraded
  {
  }

  /** The whole decision of a pipeline run, from the profile: policy, status, deciding rule, reasons and warnings
      follow from degradation, failure mode, the number of actions simulated before the failure and the rejections. */
  lemma DecisionIsExact(profile: Object, input: ScenarioInput, config: ConfigInput)
    requires Gate(profile).passed && ScenarioInputAccepted(input) && ConfigInputAccepted(config)
    ensures var plan, s := PlanDoc(profile), LoadScenario(input).scenario;
            var d, p, a := PolicyOf(plan, input, config), FailureReport(plan, input).plan, SimulateReport(plan);
            && d == DecisionBy(p, Gate(profile).degraded, a, ModeOf(config))
            && Asks(p, Gate(profile).degraded, s.mode, SimulatedBefore(plan, s), a.blocked > 0)
  {
    hide Gate, PlanDoc, ScenarioInputAccepted, ConfigInputAccepted, GatedPlan, DegradedStatus, Asks, DecisionBy;
    hide LoadScenario, SimulateReport, SimulatedBefore, AdapterBlocked, FailureBlocked, FailureReport, PolicyOutcome;
    hide AdapterReportToJson, RollbackReportToJson, Validation;
    var plan, s := PlanDoc(profile), LoadScenario(input).scenario;
    PassedGateGivesGatedPlan(profile);
    PlanIsAccepted(plan);
    AdapterBlocksOnlyRefusedPlans(plan);
    StageReportFacts(plan, input);
    StageRollbackAsks(plan, input);
    BuiltPlansAreNotBundled(profile);
    AsksAreFollowed(FailureReport(plan, input).plan, Gate(profile).degraded, s.mode, SimulatedBefore(plan, s),
                    SimulateReport(plan).blocked > 0);
    DecisionOnPlan(plan, config, SimulateReport(plan), FailureReport(plan, input));
  }

  /** The policy stage of a run warns exactly when the plan is degraded, an action was rejected, or the rollback plan
      asks for a rollback or a safe stop. */
  lemma PolicyWarnsExactly(profile: Object, input: ScenarioInput, config: ConfigInput)
    requires Gate(profile).passed && ScenarioInputAccepted(input) && ConfigInputAccepted(config)
    ensures var plan, s := PlanDoc(profile), LoadScenario(input).scenario;
            var d := PolicyOf(plan, input, config);
            d.warnings + d.warningInputs != [] <==>
            || Gate(profile).degraded || SimulateReport(plan).blocked > 0
            || SafeStopMode(s.mode) || (Injecting(s.mode) && SimulatedBefore(plan, s) > 0)
  {
    hide Gate, PlanDoc, ScenarioInputAccepted, ConfigInputAccepted, LoadScenario, SimulateReport, SimulatedBefore;
    hide FailureReport, PolicyOf, FinalReasons, ModeOf;
    DecisionIsExact(profile, input, config);
  }

  // ---- the whole failure stage ----

  /** The strategy of a run: an unavailable route goes back to the start, a partial failure reverts what completed, a
      safe-stop mode reverts what there is before it stops. */
  function FinalStrategy(degraded: bool, mode: Mode, k: nat, rejected: bool): Strategy {
    if degraded || mode.ForcedBoundary? then TakeNoAction
    else if mode.NoFailure? then if rejected then TakeNoAction else NoStrategy
    else if SafeStopMode(mode) then if k > 0 then RevertThenStop else SafeStop
    else if k == 0 then TakeNoAction
    else if mode.RouteUnavailable? then RollbackToStart else RevertCompleted
  }

  function FinalReport(degraded: bool, mode: Mode, k: nat, rejected: bool): RollbackStatus {
    if degraded || mode.ForcedBoundary? || (mode.NoFailure? && rejected) then ReportNoAction
    else if mode.NoFailure? then ReportNotRequired
    else if k > 0 then ReportPlanGenerated
    else if SafeStopMode(mode) then ReportSafeStop else ReportNoAction
  }

  /** Numbers of actions simulated, failed and skipped, out of n, of which `accepted` are accepted. */
  function FinalCounts(degraded: bool, mode: Mode, k: nat, n: nat, accepted: nat): (nat, nat, nat) {
    if degraded then (0, 0, 0)
    else if mode.ForcedBoundary? then (0, 0, n)
    else if mode.NoFailure? then (accepted, if accepted < n then n - accepted else 0, 0)
    else if n == 0 then (0, 0, 0) else (k, 1, if k + 1 < n then n - k - 1 else 0)
  }

  lemma StageCounts(plan: Object, s: Scenario)
    requires ExecutablePlan(plan) && ModeSupported(s.mode)
    ensures var r, n := InjectionOf(PlanActions(plan), s), |PlanActions(plan)|;
      && (|r.simulated|, |r.failed|, |r.skipped|) ==
         FinalCounts(false, s.mode, SimulatedBefore(plan, s), n, SimulateReport(plan).simulated)
  {
    hide ExecutablePlan, SimulateReport, PlanActions, Probes;
    var actions := PlanActions(plan);
    if Injecting(s.mode) {
      InjectionCounts(plan, s);
      InjectingModesInject(actions, s);
      if actions != [] {
        InjectedFailureShape(actions, s);
        ShapeCounts(InjectionOf(actions, s), IdsOf(Probes(actions)), VerdictsOf(Probes(actions)),
                    TargetIndex(actions, s));
      } else {
        assert Probes(actions) == [];
      }
    } else if s.mode.NoFailure? {
      UndisturbedTriesAll(actions, s);
      UndisturbedAgreesWithAdapters(plan, s);
      ExecutablePlanCounts(plan);
    } else {
      BoundaryFailureSkipsAll(actions, s);
      ProbesPerAction(actions);
    }
  }

  lemma ProbesPerAction(actions: seq<Object>)
    ensures |IdsOf(Probes(actions))| == |actions|
  {
  }

  lemma ShapeCounts(r: Injection, ids: seq<string>, verdicts: seq<bool>, target: nat)
    requires |ids| == |verdicts| && FailureShape(r, ids, verdicts, target)
    ensures |r.failed| == 1 && |r.simulated| + 1 + |r.skipped| == |ids|
  {
  }

  lemma {:induction false} SimulatedIds(results: seq<MockResult>)
    ensures |ResultIds(results, true)| == CountSimulated(results)
  {
    if results != [] { SimulatedIds(results[..|results| - 1]); }
  }

  lemma ExecutablePlanCounts(plan: Object)
    requires ExecutablePlan(plan)
    ensures |ResultIds(SimulateReport(plan).results, true)| == SimulateReport(plan).simulated
  {
    SimulatedIds(SimulateReport(plan).results);
  }

  /** What the failure stage of a run reports, in closed form: status, strategy, counts and reverts. */
  ghost predicate ReportedInFull(r: RollbackReport, degraded: bool, mode: Mode, k: nat, rejected: bool, n: nat,
                                 accepted: nat)
  {
    && r.status == FinalReport(degraded, mode, k, rejected)
    && r.plan.strategy == FinalStrategy(degraded, mode, k, rejected)
    && (r.simulatedBefore, r.failedCount, r.skippedCount) == FinalCounts(degraded, mode, k, n, accepted)
    && r.revertsPlanned == (if !degraded && Injecting(mode) then k else 0)
  }

  lemma RollbackInFull(status: string, mode: Mode, injection: Injection, degraded: bool, k: nat, rejected: bool)
    requires ModeSupported(mode)
    requires Asks(RollbackOf(status, mode, injection), degraded, mode, k, rejected)
    requires !degraded && mode.RouteUnavailable? ==> injection.strategy == RollbackToStart
    requires !degraded && mode.PartialPlanFailure? ==> injection.strategy == RevertCompleted
    requires !degraded && Injecting(mode) ==> |injection.simulated| == k
    ensures var p := RollbackOf(status, mode, injection);
      && p.strategy == FinalStrategy(degraded, mode, k, rejected)
      && ReportStatus(p) == FinalReport(degraded, mode, k, rejected)
      && CountReverts(p.markers) == (if !degraded && Injecting(mode) then k else 0)
  {
    hide CountReverts, Reverts, StopMarker;
    var p := RollbackOf(status, mode, injection);
    RollbackFollowsRequests(status, mode, injection);
    RequiredRollbackPlansReverts(status, mode, injection);
    if !p.required {
      NoReverts(status, mode, injection);
    }
  }

  lemma NoReverts(status: string, mode: Mode, injection: Injection)
    requires !RollbackOf(status, mode, injection).required
    ensures CountReverts(RollbackOf(status, mode, injection).markers) == 0
  {
    var m := RollbackOf(status, mode, injection).markers;
    if m != [] { assert m[..|m| - 1] == []; }
  }

  /** The failure stage of a run in full, from its plan. */
  lemma FailureStageIsExact(plan: Object, input: ScenarioInput)
    requires GatedPlan(plan) && ScenarioInputAccepted(input)
    ensures var s, a := LoadScenario(input).scenario, SimulateReport(plan);
            ReportedInFull(FailureReport(plan, input), DegradedStatus(plan), s.mode, SimulatedBefore(plan, s),
                           a.blocked > 0, |PlanActions(plan)|, a.simulated)
  {
    hide GatedPlan, ScenarioInputAccepted, LoadScenario, SimulateReport, SimulatedBefore, Asks, RollbackOf,
    ReportStatus;
    hide CountReverts, DegradedStatus, FinalStrategy, FinalReport, Validation, PlanActions, InjectionOf, StatusText;
    var s, degraded := LoadScenario(input).scenario, DegradedStatus(plan);
    PlanIsAccepted(plan);
    GatedPlanStatus(plan);
    FailureStageOutcome(plan, input);
    StageRollbackAsks(plan, input);
    var injection := StageInjection(plan, s);
    StageReportCounts(plan, input);
    if !degraded {
      StageCounts(plan, s);
      StrategyIsTheModes(PlanActions(plan), s);
      InjectionCounts(plan, s);
    }
    RollbackInFull(StatusText(plan), s.mode, injection, degraded, SimulatedBefore(plan, s),
                   SimulateReport(plan).blocked > 0);
  }

  lemma StageReportCounts(plan: Object, input: ScenarioInput)
    requires Validation(plan).SafetyPassed() && ScenarioInputAccepted(input)
    requires ModeSupported(LoadScenario(input).scenario.mode)
    ensures var r, injection := FailureReport(plan, input), StageInjection(plan, LoadScenario(input).scenario);
      r.simulatedBefore == |injection.simulated| && r.failedCount == |injection.failed|
      && r.skippedCount == |injection.skipped|
  {
    hide RollbackOf, InjectionOf, CountReverts;
    ScenarioLoadsExactlyAccepted(input);
  }

  /** All accepted policy configurations, whatever their mode, select the same policy. */
  lemma PolicyModeIsIrrelevant(profile: Object, input: ScenarioInput, config: ConfigInput, config': ConfigInput)
    requires Gate(profile).passed && ScenarioInputAccepted(input)
    requires ConfigInputAccepted(config) && ConfigInputAccepted(config')
    ensures PolicyOf(PlanDoc(profile), input, config).selected == PolicyOf(PlanDoc(profile), input, config').selected
    ensures PolicyOf(PlanDoc(profile), input, config).status == PolicyOf(PlanDoc(profile), input, config').status
  {
    hide *;
    PolicyClosedForm(profile, input, config);
    PolicyClosedForm(profile, input, config');
  }
}
