/** What the policy evaluator decides on any plan and any two reports, and which input it refuses for which reason. */
module PolicyTheorems {
  import opened Base
  import opened JsonValues
  import opened Reasons
  import opened RuntimePlan
  import opened PolicyEvaluator
  import opened PolicySimulator
  import opened ReasonTheorems

  // ---- what the reports ask for ----

  predicate Says(report: Option<Object>, f: Field, value: Json) {
    match report case Some(o) => f in o && o[f] == value case None => false
  }

  /** The adapter report is blocked at the boundary, or the rollback report is blocked in any way. */
  predicate BoundaryBroken(adapter: Option<Object>, rollback: Option<Object>) {
    || Says(adapter, AdapterSimulationStatus, Str("blocked_safety_boundary"))
    || (rollback.Some? && RollbackSimulationStatus in rollback.value
        && "blocked_" <= PyStr(rollback.value[RollbackSimulationStatus]))
  }

  predicate AsksNoAction(rollback: Option<Object>) {
    Says(rollback, NoActionTaken, Bool(true))
  }

  predicate AsksRollback(rollback: Option<Object>) {
    Says(rollback, RollbackRequired, Bool(true))
  }

  predicate AsksStop(rollback: Option<Object>) {
    Says(rollback, SafeStopRequired, Bool(true))
  }

  predicate Refused(plan: Object) {
    StatusOf(plan) == "blocked_by_safety_gate" || StatusOf(plan) == "blocked_by_bundle_validation"
  }

  /** A rollback is asked for, there is nothing to revert, and the mode insists on there being something. */
  predicate Idle(mode: string, rollback: Option<Object>) {
    AsksRollback(rollback) && !AsksStop(rollback) && mode == "rollback_if_prior_actions" && PriorReverts(rollback) <= 0
  }

  lemma EmptyIsNotBlocked()
    ensures !("blocked_" <= "")
  {
  }

  lemma SignalsAre(plan: Object, adapter: Option<Object>, rollback: Option<Object>)
    ensures var s := SignalsOf(plan, adapter, rollback);
      && (s.adapterSafety || s.rollbackBoundary <==> BoundaryBroken(adapter, rollback))
      && (s.noAction <==> AsksNoAction(rollback)) && (s.rollback <==> AsksRollback(rollback))
      && (s.safeStop <==> AsksStop(rollback)) && (s.notExecutable <==> Refused(plan))
  {
    EmptyIsNotBlocked();
  }

  /** The outcome over the reports alone. A broken boundary blocks; otherwise no action outranks a rollback, a rollback
      outranks a safe stop, and what asks for nothing needs human review unless its plan is refused. */
  lemma OutcomeIsExact(plan: Object, mode: string, adapter: Option<Object>, rollback: Option<Object>)
    ensures var d := DecisionOf(plan, mode, adapter, rollback);
            var broken := BoundaryBroken(adapter, rollback);
            var acts := !broken && !AsksNoAction(rollback);
      && (d.status == BlockedBySafetyBoundary <==> broken)
      && (d.status == StateRollback <==> acts && AsksRollback(rollback) && !Idle(mode, rollback))
      && (d.status == StateSafeStop <==> acts && AsksStop(rollback) && !AsksRollback(rollback))
      && (d.status == StateHumanReview <==> acts && !AsksRollback(rollback) && !AsksStop(rollback) && !Refused(plan))
      && (d.status == StateNoAction || d.status == BlockedBySafetyBoundary || d.status == StateRollback
          || d.status == StateSafeStop || d.status == StateHumanReview)
      && (d.selected == SelectBlockedBoundary <==> broken && mode != "no_action_on_boundary_failure")
      && (d.selected == SelectRollbackThenStop <==> d.status == StateRollback && AsksStop(rollback))
      && (d.selected == SelectRollback <==> d.status == StateRollback && !AsksStop(rollback))
      && (d.selected == SelectSafeStop <==> d.status == StateSafeStop)
      && (d.selected == SelectHumanReview <==> d.status == StateHumanReview)
      && (d.selected == SelectNoAction <==>
          d.status == StateNoAction || (broken && mode == "no_action_on_boundary_failure"))
      && d.mode == mode
  {
    hide SignalsOf, BoundaryBroken, AsksNoAction, AsksRollback, AsksStop, Refused, FirstMatched, Dedup, BoundaryReasons;
    hide WarningInputs, WarningReasonsFor;
    SignalsAre(plan, adapter, rollback);
    DecidingRule(SignalsOf(plan, adapter, rollback));
  }

  // ---- why ----

  predicate AdapterRejects(adapter: Option<Object>) {
    match adapter
    case Some(o) => (match Get(o, BlockedActions) case Int(i) => i > 0 case _ => false)
    case None => false
  }

  predicate DegradedBundle(plan: Object) {
    Truthy(Get(plan, DegradedBundleMode))
  }

  predicate DegradedPlanText(plan: Object) {
    StatusOf(plan) == "degraded_no_execution_plan"
  }

  /** The reasons of an unbroken decision, by what is asked for. */
  function ReasonsFor(plan: Object, mode: string, adapter: Option<Object>, rollback: Option<Object>): seq<string> {
    if AsksNoAction(rollback) then ["rollback_report_no_action_taken"]
    else if AsksRollback(rollback) && AsksStop(rollback) then ["rollback_required", "safe_stop_required"]
    else if Idle(mode, rollback) then ["rollback_requested_without_prior_simulated_actions"]
    else if AsksRollback(rollback) then ["rollback_required"]
    else if AsksStop(rollback) then ["safe_stop_required"]
    else if Refused(plan) then ["source_plan_not_executable:" + StatusOf(plan)]
    else if AdapterRejects(adapter) then ["adapter_blocks_present"]
    else if DegradedPlanText(plan) || DegradedBundle(plan) then ["degraded_mode_requires_human_review"]
    else (if mode == "no_retry_v0_5_0" then ["retry_forbidden_in_v0_5_0"] else [])
         + ["conservative_default_requires_human_review"]
  }

  lemma RestOfSignals(plan: Object, adapter: Option<Object>, rollback: Option<Object>)
    ensures var s := SignalsOf(plan, adapter, rollback);
      && (s.adapterBlocks <==> AdapterRejects(adapter))
      && (s.degraded <==> DegradedPlanText(plan) || DegradedBundle(plan))
  {
  }

  lemma ReasonsDistinct(plan: Object, mode: string, adapter: Option<Object>, rollback: Option<Object>)
    ensures NoDuplicates(ReasonsFor(plan, mode, adapter, rollback))
  {
    hide AsksNoAction, AsksRollback, AsksStop, Refused, Idle, AdapterRejects, DegradedPlanText, DegradedBundle;
    assert "rollback_required"[0] != "safe_stop_required"[0];
    assert "retry_forbidden_in_v0_5_0"[0] != "conservative_default_requires_human_review"[0];
  }

  lemma ReasonsByRule(plan: Object, mode: string, adapter: Option<Object>, rollback: Option<Object>)
    ensures var rule := FirstMatched(SignalsOf(plan, adapter, rollback), 0);
            var o := OutcomeFor(rule, StatusOf(plan), mode, adapter, rollback);
            var retry := if mode == "no_retry_v0_5_0" && rule == ConservativeReview then ["retry_forbidden_in_v0_5_0"]
                         else [];
      && (!BoundaryBroken(adapter, rollback) ==> retry + o.2 == ReasonsFor(plan, mode, adapter, rollback) && o.3 == [])
      && (BoundaryBroken(adapter, rollback) ==> retry + o.2 == [] && o.3 == BoundaryReasons(adapter, rollback))
  {
    hide SignalsOf, BoundaryBroken, AsksNoAction, AsksRollback, AsksStop, Refused, FirstMatched, BoundaryReasons;
    hide AdapterRejects, DegradedPlanText, DegradedBundle, PriorReverts, StatusOf;
    SignalsAre(plan, adapter, rollback);
    RestOfSignals(plan, adapter, rollback);
    DecidingRule(SignalsOf(plan, adapter, rollback));
    var rule := FirstMatched(SignalsOf(plan, adapter, rollback), 0);
    var o := OutcomeFor(rule, StatusOf(plan), mode, adapter, rollback);
    assert [] + o.2 == o.2;
  }

  /** A text that the broken report gives as the failure of its boundary. */
  predicate BoundaryText(adapter: Option<Object>, rollback: Option<Object>, text: string) {
    match if adapter.Some? then Get(adapter.value, AdapterSafetyFailureReasons)
          else if rollback.Some? then Get(rollback.value, FailureReasons) else Null
    case List(items) => Str(text) in items
    case _ => false
  }

  lemma BoundaryTextsAre(adapter: Option<Object>, rollback: Option<Object>)
    ensures forall t :: t in BoundaryReasons(adapter, rollback) <==>
              || BoundaryText(adapter, rollback, t)
              || (t == "policy_input_safety_boundary_failed" && forall u :: !BoundaryText(adapter, rollback, u))
  {
    var source := if adapter.Some? then Get(adapter.value, AdapterSafetyFailureReasons)
                  else if rollback.Some? then Get(rollback.value, FailureReasons) else Null;
    if source.List? {
      StringItemsExactly(source.items);
      var texts := StringItems(source.items);
      forall t ensures t in texts <==> BoundaryText(adapter, rollback, t) {}
      if texts != [] { assert BoundaryText(adapter, rollback, texts[0]); }
    }
  }

  /** Why: reasons in order where nothing is broken, and where the boundary is broken the texts the report gives. */
  lemma ReasonsAreExact(plan: Object, mode: string, adapter: Option<Object>, rollback: Option<Object>)
    ensures var d, broken := DecisionOf(plan, mode, adapter, rollback), BoundaryBroken(adapter, rollback);
      && d.reasons == (if broken then [] else ReasonsFor(plan, mode, adapter, rollback))
      && (forall t :: t in d.blocked <==>
            broken && (|| BoundaryText(adapter, rollback, t)
                       || (t == "policy_input_safety_boundary_failed"
                           && forall u :: !BoundaryText(adapter, rollback, u))))
  {
    hide SignalsOf, BoundaryBroken, FirstMatched, BoundaryReasons, ReasonsFor, OutcomeFor, BoundaryText, StatusOf;
    hide WarningInputs, WarningReasonsFor;
    ReasonsByRule(plan, mode, adapter, rollback);
    BoundaryTextsAre(adapter, rollback);
    ReasonsDistinct(plan, mode, adapter, rollback);
    DedupOfDistinct(ReasonsFor(plan, mode, adapter, rollback));
  }

  /** What the decision warns of, among its inputs. */
  predicate IsWarningInput(plan: Object, adapter: Option<Object>, rollback: Option<Object>, t: string) {
    || (AdapterRejects(adapter)
        && (t == "adapter_report.blocked_actions" || t == "adapter_report.adapter_block_reasons"))
    || (Get(plan, PlanStatus) == Str("degraded_no_execution_plan") && t == "runtime_plan.degraded_no_execution_plan")
    || (DegradedBundle(plan) && t == "bundle.degraded_missing_artifacts")
    || (AsksStop(rollback) && t == "rollback_report.safe_stop_required")
    || (AsksRollback(rollback) && t == "rollback_report.rollback_required")
  }

  /** And the warnings that follow from them. */
  predicate IsWarning(plan: Object, adapter: Option<Object>, rollback: Option<Object>, t: string) {
    || (AdapterRejects(adapter)
        && (t == "adapter_blocks_present"
            || match Get(adapter.value, AdapterBlockReasons) case List(items) => Str(t) in items case _ => false))
    || (Get(plan, PlanStatus) == Str("degraded_no_execution_plan") && t == "degraded_mode_requires_human_review")
    || (DegradedBundle(plan) && t == "degraded_bundle_mode")
    || (AsksRollback(rollback) && t == "rollback_required")
    || (AsksStop(rollback) && t == "safe_stop_required")
  }

  /** Membership in a list put together from five optional parts. */
  lemma FiveParts(c: seq<bool>, first: seq<string>, t2: string, t3: string, t4: string, t5: string)
    requires |c| == 5
    ensures forall t :: t in Dedup((if c[0] then first else []) + (if c[1] then [t2] else [])
                                   + (if c[2] then [t3] else []) + (if c[3] then [t4] else [])
                                   + (if c[4] then [t5] else [])) <==>
              (c[0] && t in first) || (c[1] && t == t2) || (c[2] && t == t3) || (c[3] && t == t4) || (c[4] && t == t5)
  {
  }

  lemma FlagsMean(plan: Object, adapter: Option<Object>, rollback: Option<Object>)
    ensures HasAdapterBlocks(adapter) <==> AdapterRejects(adapter)
    ensures AdapterRejects(adapter) ==> adapter.Some?
    ensures FlagSet(rollback, SafeStopRequired) <==> AsksStop(rollback)
    ensures FlagSet(rollback, RollbackRequired) <==> AsksRollback(rollback)
    ensures Truthy(Get(plan, DegradedBundleMode)) <==> DegradedBundle(plan)
  {
    hide Truthy;
  }

  lemma PairIs(a: string, b: string)
    ensures forall t :: t in [a, b] <==> t == a || t == b
  {
  }

  lemma WarningInputsAre(plan: Object, adapter: Option<Object>, rollback: Option<Object>)
    ensures forall t :: t in WarningInputs(plan, adapter, rollback) <==> IsWarningInput(plan, adapter, rollback, t)
  {
    hide Dedup, DegradedBundle, AdapterRejects, AsksRollback, AsksStop, HasAdapterBlocks, FlagSet, Truthy;
    FlagsMean(plan, adapter, rollback);
    PairIs("adapter_report.blocked_actions", "adapter_report.adapter_block_reasons");
    FiveParts([AdapterRejects(adapter), Get(plan, PlanStatus) == Str("degraded_no_execution_plan"),
               DegradedBundle(plan), AsksStop(rollback), AsksRollback(rollback)],
              ["adapter_report.blocked_actions", "adapter_report.adapter_block_reasons"],
              "runtime_plan.degraded_no_execution_plan", "bundle.degraded_missing_artifacts",
              "rollback_report.safe_stop_required", "rollback_report.rollback_required");
  }

  /** Texts told apart by their lengths, and by one character where these agree. */
  lemma InputTextsDiffer()
    ensures |"adapter_report.blocked_actions"| == 30 && |"adapter_report.adapter_block_reasons"| == 36
    ensures |"runtime_plan.degraded_no_execution_plan"| == 39 && |"rollback_report.safe_stop_required"| == 34
    ensures |"rollback_report.rollback_required"| == 33 && |"bundle.degraded_missing_artifacts"| == 33
    ensures "rollback_report.rollback_required"[0] != "bundle.degraded_missing_artifacts"[0]
  {
  }

  lemma RejectionInput(plan: Object, adapter: Option<Object>, rollback: Option<Object>)
    ensures "adapter_report.blocked_actions" in WarningInputs(plan, adapter, rollback) <==> AdapterRejects(adapter)
  {
    hide DegradedBundle, AdapterRejects, AsksRollback, AsksStop;
    hide WarningInputs;
    WarningInputsAre(plan, adapter, rollback);
    InputTextsDiffer();
  }

  lemma DegradedInput(plan: Object, adapter: Option<Object>, rollback: Option<Object>)
    ensures "runtime_plan.degraded_no_execution_plan" in WarningInputs(plan, adapter, rollback) <==>
            Get(plan, PlanStatus) == Str("degraded_no_execution_plan")
  {
    hide DegradedBundle, AdapterRejects, AsksRollback, AsksStop;
    hide WarningInputs;
    WarningInputsAre(plan, adapter, rollback);
    InputTextsDiffer();
  }

  lemma BundleInput(plan: Object, adapter: Option<Object>, rollback: Option<Object>)
    ensures "bundle.degraded_missing_artifacts" in WarningInputs(plan, adapter, rollback) <==> DegradedBundle(plan)
  {
    hide DegradedBundle, AdapterRejects, AsksRollback, AsksStop;
    hide WarningInputs;
    WarningInputsAre(plan, adapter, rollback);
    InputTextsDiffer();
  }

  lemma WarningReasonsByFlags(adapter: Option<Object>, rollback: Option<Object>, inputs: seq<string>, t: string)
    ensures t in WarningReasonsFor(adapter, rollback, inputs) <==>
            || ("adapter_report.blocked_actions" in inputs
                && (t == "adapter_blocks_present" || t in AdapterReasons(adapter)))
            || ("runtime_plan.degraded_no_execution_plan" in inputs && t == "degraded_mode_requires_human_review")
            || ("bundle.degraded_missing_artifacts" in inputs && t == "degraded_bundle_mode")
            || (FlagSet(rollback, RollbackRequired) && t == "rollback_required")
            || (FlagSet(rollback, SafeStopRequired) && t == "safe_stop_required")
  {
    hide Dedup, FlagSet, AdapterReasons;
    var first := ["adapter_blocks_present"] + AdapterReasons(adapter);
    FiveParts(["adapter_report.blocked_actions" in inputs, "runtime_plan.degraded_no_execution_plan" in inputs,
               "bundle.degraded_missing_artifacts" in inputs, FlagSet(rollback, RollbackRequired),
               FlagSet(rollback, SafeStopRequired)],
              first, "degraded_mode_requires_human_review", "degraded_bundle_mode", "rollback_required",
              "safe_stop_required");
    assert t in first <==> t == "adapter_blocks_present" || t in AdapterReasons(adapter);
  }

  lemma WarningReasonsAre(plan: Object, adapter: Option<Object>, rollback: Option<Object>, t: string)
    ensures t in WarningReasonsFor(adapter, rollback, WarningInputs(plan, adapter, rollback)) <==>
            IsWarning(plan, adapter, rollback, t)
  {
    hide Dedup, DegradedBundle, AdapterRejects, AsksRollback, AsksStop, HasAdapterBlocks, FlagSet, Truthy;
    hide WarningInputs, IsWarningInput, AdapterReasons, WarningReasonsFor;
    RejectionInput(plan, adapter, rollback);
    DegradedInput(plan, adapter, rollback);
    BundleInput(plan, adapter, rollback);
    FlagsMean(plan, adapter, rollback);
    AdapterReasonsAre(adapter);
    WarningReasonsByFlags(adapter, rollback, WarningInputs(plan, adapter, rollback), t);
  }

  lemma AdapterReasonsAre(adapter: Option<Object>)
    ensures adapter.Some? ==>
              forall t :: t in AdapterReasons(adapter) <==>
                match Get(adapter.value, AdapterBlockReasons) case List(items) => Str(t) in items case _ => false
  {
    if adapter.Some? && Get(adapter.value, AdapterBlockReasons).List? {
      StringItemsExactly(Get(adapter.value, AdapterBlockReasons).items);
    }
  }

  /** The warnings of a decision, over the plan and the two reports. */
  lemma WarningsAreExact(plan: Object, mode: string, adapter: Option<Object>, rollback: Option<Object>)
    ensures var d := DecisionOf(plan, mode, adapter, rollback);
      && (forall t :: t in d.warningInputs <==> IsWarningInput(plan, adapter, rollback, t))
      && (forall t :: t in d.warnings <==> IsWarning(plan, adapter, rollback, t))
  {
    hide IsWarning, IsWarningInput, WarningInputs, WarningReasonsFor, FirstMatched, OutcomeFor, SignalsOf, StatusOf;
    hide Dedup;
    WarningInputsAre(plan, adapter, rollback);
    forall t ensures t in WarningReasonsFor(adapter, rollback, WarningInputs(plan, adapter, rollback)) <==>
                     IsWarning(plan, adapter, rollback, t) { WarningReasonsAre(plan, adapter, rollback, t); }
  }

  // ---- what is refused before the evaluator ----

  lemma {:induction false} MistypedExactly(o: Object, fields: seq<Field>, t: FieldType, n: nat)
    requires n <= |fields|
    ensures forall r :: r in Mistyped(o, fields, t, n) <==>
                        exists f :: f in fields[..n] && f in o && !HasType(o[f], t) && r == TypeReason(f, t)
  {
    if n > 0 {
      MistypedExactly(o, fields, t, n - 1);
      assert fields[..n] == fields[..n - 1] + [fields[n - 1]];
      forall r ensures r in Mistyped(o, fields, t, n) <==>
                       exists f :: f in fields[..n] && f in o && !HasType(o[f], t) && r == TypeReason(f, t) {
        assert r in Mistyped(o, fields, t, n) <==>
               r in Mistyped(o, fields, t, n - 1) || (!Typed(o, fields[n - 1], t) && r == TypeReason(fields[n - 1], t));
      }
    }
  }

  predicate IsConfigSwitch(f: Field) {
    || f.HumanReviewRequired? || f.AllowRetry? || f.AllowRealExecution? || f.AllowHardwareControl? || f.SimulationOnly?
    || f.HardwareControlEnabled?
  }

  predicate IsConfigField(f: Field) {
    IsConfigSwitch(f) || f.PolicyConfigId? || f.PolicyMode? || f.ClaimBoundary?
  }

  /** What is structurally wrong with a configuration. */
  ghost predicate ConfigFault(config: Object, r: Reason) {
    match r
    case MissingField(f) => IsConfigField(f) && f !in config
    case MustBeString(f) =>
      (f == PolicyConfigId || f == PolicyMode || f == ClaimBoundary || f == Notes) && f in config && !config[f].Str?
    case MustBeBoolean(f) => IsConfigSwitch(f) && f in config && !config[f].Bool?
    case MustBeCount(f) =>
      (f == MaxAllowedBlockedActions || f == MaxAllowedDegradedFlags) && f in config && !IsCount(config[f])
    case UnsupportedPolicyMode(mode) => Get(config, PolicyMode) == Str(mode) && mode !in POLICY_MODES
    case _ => false
  }

  lemma StringFieldsAre(f: Field)
    ensures f in STRING_FIELDS <==> f == PolicyConfigId || f == PolicyMode || f == ClaimBoundary
    ensures f in COUNT_FIELDS <==> f == MaxAllowedBlockedActions || f == MaxAllowedDegradedFlags
  {
    assert STRING_FIELDS == [PolicyConfigId, PolicyMode, ClaimBoundary];
    assert COUNT_FIELDS == [MaxAllowedBlockedActions, MaxAllowedDegradedFlags];
  }

  lemma ConfigFieldsAre(f: Field)
    ensures f in REQUIRED_POLICY_FIELDS <==> IsConfigField(f)
  {
    assert REQUIRED_POLICY_FIELDS == [PolicyConfigId, PolicyMode, HumanReviewRequired, AllowRetry, AllowRealExecution,
                                      AllowHardwareControl, SimulationOnly, HardwareControlEnabled, ClaimBoundary];
  }

  lemma ConfigSwitchesAre(f: Field)
    ensures f in BOOLEAN_FIELDS <==> IsConfigSwitch(f)
  {
    assert BOOLEAN_FIELDS == [HumanReviewRequired, AllowRetry, AllowRealExecution, AllowHardwareControl, SimulationOnly,
                              HardwareControlEnabled];
  }

  lemma ConfigListsAre(config: Object, r: Reason)
    ensures r in ConfigStructuralReasons(config) <==>
            || r in MissingFields(config, REQUIRED_POLICY_FIELDS, |REQUIRED_POLICY_FIELDS|)
            || r in Mistyped(config, STRING_FIELDS, AString, |STRING_FIELDS|)
            || r in Mistyped(config, BOOLEAN_FIELDS, ABoolean, |BOOLEAN_FIELDS|)
            || r in Mistyped(config, COUNT_FIELDS, ACount, |COUNT_FIELDS|)
            || (r == MustBeString(Notes) && Notes in config && !config[Notes].Str?)
            || (r.UnsupportedPolicyMode? && Get(config, PolicyMode) == Str(r.mode) && r.mode !in POLICY_MODES)
  {
    hide MissingFields, Mistyped, REQUIRED_POLICY_FIELDS, STRING_FIELDS, BOOLEAN_FIELDS, COUNT_FIELDS, POLICY_MODES;
  }

  lemma MistypedAll(config: Object, fields: seq<Field>, t: FieldType, r: Reason)
    ensures r in Mistyped(config, fields, t, |fields|) <==>
            || (r.MustBeString? && t.AString? && r.f in fields && r.f in config && !config[r.f].Str?)
            || (r.MustBeBoolean? && t.ABoolean? && r.f in fields && r.f in config && !config[r.f].Bool?)
            || (r.MustBeCount? && t.ACount? && r.f in fields && r.f in config && !IsCount(config[r.f]))
  {
    hide IsCount, Mistyped;
    MistypedExactly(config, fields, t, |fields|);
    assert fields[..|fields|] == fields;
  }

  /** A configuration is refused in its structure for exactly the faults it has. */
  lemma ConfigFaultsAreExact(config: Object)
    ensures forall r :: r in ConfigStructuralReasons(config) <==> ConfigFault(config, r)
  {
    hide MissingFields, Mistyped, REQUIRED_POLICY_FIELDS, STRING_FIELDS, BOOLEAN_FIELDS, COUNT_FIELDS, POLICY_MODES;
    hide IsCount, ConfigStructuralReasons, IsConfigField, IsConfigSwitch;
    AllMissing(config, REQUIRED_POLICY_FIELDS);
    forall r ensures r in ConfigStructuralReasons(config) <==> ConfigFault(config, r) {
      ConfigListsAre(config, r);
      MistypedAll(config, STRING_FIELDS, AString, r);
      MistypedAll(config, BOOLEAN_FIELDS, ABoolean, r);
      MistypedAll(config, COUNT_FIELDS, ACount, r);
      if r.MustBeString? || r.MustBeCount? { StringFieldsAre(r.f); }
      if r.MissingField? { ConfigFieldsAre(r.f); }
      if r.MustBeBoolean? { ConfigSwitchesAre(r.f); }
    }
  }

  /** What a configuration must state. */
  function ConfigDemands(f: Field): Option<(Json, string)> {
    match f
    case SimulationOnly => Some((Bool(true), "true"))
    case HardwareControlEnabled => Some((Bool(false), "false"))
    case ClaimBoundary => Some((Str("simulation_only_not_certified"), "simulation_only_not_certified"))
    case AllowRealExecution => Some((Bool(false), "false"))
    case AllowHardwareControl => Some((Bool(false), "false"))
    case AllowRetry => Some((Bool(false), "false"))
    case _ => None
  }

  /** It does not state what it must. */
  predicate ConfigUnsafe(config: Object, r: Reason) {
    r.MustBe? && ConfigDemands(r.f).Some? && r.what == ConfigDemands(r.f).value.1
    && Get(config, r.f) != ConfigDemands(r.f).value.0
  }

  predicate Misses(config: Object, f: Field, expected: Json, what: string, r: Reason) {
    Get(config, f) != expected && r == MustBe(f, what)
  }

  lemma ConfigBoundaryParts(config: Object, r: Reason)
    ensures r in ConfigSafetyReasons(config) <==>
            || Misses(config, SimulationOnly, Bool(true), "true", r)
            || Misses(config, HardwareControlEnabled, Bool(false), "false", r)
            || Misses(config, ClaimBoundary, Str(CLAIM_BOUNDARY), CLAIM_BOUNDARY, r)
            || Misses(config, AllowRealExecution, Bool(false), "false", r)
            || Misses(config, AllowHardwareControl, Bool(false), "false", r)
            || Misses(config, AllowRetry, Bool(false), "false", r)
  {
    hide MustEqual, Misses;
    forall f, expected, what
      ensures r in MustEqual(config, f, expected, what) <==> Misses(config, f, expected, what, r) {
      MissesExactly(config, f, expected, what, r);
    }
  }

  lemma MissesExactly(config: Object, f: Field, expected: Json, what: string, r: Reason)
    ensures r in MustEqual(config, f, expected, what) <==> Misses(config, f, expected, what, r)
  {
  }

  lemma MissesNamed(config: Object, r: Reason)
    ensures forall f, expected, what :: Misses(config, f, expected, what, r) ==> r.MustBe? && r.f == f
  {
  }

  lemma UnsafeByField(config: Object, r: Reason)
    requires r.MustBe? && ConfigDemands(r.f).Some?
    ensures ConfigUnsafe(config, r) <==>
            Misses(config, r.f, ConfigDemands(r.f).value.0, ConfigDemands(r.f).value.1, r)
  {
    hide ConfigDemands;
  }

  /** The boundary of a configuration is refused for exactly the fields that state something else. */
  lemma ConfigBoundaryIsExact(config: Object)
    ensures forall r :: r in ConfigSafetyReasons(config) <==> ConfigUnsafe(config, r)
  {
    hide ConfigSafetyReasons, Misses;
    forall r ensures r in ConfigSafetyReasons(config) <==> ConfigUnsafe(config, r) {
      ConfigBoundaryParts(config, r);
      MissesNamed(config, r);
      if r.MustBe? && ConfigDemands(r.f).Some? { UnsafeByField(config, r); }
    }
  }

  // ---- the order of refusal ----

  ghost predicate ConfigFaulty(config: ConfigInput) {
    config.UnreadableConfig? || (config.GivenConfig? && exists r :: ConfigFault(config.raw, r))
  }

  ghost predicate ConfigOutOfBounds(config: ConfigInput) {
    config.GivenConfig? && exists r :: ConfigUnsafe(config.raw, r)
  }

  /** No report, or an acceptable one. */
  ghost predicate Usable(kind: ReportKind, report: ReportInput) {
    match report
    case NoReport => true
    case ReportPayload(o) => ReportAccepted(kind, o)
    case _ => false
  }

  function PayloadOf(report: ReportInput): Option<Object> {
    match report case ReportPayload(o) => Some(o) case _ => None
  }

  lemma ConfigRefusedExactly(config: ConfigInput)
    ensures ConfigFaulty(config) <==>
            config.UnreadableConfig? || (config.GivenConfig? && ConfigStructuralReasons(config.raw) != [])
    ensures ConfigOutOfBounds(config) <==> config.GivenConfig? && ConfigSafetyReasons(config.raw) != []
  {
    hide ConfigFault, ConfigUnsafe, ConfigStructuralReasons, ConfigSafetyReasons;
    if config.GivenConfig? {
      ConfigFaultsAreExact(config.raw);
      ConfigBoundaryIsExact(config.raw);
      SomeExactly(ConfigStructuralReasons(config.raw));
      SomeExactly(ConfigSafetyReasons(config.raw));
    }
  }

  lemma UsableExactly(kind: ReportKind, report: ReportInput)
    ensures LoadReport(kind, report).error.None? <==> Usable(kind, report)
    ensures LoadReport(kind, report).payload == PayloadOf(report)
  {
    hide ReportAccepted;
    if report.ReportPayload? { AcceptedReportLoads(kind, report.payload); }
  }

  /** What the policy stage makes of any inputs: the first of these refusals, and the evaluator only past all of them. A
      refusal gives no reasons, says which rule it is, and names what it refuses. */
  lemma RefusalsAreExact(plan: Object, config: ConfigInput, adapter: ReportInput, rollback: ReportInput)
    ensures var d := PolicyOutcome(plan, config, adapter, rollback);
      if PlanFaulty(plan) then
        (d.status, d.selected, d.rule, d.reasons) == (InvalidPolicyInput, SelectNoAction, InvalidInput, [])
        && d.blocked == TextsOf(Validation(plan).structural)
      else if ConfigFaulty(config) || !Usable(AdapterKind, adapter) || !Usable(RollbackKind, rollback) then
        (d.status, d.selected, d.rule, d.reasons) == (BlockedArtifacts, SelectBlockedArtifacts, InvalidInput, [])
        && (config.UnreadableConfig? ==> d.blocked == [config.error])
        && (config.GivenConfig? && ConfigFaulty(config) ==> d.blocked == TextsOf(ConfigStructuralReasons(config.raw)))
      else if ConfigOutOfBounds(config) then
        (d.status, d.selected, d.rule, d.reasons) == (BlockedConfigBoundary, SelectNoAction, PolicyConfigBoundary, [])
        && d.blocked == TextsOf(ConfigSafetyReasons(config.raw))
      else if PlanUnsafe(plan) then
        (d.status, d.selected, d.rule, d.reasons)
        == (BlockedBySafetyBoundary, SelectBlockedBoundary, RuntimePlanBoundary, [])
        && d.blocked == TextsOf(Validation(plan).safety)
      else d == DecisionOf(plan, ModeOf(config), PayloadOf(adapter), PayloadOf(rollback))
  {
    hide Validation, ConfigStructuralReasons, ConfigSafetyReasons, LoadReport, TextsOf, WarningInputs, DecisionOf;
    hide PlanFaulty, PlanUnsafe, ConfigFaulty, ConfigOutOfBounds, Usable, PyStr;
    PlanRefusedExactly(plan);
    ConfigRefusedExactly(config);
    UsableExactly(AdapterKind, adapter);
    UsableExactly(RollbackKind, rollback);
  }

  // ---- the decision document ----

  lemma PolicyTextsDiffer(a: Policy, b: Policy)
    requires PolicyText(a) == PolicyText(b)
    ensures a == b
  {
    PolicyTextLength(a);
    PolicyTextLength(b);
  }

  lemma PolicyTextLength(p: Policy)
    ensures |PolicyText(p)| == match p
                               case SelectNoAction => 15
                               case SelectRollbackThenStop => 39
                               case SelectRollback => 24
                               case SelectSafeStop => 25
                               case SelectHumanReview => 21
                               case SelectBlockedBoundary => 26
                               case SelectBlockedArtifacts => 25
    ensures p == SelectSafeStop ==> PolicyText(p)[0] == 's'
    ensures p == SelectBlockedArtifacts ==> PolicyText(p)[0] == 'b'
  {
  }

  lemma StateTextLength(s: PolicyState)
    ensures |PolicyStateText(s)| == match s
                                    case InvalidPolicyInput => 20
                                    case BlockedBySafetyBoundary => 26
                                    case BlockedArtifacts => 25
                                    case BlockedConfigBoundary => 37
                                    case StateNoAction => 22
                                    case StateRollback => 24
                                    case StateSafeStop => 25
                                    case StateHumanReview => 28
    ensures s == BlockedArtifacts ==> PolicyStateText(s)[0] == 'b'
    ensures s == StateSafeStop ==> PolicyStateText(s)[0] == 'p'
  {
  }

  lemma StateTextsDiffer(a: PolicyState, b: PolicyState)
    requires PolicyStateText(a) == PolicyStateText(b)
    ensures a == b
  {
    hide PolicyStateText;
    StateTextLength(a);
    StateTextLength(b);
  }

  /** A decision document tells its decision: two decisions with the same document agree in mode, policy, status and
      both
      warning lists. */
  lemma DocumentTellsDecision(a: Decision, b: Decision)
    requires DecisionToJson(a) == DecisionToJson(b)
    ensures a.mode == b.mode && a.selected == b.selected && a.status == b.status
    ensures a.warnings == b.warnings && a.warningInputs == b.warningInputs
  {
    hide PolicyText, PolicyStateText;
    var x, y := DecisionToJson(a), DecisionToJson(b);
    assert x[SelectedPolicy] == y[SelectedPolicy] && x[PolicyStatus] == y[PolicyStatus];
    assert x[PolicyMode] == y[PolicyMode];
    assert x[WarningReasons] == y[WarningReasons] && x[PolicyWarningInputs] == y[PolicyWarningInputs];
    PolicyTextsDiffer(a.selected, b.selected);
    StateTextsDiffer(a.status, b.status);
    StringItemsOfStrList(a.warnings);
    StringItemsOfStrList(b.warnings);
    StringItemsOfStrList(a.warningInputs);
    StringItemsOfStrList(b.warningInputs);
  }
}
