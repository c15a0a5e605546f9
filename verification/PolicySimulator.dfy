/** Input validation around the policy evaluator: configuration, optional reports, order of refusal. */
module PolicySimulator {
  import opened Base
  import opened JsonValues
  import opened Reasons
  import opened RuntimePlan
  import opened PolicyEvaluator
  import Adapters

  const REQUIRED_POLICY_FIELDS: seq<Field> := [
    PolicyConfigId, PolicyMode, HumanReviewRequired, AllowRetry, AllowRealExecution, AllowHardwareControl,
    SimulationOnly, HardwareControlEnabled, ClaimBoundary]

  const STRING_FIELDS: seq<Field> := [PolicyConfigId, PolicyMode, ClaimBoundary]

  const BOOLEAN_FIELDS: seq<Field> := [
    HumanReviewRequired, AllowRetry, AllowRealExecution, AllowHardwareControl, SimulationOnly, HardwareControlEnabled]

  const COUNT_FIELDS: seq<Field> := [MaxAllowedBlockedActions, MaxAllowedDegradedFlags]

  datatype FieldType = AString | ABoolean | ACount

  predicate HasType(j: Json, t: FieldType) {
    match t
    case AString => j.Str?
    case ABoolean => j.Bool?
    case ACount => IsCount(j)
  }

  /** An absent field has every type. */
  predicate Typed(payload: Object, f: Field, t: FieldType) {
    f in payload ==> HasType(payload[f], t)
  }

  function TypeReason(f: Field, t: FieldType): Reason {
    match t
    case AString => MustBeString(f)
    case ABoolean => MustBeBoolean(f)
    case ACount => MustBeCount(f)
  }

  function Mistyped(payload: Object, fields: seq<Field>, t: FieldType, n: nat): seq<Reason>
    requires n <= |fields|
  {
    if n == 0 then []
    else
      var f := fields[n - 1];
      Mistyped(payload, fields, t, n - 1) + (if Typed(payload, f, t) then [] else [TypeReason(f, t)])
  }

  function ConfigStructuralReasons(config: Object): seq<Reason> {
    MissingFields(config, REQUIRED_POLICY_FIELDS, |REQUIRED_POLICY_FIELDS|)
    + Mistyped(config, STRING_FIELDS, AString, |STRING_FIELDS|)
    + Mistyped(config, BOOLEAN_FIELDS, ABoolean, |BOOLEAN_FIELDS|)
    + Mistyped(config, COUNT_FIELDS, ACount, |COUNT_FIELDS|)
    + (if Notes in config && !config[Notes].Str? then [MustBeString(Notes)] else [])
    + (if Get(config, PolicyMode).Str? && config[PolicyMode].s !in POLICY_MODES
       then [UnsupportedPolicyMode(config[PolicyMode].s)] else [])
  }

  function MustEqual(config: Object, f: Field, expected: Json, what: string): seq<Reason> {
    if Get(config, f) != expected then [MustBe(f, what)] else []
  }

  function ConfigSafetyReasons(config: Object): seq<Reason> {
    MustEqual(config, SimulationOnly, Bool(true), "true")
    + MustEqual(config, HardwareControlEnabled, Bool(false), "false")
    + MustEqual(config, ClaimBoundary, Str(CLAIM_BOUNDARY), CLAIM_BOUNDARY)
    + MustEqual(config, AllowRealExecution, Bool(false), "false")
    + MustEqual(config, AllowHardwareControl, Bool(false), "false")
    + MustEqual(config, AllowRetry, Bool(false), "false")
  }

  method CheckTypes(payload: Object, fields: seq<Field>, t: FieldType) returns (reasons: seq<Reason>)
    ensures reasons == Mistyped(payload, fields, t, |fields|)
  {
    reasons := [];
    for i := 0 to |fields|
      invariant reasons == Mistyped(payload, fields, t, i)
    {
      if !Typed(payload, fields[i], t) {
        reasons := reasons + [TypeReason(fields[i], t)];
      }
    }
  }

  method ValidatePolicyConfig(config: Object) returns (structural: seq<Reason>, safety: seq<Reason>)
    ensures structural == ConfigStructuralReasons(config)
    ensures safety == ConfigSafetyReasons(config)
  {
    var missing := CheckMissing(config, REQUIRED_POLICY_FIELDS);
    var strings := CheckTypes(config, STRING_FIELDS, AString);
    var booleans := CheckTypes(config, BOOLEAN_FIELDS, ABoolean);
    var counts := CheckTypes(config, COUNT_FIELDS, ACount);
    structural := missing + strings + booleans + counts;
    if Notes in config && !config[Notes].Str? {
      structural := structural + [MustBeString(Notes)];
    }
    if Get(config, PolicyMode).Str? && config[PolicyMode].s !in POLICY_MODES {
      structural := structural + [UnsupportedPolicyMode(config[PolicyMode].s)];
    }
    safety := ConfigSafetyReasons(config);
  }

  /** What a policy configuration must look like to be usable. */
  ghost predicate ConfigAccepted(config: Object) {
    && Get(config, PolicyConfigId).Str?
    && Get(config, PolicyMode).Str? && config[PolicyMode].s in POLICY_MODES
    && Get(config, HumanReviewRequired).Bool?
    && Get(config, AllowRetry) == Bool(false)
    && Get(config, AllowRealExecution) == Bool(false)
    && Get(config, AllowHardwareControl) == Bool(false)
    && Get(config, SimulationOnly) == Bool(true)
    && Get(config, HardwareControlEnabled) == Bool(false)
    && Get(config, ClaimBoundary) == Str(CLAIM_BOUNDARY)
    && (MaxAllowedBlockedActions in config ==> IsCount(config[MaxAllowedBlockedActions]))
    && (MaxAllowedDegradedFlags in config ==> IsCount(config[MaxAllowedDegradedFlags]))
    && (Notes in config ==> config[Notes].Str?)
  }

  lemma ConfigFieldsPresent(config: Object)
    ensures MissingFields(config, REQUIRED_POLICY_FIELDS, |REQUIRED_POLICY_FIELDS|) == [] <==>
      && PolicyConfigId in config && PolicyMode in config && HumanReviewRequired in config && AllowRetry in config
      && AllowRealExecution in config && AllowHardwareControl in config && SimulationOnly in config
      && HardwareControlEnabled in config && ClaimBoundary in config
  {
    var r := REQUIRED_POLICY_FIELDS;
    assert MissingFields(config, r, 1) == [] <==> MissingFields(config, r, 0) == [] && PolicyConfigId in config;
    assert MissingFields(config, r, 2) == [] <==> MissingFields(config, r, 1) == [] && PolicyMode in config;
    assert MissingFields(config, r, 3) == [] <==> MissingFields(config, r, 2) == [] && HumanReviewRequired in config;
    assert MissingFields(config, r, 4) == [] <==> MissingFields(config, r, 3) == [] && AllowRetry in config;
    assert MissingFields(config, r, 5) == [] <==> MissingFields(config, r, 4) == [] && AllowRealExecution in config;
    assert MissingFields(config, r, 6) == [] <==> MissingFields(config, r, 5) == [] && AllowHardwareControl in config;
    assert MissingFields(config, r, 7) == [] <==> MissingFields(config, r, 6) == [] && SimulationOnly in config;
    assert MissingFields(config, r, 8) == [] <==> MissingFields(config, r, 7) == [] && HardwareControlEnabled in config;
    assert MissingFields(config, r, 9) == [] <==> MissingFields(config, r, 8) == [] && ClaimBoundary in config;
  }

  lemma ConfigStringsTyped(config: Object)
    ensures Mistyped(config, STRING_FIELDS, AString, |STRING_FIELDS|) == [] <==>
      Typed(config, PolicyConfigId, AString) && Typed(config, PolicyMode, AString)
        && Typed(config, ClaimBoundary, AString)
  {
    var f := STRING_FIELDS;
    assert Mistyped(config, f, AString, 1) == [] <==>
      Mistyped(config, f, AString, 0) == [] && Typed(config, PolicyConfigId, AString);
    assert Mistyped(config, f, AString, 2) == [] <==>
      Mistyped(config, f, AString, 1) == [] && Typed(config, PolicyMode, AString);
    assert Mistyped(config, f, AString, 3) == [] <==>
      Mistyped(config, f, AString, 2) == [] && Typed(config, ClaimBoundary, AString);
  }

  lemma ConfigBooleansTyped(config: Object)
    ensures Mistyped(config, BOOLEAN_FIELDS, ABoolean, |BOOLEAN_FIELDS|) == [] <==>
      && Typed(config, HumanReviewRequired, ABoolean) && Typed(config, AllowRetry, ABoolean)
      && Typed(config, AllowRealExecution, ABoolean)
      && Typed(config, AllowHardwareControl, ABoolean) && Typed(config, SimulationOnly, ABoolean)
      && Typed(config, HardwareControlEnabled, ABoolean)
  {
    var f := BOOLEAN_FIELDS;
    assert Mistyped(config, f, ABoolean, 1) == [] <==>
      Mistyped(config, f, ABoolean, 0) == [] && Typed(config, HumanReviewRequired, ABoolean);
    assert Mistyped(config, f, ABoolean, 2) == [] <==>
      Mistyped(config, f, ABoolean, 1) == [] && Typed(config, AllowRetry, ABoolean);
    assert Mistyped(config, f, ABoolean, 3) == [] <==>
      Mistyped(config, f, ABoolean, 2) == [] && Typed(config, AllowRealExecution, ABoolean);
    assert Mistyped(config, f, ABoolean, 4) == [] <==>
      Mistyped(config, f, ABoolean, 3) == [] && Typed(config, AllowHardwareControl, ABoolean);
    assert Mistyped(config, f, ABoolean, 5) == [] <==>
      Mistyped(config, f, ABoolean, 4) == [] && Typed(config, SimulationOnly, ABoolean);
    assert Mistyped(config, f, ABoolean, 6) == [] <==>
      Mistyped(config, f, ABoolean, 5) == [] && Typed(config, HardwareControlEnabled, ABoolean);
  }

  lemma ConfigCountsTyped(config: Object)
    ensures Mistyped(config, COUNT_FIELDS, ACount, |COUNT_FIELDS|) == [] <==>
      Typed(config, MaxAllowedBlockedActions, ACount) && Typed(config, MaxAllowedDegradedFlags, ACount)
  {
    var f := COUNT_FIELDS;
    assert Mistyped(config, f, ACount, 1) == [] <==>
      Mistyped(config, f, ACount, 0) == [] && Typed(config, MaxAllowedBlockedActions, ACount);
    assert Mistyped(config, f, ACount, 2) == [] <==>
      Mistyped(config, f, ACount, 1) == [] && Typed(config, MaxAllowedDegradedFlags, ACount);
  }

  lemma ConfigRefusedExactlyUnlessAccepted(config: Object)
    ensures ConfigStructuralReasons(config) == [] && ConfigSafetyReasons(config) == [] <==> ConfigAccepted(config)
  {
    ConfigFieldsPresent(config);
    ConfigStringsTyped(config);
    ConfigBooleansTyped(config);
    ConfigCountsTyped(config);
  }

  // ---- optional reports ----

  datatype ReportInput = NoReport | UnreadableReport | NotAnObject | ReportPayload(payload: Object)

  datatype LoadedReport = LoadedReport(payload: Option<Object>, error: Option<Reason>)

  const REPORT_BOUNDARY: seq<Field> := [SimulationOnly, HardwareControlEnabled, ClaimBoundary]
  const ADAPTER_FIELDS: seq<Field> :=
    REPORT_BOUNDARY + [AdapterSimulationStatus, SimulatedActions, BlockedActions, AdapterBlockReasons]
  const ROLLBACK_FIELDS: seq<Field> :=
    REPORT_BOUNDARY + [RollbackSimulationStatus, RollbackRequired, SafeStopRequired, NoActionTaken, RollbackStrategy,
                       SimulatedRevertActionsPlanned]

  function ReportFields(kind: ReportKind): seq<Field> {
    match kind
    case AdapterKind => ADAPTER_FIELDS
    case RollbackKind => ROLLBACK_FIELDS
  }

  /** The first required field that the report lacks. */
  function FirstMissing(o: Object, fields: seq<Field>): Option<Field> {
    if fields == [] then None else if fields[0] !in o then Some(fields[0]) else FirstMissing(o, fields[1..])
  }

  ghost predicate HasReportFields(kind: ReportKind, o: Object) {
    forall k :: 0 <= k < |ReportFields(kind)| ==> ReportFields(kind)[k] in o
  }

  /** A missing field is reported exactly when there is one, and it is the first. */
  lemma {:induction false} FirstMissingIsFirst(o: Object, fields: seq<Field>)
    ensures match FirstMissing(o, fields)
            case None => forall k :: 0 <= k < |fields| ==> fields[k] in o
            case Some(f) => exists k :: 0 <= k < |fields| && fields[k] == f && f !in o
                                        && forall m :: 0 <= m < k ==> fields[m] in o
  {
    if fields != [] && fields[0] in o {
      FirstMissingIsFirst(o, fields[1..]);
      var rest := FirstMissing(o, fields[1..]);
      if rest.Some? {
        var k :| 0 <= k < |fields[1..]| && fields[1..][k] == rest.value && rest.value !in o
                 && forall m :: 0 <= m < k ==> fields[1..][m] in o;
        assert fields[k + 1] == rest.value;
        forall m | 0 <= m < k + 1 ensures fields[m] in o {
          assert m > 0 ==> fields[m] == fields[1..][m - 1];
        }
      } else {
        forall k | 0 <= k < |fields| ensures fields[k] in o {
          assert k > 0 ==> fields[k] == fields[1..][k - 1];
        }
      }
    }
  }

  predicate WithinBoundary(o: Object) {
    && Get(o, SimulationOnly) == Bool(true)
    && Get(o, HardwareControlEnabled) == Bool(false)
    && Get(o, ClaimBoundary) == Str(CLAIM_BOUNDARY)
  }

  predicate ReportTyped(kind: ReportKind, o: Object) {
    match kind
    case AdapterKind =>
      && Get(o, AdapterSimulationStatus).Str? && IsCount(Get(o, SimulatedActions)) && IsCount(Get(o, BlockedActions))
      && IsStringList(Get(o, AdapterBlockReasons))
    case RollbackKind =>
      && Get(o, RollbackSimulationStatus).Str? && Get(o, RollbackRequired).Bool? && Get(o, SafeStopRequired).Bool?
      && Get(o, NoActionTaken).Bool? && Get(o, RollbackStrategy).Str? && IsCount(Get(o, SimulatedRevertActionsPlanned))
  }

  /** `_load_optional_report`: missing fields first, then the safety boundary, then field types. */
  function LoadReport(kind: ReportKind, input: ReportInput): LoadedReport {
    match input
    case NoReport => LoadedReport(None, None)
    case UnreadableReport => LoadedReport(None, Some(ReportUnreadable(kind)))
    case NotAnObject => LoadedReport(None, Some(ReportNotObject(kind)))
    case ReportPayload(o) =>
      match FirstMissing(o, ReportFields(kind))
      case Some(f) => LoadedReport(Some(o), Some(ReportFieldMissing(kind, f)))
      case None =>
        if !WithinBoundary(o) then LoadedReport(Some(o), Some(ReportBoundaryFailed(kind)))
        else if !ReportTyped(kind, o) then LoadedReport(Some(o), Some(ReportFieldMistyped(kind)))
        else LoadedReport(Some(o), None)
  }

  // ---- the order of refusal ----

  datatype ConfigInput = NoConfig | UnreadableConfig(error: string) | GivenConfig(raw: Object)

  const DEFAULT_MODE := "conservative_default"

  function Refusal(mode: string, selected: Policy, status: PolicyState, rule: Rule, reasons: seq<string>, plan: Object,
                   adapter: Option<Object>, rollback: Option<Object>): Decision
  {
    Decision(mode, selected, status, rule, [], reasons, [], WarningInputs(plan, adapter, rollback))
  }

  function Errors(a: LoadedReport, r: LoadedReport): seq<Reason> {
    (if a.error.Some? then [a.error.value] else []) + (if r.error.Some? then [r.error.value] else [])
  }

  /** `simulate_policy_file` on a loaded plan: structure, configuration, reports, configuration boundary, plan
      boundary, and only then the evaluator. */
  function PolicyOutcome(plan: Object, config: ConfigInput, adapter: ReportInput, rollback: ReportInput): Decision {
    var v := Validation(plan);
    if !v.StructurallyValid() then
      Refusal(DEFAULT_MODE, SelectNoAction, InvalidPolicyInput, InvalidInput, TextsOf(v.structural), plan, None, None)
    else if config.UnreadableConfig? then
      Refusal(DEFAULT_MODE, SelectBlockedArtifacts, BlockedArtifacts, InvalidInput, [config.error], plan, None, None)
    else if config.GivenConfig? && ConfigStructuralReasons(config.raw) != [] then
      Refusal(DEFAULT_MODE, SelectBlockedArtifacts, BlockedArtifacts, InvalidInput,
              TextsOf(ConfigStructuralReasons(config.raw)), plan, None, None)
    else
      var mode := if config.GivenConfig? then PyStr(Get(config.raw, PolicyMode)) else DEFAULT_MODE;
      var safety := if config.GivenConfig? then ConfigSafetyReasons(config.raw) else [];
      var a, r := LoadReport(AdapterKind, adapter), LoadReport(RollbackKind, rollback);
      if Errors(a, r) != [] then
        Refusal(mode, SelectBlockedArtifacts, BlockedArtifacts, InvalidInput, TextsOf(Errors(a, r)), plan, a.payload,
                r.payload)
      else if safety != [] then
        Refusal(mode, SelectNoAction, BlockedConfigBoundary, PolicyConfigBoundary, TextsOf(safety), plan, a.payload,
                r.payload)
      else if !v.SafetyPassed() then
        Refusal(mode, SelectBlockedBoundary, BlockedBySafetyBoundary, RuntimePlanBoundary, TextsOf(v.safety), plan,
                a.payload, r.payload)
      else DecisionOf(plan, mode, a.payload, r.payload)
  }

  ghost predicate ReportAccepted(kind: ReportKind, o: Object) {
    HasReportFields(kind, o) && WithinBoundary(o) && ReportTyped(kind, o)
  }

  ghost predicate ConfigInputAccepted(config: ConfigInput) {
    config.NoConfig? || (config.GivenConfig? && ConfigAccepted(config.raw))
  }

  function ModeOf(config: ConfigInput): string {
    if config.GivenConfig? then PyStr(Get(config.raw, PolicyMode)) else DEFAULT_MODE
  }

  lemma AcceptedReportLoads(kind: ReportKind, o: Object)
    ensures LoadReport(kind, ReportPayload(o)).error == None <==> ReportAccepted(kind, o)
    ensures LoadReport(kind, ReportPayload(o)).payload == Some(o)
    ensures (exists k :: 0 <= k < |ReportFields(kind)| && ReportFields(kind)[k] !in o
                         && (forall m :: 0 <= m < k ==> ReportFields(kind)[m] in o)
                         && LoadReport(kind, ReportPayload(o)).error ==
                           Some(ReportFieldMissing(kind, ReportFields(kind)[k])))
            || HasReportFields(kind, o)
  {
    hide ReportFields, WithinBoundary, ReportTyped;
    FirstMissingIsFirst(o, ReportFields(kind));
  }

  /** An accepted plan with accepted reports reaches the evaluator exactly when the configuration is accepted. */
  lemma AcceptedInputsReachEvaluator(plan: Object, config: ConfigInput, adapter: Object, rollback: Object)
    requires Validation(plan).SafetyPassed()
    requires ReportAccepted(AdapterKind, adapter) && ReportAccepted(RollbackKind, rollback)
    ensures var d := PolicyOutcome(plan, config, ReportPayload(adapter), ReportPayload(rollback));
      && (ConfigInputAccepted(config) ==> d == DecisionOf(plan, ModeOf(config), Some(adapter), Some(rollback)))
      && (!ConfigInputAccepted(config) ==>
           d.status == BlockedArtifacts || d.status == BlockedConfigBoundary)
  {
    AcceptedReportLoads(AdapterKind, adapter);
    AcceptedReportLoads(RollbackKind, rollback);
    if config.GivenConfig? { ConfigRefusedExactlyUnlessAccepted(config.raw); }
  }

  method SimulatePolicy(plan: Object, config: ConfigInput, adapter: ReportInput, rollback: ReportInput)
    returns (d: Decision)
    ensures d == PolicyOutcome(plan, config, adapter, rollback)
  {
    var mode := DEFAULT_MODE;
    var safety: seq<Reason> := [];
    var v := ValidateRuntimePlan(plan);
    if !v.StructurallyValid() {
      return Refusal(mode, SelectNoAction, InvalidPolicyInput, InvalidInput, TextsOf(v.structural), plan, None, None);
    }
    match config {
      case NoConfig =>
      case UnreadableConfig(error) =>
        return Refusal(mode, SelectBlockedArtifacts, BlockedArtifacts, InvalidInput, [error], plan, None, None);
      case GivenConfig(raw) =>
        var structural, configSafety := ValidatePolicyConfig(raw);
        if structural != [] {
          return Refusal(mode, SelectBlockedArtifacts, BlockedArtifacts, InvalidInput, TextsOf(structural), plan, None,
                         None);
        }
        mode := PyStr(Get(raw, PolicyMode));
        safety := configSafety;
    }
    var a, r := LoadReport(AdapterKind, adapter), LoadReport(RollbackKind, rollback);
    var errors := Errors(a, r);
    if errors != [] {
      return Refusal(mode, SelectBlockedArtifacts, BlockedArtifacts, InvalidInput, TextsOf(errors), plan, a.payload,
                     r.payload);
    }
    if safety != [] {
      return Refusal(mode, SelectNoAction, BlockedConfigBoundary, PolicyConfigBoundary, TextsOf(safety), plan,
                     a.payload, r.payload);
    }
    if !v.SafetyPassed() {
      return Refusal(mode, SelectBlockedBoundary, BlockedBySafetyBoundary, RuntimePlanBoundary, TextsOf(v.safety),
                     plan, a.payload, r.payload);
    }
    d := EvaluatePolicy(plan, mode, a.payload, r.payload);
  }

  /** `PolicyDecision.to_dict` and `PolicyReport.to_dict`: never any execution, control or retry. */
  function DecisionToJson(d: Decision): Object {
    map[RuntimeVersion := Str(RUNTIME_VERSION), SimulationOnly := Bool(true), HardwareControlEnabled := Bool(false),
        ClaimBoundary := Str(CLAIM_BOUNDARY), PolicyMode := Str(d.mode), SelectedPolicy := Str(PolicyText(d.selected)),
        PolicyStatus := Str(PolicyStateText(d.status)), RealExecutionAllowed := Bool(false),
        HardwareControlAllowed := Bool(false),
        RetryAllowed := Bool(false), WarningReasons := StrList(d.warnings),
        PolicyWarningInputs := StrList(d.warningInputs)]
  }

  function PolicyReportToJson(d: Decision, plan: Object): Object {
    DecisionToJson(d)[SourcePlanSummary := Adapters.SummaryJson(StringOrNone(Get(plan, ProfileId)))]
  }
}
