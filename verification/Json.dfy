/** JSON payloads as the stages exchange them. Field names the code mentions are constructors; every other name is
    `Other`. */
module JsonValues {
  import opened Base

  datatype Field =
    // profile, workloads and routes
    | ProfileId | HardwareControlEnabled | HumanReviewRequired | ClaimBoundary | VoltagePolicy | RuntimeLoaderHint
    | AssignedWorkloads | UnassignedWorkloads | BlockedRoles | AllowedRoles | PreferredRoutes | RequestedActions
    | Actions | WorkloadId | ActionType | TargetTiles | Role | TargetRole | RouteStatus | RouteId
    // runtime plan and report
    | ActionId | ActionStatus | ActionReason | RuntimeVersion | ExecutionMode | BlockedActions | PlanStatus
    | PlanBlockReasons | DegradedBundleMode | SafetyGatePassed | DegradedModeReasons | BundleValidationPassed
    | BundleValidationWarnings
    // compiler bundle artifacts
    | ArtifactValidationPassed | ValidationStatus | SolverStatus | ComparisonStatus | ComparisonWarnings
    | PassportStatus | DecisionReadiness
    // adapter and rollback reports, scenario
    | SimulationOnly | AdapterSimulationStatus | SimulatedActions | AdapterBlockReasons
    | AdapterSafetyFailureReasons | SourcePlanSummary | RollbackSimulationStatus | RollbackRequired
    | SafeStopRequired | NoActionTaken | RollbackStrategy | SimulatedRevertActionsPlanned | FailureReasons
    | ScenarioId | FailureMode | InjectionStage | TargetActionId
    // policy configuration, decision and report
    | PolicyConfigId | PolicyMode | AllowRetry | AllowRealExecution | AllowHardwareControl
    | MaxAllowedBlockedActions | MaxAllowedDegradedFlags | Notes | SelectedPolicy | PolicyStatus
    | RealExecutionAllowed | HardwareControlAllowed | RetryAllowed | WarningReasons | PolicyWarningInputs
    // evidence bundle
    | BundleId | Artifacts | ArtifactName | Sha256 | SizeBytes | ArtifactCount | EvidenceBundleVersion
    | SafetySummary | HardwareControlEnabledAnywhere | RealExecutionAllowedAnywhere
    | PolicyAllowsHardwareControl | ClaimBoundaryConsistent | EvidenceValidationPassed
    | EvidenceValidationStatus | EvidenceValidationReasons | EvidenceWarningReasons | ConsistencyWarnings
    | Other(name: string)

  datatype Json =
    | Null
    | Bool(b: bool)
    | Int(i: int)
    | Float(num: int, den: nat) // the rational num / (den + 1)
    | Str(s: string)
    | List(items: seq<Json>)
    | Obj(fields: Object)

  type Object = map<Field, Json>

  const RUNTIME_VERSION := "1.0.0"
  const CLAIM_BOUNDARY := "simulation_only_not_certified"

  /** `payload.get(field)` */
  function Get(o: Object, f: Field): Json {
    if f in o then o[f] else Null
  }

  /** `payload.get(field, default)` */
  function GetOr(o: Object, f: Field, default: Json): Json {
    if f in o then o[f] else default
  }

  /** `bool(value)` */
  predicate Truthy(j: Json) {
    match j
    case Null => false
    case Bool(b) => b
    case Int(i) => i != 0
    case Float(num, _) => num != 0
    case Str(s) => s != ""
    case List(items) => items != []
    case Obj(fields) => fields != map[]
  }

  predicate IsNumber(j: Json) {
    j.Bool? || j.Int? || j.Float?
  }

  function Number(j: Json): real
    requires IsNumber(j)
  {
    match j
    case Bool(b) => if b then 1.0 else 0.0
    case Int(i) => i as real
    case Float(num, den) => num as real / (den + 1) as real
  }

  /** Python's `==` on JSON values: `True == 1 == 1.0`, containers element by element. */
  predicate PyEq(a: Json, b: Json)
    decreases a
  {
    if IsNumber(a) && IsNumber(b) then Number(a) == Number(b)
    else match (a, b)
      case (Null, Null) => true
      case (Str(s), Str(t)) => s == t
      case (List(x), List(y)) => |x| == |y| && forall i :: 0 <= i < |x| ==> PyEq(x[i], y[i])
      case (Obj(x), Obj(y)) => x.Keys == y.Keys && forall k :: k in x ==> PyEq(x[k], y[k])
      case _ => false
  }

  function Digits(n: nat): string {
    if n < 10 then [('0' as int + n) as char] else Digits(n / 10) + [('0' as int + n % 10) as char]
  }

  /** `str(value)`; the text of a float, list or object is a placeholder that nothing modelled depends on. */
  function PyStr(j: Json): string {
    match j
    case Null => "None"
    case Bool(b) => if b then "True" else "False"
    case Int(i) => if i < 0 then "-" + Digits(-i) else Digits(i)
    case Float(_, _) => "<float>"
    case Str(s) => s
    case List(_) => "<list>"
    case Obj(_) => "<object>"
  }

  function StringOrNone(j: Json): Option<string> {
    if j.Str? then Some(j.s) else None
  }

  predicate AllStrings(items: seq<Json>) {
    forall i :: 0 <= i < |items| ==> items[i].Str?
  }

  predicate IsStringList(j: Json) {
    j.List? && AllStrings(j.items)
  }

  function Texts(items: seq<Json>): (r: seq<string>)
    requires AllStrings(items)
  {
    seq(|items|, i requires 0 <= i < |items| => items[i].s)
  }

  /** The string items of a list, the others dropped. */
  function StringItems(items: seq<Json>): seq<string> {
    if items == [] then []
    else
      var front := StringItems(items[..|items| - 1]);
      if items[|items| - 1].Str? then front + [items[|items| - 1].s] else front
  }

  /** A text is kept exactly when it is an item of the list. */
  lemma {:induction false} StringItemsExactly(items: seq<Json>)
    ensures forall text :: text in StringItems(items) <==> Str(text) in items
  {
    if items != [] {
      StringItemsExactly(items[..|items| - 1]);
      assert items == items[..|items| - 1] + [items[|items| - 1]];
    }
  }

  function StrList(texts: seq<string>): Json {
    List(seq(|texts|, i requires 0 <= i < |texts| => Str(texts[i])))
  }

  function OptStr(o: Option<string>): Json {
    if o.Some? then Str(o.value) else Null
  }

  /** A non-negative integer that is not a boolean. */
  predicate IsCount(j: Json) {
    j.Int? && j.i >= 0
  }

  lemma TextsOfStrList(texts: seq<string>)
    ensures IsStringList(StrList(texts)) && Texts(StrList(texts).items) == texts
  {
  }

  lemma {:induction false} StringItemsOfStrList(texts: seq<string>)
    ensures StringItems(StrList(texts).items) == texts
  {
    if texts != [] {
      var n := |texts| - 1;
      StringItemsOfStrList(texts[..n]);
      assert StrList(texts).items[..n] == StrList(texts[..n]).items;
      assert texts == texts[..n] + [texts[n]];
    }
  }
}
