/** The plan as a JSON document, and the check every later stage makes before using one. */
module RuntimePlan {
  import opened Base
  import opened JsonValues
  import opened Reasons
  import opened SafetyGate
  import opened PlanBuilder

  function Keep(f: Field, o: Option<string>): Object {
    if o.Some? then map[f := Str(o.value)] else map[]
  }

  /** `RuntimeAction.to_dict`: absent optional fields are left out. */
  function RecordToJson(r: Record): Object {
    map[ActionId := Str(r.id), ActionType := Str(r.actionType),
        ActionStatus := Str(if r.status == Planned then "planned" else "blocked")]
    + Keep(WorkloadId, r.workloadId) + Keep(Role, r.role)
    + (if r.targets != [] then map[TargetTiles := StrList(r.targets)] else map[])
    + Keep(RouteId, r.routeId) + (if r.reason.Some? then map[ActionReason := Str(Text(r.reason.value))] else map[])
  }

  function RecordsToJson(records: seq<Record>): Json {
    List(seq(|records|, i requires 0 <= i < |records| => Obj(RecordToJson(records[i]))))
  }

  /** `RuntimePlan.to_dict` */
  function PlanToJson(p: Plan): Object {
    map[RuntimeVersion := Str(RUNTIME_VERSION), ProfileId := Str(p.profileId), ExecutionMode := Str("dry_run"),
        HardwareControlEnabled := Bool(p.hardwareControl), HumanReviewRequired := Bool(p.humanReview),
        ClaimBoundary := OptStr(p.claim), PlanStatus := Str(p.status),
        PlanBlockReasons := StrList(TextsOf(p.blockReasons)),
        Actions := RecordsToJson(p.actions), BlockedActions := RecordsToJson(p.blocked)]
  }

  const EXECUTABLE: set<string> := {"planned", "planned_with_blocks"}
  const NONEXECUTABLE: set<string> :=
    {"degraded_no_execution_plan", "blocked_by_safety_gate", "blocked_by_bundle_validation"}

  const REQUIRED_PLAN_FIELDS: seq<Field> := [
    RuntimeVersion, ExecutionMode, HardwareControlEnabled, HumanReviewRequired, ClaimBoundary, Actions,
    BlockedActions, PlanStatus, PlanBlockReasons]

  const PLAN_LIST_FIELDS: seq<Field> := [Actions, BlockedActions, PlanBlockReasons]

  datatype PlanValidation = PlanValidation(structural: seq<Reason>, safety: seq<Reason>) {
    predicate StructurallyValid() { structural == [] }
    predicate SafetyPassed() { structural == [] && safety == [] }
  }

  function MissingFields(payload: Object, fields: seq<Field>, n: nat): seq<Reason>
    requires n <= |fields|
  {
    if n == 0 then []
    else
      var f := fields[n - 1];
      MissingFields(payload, fields, n - 1) + (if f !in payload then [MissingField(f)] else [])
  }

  function NotLists(plan: Object, fields: seq<Field>, n: nat): seq<Reason>
    requires n <= |fields|
  {
    if n == 0 then []
    else
      var f := fields[n - 1];
      NotLists(plan, fields, n - 1) + (if f in plan && !plan[f].List? then [MustBeList(f)] else [])
  }

  predicate AllObjects(items: seq<Json>) {
    forall i :: 0 <= i < |items| ==> items[i].Obj?
  }

  predicate StatusSupported(status: Json) {
    status.Str? && (status.s in EXECUTABLE || status.s in NONEXECUTABLE)
  }

  function StructuralReasons(plan: Object): seq<Reason> {
    MissingFields(plan, REQUIRED_PLAN_FIELDS, |REQUIRED_PLAN_FIELDS|)
    + (if RuntimeVersion in plan && !plan[RuntimeVersion].Str? then [MustBeString(RuntimeVersion)] else [])
    + NotLists(plan, PLAN_LIST_FIELDS, |PLAN_LIST_FIELDS|)
    + (if Get(plan, Actions).List? && !AllObjects(plan[Actions].items) then [ActionsNotObjects] else [])
    + (if PlanStatus in plan && !StatusSupported(plan[PlanStatus]) then [PlanStatusUnsupported] else [])
  }

  function SafetyReasons(plan: Object): seq<Reason> {
    (if ExecutionMode in plan && plan[ExecutionMode] != Str("dry_run") then [MustBe(ExecutionMode, "dry_run")] else [])
    + (if HardwareControlEnabled in plan && plan[HardwareControlEnabled] != Bool(false)
       then [MustBe(HardwareControlEnabled, "false")] else [])
    + (if HumanReviewRequired in plan && plan[HumanReviewRequired] != Bool(true)
       then [MustBe(HumanReviewRequired, "true")] else [])
    + (if ClaimBoundary in plan && plan[ClaimBoundary] != Str(CLAIM_BOUNDARY)
       then [MustBe(ClaimBoundary, CLAIM_BOUNDARY)] else [])
  }

  function Validation(plan: Object): PlanValidation {
    PlanValidation(StructuralReasons(plan), SafetyReasons(plan))
  }

  method CheckMissing(payload: Object, fields: seq<Field>) returns (reasons: seq<Reason>)
    ensures reasons == MissingFields(payload, fields, |fields|)
  {
    reasons := [];
    for i := 0 to |fields|
      invariant reasons == MissingFields(payload, fields, i)
    {
      if fields[i] !in payload {
        reasons := reasons + [MissingField(fields[i])];
      }
    }
  }

  method CheckLists(plan: Object, fields: seq<Field>) returns (reasons: seq<Reason>)
    ensures reasons == NotLists(plan, fields, |fields|)
  {
    reasons := [];
    for i := 0 to |fields|
      invariant reasons == NotLists(plan, fields, i)
    {
      if fields[i] in plan && !plan[fields[i]].List? {
        reasons := reasons + [MustBeList(fields[i])];
      }
    }
  }

  method ValidateRuntimePlan(plan: Object) returns (v: PlanValidation)
    ensures v == Validation(plan)
  {
    var structural := CheckMissing(plan, REQUIRED_PLAN_FIELDS);
    if RuntimeVersion in plan && !plan[RuntimeVersion].Str? {
      structural := structural + [MustBeString(RuntimeVersion)];
    }
    var notLists := CheckLists(plan, PLAN_LIST_FIELDS);
    structural := structural + notLists;
    if Get(plan, Actions).List? && !AllObjects(plan[Actions].items) {
      structural := structural + [ActionsNotObjects];
    }
    if PlanStatus in plan && !StatusSupported(plan[PlanStatus]) {
      structural := structural + [PlanStatusUnsupported];
    }
    v := PlanValidation(structural, SafetyReasons(plan));
  }

  /** The shape a structurally valid plan has, stated without reason lists. */
  ghost predicate WellFormed(plan: Object) {
    && Get(plan, RuntimeVersion).Str?
    && ExecutionMode in plan && HardwareControlEnabled in plan && HumanReviewRequired in plan && ClaimBoundary in plan
    && Get(plan, Actions).List? && AllObjects(plan[Actions].items)
    && Get(plan, BlockedActions).List? && Get(plan, PlanBlockReasons).List?
    && StatusSupported(Get(plan, PlanStatus))
  }

  lemma NoRequiredFieldMissing(plan: Object)
    ensures MissingFields(plan, REQUIRED_PLAN_FIELDS, |REQUIRED_PLAN_FIELDS|) == [] <==>
      && RuntimeVersion in plan && ExecutionMode in plan && HardwareControlEnabled in plan
      && HumanReviewRequired in plan && ClaimBoundary in plan && Actions in plan && BlockedActions in plan
      && PlanStatus in plan && PlanBlockReasons in plan
  {
    var r := REQUIRED_PLAN_FIELDS;
    assert MissingFields(plan, r, 1) == [] <==> MissingFields(plan, r, 0) == [] && RuntimeVersion in plan;
    assert MissingFields(plan, r, 2) == [] <==> MissingFields(plan, r, 1) == [] && ExecutionMode in plan;
    assert MissingFields(plan, r, 3) == [] <==> MissingFields(plan, r, 2) == [] && HardwareControlEnabled in plan;
    assert MissingFields(plan, r, 4) == [] <==> MissingFields(plan, r, 3) == [] && HumanReviewRequired in plan;
    assert MissingFields(plan, r, 5) == [] <==> MissingFields(plan, r, 4) == [] && ClaimBoundary in plan;
    assert MissingFields(plan, r, 6) == [] <==> MissingFields(plan, r, 5) == [] && Actions in plan;
    assert MissingFields(plan, r, 7) == [] <==> MissingFields(plan, r, 6) == [] && BlockedActions in plan;
    assert MissingFields(plan, r, 8) == [] <==> MissingFields(plan, r, 7) == [] && PlanStatus in plan;
    assert MissingFields(plan, r, 9) == [] <==> MissingFields(plan, r, 8) == [] && PlanBlockReasons in plan;
  }

  lemma NoListFieldMistyped(plan: Object)
    ensures NotLists(plan, PLAN_LIST_FIELDS, |PLAN_LIST_FIELDS|) == [] <==>
      && (Actions in plan ==> plan[Actions].List?)
      && (BlockedActions in plan ==> plan[BlockedActions].List?)
      && (PlanBlockReasons in plan ==> plan[PlanBlockReasons].List?)
  {
    var f := PLAN_LIST_FIELDS;
    assert NotLists(plan, f, 1) == [] <==> (Actions in plan ==> plan[Actions].List?);
    assert NotLists(plan, f, 2) == [] <==>
      NotLists(plan, f, 1) == [] && (BlockedActions in plan ==> plan[BlockedActions].List?);
    assert NotLists(plan, f, 3) == [] <==>
      NotLists(plan, f, 2) == [] && (PlanBlockReasons in plan ==> plan[PlanBlockReasons].List?);
  }

  lemma StructurallyValidExactlyWellFormed(plan: Object)
    ensures Validation(plan).StructurallyValid() <==> WellFormed(plan)
  {
    NoRequiredFieldMissing(plan);
    NoListFieldMistyped(plan);
  }

  lemma BuiltPlanStatus(profile: Object)
    ensures var p, g := PlanOf(profile), Gate(profile);
      && (!g.passed ==> p.status == "blocked_by_safety_gate")
      && (g.passed && g.degraded ==> p.status == "degraded_no_execution_plan")
      && (g.passed && !g.degraded ==> p.status == if p.blocked == [] then "planned" else "planned_with_blocks")
      && (!g.passed || g.degraded ==> p.actions == [] && p.blocked == [])
      && p.hardwareControl == (Get(profile, HardwareControlEnabled) != Bool(false))
      && p.humanReview == (Get(profile, HumanReviewRequired) == Bool(true))
      && p.claim == StringOrNone(Get(profile, ClaimBoundary))
      && p.profileId == PyStr(GetOr(profile, ProfileId, Str("unknown")))
  {
  }

  lemma PlanDocumentValidates(p: Plan)
    requires StatusSupported(Str(p.status))
    ensures Validation(PlanToJson(p)).StructurallyValid()
    ensures Validation(PlanToJson(p)).SafetyPassed() <==>
      !p.hardwareControl && p.humanReview && p.claim == Some(CLAIM_BOUNDARY)
  {
    assert WellFormed(PlanToJson(p));
    StructurallyValidExactlyWellFormed(PlanToJson(p));
  }

  /** Whatever the profile, the plan built from it is structurally valid; its safety boundary passes exactly when
      the profile's hardware, review and claim fields are exact. */
  lemma BuiltPlanValidates(profile: Object)
    ensures Validation(PlanToJson(PlanOf(profile))).StructurallyValid()
    ensures Validation(PlanToJson(PlanOf(profile))).SafetyPassed() <==>
      && Get(profile, HardwareControlEnabled) == Bool(false)
      && Get(profile, HumanReviewRequired) == Bool(true)
      && Get(profile, ClaimBoundary) == Str(CLAIM_BOUNDARY)
  {
    BuiltPlanStatus(profile);
    PlanDocumentValidates(PlanOf(profile));
  }

  lemma PassedGateBuildsAcceptedPlan(profile: Object)
    requires Gate(profile).passed
    ensures Validation(PlanToJson(PlanOf(profile))).SafetyPassed()
  {
    GatePassesExactlyConforming(profile);
    BuiltPlanValidates(profile);
  }

  /** The action objects of a plan document. */
  function PlanActions(plan: Object): seq<Object> {
    if !Get(plan, Actions).List? then []
    else
      var items := plan[Actions].items;
      seq(|items|, i requires 0 <= i < |items| => if items[i].Obj? then items[i].fields else map[])
  }

  /** The object is that of this record. */
  ghost predicate Shows(o: Object, r: Record) {
    && Get(o, ActionId) == Str(r.id) && Get(o, ActionType) == Str(r.actionType)
    && StringOrNone(Get(o, WorkloadId)) == r.workloadId && StringOrNone(Get(o, Role)) == r.role
    && StringOrNone(Get(o, RouteId)) == r.routeId && Get(o, TargetRole) == Null
    && (if r.targets == [] then Get(o, TargetTiles) == Null else TargetsOf(o) == Some(r.targets))
    && (r.status == Planned <==> Get(o, ActionStatus) == Str("planned"))
    && (match r.reason case Some(reason) => Get(o, ActionReason) == Str(Text(reason))
        case None => Get(o, ActionReason) == Null)
  }

  function OptText(o: Option<string>): Json {
    match o case Some(text) => Str(text) case None => Null
  }

  lemma ShowsId(r: Record)
    ensures Get(RecordToJson(r), ActionId) == Str(r.id)
  {
    hide Text, StrList;
  }

  lemma ShowsType(r: Record)
    ensures Get(RecordToJson(r), ActionType) == Str(r.actionType)
  {
    hide Text, StrList;
  }

  lemma ShowsStatus(r: Record)
    ensures Get(RecordToJson(r), ActionStatus) == Str(if r.status == Planned then "planned" else "blocked")
  {
    hide Text, StrList;
  }

  lemma ShowsWorkload(r: Record)
    ensures Get(RecordToJson(r), WorkloadId) == OptText(r.workloadId)
  {
    hide Text, StrList;
  }

  lemma ShowsRole(r: Record)
    ensures Get(RecordToJson(r), Role) == OptText(r.role)
  {
    hide Text, StrList;
  }

  lemma ShowsRoute(r: Record)
    ensures Get(RecordToJson(r), RouteId) == OptText(r.routeId)
  {
    hide Text, StrList;
  }

  lemma ShowsTargets(r: Record)
    ensures Get(RecordToJson(r), TargetTiles) == if r.targets != [] then StrList(r.targets) else Null
  {
    hide Text, StrList;
  }

  lemma ShowsReason(r: Record)
    ensures Get(RecordToJson(r), ActionReason) == if r.reason.Some? then Str(Text(r.reason.value)) else Null
  {
    hide Text, StrList;
  }

  lemma ShowsNoTargetRole(r: Record)
    ensures Get(RecordToJson(r), TargetRole) == Null
  {
    hide Text, StrList;
  }

  lemma RecordIsShown(r: Record)
    ensures Shows(RecordToJson(r), r)
  {
    hide Text, RecordToJson, StrList, Texts;
    ShowsId(r);
    ShowsType(r);
    ShowsStatus(r);
    ShowsWorkload(r);
    ShowsRole(r);
    ShowsRoute(r);
    ShowsTargets(r);
    ShowsReason(r);
    ShowsNoTargetRole(r);
    assert "planned"[0] != "blocked"[0];
    TextsOfStrList(r.targets);
  }

  /** The document of a plan shows the planned records as its actions and the blocked ones beside them, in order. */
  lemma DocumentShowsPlan(p: Plan)
    ensures var actions := PlanActions(PlanToJson(p));
            |actions| == |p.actions| && forall i :: 0 <= i < |actions| ==> Shows(actions[i], p.actions[i])
    ensures match Get(PlanToJson(p), BlockedActions)
            case List(items) =>
              && |items| == |p.blocked|
              && forall i :: 0 <= i < |items| ==> items[i].Obj? && Shows(items[i].fields, p.blocked[i])
            case _ => false
    ensures Get(PlanToJson(p), PlanBlockReasons) == StrList(TextsOf(p.blockReasons))
    ensures Get(PlanToJson(p), PlanStatus) == Str(p.status) && Get(PlanToJson(p), ProfileId) == Str(p.profileId)
  {
    hide Shows, RecordToJson, TextsOf;
    forall r ensures Shows(RecordToJson(r), r) { RecordIsShown(r); }
  }
}
