/** The mock adapter registry and the simulator that runs a plan through it. */
module Adapters {
  import opened Base
  import opened JsonValues
  import opened Reasons
  import opened RuntimePlan

  datatype Adapter = SensorTile | RoutingTile | MemoryTile

  const REGISTRY: seq<Adapter> := [SensorTile, RoutingTile, MemoryTile]
  const ADAPTER_ACTION := "assign_workload"

  function RoleSupported(a: Adapter): string {
    match a
    case SensorTile => "sensor_tile"
    case RoutingTile => "routing_tile"
    case MemoryTile => "memory_tile"
  }

  datatype Resolution = Resolved(adapter: Adapter) | Unresolved(reason: string)

  function NonEmptyString(j: Json): Option<string> {
    if j.Str? && j.s != "" then Some(j.s) else None
  }

  /** `_resolve_role`: `role` or `target_role`, the marker "__conflict__" when both are set and differ. */
  function ResolveRole(action: Object): Option<string> {
    var role := NonEmptyString(Get(action, Role));
    var target := NonEmptyString(Get(action, TargetRole));
    if role.Some? && target.Some? && role != target then Some("__conflict__")
    else if role.Some? then role else target
  }

  function FirstSupporting(role: string, n: nat): Option<Adapter>
    requires n <= |REGISTRY|
    decreases |REGISTRY| - n
  {
    if n == |REGISTRY| then None
    else if RoleSupported(REGISTRY[n]) == role then Some(REGISTRY[n])
    else FirstSupporting(role, n + 1)
  }

  function Resolve(action: Object): Resolution {
    if Get(action, ActionType) != Str(ADAPTER_ACTION) then Unresolved("unsupported_action_type")
    else
      var role := ResolveRole(action);
      if role.None? || role.value == "__conflict__" then Unresolved("role_missing_or_unresolvable")
      else
        var found := FirstSupporting(role.value, 0);
        if found.Some? then Resolved(found.value) else Unresolved("role_missing_or_unresolvable")
  }

  datatype SimulationStatus = Simulated | BlockedUnsupportedAction | BlockedUnsupportedRole

  /** `_action_role`: any string `role` wins, even the empty one. */
  function ActionRole(action: Object): Option<string> {
    if Get(action, Role).Str? then Some(action[Role].s)
    else StringOrNone(Get(action, TargetRole))
  }

  function SimulateOn(a: Adapter, action: Object): (SimulationStatus, string) {
    if PyStr(GetOr(action, ActionType, Str("unknown"))) != ADAPTER_ACTION then
      (BlockedUnsupportedAction, "action_type_not_supported_by_mock_adapter")
    else
      var role := ActionRole(action);
      if role.Some? && role.value != RoleSupported(a) then
        (BlockedUnsupportedRole, "role_not_supported_by_mock_adapter")
      else (Simulated, "mock_adapter_contract_accepted")
  }

  /** What both simulators ask: the action resolves, and the resolved adapter simulates it. */
  predicate Accepts(action: Object) {
    Resolve(action).Resolved? && SimulateOn(Resolve(action).adapter, action).0 == Simulated
  }

  lemma FirstSupportingIsFor(role: string)
    ensures FirstSupporting(role, 0).Some? ==> RoleSupported(FirstSupporting(role, 0).value) == role
    ensures FirstSupporting(role, 0).Some? <==> role in {"sensor_tile", "routing_tile", "memory_tile"}
  {
    assert FirstSupporting(role, 3) == None;
    assert FirstSupporting(role, 2) == if role == "memory_tile" then Some(MemoryTile) else None;
    assert FirstSupporting(role, 1) == if role == "routing_tile" then Some(RoutingTile) else FirstSupporting(role, 2);
    assert FirstSupporting(role, 0) == if role == "sensor_tile" then Some(SensorTile) else FirstSupporting(role, 1);
  }

  /** Resolution implies acceptance except in exactly one case: `role` is the empty string (so that `target_role`
      alone resolved the adapter). */
  lemma ResolvedIsAcceptedUnlessRoleEmpty(action: Object)
    requires Resolve(action).Resolved?
    ensures Accepts(action) <==> Get(action, Role) != Str("")
    ensures Get(action, Role) == Str("") ==> NonEmptyString(Get(action, TargetRole)).Some?
  {
    FirstSupportingIsFor(ResolveRole(action).value);
  }

  datatype MockResult = MockResult(
    adapter: Option<Adapter>, actionId: string, actionType: string, workloadId: Option<string>,
    status: SimulationStatus, reason: string)

  function ActionIdOf(action: Object): string {
    PyStr(GetOr(action, ActionId, Str("unknown")))
  }

  function ResultFor(action: Object): MockResult {
    var actionType := PyStr(GetOr(action, ActionType, Str("unknown")));
    var workload := StringOrNone(Get(action, WorkloadId));
    match Resolve(action)
    case Unresolved(reason) =>
      MockResult(None, ActionIdOf(action), actionType, workload,
                 if reason == "unsupported_action_type" then BlockedUnsupportedAction
                 else BlockedUnsupportedRole, reason)
    case Resolved(a) =>
      var s := SimulateOn(a, action);
      MockResult(Some(a), ActionIdOf(action), actionType, workload, s.0, s.1)
  }

  function Results(actions: seq<Object>): seq<MockResult> {
    seq(|actions|, i requires 0 <= i < |actions| => ResultFor(actions[i]))
  }

  function CountSimulated(results: seq<MockResult>): nat {
    if results == [] then 0
    else CountSimulated(results[..|results| - 1]) + if results[|results| - 1].status == Simulated then 1 else 0
  }

  function BlockReason(r: MockResult): string {
    match r.status
    case Simulated => ""
    case BlockedUnsupportedAction => "unsupported_action_type"
    case BlockedUnsupportedRole => r.reason
  }

  function BlockReasons(results: seq<MockResult>): seq<string> {
    if results == [] then []
    else
      var last := results[|results| - 1];
      BlockReasons(results[..|results| - 1])
      + (if last.status != Simulated && BlockReason(last) != "" then [BlockReason(last)] else [])
  }

  datatype AdapterStatus = InvalidPlan | SafetyBlocked | SkippedNotExecutable | CompletedWithBlocks | AdapterPassed

  function AdapterStatusText(s: AdapterStatus): string {
    match s
    case InvalidPlan => "invalid_plan"
    case SafetyBlocked => "blocked_safety_boundary"
    case SkippedNotExecutable => "skipped_plan_not_executable"
    case CompletedWithBlocks => "adapter_simulation_completed_with_blocks"
    case AdapterPassed => "adapter_simulation_passed"
  }

  datatype AdapterReport = AdapterReport(
    status: AdapterStatus, planStatus: string, planProfile: Option<string>, simulated: nat, blocked: nat, skipped: nat,
    blockReasons: seq<string>, safetyReasons: seq<string>, results: seq<MockResult>)

  function BuildAdapterReport(plan: Object, status: AdapterStatus, results: seq<MockResult>, skipped: nat,
                              reasons: seq<string>, safety: seq<string>): (r: AdapterReport)
  {
    CountBound(results);
    var planStatus := Get(plan, PlanStatus);
    AdapterReport(status, if planStatus.Str? then planStatus.s else "unknown", StringOrNone(Get(plan, ProfileId)),
                  CountSimulated(results), |results| - CountSimulated(results), skipped,
                  Dedup(reasons + BlockReasons(results)), safety, results)
  }

  lemma {:induction false} CountBound(results: seq<MockResult>)
    ensures CountSimulated(results) <= |results|
    ensures CountSimulated(results) == |results| <==> forall i :: 0 <= i < |results| ==> results[i].status == Simulated
  {
    if results != [] { CountBound(results[..|results| - 1]); }
  }

  /** `simulate_plan` on an arbitrary plan document. */
  function SimulateReport(plan: Object): AdapterReport {
    var v := Validation(plan);
    if !v.StructurallyValid() then BuildAdapterReport(plan, InvalidPlan, [], 0, [], [])
    else if !v.SafetyPassed() then
      BuildAdapterReport(plan, SafetyBlocked, [], 0, ["safety_boundary_failed"], TextsOf(v.safety))
    else if Get(plan, PlanStatus).Str? && plan[PlanStatus].s in NONEXECUTABLE then
      BuildAdapterReport(plan, SkippedNotExecutable, [], |PlanActions(plan)|, [plan[PlanStatus].s], [])
    else
      var results := Results(PlanActions(plan));
      BuildAdapterReport(plan, if CountSimulated(results) < |results| then CompletedWithBlocks
                               else AdapterPassed, results, 0, [], [])
  }

  method SimulatePlan(plan: Object) returns (report: AdapterReport)
    ensures report == SimulateReport(plan)
  {
    var v := ValidateRuntimePlan(plan);
    if !v.StructurallyValid() {
      return BuildAdapterReport(plan, InvalidPlan, [], 0, [], []);
    }
    if !v.SafetyPassed() {
      return BuildAdapterReport(plan, SafetyBlocked, [], 0, ["safety_boundary_failed"], TextsOf(v.safety));
    }
    var actions := PlanActions(plan);
    if Get(plan, PlanStatus).Str? && plan[PlanStatus].s in NONEXECUTABLE {
      return BuildAdapterReport(plan, SkippedNotExecutable, [], |actions|, [plan[PlanStatus].s], []);
    }
    var results := RunAdapters(actions);
    var blocked := CountBlocked(results);
    report := BuildAdapterReport(plan, if blocked > 0 then CompletedWithBlocks
                                       else AdapterPassed, results, 0, [], []);
  }

  method RunAdapters(actions: seq<Object>) returns (results: seq<MockResult>)
    ensures results == Results(actions)
  {
    hide Resolve, SimulateOn, PyStr, ActionIdOf;
    results := [];
    for i := 0 to |actions|
      invariant results == Results(actions)[..i]
    {
      var action := actions[i];
      var actionType := PyStr(GetOr(action, ActionType, Str("unknown")));
      var workload := StringOrNone(Get(action, WorkloadId));
      var resolution := Resolve(action);
      if resolution.Unresolved? {
        var status := if resolution.reason == "unsupported_action_type" then BlockedUnsupportedAction
                      else BlockedUnsupportedRole;
        results := results + [MockResult(None, ActionIdOf(action), actionType, workload, status, resolution.reason)];
      } else {
        var s := SimulateOn(resolution.adapter, action);
        results := results + [MockResult(Some(resolution.adapter), ActionIdOf(action), actionType, workload, s.0, s.1)];
      }
    }
  }

  method CountBlocked(results: seq<MockResult>) returns (blocked: nat)
    ensures blocked == |results| - CountSimulated(results)
  {
    blocked := 0;
    for i := 0 to |results|
      invariant blocked == i - CountSimulated(results[..i])
    {
      assert results[..i + 1][..i] == results[..i];
      if results[i].status != Simulated {
        blocked := blocked + 1;
      }
    }
    assert results[..|results|] == results;
  }

  function SummaryJson(profile: Option<string>): Json {
    Obj(map[ProfileId := OptStr(profile)])
  }

  /** `AdapterSimulationReport.to_dict`, the fields a later stage or check reads. */
  function AdapterReportToJson(r: AdapterReport): Object {
    map[RuntimeVersion := Str(RUNTIME_VERSION), SimulationOnly := Bool(true), HardwareControlEnabled := Bool(false),
        ClaimBoundary := Str(CLAIM_BOUNDARY), PlanStatus := Str(r.planStatus),
        AdapterSimulationStatus := Str(AdapterStatusText(r.status)),
        SimulatedActions := Int(r.simulated), BlockedActions := Int(r.blocked),
        AdapterBlockReasons := StrList(r.blockReasons), AdapterSafetyFailureReasons := StrList(r.safetyReasons),
        SourcePlanSummary := SummaryJson(r.planProfile)]
  }

  /** An action is reported simulated exactly when it is accepted. */
  lemma ResultSimulatedExactlyAccepted(action: Object)
    ensures ResultFor(action).status == Simulated <==> Accepts(action)
    ensures ResultFor(action).actionId == ActionIdOf(action)
  {
  }

  /** Conservation: on an accepted plan every action is counted once, as simulated, blocked or skipped; the simulation
      passes exactly when the plan is executable and every action is accepted. */
  lemma ReportCountsEveryAction(plan: Object)
    requires Validation(plan).SafetyPassed()
    ensures var r := SimulateReport(plan);
            && r.simulated + r.blocked + r.skipped == |PlanActions(plan)|
            && (r.status == AdapterPassed <==>
                !(Get(plan, PlanStatus).Str? && plan[PlanStatus].s in NONEXECUTABLE)
                && forall i :: 0 <= i < |PlanActions(plan)| ==> Accepts(PlanActions(plan)[i]))
  {
    hide Validation, PlanActions, Accepts, Resolve, SimulateOn, BlockReasons, ResultFor;
    var actions := PlanActions(plan);
    CountBound(Results(actions));
    forall i | 0 <= i < |actions| ensures Results(actions)[i].status == Simulated <==> Accepts(actions[i]) {
      ResultSimulatedExactlyAccepted(actions[i]);
    }
  }

  // ---- exactly which actions are accepted ----

  /** The roles an action states, without the empty ones. */
  ghost predicate StatesRole(action: Object, role: string) {
    role != "" && (Get(action, Role) == Str(role) || Get(action, TargetRole) == Str(role))
  }

  /** The action names one role, in one field or in both, and an adapter supports it. */
  ghost predicate NamesSupportedRole(action: Object) {
    && (exists role :: StatesRole(action, role) && role in {"sensor_tile", "routing_tile", "memory_tile"})
    && (forall a, b :: StatesRole(action, a) && StatesRole(action, b) ==> a == b)
  }

  lemma ResolvedExactly(action: Object)
    ensures Resolve(action).Resolved? <==>
            Get(action, ActionType) == Str("assign_workload") && NamesSupportedRole(action)
    ensures Resolve(action).Resolved? ==> StatesRole(action, RoleSupported(Resolve(action).adapter))
  {
    hide FirstSupporting;
    var role := ResolveRole(action);
    if Get(action, ActionType) == Str("assign_workload") {
      StatedRoles(action);
      if role.Some? {
        FirstSupportingIsFor(role.value);
        ConflictIsNoRole();
      }
    }
  }

  lemma ConflictIsNoRole()
    ensures "__conflict__" !in {"sensor_tile", "routing_tile", "memory_tile"}
  {
    assert "__conflict__"[0] == '_';
  }

  lemma StatedRoles(action: Object)
    ensures var role := ResolveRole(action);
      && (role.None? ==> forall r :: !StatesRole(action, r))
      && (role.Some? && role.value != "__conflict__" ==>
            StatesRole(action, role.value) && forall r :: StatesRole(action, r) ==> r == role.value)
      && (role == Some("__conflict__") ==>
            !NamesSupportedRole(action))
  {
    var own, target := NonEmptyString(Get(action, Role)), NonEmptyString(Get(action, TargetRole));
    forall r ensures StatesRole(action, r) <==> own == Some(r) || target == Some(r) {}
    if ResolveRole(action) == Some("__conflict__") {
      ConflictIsNoRole();
      if own.Some? && target.Some? && own != target {
        assert StatesRole(action, own.value) && StatesRole(action, target.value);
      } else {
        assert forall r :: StatesRole(action, r) ==> r == "__conflict__";
      }
    }
  }

  /** What becomes of an action: it is simulated by the adapter of the one role it names, unless it is of another type,
      names no single supported role, or states an empty `role` beside the target role. */
  lemma ResultIsExact(action: Object)
    ensures var r, typed := ResultFor(action), Get(action, ActionType) == Str("assign_workload");
      && (r.status == Simulated <==> typed && NamesSupportedRole(action) && Get(action, Role) != Str(""))
      && (r.status == BlockedUnsupportedAction <==> !typed)
      && (r.adapter.Some? <==> typed && NamesSupportedRole(action))
      && (r.adapter.Some? ==> StatesRole(action, RoleSupported(r.adapter.value)))
      && r.reason == (if !typed then "unsupported_action_type"
                      else if !NamesSupportedRole(action) then "role_missing_or_unresolvable"
                      else if Get(action, Role) == Str("") then "role_not_supported_by_mock_adapter"
                      else "mock_adapter_contract_accepted")
  {
    hide NamesSupportedRole, StatesRole, ResolveRole, FirstSupporting;
    ResolvedExactly(action);
    if Resolve(action).Resolved? {
      ResolvedIsAcceptedUnlessRoleEmpty(action);
    } else {
      UnresolvedReasons(action);
    }
  }

  /** A result carries its action's id, type and workload; an id or a type that is missing is unknown. */
  lemma ResultCarriesAction(action: Object)
    ensures var r := ResultFor(action);
      && (forall t :: Get(action, WorkloadId) == Str(t) <==> r.workloadId == Some(t))
      && (forall t :: Get(action, ActionId) == Str(t) ==> r.actionId == t)
      && (forall t :: Get(action, ActionType) == Str(t) ==> r.actionType == t)
      && (ActionId !in action ==> r.actionId == "unknown") && (ActionType !in action ==> r.actionType == "unknown")
  {
    hide Resolve, SimulateOn;
  }

  lemma UnresolvedReasons(action: Object)
    requires Resolve(action).Unresolved?
    ensures Resolve(action).reason ==
            if Get(action, ActionType) == Str("assign_workload") then "role_missing_or_unresolvable"
            else "unsupported_action_type"
    ensures "role_missing_or_unresolvable" != "unsupported_action_type"
  {
    assert "role_missing_or_unresolvable"[0] != "unsupported_action_type"[0];
  }

  // ---- exactly what the stage reports ----

  lemma RejectedHasReason(action: Object)
    ensures !Accepts(action) ==>
              BlockReason(ResultFor(action)) == ResultFor(action).reason && ResultFor(action).reason != ""
  {
    hide NamesSupportedRole, StatesRole, Resolve, SimulateOn;
    ResultIsExact(action);
    ResultSimulatedExactlyAccepted(action);
  }

  lemma {:induction false} BlockReasonsExactly(actions: seq<Object>, n: nat)
    requires n <= |actions|
    ensures forall t :: t in BlockReasons(Results(actions)[..n]) <==>
              exists i :: 0 <= i < n && !Accepts(actions[i]) && ResultFor(actions[i]).reason == t
  {
    hide Accepts, ResultFor, BlockReason;
    if n > 0 {
      BlockReasonsExactly(actions, n - 1);
      var all := Results(actions);
      assert all[..n][..n - 1] == all[..n - 1] && all[..n][n - 1] == ResultFor(actions[n - 1]);
      RejectedHasReason(actions[n - 1]);
      ResultSimulatedExactlyAccepted(actions[n - 1]);
    }
  }

  predicate NotExecutable(plan: Object) {
    Get(plan, PlanStatus).Str? && Get(plan, PlanStatus).s in NONEXECUTABLE
  }

  ghost predicate Rejects(plan: Object) {
    exists i :: 0 <= i < |PlanActions(plan)| && !Accepts(PlanActions(plan)[i])
  }

  /** The reason a rejected action of the plan gives. */
  ghost predicate IsRejection(plan: Object, text: string) {
    exists i :: 0 <= i < |PlanActions(plan)| && !Accepts(PlanActions(plan)[i])
                && ResultFor(PlanActions(plan)[i]).reason == text
  }

  /** The adapter stage of an accepted plan: skipped exactly when the plan is not executable, with blocks exactly when
      some action of an executable plan is rejected. It warns in exactly these two cases, of the plan's status or of the
      rejections. */
  lemma AdapterReportIsExact(plan: Object)
    requires Validation(plan).SafetyPassed()
    ensures var r := SimulateReport(plan);
      && (r.status == SkippedNotExecutable <==> NotExecutable(plan))
      && (r.status == CompletedWithBlocks <==> !NotExecutable(plan) && Rejects(plan))
      && (r.status == AdapterPassed <==> !NotExecutable(plan) && !Rejects(plan))
      && (r.blockReasons != [] <==> NotExecutable(plan) || Rejects(plan))
      && (forall t :: t in r.blockReasons <==>
            if NotExecutable(plan) then Get(plan, PlanStatus) == Str(t) else IsRejection(plan, t))
      && (if NotExecutable(plan) then r.simulated == r.blocked == 0 else r.skipped == 0)
      && (r.blocked > 0 <==> !NotExecutable(plan) && Rejects(plan))
  {
    hide Validation, PlanActions, Accepts, ResultFor, BlockReasons, NONEXECUTABLE;
    var actions := PlanActions(plan);
    if NotExecutable(plan) {
      SkippedReport(plan);
    } else {
      ExecutedReport(plan);
    }
  }

  lemma SkippedReport(plan: Object)
    requires Validation(plan).SafetyPassed() && NotExecutable(plan)
    ensures var r := SimulateReport(plan);
      && r.status == SkippedNotExecutable && r.simulated == r.blocked == 0
      && r.blockReasons == [Get(plan, PlanStatus).s]
  {
    hide Validation, PlanActions, NONEXECUTABLE;
    var reasons := [Get(plan, PlanStatus).s];
    assert reasons + BlockReasons([]) == reasons;
    DedupOfDistinct(reasons);
  }

  lemma ExecutedReport(plan: Object)
    requires Validation(plan).SafetyPassed() && !NotExecutable(plan)
    ensures var r := SimulateReport(plan);
      && (r.status == CompletedWithBlocks <==> Rejects(plan)) && (r.status == AdapterPassed <==> !Rejects(plan))
      && (forall t :: t in r.blockReasons <==> IsRejection(plan, t))
      && (r.blockReasons != [] <==> Rejects(plan)) && r.skipped == 0 && (r.blocked > 0 <==> Rejects(plan))
  {
    hide Validation, PlanActions, Accepts, ResultFor, BlockReasons, NONEXECUTABLE;
    var actions, r := PlanActions(plan), SimulateReport(plan);
    BlockReasonsExactly(actions, |actions|);
    assert Results(actions)[..|actions|] == Results(actions);
    CountBound(Results(actions));
    forall i | 0 <= i < |actions| ensures Results(actions)[i].status == Simulated <==> Accepts(actions[i]) {
      ResultSimulatedExactlyAccepted(actions[i]);
    }
    assert [] + BlockReasons(Results(actions)) == BlockReasons(Results(actions));
    if Rejects(plan) {
      var i :| 0 <= i < |actions| && !Accepts(actions[i]);
      assert IsRejection(plan, ResultFor(actions[i]).reason);
    }
    if r.blockReasons != [] {
      assert r.blockReasons[0] in r.blockReasons;
    }
  }

  // ---- what becomes of planned actions ----

  /** The action of a planned record is accepted exactly when its role is one that an adapter supports. */
  lemma PlannedAcceptedExactly(o: Object, role: Option<string>)
    requires Get(o, ActionType) == Str("assign_workload") && Get(o, TargetRole) == Null
    requires StringOrNone(Get(o, Role)) == role
    ensures Accepts(o) <==> role in {Some("sensor_tile"), Some("routing_tile"), Some("memory_tile")}
  {
    hide FirstSupporting;
    ResolvedExactly(o);
    forall r ensures StatesRole(o, r) <==> r != "" && role == Some(r) {}
    EmptyIsUnsupported();
    if role.Some? && role.value in {"sensor_tile", "routing_tile", "memory_tile"} {
      assert StatesRole(o, role.value);
    }
    if Resolve(o).Resolved? { ResolvedIsAcceptedUnlessRoleEmpty(o); }
  }

  lemma EmptyIsUnsupported()
    ensures "" !in {"sensor_tile", "routing_tile", "memory_tile"}
  {
    assert |"sensor_tile"| == 11 && |"routing_tile"| == 12 && |"memory_tile"| == 11;
  }
}
