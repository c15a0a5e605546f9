/** Translation of a gated profile into inert dry-run plan records. */
module PlanBuilder {
  import opened Base
  import opened JsonValues
  import opened Ids
  import opened Reasons
  import opened SafetyGate

  const SUPPORTED_ACTION := "assign_workload"
  const REQUIRED_ROUTE_STATUS := "candidate_simulated"

  datatype RecordStatus = Planned | Blocked

  datatype Record = Record(
    id: string, actionType: string, status: RecordStatus,
    workloadId: Option<string>, role: Option<string>, targets: seq<string>,
    routeId: Option<string>, reason: Option<Reason>)

  datatype Plan = Plan(
    profileId: string, hardwareControl: bool, humanReview: bool, claim: Option<string>,
    status: string, blockReasons: seq<Reason>, actions: seq<Record>, blocked: seq<Record>)

  /** A source entry that yields one record: an assigned workload, or a directly requested action. */
  datatype Item = Workload(entry: Json) | Request(entry: Json)

  function Listed(profile: Object, f: Field): seq<Json> {
    if Get(profile, f).List? then profile[f].items else []
  }

  /** A requested-action field that is not a list counts as one candidate. */
  function Candidates(profile: Object, f: Field): seq<Json> {
    var value := GetOr(profile, f, List([]));
    if value.List? then value.items else [value]
  }

  function Items(profile: Object): seq<Item> {
    var w := Listed(profile, AssignedWorkloads);
    var r := Candidates(profile, RequestedActions);
    var a := Candidates(profile, Actions);
    seq(|w|, i requires 0 <= i < |w| => Workload(w[i]))
    + seq(|r|, i requires 0 <= i < |r| => Request(r[i]))
    + seq(|a|, i requires 0 <= i < |a| => Request(a[i]))
  }

  predicate IsRouteFor(route: Json, workload: string) {
    route.Obj? && Get(route.fields, WorkloadId) == Str(workload)
  }

  /** Linear scan of the preferred routes for one workload. */
  function RoutesFor(routes: seq<Json>, workload: string): seq<Object> {
    if routes == [] then []
    else
      var last := routes[|routes| - 1];
      RoutesFor(routes[..|routes| - 1], workload) + (if IsRouteFor(last, workload) then [last.fields] else [])
  }

  function TargetsOf(o: Object): Option<seq<string>> {
    if IsStringList(Get(o, TargetTiles)) then Some(Texts(o[TargetTiles].items)) else None
  }

  predicate RoleAllowed(profile: Object, role: Json) {
    role.Str? && role in Listed(profile, AllowedRoles) && role !in Listed(profile, BlockedRoles)
  }

  function TypeOf(workload: Object): Json {
    GetOr(workload, ActionType, Str(SUPPORTED_ACTION))
  }

  function RouteProblem(route: Object, targets: seq<string>): Option<Reason> {
    if Get(route, RouteStatus) != Str(REQUIRED_ROUTE_STATUS) then Some(RouteStatusWrong)
    else if !Get(route, RouteId).Str? || Get(route, RouteId) == Str("") then Some(RouteIdEmpty)
    else if TargetsOf(route) != Some(targets) then Some(RouteTargetsDiffer)
    else None
  }

  function SupportedRecord(profile: Object, w: Object, n: nat): Record {
    var id := StringOrNone(Get(w, WorkloadId));
    var role := StringOrNone(Get(w, Role));
    var targets := TargetsOf(w);
    var routes := if id.Some? then RoutesFor(Listed(profile, PreferredRoutes), id.value) else [];
    var blockedAs := (reason: Reason, routeId: Option<string>) =>
      Record(ActId(n), SUPPORTED_ACTION, Blocked, id, role,
             if targets.Some? then targets.value else [], routeId, Some(reason));
    if id.None? || id.value == "" then blockedAs(WorkloadIdEmpty, None)
    else if !RoleAllowed(profile, Get(w, Role)) then blockedAs(RoleNotAllowed, None)
    else if targets.None? || targets.value == [] then blockedAs(TargetsEmpty, None)
    else if |routes| != 1 then blockedAs(RouteNotUnique, None)
    else
      var routeId := StringOrNone(Get(routes[0], RouteId));
      match RouteProblem(routes[0], targets.value)
      case Some(reason) => blockedAs(reason, routeId)
      case None => Record(ActId(n), SUPPORTED_ACTION, Planned, id, role, targets.value, routeId, None)
  }

  function RequestRecord(entry: Json, n: nat): Record {
    var actionType := if entry.Obj? then Get(entry.fields, ActionType) else Null;
    var id := if entry.Obj? then StringOrNone(Get(entry.fields, WorkloadId)) else None;
    Record(ActId(n), if Truthy(actionType) then PyStr(actionType) else "unknown", Blocked, id, None, [], None,
           Some(UnsupportedActionSource))
  }

  function WorkloadRecord(profile: Object, entry: Json, n: nat): Record {
    if !entry.Obj? then
      Record(ActId(n), "unknown", Blocked, None, None, [], None, Some(WorkloadNotObject))
    else if TypeOf(entry.fields) != Str(SUPPORTED_ACTION) then
      Record(ActId(n), PyStr(TypeOf(entry.fields)), Blocked, StringOrNone(Get(entry.fields, WorkloadId)),
             StringOrNone(Get(entry.fields, Role)), [], None, Some(UnsupportedActionType))
    else SupportedRecord(profile, entry.fields, n)
  }

  function RecordOf(profile: Object, item: Item, n: nat): Record {
    match item
    case Workload(entry) => WorkloadRecord(profile, entry, n)
    case Request(entry) => RequestRecord(entry, n)
  }

  /** One record per source entry, numbered from 1. */
  function AllRecords(profile: Object): seq<Record> {
    var items := Items(profile);
    seq(|items|, i requires 0 <= i < |items| => RecordOf(profile, items[i], i + 1))
  }

  /** The records with a given status among the first n, in source order. */
  function Select(records: seq<Record>, n: nat, status: RecordStatus): seq<Record>
    requires n <= |records|
  {
    if n == 0 then []
    else Select(records, n - 1, status) + (if records[n - 1].status == status then [records[n - 1]] else [])
  }

  function ReasonsOf(records: seq<Record>): seq<Reason> {
    if records == [] then []
    else
      var last := records[|records| - 1];
      ReasonsOf(records[..|records| - 1]) + (if last.reason.Some? then [last.reason.value] else [])
  }

  function BasePlan(profile: Object, status: string, reasons: seq<Reason>): Plan {
    Plan(PyStr(GetOr(profile, ProfileId, Str("unknown"))),
         Get(profile, HardwareControlEnabled) != Bool(false),
         Get(profile, HumanReviewRequired) == Bool(true),
         StringOrNone(Get(profile, ClaimBoundary)), status, reasons, [], [])
  }

  function FullPlan(profile: Object, actions: seq<Record>, blocked: seq<Record>): Plan {
    BasePlan(profile, if blocked != [] then "planned_with_blocks" else "planned", Dedup(ReasonsOf(blocked)))
      .(actions := actions, blocked := blocked)
  }

  /** A list field of the wrong type counts as empty here; a passed gate excludes that. */
  function BuildPlan(profile: Object, gate: GateResult): Plan {
    if !gate.passed then BasePlan(profile, "blocked_by_safety_gate", gate.failures)
    else if gate.degraded then BasePlan(profile, "degraded_no_execution_plan", [PreferredRoutesMissing])
    else
      var records := AllRecords(profile);
      FullPlan(profile, Select(records, |records|, Planned), Select(records, |records|, Blocked))
  }

  function PlanOf(profile: Object): Plan {
    BuildPlan(profile, Gate(profile))
  }

  // ---- the builder as the source writes it: counter, route index, growing lists ----

  type RouteIndex = map<string, seq<Object>>

  function Lookup(index: RouteIndex, workload: string): seq<Object> {
    if workload in index then index[workload] else []
  }

  /** Filling the index in one pass gives every workload exactly its linear-scan result. */
  method IndexRoutes(routes: seq<Json>) returns (index: RouteIndex)
    ensures forall w :: Lookup(index, w) == RoutesFor(routes, w)
  {
    index := map[];
    for i := 0 to |routes|
      invariant forall w :: Lookup(index, w) == RoutesFor(routes[..i], w)
    {
      assert routes[..i + 1][..i] == routes[..i];
      if routes[i].Obj? && Get(routes[i].fields, WorkloadId).Str? {
        var w := routes[i].fields[WorkloadId].s;
        index := index[w := Lookup(index, w) + [routes[i].fields]];
      }
    }
    assert routes[..|routes|] == routes;
  }

  method ClassifyWorkload(profile: Object, index: RouteIndex, entry: Json, id: string, ghost n: nat)
    returns (r: Record)
    requires id == ActId(n)
    requires forall w :: Lookup(index, w) == RoutesFor(Listed(profile, PreferredRoutes), w)
    ensures r == WorkloadRecord(profile, entry, n)
  {
    if !entry.Obj? {
      return Record(id, "unknown", Blocked, None, None, [], None, Some(WorkloadNotObject));
    }
    var w := entry.fields;
    var workloadId := StringOrNone(Get(w, WorkloadId));
    var actionType := GetOr(w, ActionType, Str(SUPPORTED_ACTION));
    if actionType != Str(SUPPORTED_ACTION) {
      return Record(id, PyStr(actionType), Blocked, workloadId, StringOrNone(Get(w, Role)), [], None,
                    Some(UnsupportedActionType));
    }
    var targets := TargetsOf(w);
    var role := Get(w, Role);
    var reason: Option<Reason> := None;
    var route: Option<Object> := None;
    var matching := Lookup(index, if workloadId.Some? then workloadId.value else "");
    if workloadId.None? || workloadId.value == "" {
      reason := Some(WorkloadIdEmpty);
    } else if !RoleAllowed(profile, role) {
      reason := Some(RoleNotAllowed);
    } else if targets.None? || targets.value == [] {
      reason := Some(TargetsEmpty);
    } else if |matching| != 1 {
      reason := Some(RouteNotUnique);
    } else {
      route := Some(matching[0]);
      if Get(route.value, RouteStatus) != Str(REQUIRED_ROUTE_STATUS) {
        reason := Some(RouteStatusWrong);
      } else if !Get(route.value, RouteId).Str? || Get(route.value, RouteId) == Str("") {
        reason := Some(RouteIdEmpty);
      } else if TargetsOf(route.value) != targets {
        reason := Some(RouteTargetsDiffer);
      }
    }
    var routeId := if route.Some? then StringOrNone(Get(route.value, RouteId)) else None;
    if reason.Some? {
      return Record(id, SUPPORTED_ACTION, Blocked, workloadId, StringOrNone(role),
                    if targets.Some? then targets.value else [], routeId, reason);
    }
    return Record(id, SUPPORTED_ACTION, Planned, workloadId, StringOrNone(role), targets.value, routeId, None);
  }

  method PlanWorkloads(profile: Object, workloads: seq<Json>, ghost records: seq<Record>)
    returns (actions: seq<Record>, blocked: seq<Record>, nextId: nat)
    requires |workloads| <= |records|
    requires forall i :: 0 <= i < |workloads| ==> records[i] == WorkloadRecord(profile, workloads[i], i + 1)
    ensures nextId == |workloads| + 1
    ensures actions == Select(records, |workloads|, Planned)
    ensures blocked == Select(records, |workloads|, Blocked)
  {
    actions, blocked, nextId := [], [], 1;
    var index := IndexRoutes(Listed(profile, PreferredRoutes));
    for i := 0 to |workloads|
      invariant nextId == i + 1
      invariant actions == Select(records, i, Planned)
      invariant blocked == Select(records, i, Blocked)
    {
      var record := ClassifyWorkload(profile, index, workloads[i], ActId(nextId), nextId);
      assert record == records[i];
      nextId := nextId + 1;
      if record.status == Planned {
        actions := actions + [record];
      } else {
        blocked := blocked + [record];
      }
    }
  }

  /** The records from position `start` on are those of the candidates. */
  ghost predicate RequestsAt(candidates: seq<Json>, start: nat, records: seq<Record>) {
    && start + |candidates| <= |records|
    && forall k :: start <= k < start + |candidates| ==> records[k] == RequestRecord(candidates[k - start], k + 1)
  }

  method RejectCandidates(candidates: seq<Json>, blocked: seq<Record>, nextId: nat, ghost records: seq<Record>)
    returns (blocked': seq<Record>, nextId': nat)
    requires 1 <= nextId && nextId - 1 + |candidates| <= |records|
    requires RequestsAt(candidates, nextId - 1, records)
    requires blocked == Select(records, nextId - 1, Blocked)
    ensures nextId' == nextId + |candidates|
    ensures blocked' == Select(records, nextId' - 1, Blocked)
    ensures Select(records, nextId' - 1, Planned) == Select(records, nextId - 1, Planned)
  {
    blocked', nextId' := blocked, nextId;
    ghost var start := nextId - 1;
    for i := 0 to |candidates|
      invariant nextId' == start + i + 1
      invariant blocked' == Select(records, start + i, Blocked)
      invariant Select(records, start + i, Planned) == Select(records, start, Planned)
    {
      RequestAt(candidates, start, records, start + i);
      var record := RequestRecord(candidates[i], nextId');
      blocked' := blocked' + [record];
      nextId' := nextId' + 1;
    }
  }

  lemma RequestAt(candidates: seq<Json>, start: nat, records: seq<Record>, k: nat)
    requires RequestsAt(candidates, start, records) && start <= k < start + |candidates|
    ensures records[k] == RequestRecord(candidates[k - start], k + 1) && records[k].status == Blocked
  {
  }

  lemma RecordPositions(profile: Object)
    ensures var w, r, a := Listed(profile, AssignedWorkloads), Candidates(profile, RequestedActions),
            Candidates(profile, Actions);
      Positioned(profile, w, r, a, AllRecords(profile))
  {
    hide WorkloadRecord, RequestRecord, Candidates, Listed;
    var w, r, a := Listed(profile, AssignedWorkloads), Candidates(profile, RequestedActions),
      Candidates(profile, Actions);
    var items, records := Items(profile), AllRecords(profile);
    forall k | |w| <= k < |w| + |r| ensures records[k] == RequestRecord(r[k - |w|], k + 1) {
      assert items[k] == Request(r[k - |w|]);
    }
    forall k | |w| + |r| <= k < |items| ensures records[k] == RequestRecord(a[k - |w| - |r|], k + 1) {
      assert items[k] == Request(a[k - |w| - |r|]);
    }
  }

  /** The records of the three source lists, one list after the other. */
  ghost predicate Positioned(profile: Object, w: seq<Json>, r: seq<Json>, a: seq<Json>, records: seq<Record>) {
    && |records| == |w| + |r| + |a|
    && (forall i :: 0 <= i < |w| ==> records[i] == WorkloadRecord(profile, w[i], i + 1))
    && RequestsAt(r, |w|, records)
    && RequestsAt(a, |w| + |r|, records)
  }

  method PlanEntries(profile: Object, w: seq<Json>, r: seq<Json>, a: seq<Json>, ghost records: seq<Record>)
    returns (actions: seq<Record>, blocked: seq<Record>)
    requires Positioned(profile, w, r, a, records)
    ensures actions == Select(records, |records|, Planned)
    ensures blocked == Select(records, |records|, Blocked)
  {
    var nextId;
    actions, blocked, nextId := PlanWorkloads(profile, w, records);
    blocked, nextId := RejectCandidates(r, blocked, nextId, records);
    blocked, nextId := RejectCandidates(a, blocked, nextId, records);
  }

  method BuildRuntimePlan(profile: Object, gate: GateResult) returns (plan: Plan)
    ensures plan == BuildPlan(profile, gate)
  {
    if !gate.passed {
      return BasePlan(profile, "blocked_by_safety_gate", gate.failures);
    }
    if gate.degraded {
      return BasePlan(profile, "degraded_no_execution_plan", [PreferredRoutesMissing]);
    }
    RecordPositions(profile);
    var actions, blocked := PlanEntries(profile, Listed(profile, AssignedWorkloads),
      Candidates(profile, RequestedActions), Candidates(profile, Actions), AllRecords(profile));
    plan := FullPlan(profile, actions, blocked);
  }
}
