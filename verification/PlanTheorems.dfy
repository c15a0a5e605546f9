/** What the plan builder conserves, and exactly which workloads it plans. */
module PlanTheorems {
  import opened Base
  import opened JsonValues
  import opened Ids
  import opened Reasons
  import opened SafetyGate
  import opened PlanBuilder

  /** The record at position i carries number i + 1. */
  ghost predicate Numbered(records: seq<Record>) {
    forall i :: 0 <= i < |records| ==> records[i].id == ActId(i + 1)
  }

  lemma RecordsAreNumbered(profile: Object)
    ensures Numbered(AllRecords(profile))
    ensures |AllRecords(profile)| ==
      |Listed(profile, AssignedWorkloads)| + |Candidates(profile, RequestedActions)| + |Candidates(profile, Actions)|
  {
    forall i | 0 <= i < |AllRecords(profile)| ensures AllRecords(profile)[i].id == ActId(i + 1) {
      assert AllRecords(profile)[i] == RecordOf(profile, Items(profile)[i], i + 1);
    }
  }

  /** The positions of the records with a given status. */
  function Positions(records: seq<Record>, n: nat, status: RecordStatus): seq<nat>
    requires n <= |records|
  {
    if n == 0 then []
    else Positions(records, n - 1, status) + (if records[n - 1].status == status then [n - 1] else [])
  }

  /** `list` is `records` read at the given positions, in source order. */
  ghost predicate InSourceOrder(records: seq<Record>, list: seq<Record>, at: seq<nat>) {
    && |list| == |at|
    && (forall i :: 0 <= i < |at| ==> at[i] < |records| && list[i] == records[at[i]])
    && (forall i, j :: 0 <= i < j < |at| ==> at[i] < at[j])
  }

  lemma {:induction false} PositionsAre(records: seq<Record>, n: nat, status: RecordStatus)
    requires n <= |records|
    ensures forall k :: k in Positions(records, n, status) <==> 0 <= k < n && records[k].status == status
  {
    if n > 0 {
      PositionsAre(records, n - 1, status);
      var front := Positions(records, n - 1, status);
      assert forall k :: k in Positions(records, n, status) <==>
        k in front || (records[n - 1].status == status && k == n - 1);
    }
  }

  lemma InOrderExtended(records: seq<Record>, list: seq<Record>, at: seq<nat>, k: nat)
    requires InSourceOrder(records, list, at) && k < |records|
    requires forall j :: j in at ==> j < k
    ensures InSourceOrder(records, list + [records[k]], at + [k])
  {
    assert forall i :: 0 <= i < |at| ==> at[i] in at;
  }

  lemma {:induction false} SelectReadsPositions(records: seq<Record>, n: nat, status: RecordStatus)
    requires n <= |records|
    ensures InSourceOrder(records, Select(records, n, status), Positions(records, n, status))
  {
    hide InSourceOrder;
    if n == 0 {
      NothingInOrder(records);
    } else {
      SelectReadsPositions(records, n - 1, status);
      PositionsAre(records, n - 1, status);
      if records[n - 1].status == status {
        InOrderExtended(records, Select(records, n - 1, status), Positions(records, n - 1, status), n - 1);
      } else {
        assert Select(records, n, status) == Select(records, n - 1, status);
        assert Positions(records, n, status) == Positions(records, n - 1, status);
      }
    }
  }

  lemma NothingInOrder(records: seq<Record>)
    ensures InSourceOrder(records, [], [])
  {
  }

  /** Every record stands at exactly one position of exactly one of the two lists, and both keep source order. */
  ghost predicate Conserves(records: seq<Record>, planned: seq<Record>, blocked: seq<Record>) {
    var p, b := Positions(records, |records|, Planned), Positions(records, |records|, Blocked);
    && |planned| + |blocked| == |records|
    && InSourceOrder(records, planned, p)
    && InSourceOrder(records, blocked, b)
    && forall k :: 0 <= k < |records| ==> (k in p <==> k !in b)
  }

  lemma {:induction false} SelectCounts(records: seq<Record>, n: nat)
    requires n <= |records|
    ensures |Select(records, n, Planned)| + |Select(records, n, Blocked)| == n
  {
    if n > 0 {
      SelectCounts(records, n - 1);
    }
  }

  lemma SelectionConserves(records: seq<Record>)
    ensures Conserves(records, Select(records, |records|, Planned), Select(records, |records|, Blocked))
  {
    SelectCounts(records, |records|);
    SelectReadsPositions(records, |records|, Planned);
    SelectReadsPositions(records, |records|, Blocked);
    PositionsAre(records, |records|, Planned);
    PositionsAre(records, |records|, Blocked);
  }

  /** Conservation: after a passed, non-degraded gate every assigned workload and requested action yields exactly one
      record, in the list its status names; the ids over both lists are ACT_1..ACT_n in source order. */
  lemma PlanConservesEntries(profile: Object)
    requires Gate(profile).passed && !Gate(profile).degraded
    ensures var records := AllRecords(profile);
      && |records| ==
         |Listed(profile, AssignedWorkloads)| + |Candidates(profile, RequestedActions)| + |Candidates(profile, Actions)|
      && Numbered(records)
      && Conserves(records, PlanOf(profile).actions, PlanOf(profile).blocked)
  {
    RecordsAreNumbered(profile);
    SelectionConserves(AllRecords(profile));
  }

  function RecordIds(records: seq<Record>): seq<string> {
    seq(|records|, i requires 0 <= i < |records| => records[i].id)
  }

  lemma DistinctPositionsDistinctIds(records: seq<Record>, i: nat, j: nat)
    requires Numbered(records) && i < |records| && j < |records| && i != j
    ensures records[i].id != records[j].id
  {
    if records[i].id == records[j].id { ActIdInjective(i + 1, j + 1); }
  }

  lemma IdsAtPositions(records: seq<Record>, list: seq<Record>, at: seq<nat>)
    requires InSourceOrder(records, list, at)
    ensures forall i :: 0 <= i < |at| ==> RecordIds(list)[i] == records[at[i]].id
  {
  }

  lemma IdsAtDistinctPositions(records: seq<Record>, ids: seq<string>, at: seq<nat>)
    requires Numbered(records) && |ids| == |at| && NoDuplicates(at)
    requires forall i :: 0 <= i < |at| ==> at[i] < |records| && ids[i] == records[at[i]].id
    ensures NoDuplicates(ids)
  {
    forall i, j | 0 <= i < j < |ids| ensures ids[i] != ids[j] {
      DistinctPositionsDistinctIds(records, at[i], at[j]);
    }
  }

  lemma ConservedIdsAreUnique(records: seq<Record>, planned: seq<Record>, blocked: seq<Record>)
    requires Numbered(records) && Conserves(records, planned, blocked)
    ensures NoDuplicates(RecordIds(planned) + RecordIds(blocked))
  {
    var p, b := Positions(records, |records|, Planned), Positions(records, |records|, Blocked);
    IdsAtPositions(records, planned, p);
    IdsAtPositions(records, blocked, b);
    forall i, j | 0 <= i < |p| && 0 <= j < |b| ensures p[i] != b[j] {
      assert p[i] in p && b[j] in b;
    }
    IdsAtDistinctPositions(records, RecordIds(planned) + RecordIds(blocked), p + b);
  }

  /** No action id occurs twice over the two lists together, however many digits it takes. */
  lemma PlanIdsAreUnique(profile: Object)
    ensures NoDuplicates(RecordIds(PlanOf(profile).actions) + RecordIds(PlanOf(profile).blocked))
  {
    if Gate(profile).passed && !Gate(profile).degraded {
      PlanConservesEntries(profile);
      ConservedIdsAreUnique(AllRecords(profile), PlanOf(profile).actions, PlanOf(profile).blocked);
    }
  }

  // ---- which workloads are planned ----

  /** Exactly one position of the preferred routes is for the workload, and it is position j. */
  ghost predicate OnlyRouteAt(routes: seq<Json>, workload: string, j: nat) {
    && j < |routes|
    && IsRouteFor(routes[j], workload)
    && forall i :: 0 <= i < |routes| && i != j ==> !IsRouteFor(routes[i], workload)
  }

  lemma {:induction false} NoRoute(routes: seq<Json>, workload: string)
    ensures RoutesFor(routes, workload) == [] <==> forall i :: 0 <= i < |routes| ==> !IsRouteFor(routes[i], workload)
  {
    if routes != [] {
      NoRoute(routes[..|routes| - 1], workload);
    }
  }

  lemma {:induction false} OneRoute(routes: seq<Json>, workload: string) returns (j: nat)
    ensures |RoutesFor(routes, workload)| == 1 ==>
      OnlyRouteAt(routes, workload, j) && RoutesFor(routes, workload) == [routes[j].fields]
  {
    j := 0;
    if routes != [] {
      var n := |routes| - 1;
      if IsRouteFor(routes[n], workload) {
        j := n;
        NoRoute(routes[..n], workload);
      } else {
        j := OneRoute(routes[..n], workload);
      }
    }
  }

  lemma {:induction false} OnlyRouteIsFound(routes: seq<Json>, workload: string, j: nat)
    requires OnlyRouteAt(routes, workload, j)
    ensures RoutesFor(routes, workload) == [routes[j].fields]
  {
    var n := |routes| - 1;
    if j == n {
      NoRoute(routes[..n], workload);
    } else {
      OnlyRouteIsFound(routes[..n], workload, j);
    }
  }

  /** A scan finds one route exactly when one position of the route list, and no other, is for the workload. */
  lemma OneRouteExactly(routes: seq<Json>, workload: string)
    ensures |RoutesFor(routes, workload)| == 1 <==> exists j: nat :: OnlyRouteAt(routes, workload, j)
    ensures forall j: nat :: OnlyRouteAt(routes, workload, j) ==> RoutesFor(routes, workload) == [routes[j].fields]
  {
    var j := OneRoute(routes, workload);
    forall j: nat | OnlyRouteAt(routes, workload, j) ensures RoutesFor(routes, workload) == [routes[j].fields] {
      OnlyRouteIsFound(routes, workload, j);
    }
  }

  /** The source's conditions for planning a workload, read off the profile directly. */
  ghost predicate Plannable(profile: Object, w: Object, j: nat) {
    var routes := Listed(profile, PreferredRoutes);
    && GetOr(w, ActionType, Str(SUPPORTED_ACTION)) == Str(SUPPORTED_ACTION)
    && Get(w, WorkloadId).Str? && Get(w, WorkloadId).s != ""
    && Get(w, Role).Str?
    && Get(w, Role) in Listed(profile, AllowedRoles)
    && Get(w, Role) !in Listed(profile, BlockedRoles)
    && IsStringList(Get(w, TargetTiles)) && Get(w, TargetTiles).items != []
    && OnlyRouteAt(routes, Get(w, WorkloadId).s, j)
    && var route := routes[j].fields;
       && Get(route, RouteStatus) == Str(REQUIRED_ROUTE_STATUS)
       && Get(route, RouteId).Str? && Get(route, RouteId).s != ""
       && Get(route, TargetTiles) == Get(w, TargetTiles)
  }

  lemma SameTargets(a: Object, b: Object)
    requires IsStringList(Get(b, TargetTiles))
    ensures TargetsOf(a) == TargetsOf(b) <==> Get(a, TargetTiles) == Get(b, TargetTiles)
  {
    if TargetsOf(a) == TargetsOf(b) {
      var x, y := a[TargetTiles].items, b[TargetTiles].items;
      assert |Texts(x)| == |Texts(y)|;
      forall i | 0 <= i < |x| ensures x[i] == y[i] {
        assert Texts(x)[i] == Texts(y)[i];
      }
      assert x == y;
    }
  }

  /** Soundness and completeness of the workload ladder: an object-shaped workload is planned exactly when some
      position of the route list makes it plannable, and then the record carries that route. */
  lemma PlannedExactlyWhenPlannable(profile: Object, w: Object, n: nat)
    ensures WorkloadRecord(profile, Obj(w), n).status == Planned <==> exists j: nat :: Plannable(profile, w, j)
    ensures forall j: nat :: Plannable(profile, w, j) ==>
      WorkloadRecord(profile, Obj(w), n) ==
        Record(ActId(n), SUPPORTED_ACTION, Planned, Some(w[WorkloadId].s), Some(w[Role].s),
               Texts(w[TargetTiles].items), Some(Listed(profile, PreferredRoutes)[j].fields[RouteId].s), None)
  {
    var routes := Listed(profile, PreferredRoutes);
    var r := WorkloadRecord(profile, Obj(w), n);
    if r.status == Planned {
      OneRouteExactly(routes, w[WorkloadId].s);
      var j: nat :| OnlyRouteAt(routes, w[WorkloadId].s, j);
      SameTargets(routes[j].fields, w);
      assert Plannable(profile, w, j);
    }
    forall j: nat | Plannable(profile, w, j)
      ensures r == Record(ActId(n), SUPPORTED_ACTION, Planned, Some(w[WorkloadId].s), Some(w[Role].s),
               Texts(w[TargetTiles].items), Some(routes[j].fields[RouteId].s), None)
    {
      OneRouteExactly(routes, w[WorkloadId].s);
      SameTargets(routes[j].fields, w);
      assert |Texts(w[TargetTiles].items)| == |w[TargetTiles].items|;
    }
  }

  // ---- why a workload is blocked ----

  predicate NonEmptyText(j: Json) {
    j.Str? && j.s != ""
  }

  function StatedId(w: Object): string {
    match Get(w, WorkloadId) case Str(id) => id case _ => ""
  }

  /** The workload's only route. */
  ghost predicate IsTheRoute(profile: Object, w: Object, route: Object) {
    var routes := Listed(profile, PreferredRoutes);
    exists j: nat :: OnlyRouteAt(routes, StatedId(w), j) && routes[j].fields == route
  }

  lemma RouteScan(profile: Object, w: Object)
    ensures var found := RoutesFor(Listed(profile, PreferredRoutes), StatedId(w));
      && (|found| == 1 <==> exists route :: IsTheRoute(profile, w, route))
      && (|found| == 1 ==> forall route :: IsTheRoute(profile, w, route) <==> route == found[0])
  {
    var routes := Listed(profile, PreferredRoutes);
    OneRouteExactly(routes, StatedId(w));
    if j: nat :| OnlyRouteAt(routes, StatedId(w), j) {
      assert IsTheRoute(profile, w, routes[j].fields);
      assert RoutesFor(routes, StatedId(w)) == [routes[j].fields];
    }
  }

  /** What each check refuses, read off the profile and the entry. */
  ghost predicate Violates(profile: Object, entry: Json, r: Reason) {
    var w := if entry.Obj? then entry.fields else map[];
    match r
    case WorkloadNotObject => !entry.Obj?
    case UnsupportedActionType => ActionType in w && w[ActionType] != Str("assign_workload")
    case WorkloadIdEmpty => !NonEmptyText(Get(w, WorkloadId))
    case RoleNotAllowed =>
      !(Get(w, Role).Str? && Get(w, Role) in Listed(profile, AllowedRoles)
        && Get(w, Role) !in Listed(profile, BlockedRoles))
    case TargetsEmpty => !IsStringList(Get(w, TargetTiles)) || Get(w, TargetTiles).items == []
    case RouteNotUnique => !exists route :: IsTheRoute(profile, w, route)
    case RouteStatusWrong =>
      exists route :: IsTheRoute(profile, w, route) && Get(route, RouteStatus) != Str("candidate_simulated")
    case RouteIdEmpty => exists route :: IsTheRoute(profile, w, route) && !NonEmptyText(Get(route, RouteId))
    case RouteTargetsDiffer =>
      exists route :: IsTheRoute(profile, w, route) && Get(route, TargetTiles) != Get(w, TargetTiles)
    case _ => false
  }

  lemma RouteRefusal(route: Object, w: Object)
    requires IsStringList(Get(w, TargetTiles))
    ensures RouteProblem(route, Texts(Get(w, TargetTiles).items)) ==
            if Get(route, RouteStatus) != Str("candidate_simulated") then Some(RouteStatusWrong)
            else if !NonEmptyText(Get(route, RouteId)) then Some(RouteIdEmpty)
            else if Get(route, TargetTiles) != Get(w, TargetTiles) then Some(RouteTargetsDiffer) else None
  {
    SameTargets(route, w);
  }

  /** The checks of an object entry, with the routes found for it. */
  lemma ScannedReason(profile: Object, w: Object, n: nat, found: seq<Object>)
    requires found == RoutesFor(Listed(profile, PreferredRoutes), StatedId(w))
    ensures WorkloadRecord(profile, Obj(w), n).reason ==
            if ActionType in w && w[ActionType] != Str("assign_workload") then Some(UnsupportedActionType)
            else if !NonEmptyText(Get(w, WorkloadId)) then Some(WorkloadIdEmpty)
            else if !RoleAllowed(profile, Get(w, Role)) then Some(RoleNotAllowed)
            else if !IsStringList(Get(w, TargetTiles)) || Get(w, TargetTiles).items == [] then Some(TargetsEmpty)
            else if |found| != 1 then Some(RouteNotUnique)
            else RouteProblem(found[0], Texts(Get(w, TargetTiles).items))
  {
    hide Listed, RoutesFor, ActId, RouteProblem, RoleAllowed;
    if IsStringList(Get(w, TargetTiles)) {
      assert |Texts(Get(w, TargetTiles).items)| == |Get(w, TargetTiles).items|;
    }
  }

  /** The reason of a workload's record is the first check that refuses it, in this order; with none it is planned. */
  lemma ReasonIsFirstRefusal(profile: Object, entry: Json, n: nat)
    ensures WorkloadRecord(profile, entry, n).reason ==
      if Violates(profile, entry, WorkloadNotObject) then Some(WorkloadNotObject)
      else if Violates(profile, entry, UnsupportedActionType) then Some(UnsupportedActionType)
      else if Violates(profile, entry, WorkloadIdEmpty) then Some(WorkloadIdEmpty)
      else if Violates(profile, entry, RoleNotAllowed) then Some(RoleNotAllowed)
      else if Violates(profile, entry, TargetsEmpty) then Some(TargetsEmpty)
      else if Violates(profile, entry, RouteNotUnique) then Some(RouteNotUnique)
      else if Violates(profile, entry, RouteStatusWrong) then Some(RouteStatusWrong)
      else if Violates(profile, entry, RouteIdEmpty) then Some(RouteIdEmpty)
      else if Violates(profile, entry, RouteTargetsDiffer) then Some(RouteTargetsDiffer)
      else None
  {
    hide Listed, RoutesFor, RouteProblem, IsTheRoute, WorkloadRecord, NonEmptyText, Violates, RoleAllowed;
    if entry.Obj? {
      var w, found := entry.fields, RoutesFor(Listed(profile, PreferredRoutes), StatedId(entry.fields));
      EntryViolations(profile, w);
      RouteScan(profile, w);
      ScannedReason(profile, w, n, found);
      if |found| == 1 {
        RouteViolations(profile, w, found[0]);
        if IsStringList(Get(w, TargetTiles)) {
          RouteRefusal(found[0], w);
        }
      }
    } else {
      NoObjectRefused(profile, entry, n);
    }
  }

  lemma NoObjectRefused(profile: Object, entry: Json, n: nat)
    requires !entry.Obj?
    ensures Violates(profile, entry, WorkloadNotObject)
    ensures WorkloadRecord(profile, entry, n).reason == Some(WorkloadNotObject)
  {
  }

  lemma EntryViolations(profile: Object, w: Object)
    ensures !Violates(profile, Obj(w), WorkloadNotObject)
    ensures Violates(profile, Obj(w), UnsupportedActionType) <==>
            ActionType in w && w[ActionType] != Str("assign_workload")
    ensures Violates(profile, Obj(w), WorkloadIdEmpty) <==> !NonEmptyText(Get(w, WorkloadId))
    ensures Violates(profile, Obj(w), RoleNotAllowed) <==> !RoleAllowed(profile, Get(w, Role))
    ensures Violates(profile, Obj(w), TargetsEmpty) <==>
            !IsStringList(Get(w, TargetTiles)) || Get(w, TargetTiles).items == []
    ensures Violates(profile, Obj(w), RouteNotUnique) <==> !exists route :: IsTheRoute(profile, w, route)
  {
    hide IsTheRoute;
  }

  lemma RouteViolations(profile: Object, w: Object, route: Object)
    requires forall r :: IsTheRoute(profile, w, r) <==> r == route
    ensures Violates(profile, Obj(w), RouteStatusWrong) <==> Get(route, RouteStatus) != Str("candidate_simulated")
    ensures Violates(profile, Obj(w), RouteIdEmpty) <==> !NonEmptyText(Get(route, RouteId))
    ensures Violates(profile, Obj(w), RouteTargetsDiffer) <==> Get(route, TargetTiles) != Get(w, TargetTiles)
  {
    hide IsTheRoute, NonEmptyText;
    assert IsTheRoute(profile, w, route);
  }

  /** What else a workload's record carries: the next id, the entry's own texts, its tiles once its type is supported,
      and a route id only from its only route. */
  lemma RecordCarriesEntry(profile: Object, entry: Json, n: nat)
    ensures var r, w := WorkloadRecord(profile, entry, n), if entry.Obj? then entry.fields else map[];
            var typed := entry.Obj? && !Violates(profile, entry, UnsupportedActionType);
      && r.id == ActId(n) && (r.status == Planned <==> r.reason == None)
      && r.workloadId == StringOrNone(Get(w, WorkloadId)) && r.role == StringOrNone(Get(w, Role))
      && r.actionType == (if entry.Obj? then PyStr(GetOr(w, ActionType, Str("assign_workload"))) else "unknown")
      && r.targets == (if typed && IsStringList(Get(w, TargetTiles)) then Texts(Get(w, TargetTiles).items) else [])
      && (r.routeId.Some? ==>
            exists route :: IsTheRoute(profile, w, route) && Get(route, RouteId) == Str(r.routeId.value))
  {
    hide Listed, RoutesFor, IsTheRoute, ActId, RouteProblem, RoleAllowed;
    if entry.Obj? {
      RouteScan(profile, entry.fields);
    }
  }

  /** A requested action is always blocked for its source, under the next id. */
  lemma RequestsAreRefused(entry: Json, n: nat)
    ensures var r, w := RequestRecord(entry, n), if entry.Obj? then entry.fields else map[];
      && r.id == ActId(n) && r.status == Blocked && r.reason == Some(UnsupportedActionSource)
      && r.workloadId == StringOrNone(Get(w, WorkloadId)) && r.role == None && r.targets == [] && r.routeId == None
      && r.actionType == (if Truthy(Get(w, ActionType)) then PyStr(Get(w, ActionType)) else "unknown")
  {
    hide ActId;
  }

  lemma {:induction false} ReasonsAreOf(records: seq<Record>)
    ensures forall r :: r in ReasonsOf(records) <==> exists k :: 0 <= k < |records| && records[k].reason == Some(r)
  {
    if records != [] {
      var n := |records| - 1;
      ReasonsAreOf(records[..n]);
      forall r ensures r in ReasonsOf(records) <==> exists k :: 0 <= k < |records| && records[k].reason == Some(r) {
        if k :| 0 <= k < n && records[k].reason == Some(r) { assert records[..n][k].reason == Some(r); }
        if records[n].reason == Some(r) { assert r in ReasonsOf(records); }
      }
    }
  }

  /** The block reasons of a full plan are exactly those of its blocked records. */
  lemma BlockReasonsAreTheRecords(profile: Object)
    requires Gate(profile).passed && !Gate(profile).degraded
    ensures var p := PlanOf(profile);
      forall r :: r in p.blockReasons <==> exists k :: 0 <= k < |p.blocked| && p.blocked[k].reason == Some(r)
  {
    hide AllRecords, Select, ReasonsOf, Gate;
    var records := AllRecords(profile);
    ReasonsAreOf(Select(records, |records|, Blocked));
  }

  lemma {:induction false} SelectMembers(records: seq<Record>, n: nat, status: RecordStatus)
    requires n <= |records|
    ensures forall r :: r in Select(records, n, status) <==> r in records[..n] && r.status == status
  {
    if n > 0 {
      SelectMembers(records, n - 1, status);
      assert records[..n] == records[..n - 1] + [records[n - 1]];
    }
  }

  lemma PlannedIsAssigned(profile: Object, item: Item, n: nat)
    ensures RecordOf(profile, item, n).status == Planned ==> RecordOf(profile, item, n).actionType == "assign_workload"
  {
  }

  /** Every planned action assigns a workload. */
  lemma PlannedAssigns(profile: Object)
    ensures forall r :: r in PlanOf(profile).actions ==> r.actionType == "assign_workload"
  {
    hide RecordOf, Gate;
    var records := AllRecords(profile);
    SelectMembers(records, |records|, Planned);
    assert records[..|records|] == records;
    forall r | r in records && r.status == Planned ensures r.actionType == "assign_workload" {
      var i :| 0 <= i < |records| && records[i] == r;
      PlannedIsAssigned(profile, Items(profile)[i], i + 1);
    }
  }
}
