/** Fail-closed validation of simulation-only profiles. */
module SafetyGate {
  import opened JsonValues
  import opened Reasons

  datatype GateResult = GateResult(passed: bool, failures: seq<Reason>, warnings: seq<Reason>, degraded: bool)

  datatype Requirement = Requirement(field: Field, expected: Json)
  datatype ListRequirement = ListRequirement(field: Field, strings: bool)

  const EXACT: seq<Requirement> := [
    Requirement(HardwareControlEnabled, Bool(false)),
    Requirement(HumanReviewRequired, Bool(true)),
    Requirement(ClaimBoundary, Str(CLAIM_BOUNDARY)),
    Requirement(VoltagePolicy, Str(NO_HARDWARE_CONTROL)),
    Requirement(RuntimeLoaderHint, Str(SIMULATION_HINT))]

  const NO_HARDWARE_CONTROL := "no_hardware_control"
  const SIMULATION_HINT := "simulation_only"

  const LISTS: seq<ListRequirement> := [
    ListRequirement(AssignedWorkloads, false), ListRequirement(UnassignedWorkloads, false),
    ListRequirement(BlockedRoles, true), ListRequirement(AllowedRoles, true)]

  /** How a required value reads in a failure reason. */
  function Spelled(j: Json): string {
    match j
    case Bool(b) => if b then "true" else "false"
    case Str(s) => s
    case _ => ""
  }

  function ExactFailure(profile: Object, r: Requirement): seq<Reason> {
    if Get(profile, r.field) != r.expected then [MustBe(r.field, Spelled(r.expected))] else []
  }

  function ListFailure(profile: Object, r: ListRequirement): seq<Reason> {
    if r.field !in profile then [IsRequired(r.field)]
    else if !profile[r.field].List? then [MustBeList(r.field)]
    else if r.strings && !AllStrings(profile[r.field].items) then [MustBeStringList(r.field)]
    else []
  }

  function ExactFailures(profile: Object, rs: seq<Requirement>, n: nat): seq<Reason>
    requires n <= |rs|
  {
    if n == 0 then [] else ExactFailures(profile, rs, n - 1) + ExactFailure(profile, rs[n - 1])
  }

  function ListFailures(profile: Object, rs: seq<ListRequirement>, n: nat): seq<Reason>
    requires n <= |rs|
  {
    if n == 0 then [] else ListFailures(profile, rs, n - 1) + ListFailure(profile, rs[n - 1])
  }

  predicate HasProfileId(profile: Object) {
    Get(profile, ProfileId).Str? && Get(profile, ProfileId).s != ""
  }

  predicate Degraded(profile: Object) {
    PreferredRoutes !in profile
  }

  function GateFailures(profile: Object): seq<Reason> {
    ExactFailures(profile, EXACT, |EXACT|)
    + (if HasProfileId(profile) then [] else [ProfileIdEmpty])
    + ListFailures(profile, LISTS, |LISTS|)
    + (if !Degraded(profile) && !profile[PreferredRoutes].List? then [MustBeList(PreferredRoutes)] else [])
  }

  function Gate(profile: Object): GateResult {
    var failures := GateFailures(profile);
    GateResult(failures == [], failures,
               if Degraded(profile) then [PreferredRoutesMissing] else [],
               Degraded(profile) && failures == [])
  }

  method CheckExact(profile: Object, rs: seq<Requirement>) returns (failures: seq<Reason>)
    ensures failures == ExactFailures(profile, rs, |rs|)
  {
    failures := [];
    for i := 0 to |rs|
      invariant failures == ExactFailures(profile, rs, i)
    {
      if Get(profile, rs[i].field) != rs[i].expected {
        failures := failures + [MustBe(rs[i].field, Spelled(rs[i].expected))];
      }
    }
  }

  method CheckLists(profile: Object, rs: seq<ListRequirement>) returns (failures: seq<Reason>)
    ensures failures == ListFailures(profile, rs, |rs|)
  {
    failures := [];
    for i := 0 to |rs|
      invariant failures == ListFailures(profile, rs, i)
    {
      var r := rs[i];
      if r.field !in profile {
        failures := failures + [IsRequired(r.field)];
      } else if !profile[r.field].List? {
        failures := failures + [MustBeList(r.field)];
      } else if r.strings && !AllStrings(profile[r.field].items) {
        failures := failures + [MustBeStringList(r.field)];
      }
    }
  }

  method Evaluate(profile: Object) returns (r: GateResult)
    ensures r == Gate(profile)
  {
    hide ExactFailures, ListFailures, HasProfileId;
    var warnings: seq<Reason> := [];
    var failures := CheckExact(profile, EXACT);
    if !HasProfileId(profile) {
      failures := failures + [ProfileIdEmpty];
    }
    var listFailures := CheckLists(profile, LISTS);
    failures := failures + listFailures;
    var degraded := PreferredRoutes !in profile;
    if degraded {
      warnings := warnings + [PreferredRoutesMissing];
    } else if !profile[PreferredRoutes].List? {
      failures := failures + [MustBeList(PreferredRoutes)];
    }
    assert failures == GateFailures(profile);
    r := GateResult(failures == [], failures, warnings, degraded && failures == []);
  }

  /** What a profile must look like, stated without the failure list. */
  ghost predicate Conforms(profile: Object) {
    && Get(profile, HardwareControlEnabled) == Bool(false)
    && Get(profile, HumanReviewRequired) == Bool(true)
    && Get(profile, ClaimBoundary) == Str(CLAIM_BOUNDARY)
    && Get(profile, VoltagePolicy) == Str(NO_HARDWARE_CONTROL)
    && Get(profile, RuntimeLoaderHint) == Str(SIMULATION_HINT)
    && HasProfileId(profile)
    && Get(profile, AssignedWorkloads).List?
    && Get(profile, UnassignedWorkloads).List?
    && IsStringList(Get(profile, BlockedRoles))
    && IsStringList(Get(profile, AllowedRoles))
    && (PreferredRoutes in profile ==> profile[PreferredRoutes].List?)
  }

  lemma {:induction false} NoExactFailure(profile: Object, rs: seq<Requirement>, n: nat)
    requires n <= |rs|
    ensures ExactFailures(profile, rs, n) == [] <==>
            forall i :: 0 <= i < n ==> Get(profile, rs[i].field) == rs[i].expected
  {
    hide Spelled;
    if n > 0 { NoExactFailure(profile, rs, n - 1); }
  }

  lemma {:induction false} NoListFailure(profile: Object, rs: seq<ListRequirement>, n: nat)
    requires n <= |rs|
    ensures ListFailures(profile, rs, n) == [] <==> forall i :: 0 <= i < n ==> ListFailure(profile, rs[i]) == []
  {
    hide ListFailure;
    if n > 0 { NoListFailure(profile, rs, n - 1); }
  }

  lemma NoExactFailureMeans(profile: Object)
    ensures ExactFailures(profile, EXACT, |EXACT|) == [] <==>
      && Get(profile, HardwareControlEnabled) == Bool(false)
      && Get(profile, HumanReviewRequired) == Bool(true)
      && Get(profile, ClaimBoundary) == Str(CLAIM_BOUNDARY)
      && Get(profile, VoltagePolicy) == Str(NO_HARDWARE_CONTROL)
      && Get(profile, RuntimeLoaderHint) == Str(SIMULATION_HINT)
  {
    hide ExactFailures, CLAIM_BOUNDARY, NO_HARDWARE_CONTROL, SIMULATION_HINT;
    NoExactFailure(profile, EXACT, |EXACT|);
    assert |EXACT| == 5;
    assert EXACT[0].field == HardwareControlEnabled && EXACT[0].expected == Bool(false);
    assert EXACT[1].field == HumanReviewRequired && EXACT[1].expected == Bool(true);
    assert EXACT[2].field == ClaimBoundary && EXACT[2].expected == Str(CLAIM_BOUNDARY);
    assert EXACT[3].field == VoltagePolicy && EXACT[3].expected == Str(NO_HARDWARE_CONTROL);
    assert EXACT[4].field == RuntimeLoaderHint && EXACT[4].expected == Str(SIMULATION_HINT);
  }

  lemma NoListFailureMeans(profile: Object)
    ensures ListFailures(profile, LISTS, |LISTS|) == [] <==>
      && Get(profile, AssignedWorkloads).List?
      && Get(profile, UnassignedWorkloads).List?
      && IsStringList(Get(profile, BlockedRoles))
      && IsStringList(Get(profile, AllowedRoles))
  {
    NoListFailure(profile, LISTS, |LISTS|);
    assert |LISTS| == 4;
    assert ListFailure(profile, LISTS[0]) == [] <==> Get(profile, AssignedWorkloads).List?;
    assert ListFailure(profile, LISTS[1]) == [] <==> Get(profile, UnassignedWorkloads).List?;
    assert ListFailure(profile, LISTS[2]) == [] <==> IsStringList(Get(profile, BlockedRoles));
    assert ListFailure(profile, LISTS[3]) == [] <==> IsStringList(Get(profile, AllowedRoles));
  }

  /** The gate passes exactly the conforming profiles, and degrades exactly those without routes. */
  lemma GatePassesExactlyConforming(profile: Object)
    ensures Gate(profile).passed <==> Conforms(profile)
    ensures Gate(profile).degraded <==> Conforms(profile) && PreferredRoutes !in profile
  {
    NoExactFailureMeans(profile);
    NoListFailureMeans(profile);
  }
}
