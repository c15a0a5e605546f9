/** Why a profile, a plan document or a failure scenario is refused: each reason exactly when it is true. */
module ReasonTheorems {
  import opened Base
  import opened JsonValues
  import opened Reasons
  import opened SafetyGate
  import opened RuntimePlan
  import opened FailureInjector

  // ---- the gate ----

  /** What a profile must state, and how a reason spells it. */
  function Demanded(f: Field): Option<(Json, string)> {
    match f
    case HardwareControlEnabled => Some((Bool(false), "false"))
    case HumanReviewRequired => Some((Bool(true), "true"))
    case ClaimBoundary => Some((Str("simulation_only_not_certified"), "simulation_only_not_certified"))
    case VoltagePolicy => Some((Str("no_hardware_control"), "no_hardware_control"))
    case RuntimeLoaderHint => Some((Str("simulation_only"), "simulation_only"))
    case _ => None
  }

  predicate IsListField(f: Field) {
    f.AssignedWorkloads? || f.UnassignedWorkloads? || f.BlockedRoles? || f.AllowedRoles?
  }

  predicate IsTextListField(f: Field) {
    f.BlockedRoles? || f.AllowedRoles?
  }

  /** What is wrong with a profile. */
  ghost predicate GateFault(profile: Object, r: Reason) {
    match r
    case MustBe(f, what) => Demanded(f).Some? && what == Demanded(f).value.1 && Get(profile, f) != Demanded(f).value.0
    case ProfileIdEmpty => Get(profile, ProfileId) == Str("") || !Get(profile, ProfileId).Str?
    case IsRequired(f) => IsListField(f) && f !in profile
    case MustBeList(f) => (IsListField(f) || f.PreferredRoutes?) && f in profile && !profile[f].List?
    case MustBeStringList(f) =>
      IsTextListField(f) && f in profile && profile[f].List?
      && exists i :: 0 <= i < |profile[f].items| && !profile[f].items[i].Str?
    case _ => false
  }

  lemma {:induction false} ExactFailuresAre(profile: Object, rs: seq<Requirement>, n: nat)
    requires n <= |rs|
    ensures forall r :: r in ExactFailures(profile, rs, n) <==>
                        exists e :: e in rs[..n] && Get(profile, e.field) != e.expected
                                    && r == MustBe(e.field, Spelled(e.expected))
  {
    hide Spelled;
    if n > 0 {
      ExactFailuresAre(profile, rs, n - 1);
      assert rs[..n] == rs[..n - 1] + [rs[n - 1]];
    }
  }

  lemma {:induction false} ListFailuresAre(profile: Object, rs: seq<ListRequirement>, n: nat)
    requires n <= |rs|
    ensures forall r :: r in ListFailures(profile, rs, n) <==> exists e :: e in rs[..n] && r in ListFailure(profile, e)
  {
    hide ListFailure;
    if n > 0 {
      ListFailuresAre(profile, rs, n - 1);
      assert rs[..n] == rs[..n - 1] + [rs[n - 1]];
    }
  }

  lemma ExactAre(e: Requirement)
    ensures e in EXACT <==> Demanded(e.field).Some? && e.expected == Demanded(e.field).value.0
    ensures e in EXACT ==> Spelled(e.expected) == Demanded(e.field).value.1
  {
    var t := EXACT;
    assert |t| == 5 && t[0] == Requirement(HardwareControlEnabled, Bool(false));
    assert t[1] == Requirement(HumanReviewRequired, Bool(true));
    assert t[2] == Requirement(ClaimBoundary, Str(CLAIM_BOUNDARY));
    assert t[3] == Requirement(VoltagePolicy, Str(NO_HARDWARE_CONTROL));
    assert t[4] == Requirement(RuntimeLoaderHint, Str(SIMULATION_HINT));
    assert e in t <==> e == t[0] || e == t[1] || e == t[2] || e == t[3] || e == t[4];
  }

  lemma ListsAre(e: ListRequirement)
    ensures e in LISTS <==> IsListField(e.field) && (e.strings <==> IsTextListField(e.field))
  {
    var t := LISTS;
    assert |t| == 4 && t[0] == ListRequirement(AssignedWorkloads, false);
    assert t[1] == ListRequirement(UnassignedWorkloads, false) && t[2] == ListRequirement(BlockedRoles, true);
    assert t[3] == ListRequirement(AllowedRoles, true);
    assert e in t <==> e == t[0] || e == t[1] || e == t[2] || e == t[3];
  }

  lemma ExactFault(profile: Object, r: Reason)
    ensures r in ExactFailures(profile, EXACT, |EXACT|) <==> r.MustBe? && GateFault(profile, r)
  {
    hide EXACT, Demanded, Spelled;
    ExactFailuresAre(profile, EXACT, |EXACT|);
    assert EXACT[..|EXACT|] == EXACT;
    if r in ExactFailures(profile, EXACT, |EXACT|) {
      var e :| e in EXACT && Get(profile, e.field) != e.expected && r == MustBe(e.field, Spelled(e.expected));
      ExactAre(e);
    }
    if r.MustBe? && GateFault(profile, r) {
      var e := Requirement(r.f, Demanded(r.f).value.0);
      ExactAre(e);
      assert e in EXACT;
    }
  }

  lemma ListFault(profile: Object, r: Reason)
    ensures r in ListFailures(profile, LISTS, |LISTS|) <==>
            && (r.IsRequired? || r.MustBeStringList? || (r.MustBeList? && r.f != PreferredRoutes))
            && GateFault(profile, r)
  {
    hide LISTS;
    ListFailuresAre(profile, LISTS, |LISTS|);
    assert LISTS[..|LISTS|] == LISTS;
    if r in ListFailures(profile, LISTS, |LISTS|) {
      var e :| e in LISTS && r in ListFailure(profile, e);
      ListsAre(e);
    }
    if (r.IsRequired? || r.MustBeStringList? || (r.MustBeList? && r.f != PreferredRoutes)) && GateFault(profile, r) {
      var e := ListRequirement(r.f, IsTextListField(r.f));
      ListsAre(e);
      assert e in LISTS && r in ListFailure(profile, e);
    }
  }

  /** The gate refuses a profile for exactly the faults it has, and warns exactly of missing preferred routes. */
  lemma GateFaultsAreExact(profile: Object)
    ensures forall r :: r in Gate(profile).failures <==> GateFault(profile, r)
    ensures forall r :: r in Gate(profile).warnings <==> r == PreferredRoutesMissing && PreferredRoutes !in profile
  {
    hide ExactFailures, ListFailures, EXACT, LISTS;
    forall r ensures r in GateFailures(profile) <==> GateFault(profile, r) {
      ExactFault(profile, r);
      ListFault(profile, r);
      assert r in GateFailures(profile) <==>
             || r in ExactFailures(profile, EXACT, |EXACT|) || r in ListFailures(profile, LISTS, |LISTS|)
             || (r == ProfileIdEmpty && !HasProfileId(profile))
             || (r == MustBeList(PreferredRoutes) && PreferredRoutes in profile && !profile[PreferredRoutes].List?);
    }
  }

  // ---- required fields ----

  lemma {:induction false} MissingExactly(o: Object, fields: seq<Field>, n: nat)
    requires n <= |fields|
    ensures forall r :: r in MissingFields(o, fields, n) <==> r.MissingField? && r.f in fields[..n] && r.f !in o
  {
    if n > 0 {
      MissingExactly(o, fields, n - 1);
      assert fields[..n] == fields[..n - 1] + [fields[n - 1]];
    }
  }

  lemma AllMissing(o: Object, fields: seq<Field>)
    ensures forall r :: r in MissingFields(o, fields, |fields|) <==> r.MissingField? && r.f in fields && r.f !in o
  {
    MissingExactly(o, fields, |fields|);
    assert fields[..|fields|] == fields;
  }

  // ---- the plan document ----

  predicate IsPlanField(f: Field) {
    || f.RuntimeVersion? || f.ExecutionMode? || f.HardwareControlEnabled? || f.HumanReviewRequired? || f.ClaimBoundary?
    || f.Actions? || f.BlockedActions? || f.PlanStatus? || f.PlanBlockReasons?
  }

  predicate IsPlanList(f: Field) {
    f.Actions? || f.BlockedActions? || f.PlanBlockReasons?
  }

  /** What is structurally wrong with a plan document. */
  ghost predicate PlanFault(plan: Object, r: Reason) {
    match r
    case MissingField(f) => IsPlanField(f) && f !in plan
    case MustBeString(f) => f.RuntimeVersion? && f in plan && !plan[f].Str?
    case MustBeList(f) => IsPlanList(f) && f in plan && !plan[f].List?
    case ActionsNotObjects =>
      Actions in plan && plan[Actions].List?
      && exists i :: 0 <= i < |plan[Actions].items| && !plan[Actions].items[i].Obj?
    case PlanStatusUnsupported =>
      PlanStatus in plan
      && !exists s :: plan[PlanStatus] == Str(s)
                      && s in {"planned", "planned_with_blocks", "degraded_no_execution_plan", "blocked_by_safety_gate",
                               "blocked_by_bundle_validation"}
    case _ => false
  }

  lemma PlanFieldsAre(f: Field)
    ensures f in REQUIRED_PLAN_FIELDS <==> IsPlanField(f)
    ensures f in PLAN_LIST_FIELDS <==> IsPlanList(f)
  {
    var t, l := REQUIRED_PLAN_FIELDS, PLAN_LIST_FIELDS;
    assert t == [RuntimeVersion, ExecutionMode, HardwareControlEnabled, HumanReviewRequired, ClaimBoundary, Actions,
                 BlockedActions, PlanStatus, PlanBlockReasons];
    assert l == [Actions, BlockedActions, PlanBlockReasons];
  }

  lemma {:induction false} NotListsAre(plan: Object, fields: seq<Field>, n: nat)
    requires n <= |fields|
    ensures forall r :: r in NotLists(plan, fields, n) <==>
                        r.MustBeList? && r.f in fields[..n] && r.f in plan && !plan[r.f].List?
  {
    if n > 0 {
      NotListsAre(plan, fields, n - 1);
      assert fields[..n] == fields[..n - 1] + [fields[n - 1]];
    }
  }

  lemma PlanListsAre(plan: Object, r: Reason)
    ensures r in StructuralReasons(plan) <==>
            || r in MissingFields(plan, REQUIRED_PLAN_FIELDS, |REQUIRED_PLAN_FIELDS|)
            || r in NotLists(plan, PLAN_LIST_FIELDS, |PLAN_LIST_FIELDS|)
            || (r == MustBeString(RuntimeVersion) && RuntimeVersion in plan && !plan[RuntimeVersion].Str?)
            || (r == ActionsNotObjects && Get(plan, Actions).List? && !AllObjects(plan[Actions].items))
            || (r == PlanStatusUnsupported && PlanStatus in plan && !StatusSupported(plan[PlanStatus]))
  {
    hide MissingFields, NotLists, REQUIRED_PLAN_FIELDS, PLAN_LIST_FIELDS, StatusSupported, AllObjects;
  }

  /** A plan document is refused in its structure for exactly the faults it has. */
  lemma PlanFaultsAreExact(plan: Object)
    ensures forall r :: r in Validation(plan).structural <==> PlanFault(plan, r)
  {
    hide MissingFields, NotLists, REQUIRED_PLAN_FIELDS, PLAN_LIST_FIELDS, IsPlanField, IsPlanList, StructuralReasons;
    AllMissing(plan, REQUIRED_PLAN_FIELDS);
    NotListsAre(plan, PLAN_LIST_FIELDS, |PLAN_LIST_FIELDS|);
    assert PLAN_LIST_FIELDS[..|PLAN_LIST_FIELDS|] == PLAN_LIST_FIELDS;
    forall r ensures r in StructuralReasons(plan) <==> PlanFault(plan, r) {
      PlanListsAre(plan, r);
      if r.MissingField? || r.MustBeList? { PlanFieldsAre(r.f); }
    }
  }

  /** What a plan document must state where it states anything. */
  function PlanDemands(f: Field): Option<(Json, string)> {
    match f
    case ExecutionMode => Some((Str("dry_run"), "dry_run"))
    case HardwareControlEnabled => Some((Bool(false), "false"))
    case HumanReviewRequired => Some((Bool(true), "true"))
    case ClaimBoundary => Some((Str("simulation_only_not_certified"), "simulation_only_not_certified"))
    case _ => None
  }

  lemma PlanBoundaryParts(plan: Object, r: Reason)
    ensures r in SafetyReasons(plan) <==>
            || (r == MustBe(ExecutionMode, "dry_run") && ExecutionMode in plan && plan[ExecutionMode] != Str("dry_run"))
            || (r == MustBe(HardwareControlEnabled, "false") && HardwareControlEnabled in plan
                && plan[HardwareControlEnabled] != Bool(false))
            || (r == MustBe(HumanReviewRequired, "true") && HumanReviewRequired in plan
                && plan[HumanReviewRequired] != Bool(true))
            || (r == MustBe(ClaimBoundary, CLAIM_BOUNDARY) && ClaimBoundary in plan
                && plan[ClaimBoundary] != Str(CLAIM_BOUNDARY))
  {
  }

  /** Its boundary is refused for exactly the fields that state something else. */
  lemma PlanBoundaryIsExact(plan: Object)
    ensures forall r :: r in Validation(plan).safety <==>
              r.MustBe? && PlanDemands(r.f).Some? && r.what == PlanDemands(r.f).value.1
              && r.f in plan && plan[r.f] != PlanDemands(r.f).value.0
  {
    hide SafetyReasons;
    forall r ensures r in SafetyReasons(plan) <==>
              r.MustBe? && PlanDemands(r.f).Some? && r.what == PlanDemands(r.f).value.1
              && r.f in plan && plan[r.f] != PlanDemands(r.f).value.0 { PlanBoundaryParts(plan, r); }
  }

  /** A plan document has some fault, or steps over its boundary. */
  ghost predicate PlanFaulty(plan: Object) {
    exists r :: PlanFault(plan, r)
  }

  ghost predicate PlanUnsafe(plan: Object) {
    exists f :: PlanDemands(f).Some? && f in plan && plan[f] != PlanDemands(f).value.0
  }

  lemma SomeExactly<T(!new)>(s: seq<T>)
    ensures s != [] <==> exists x :: x in s
  {
    if s != [] { assert s[0] in s; }
  }

  lemma PlanRefusedExactly(plan: Object)
    ensures Validation(plan).StructurallyValid() <==> !PlanFaulty(plan)
    ensures Validation(plan).safety != [] <==> PlanUnsafe(plan)
  {
    hide PlanFault, Validation, PlanDemands;
    PlanFaultsAreExact(plan);
    PlanBoundaryIsExact(plan);
    SomeExactly(Validation(plan).structural);
    SomeExactly(Validation(plan).safety);
    if f :| PlanDemands(f).Some? && f in plan && plan[f] != PlanDemands(f).value.0 {
      assert MustBe(f, PlanDemands(f).value.1) in Validation(plan).safety;
    }
  }

  // ---- the scenario ----

  predicate IsScenarioField(f: Field) {
    || f.ScenarioId? || f.FailureMode? || f.InjectionStage? || f.SimulationOnly? || f.HardwareControlEnabled?
    || f.ClaimBoundary?
  }

  function ScenarioDemands(f: Field): Option<(Json, string)> {
    match f
    case SimulationOnly => Some((Bool(true), "true"))
    case HardwareControlEnabled => Some((Bool(false), "false"))
    case ClaimBoundary => Some((Str("simulation_only_not_certified"), "simulation_only_not_certified"))
    case _ => None
  }

  /** What is wrong with a scenario. */
  ghost predicate ScenarioFault(raw: Object, r: Reason) {
    match r
    case MissingField(f) => IsScenarioField(f) && f !in raw
    case UnsupportedFailureMode(text) =>
      FailureMode in raw && text == PyStr(raw[FailureMode])
      && !exists m :: ModeSupported(m) && raw[FailureMode] == Str(ModeText(m))
    case MustBe(f, what) =>
      ScenarioDemands(f).Some? && what == ScenarioDemands(f).value.1 && f in raw && raw[f] != ScenarioDemands(f).value.0
    case _ => false
  }

  lemma ScenarioFieldsAre(f: Field)
    ensures f in REQUIRED_SCENARIO_FIELDS <==> IsScenarioField(f)
  {
    assert REQUIRED_SCENARIO_FIELDS ==
           [ScenarioId, FailureMode, InjectionStage, SimulationOnly, HardwareControlEnabled, ClaimBoundary];
  }

  lemma SupportedByText(j: Json)
    ensures ModeIsSupported(j) <==> exists m :: ModeSupported(m) && j == Str(ModeText(m))
  {
    hide ModeText, ModeFromText;
    if ModeIsSupported(j) {
      ModesByText(j.s, ModeFromText(j.s));
      assert ModeSupported(ModeFromText(j.s)) && j == Str(ModeText(ModeFromText(j.s)));
    }
    if m :| ModeSupported(m) && j == Str(ModeText(m)) { ModesByText(j.s, m); }
  }

  lemma ScenarioParts(raw: Object, r: Reason)
    ensures r in ScenarioReasons(raw) <==>
            || r in MissingFields(raw, REQUIRED_SCENARIO_FIELDS, |REQUIRED_SCENARIO_FIELDS|)
            || (FailureMode in raw && !ModeIsSupported(raw[FailureMode])
                && r == UnsupportedFailureMode(PyStr(raw[FailureMode])))
            || (r == MustBe(SimulationOnly, "true") && SimulationOnly in raw && raw[SimulationOnly] != Bool(true))
            || (r == MustBe(HardwareControlEnabled, "false") && HardwareControlEnabled in raw
                && raw[HardwareControlEnabled] != Bool(false))
            || (r == MustBe(ClaimBoundary, CLAIM_BOUNDARY) && ClaimBoundary in raw
                && raw[ClaimBoundary] != Str(CLAIM_BOUNDARY))
  {
    hide MissingFields, REQUIRED_SCENARIO_FIELDS, ModeIsSupported, PyStr;
  }

  /** A scenario is refused for exactly the faults it has. */
  lemma ScenarioFaultsAreExact(raw: Object)
    ensures forall r :: r in ScenarioReasons(raw) <==> ScenarioFault(raw, r)
  {
    hide MissingFields, REQUIRED_SCENARIO_FIELDS, ModeIsSupported, ModeText, IsScenarioField, PyStr, ScenarioReasons;
    AllMissing(raw, REQUIRED_SCENARIO_FIELDS);
    if FailureMode in raw { SupportedByText(raw[FailureMode]); }
    forall r ensures r in ScenarioReasons(raw) <==> ScenarioFault(raw, r) {
      ScenarioParts(raw, r);
      if r.MissingField? { ScenarioFieldsAre(r.f); }
    }
  }
}
