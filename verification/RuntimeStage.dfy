/** The first stage: loading a profile or a compiler bundle, and the dry run that plans from it. */
module RuntimeStage {
  import opened Base
  import opened JsonValues
  import opened Reasons
  import opened SafetyGate
  import opened PlanBuilder
  import EvidenceSource

  type World = EvidenceSource.World
  type Bytes = EvidenceSource.Bytes
  type Directory = EvidenceSource.Directory

  // ---- the compiler bundle ----

  const PROFILE_FILE := "recovery_profile.json"
  const SOLVER_FILE := "solver_report.json"
  const VALIDATION_FILE := "artifact_validation_report.json"
  const COMPARISON_FILE := "comparison_report.json"
  const PASSPORT_FILE := "functional_passport.json"

  /** An optional bundle artifact as it was found. */
  datatype Artifact = Absent | Undecodable | Given(payload: Object)

  /** A loaded bundle; `profile` is empty when the file is missing. */
  datatype Bundle = Bundle(profile: Option<Object>, solver: Artifact, validation: Artifact, comparison: Artifact,
                           passport: Artifact)

  function ArtifactIn(w: World, dir: Directory, name: string): Artifact {
    if name !in dir then Absent
    else
      var payload := w.parse(dir[name]);
      if payload.Some? && payload.value.Obj? then Given(payload.value.fields) else Undecodable
  }

  /** `load_compiler_bundle`: only an undecodable profile raises. */
  function LoadBundle(w: World, dir: Directory): Option<Bundle> {
    match ArtifactIn(w, dir, PROFILE_FILE)
    case Undecodable => None
    case profile =>
      Some(Bundle(if profile.Given? then Some(profile.payload) else None, ArtifactIn(w, dir, SOLVER_FILE),
                  ArtifactIn(w, dir, VALIDATION_FILE), ArtifactIn(w, dir, COMPARISON_FILE),
                  ArtifactIn(w, dir, PASSPORT_FILE)))
  }

  datatype BundleStatus =
    | NoProfile | ArtifactUndecodable | ProfileIdsDiffer | ValidationFailed | SolverFailed | ComparisonFailed
    | PassportNotReady
    | ArtifactsMissing | SolverDegraded | ValidBundle
  {
    /** The status text does not start with `invalid_`. */
    predicate Passed() { ArtifactsMissing? || SolverDegraded? || ValidBundle? }
    predicate Degraded() { ArtifactsMissing? || SolverDegraded? }
  }

  datatype BundleResult = BundleResult(status: BundleStatus, reasons: seq<string>, warnings: seq<string>)

  /** The optional artifacts, each with its name and the stem its load error uses. */
  function Supporting(b: Bundle): seq<(string, string, Artifact)> {
    [(SOLVER_FILE, "solver_report", b.solver), (VALIDATION_FILE, "artifact_validation_report", b.validation),
     (COMPARISON_FILE, "comparison_report", b.comparison), (PASSPORT_FILE, "functional_passport", b.passport)]
  }

  function LoadError(): ((string, string, Artifact)) -> seq<string> {
    (e: (string, string, Artifact)) => if e.2.Undecodable? then [e.1 + "_invalid_json"] else []
  }

  function IdMismatch(profileId: Json): ((string, string, Artifact)) -> seq<string> {
    (e: (string, string, Artifact)) =>
      if e.2.Given? && ProfileId in e.2.payload && !PyEq(e.2.payload[ProfileId], profileId)
        then ["profile_id_mismatch:" + e.0] else []
  }

  function MissingArtifact(): ((string, string, Artifact)) -> seq<string> {
    (e: (string, string, Artifact)) => if e.2.Absent? then ["missing_artifact:" + e.0] else []
  }

  predicate States(a: Artifact, f: Field, text: string) {
    a.Given? && Get(a.payload, f) == Str(text)
  }

  /** `str` of every item of a list, nothing for any other value. */
  function ListedTexts(value: Json): seq<string> {
    if value.List? then seq(|value.items|, i requires 0 <= i < |value.items| => PyStr(value.items[i])) else []
  }

  function ComparisonWarningsOf(a: Artifact): seq<string> {
    if a.Given? then ListedTexts(Get(a.payload, ComparisonWarnings)) else []
  }

  /** `validate_compiler_bundle`: the first rule that fires decides. */
  function ValidateBundle(b: Bundle): BundleResult {
    if b.profile.None? then BundleResult(NoProfile, ["recovery_profile_missing"], [])
    else
      var id := Get(b.profile.value, ProfileId);
      var loadErrors := FlatMap(LoadError(), Supporting(b));
      var mismatches := FlatMap(IdMismatch(if id.Str? then id else Null), Supporting(b));
      var missing := FlatMap(MissingArtifact(), Supporting(b));
      var warnings := ComparisonWarningsOf(b.comparison);
      if loadErrors != [] then BundleResult(ArtifactUndecodable, loadErrors, [])
      else if mismatches != [] then BundleResult(ProfileIdsDiffer, mismatches, [])
      else if b.validation.Given? && (Get(b.validation.payload, ArtifactValidationPassed) == Bool(false)
                                      || States(b.validation, ValidationStatus, "failed"))
      then BundleResult(ValidationFailed, ["artifact_validation_failed"], [])
      else if States(b.solver, SolverStatus, "failed") || States(b.solver, SolverStatus, "infeasible")
      then BundleResult(SolverFailed, ["solver_failed"], [])
      else if States(b.comparison, ComparisonStatus, "failed")
        then BundleResult(ComparisonFailed, ["comparison_failed"], [])
      else if States(b.passport, PassportStatus, "failed") || States(b.passport, DecisionReadiness, "not_ready")
      then BundleResult(PassportNotReady, ["functional_passport_not_ready"], [])
      else if missing != [] then BundleResult(ArtifactsMissing, missing, warnings)
      else if States(b.solver, SolverStatus, "degraded")
        then BundleResult(SolverDegraded, ["solver_degraded"], warnings)
      else BundleResult(ValidBundle, [], warnings)
  }

  /** What a bundle must be to pass: a profile, every artifact readable and about the same profile, nothing failed. */
  ghost predicate Acceptable(b: Bundle) {
    && b.profile.Some?
    && (forall a :: a in [b.solver, b.validation, b.comparison, b.passport] ==>
        !a.Undecodable? && AboutProfile(a, b.profile.value))
    && !(b.validation.Given? && Get(b.validation.payload, ArtifactValidationPassed) == Bool(false))
    && !States(b.validation, ValidationStatus, "failed")
    && !States(b.solver, SolverStatus, "failed") && !States(b.solver, SolverStatus, "infeasible")
    && !States(b.comparison, ComparisonStatus, "failed")
    && !States(b.passport, PassportStatus, "failed") && !States(b.passport, DecisionReadiness, "not_ready")
  }

  ghost predicate AboutProfile(a: Artifact, profile: Object) {
    a.Given? && ProfileId in a.payload ==>
      PyEq(a.payload[ProfileId], if Get(profile, ProfileId).Str? then Get(profile, ProfileId) else Null)
  }

  lemma NoLoadErrorExactly(b: Bundle)
    ensures FlatMap(LoadError(), Supporting(b)) == [] <==>
            !b.solver.Undecodable? && !b.validation.Undecodable? && !b.comparison.Undecodable?
            && !b.passport.Undecodable?
  {
    var s := Supporting(b);
    FlatMapEmptyExactly(LoadError(), s);
    assert s[0] in s && s[1] in s && s[2] in s && s[3] in s;
  }

  lemma NoMismatchExactly(b: Bundle, profile: Object)
    ensures FlatMap(IdMismatch(if Get(profile, ProfileId).Str? then Get(profile, ProfileId) else Null),
                    Supporting(b)) == [] <==>
            AboutProfile(b.solver, profile) && AboutProfile(b.validation, profile)
            && AboutProfile(b.comparison, profile)
            && AboutProfile(b.passport, profile)
  {
    hide PyEq;
    var s := Supporting(b);
    FlatMapEmptyExactly(IdMismatch(if Get(profile, ProfileId).Str? then Get(profile, ProfileId) else Null), s);
    assert s[0] in s && s[1] in s && s[2] in s && s[3] in s;
  }

  lemma NothingAbsentExactly(b: Bundle)
    ensures FlatMap(MissingArtifact(), Supporting(b)) == [] <==>
            !b.solver.Absent? && !b.validation.Absent? && !b.comparison.Absent? && !b.passport.Absent?
  {
    var s := Supporting(b);
    FlatMapEmptyExactly(MissingArtifact(), s);
    assert s[0] in s && s[1] in s && s[2] in s && s[3] in s;
  }

  /** A bundle passes exactly when it is acceptable; a passing one degrades exactly when a supporting artifact is
      absent or the solver reports a degraded solution. */
  lemma BundlePassesExactly(b: Bundle)
    ensures ValidateBundle(b).status.Passed() <==> Acceptable(b)
    ensures Acceptable(b) ==>
              (ValidateBundle(b).status.Degraded() <==>
               b.solver.Absent? || b.validation.Absent? || b.comparison.Absent? || b.passport.Absent?
               || States(b.solver, SolverStatus, "degraded"))
  {
    hide FlatMap, PyEq, AboutProfile, LoadError, IdMismatch, MissingArtifact, ListedTexts;
    NoLoadErrorExactly(b);
    NothingAbsentExactly(b);
    if b.profile.Some? {
      NoMismatchExactly(b, b.profile.value);
      var all := [b.solver, b.validation, b.comparison, b.passport];
      assert all[0] in all && all[1] in all && all[2] in all && all[3] in all;
    }
  }

  // ---- the dry run ----

  datatype DryRun = DryRun(plan: Plan, gatePassed: bool, degraded: bool, bundle: Option<BundleResult>)

  /** `_simulate_profile` */
  function SimulatedProfile(profile: Object): DryRun {
    DryRun(PlanOf(profile), Gate(profile).passed, Gate(profile).degraded, None)
  }

  /** `run_bundle_dry_run`: a refused bundle gives an empty plan, an accepted one the plan of its profile. */
  function SimulatedBundle(b: Bundle): DryRun {
    var v := ValidateBundle(b);
    if !v.status.Passed() || b.profile.None? then
      DryRun(BasePlan(if b.profile.Some? then b.profile.value else map[], "blocked_by_bundle_validation",
                      seq(|v.reasons|, i requires 0 <= i < |v.reasons| => BundleReason(v.reasons[i]))), false, false,
                      Some(v))
    else SimulatedProfile(b.profile.value).(bundle := Some(v))
  }

  method SimulateProfile(profile: Object) returns (d: DryRun)
    ensures d == SimulatedProfile(profile)
  {
    var gate := Evaluate(profile);
    var plan := BuildRuntimePlan(profile, gate);
    d := DryRun(plan, gate.passed, gate.degraded, None);
  }

  method SimulateBundle(b: Bundle) returns (d: DryRun)
    ensures d == SimulatedBundle(b)
  {
    var v := ValidateBundle(b);
    if !v.status.Passed() || b.profile.None? {
      return DryRun(BasePlan(if b.profile.Some? then b.profile.value else map[], "blocked_by_bundle_validation",
                             seq(|v.reasons|, i requires 0 <= i < |v.reasons| => BundleReason(v.reasons[i]))), false,
                             false, Some(v));
    }
    var base := SimulateProfile(b.profile.value);
    d := base.(bundle := Some(v));
  }

  function BundleFields(v: BundleResult): Object {
    map[BundleValidationPassed := Bool(v.status.Passed()), BundleValidationWarnings := StrList(v.warnings),
        DegradedBundleMode := Bool(v.status.Degraded())]
  }

  /** `RuntimeReport.to_dict`, the fields a later stage or check reads. */
  function RuntimeReportToJson(d: DryRun): Object {
    map[RuntimeVersion := Str(RUNTIME_VERSION), ExecutionMode := Str("dry_run"), SafetyGatePassed := Bool(d.gatePassed),
        HardwareControlEnabled := Bool(d.plan.hardwareControl), HumanReviewRequired := Bool(d.plan.humanReview),
        ClaimBoundary := OptStr(d.plan.claim),
        DegradedModeReasons := StrList(if d.degraded then [Text(PreferredRoutesMissing)] else [])]
    + (if d.bundle.Some? then BundleFields(d.bundle.value) else map[])
  }

  // ---- what the runner reads off the report ----

  /** `_runtime_blocked` and `_runtime_block_reason` */
  function RuntimeBlockOf(report: Object): Option<string> {
    if Get(report, BundleValidationPassed) == Bool(false) then Some("blocked_by_bundle_validation")
    else if Get(report, SafetyGatePassed) == Bool(false) then Some("blocked_by_safety_gate")
    else None
  }

  const WARNING_FIELDS: seq<Field> := [BundleValidationWarnings, DegradedModeReasons]

  function ItemTexts(report: Object): Field -> seq<string> {
    (f: Field) => ListedTexts(Get(report, f))
  }

  /** `_runtime_warnings` */
  function RuntimeWarningsOf(report: Object): seq<string> {
    Dedup(FlatMap(ItemTexts(report), WARNING_FIELDS)
          + (if Get(report, DegradedBundleMode) == Bool(true) then ["degraded_bundle_mode"] else []))
  }

  method CollectRuntimeWarnings(report: Object) returns (warnings: seq<string>)
    ensures warnings == RuntimeWarningsOf(report)
  {
    var found: seq<string> := [];
    for i := 0 to |WARNING_FIELDS|
      invariant found == FlatMap(ItemTexts(report), WARNING_FIELDS[..i])
    {
      FlatMapSnoc(ItemTexts(report), WARNING_FIELDS, i);
      var value := Get(report, WARNING_FIELDS[i]);
      if value.List? {
        found := found + ListedTexts(value);
      }
    }
    assert WARNING_FIELDS[..|WARNING_FIELDS|] == WARNING_FIELDS;
    assert found + [] == found;
    if Get(report, DegradedBundleMode) == Bool(true) {
      found := found + ["degraded_bundle_mode"];
    }
    warnings := Dedup(found);
  }

  /** The runtime stage lets a dry run pass exactly when its gate passed; a refused bundle never has a passed gate. */
  lemma RuntimeBlocksExactly(d: DryRun)
    requires d.bundle.Some? && !d.bundle.value.status.Passed() ==> !d.gatePassed
    ensures RuntimeBlockOf(RuntimeReportToJson(d)).None? <==> d.gatePassed
  {
  }

  lemma BundleDryRunIsGated(b: Bundle)
    ensures var d := SimulatedBundle(b);
      && (d.bundle.Some? && !d.bundle.value.status.Passed() ==> !d.gatePassed)
      && (d.gatePassed ==> b.profile.Some? && Gate(b.profile.value).passed && d.plan == PlanOf(b.profile.value))
  {
  }

  lemma TextsListed(texts: seq<string>)
    ensures ListedTexts(StrList(texts)) == texts
  {
  }

  /** A degraded plan is the only warning source of a profile run. */
  lemma ProfileRunWarnings(profile: Object)
    ensures RuntimeWarningsOf(RuntimeReportToJson(SimulatedProfile(profile))) ==
            if Gate(profile).degraded then [Text(PreferredRoutesMissing)] else []
  {
    WarningsOfReport(SimulatedProfile(profile));
  }

  lemma WarningsOfReport(d: DryRun)
    requires d.bundle.None?
    ensures RuntimeWarningsOf(RuntimeReportToJson(d)) == if d.degraded then [Text(PreferredRoutesMissing)] else []
  {
    WarningsFrom(RuntimeReportToJson(d), if d.degraded then [Text(PreferredRoutesMissing)] else []);
  }

  lemma WarningsFrom(report: Object, texts: seq<string>)
    requires Get(report, BundleValidationWarnings) == Null && Get(report, DegradedBundleMode) == Null
    requires Get(report, DegradedModeReasons) == StrList(texts) && |texts| <= 1
    ensures RuntimeWarningsOf(report) == texts
  {
    FlatMapPair(ItemTexts(report), BundleValidationWarnings, DegradedModeReasons);
    TextsListed(texts);
    DedupOfDistinct(texts);
    assert [] + texts == texts && texts + [] == texts;
  }
}
