/** What the runtime stage says of a bundle: its status, the reasons for it, and what a run on it warns of. */
module RuntimeTheorems {
  import opened Base
  import opened JsonValues
  import opened Reasons
  import opened SafetyGate
  import opened PlanBuilder
  import opened RuntimeStage

  predicate SomeUndecodable(b: Bundle) {
    b.solver.Undecodable? || b.validation.Undecodable? || b.comparison.Undecodable? || b.passport.Undecodable?
  }

  ghost predicate AllAbout(b: Bundle, profile: Object) {
    && AboutProfile(b.solver, profile) && AboutProfile(b.validation, profile) && AboutProfile(b.comparison, profile)
    && AboutProfile(b.passport, profile)
  }

  predicate SomeAbsent(b: Bundle) {
    b.solver.Absent? || b.validation.Absent? || b.comparison.Absent? || b.passport.Absent?
  }

  predicate Says(a: Artifact, f: Field, value: Json) {
    match a case Given(payload) => f in payload && payload[f] == value case _ => false
  }

  /** What an accepted bundle must not report, artifact by artifact. */
  predicate ValidationFails(b: Bundle) {
    Says(b.validation, ArtifactValidationPassed, Bool(false)) || Says(b.validation, ValidationStatus, Str("failed"))
  }

  predicate SolverFails(b: Bundle) {
    Says(b.solver, SolverStatus, Str("failed")) || Says(b.solver, SolverStatus, Str("infeasible"))
  }

  predicate ComparisonFails(b: Bundle) {
    Says(b.comparison, ComparisonStatus, Str("failed"))
  }

  predicate PassportFails(b: Bundle) {
    Says(b.passport, PassportStatus, Str("failed")) || Says(b.passport, DecisionReadiness, Str("not_ready"))
  }

  /** The status of a bundle is the first thing wrong with it. */
  lemma BundleStatusIsExact(b: Bundle)
    ensures ValidateBundle(b).status ==
      if b.profile.None? then NoProfile
      else if SomeUndecodable(b) then ArtifactUndecodable
      else if !AllAbout(b, b.profile.value) then ProfileIdsDiffer
      else if ValidationFails(b) then ValidationFailed
      else if SolverFails(b) then SolverFailed
      else if ComparisonFails(b) then ComparisonFailed
      else if PassportFails(b) then PassportNotReady
      else if SomeAbsent(b) then ArtifactsMissing
      else if Says(b.solver, SolverStatus, Str("degraded")) then SolverDegraded
      else ValidBundle
  {
    hide FlatMap, PyEq, AboutProfile, LoadError, IdMismatch, MissingArtifact, ListedTexts, Supporting;
    NoLoadErrorExactly(b);
    NothingAbsentExactly(b);
    if b.profile.Some? {
      NoMismatchExactly(b, b.profile.value);
    }
  }

  lemma SupportingAre(b: Bundle)
    ensures forall e :: e in Supporting(b) <==>
              || e == ("solver_report.json", "solver_report", b.solver)
              || e == ("artifact_validation_report.json", "artifact_validation_report", b.validation)
              || e == ("comparison_report.json", "comparison_report", b.comparison)
              || e == ("functional_passport.json", "functional_passport", b.passport)
  {
    var s := Supporting(b);
    assert s[0] in s && s[1] in s && s[2] in s && s[3] in s;
  }

  /** The reasons of a refused or degraded bundle name exactly the artifacts that are undecodable, about another
      profile,
      or absent. */
  lemma BundleReasonsAreExact(b: Bundle)
    ensures var v := ValidateBundle(b);
      && (v.status == ArtifactUndecodable ==>
            forall t :: t in v.reasons <==>
              exists e :: e in Supporting(b) && e.2.Undecodable? && t == e.1 + "_invalid_json")
      && (v.status == ProfileIdsDiffer ==>
            forall t :: t in v.reasons <==>
              exists e :: (e in Supporting(b) && !AboutProfile(e.2, b.profile.value)
                           && t == "profile_id_mismatch:" + e.0))
      && (v.status == ArtifactsMissing ==>
            forall t :: t in v.reasons <==>
              exists e :: e in Supporting(b) && e.2.Absent? && t == "missing_artifact:" + e.0)
      && (v.status == NoProfile ==> v.reasons == ["recovery_profile_missing"])
      && (v.status == ValidationFailed ==> v.reasons == ["artifact_validation_failed"])
      && (v.status == SolverFailed ==> v.reasons == ["solver_failed"])
      && (v.status == ComparisonFailed ==> v.reasons == ["comparison_failed"])
      && (v.status == PassportNotReady ==> v.reasons == ["functional_passport_not_ready"])
      && (v.status == SolverDegraded ==> v.reasons == ["solver_degraded"])
      && (v.status == ValidBundle ==> v.reasons == [])
  {
    hide FlatMap, PyEq, Supporting, ListedTexts, States;
    FlatMapContains(LoadError(), Supporting(b));
    FlatMapContains(MissingArtifact(), Supporting(b));
    if b.profile.Some? {
      var id := Get(b.profile.value, ProfileId);
      FlatMapContains(IdMismatch(if id.Str? then id else Null), Supporting(b));
    }
  }

  /** A passing bundle hands on the comparison's warnings, any other none. */
  lemma BundleWarningsAreExact(b: Bundle)
    ensures ValidateBundle(b).warnings == if Acceptable(b) then ComparisonWarningsOf(b.comparison) else []
  {
    hide FlatMap, PyEq, AboutProfile, LoadError, IdMismatch, MissingArtifact, ListedTexts, Supporting, States,
    Acceptable;
    BundlePassesExactly(b);
  }

  ghost predicate ComparisonWarns(b: Bundle, text: string) {
    exists i :: 0 <= i < |Warned(b)| && PyStr(Warned(b)[i]) == text
  }

  /** The warnings the comparison lists. */
  function Warned(b: Bundle): seq<Json> {
    match b.comparison
    case Given(payload) => (match Get(payload, ComparisonWarnings) case List(items) => items case _ => [])
    case _ => []
  }

  lemma ComparisonTexts(b: Bundle)
    ensures forall t :: t in ComparisonWarningsOf(b.comparison) <==> ComparisonWarns(b, t)
  {
    hide PyStr;
    var texts, items := ComparisonWarningsOf(b.comparison), Warned(b);
    assert |texts| == |items| && forall i :: 0 <= i < |items| ==> texts[i] == PyStr(items[i]);
  }

  lemma RunWarnings(report: Object, listed: seq<string>, degraded: seq<string>, mode: bool)
    requires Get(report, BundleValidationWarnings) == StrList(listed)
    requires Get(report, DegradedModeReasons) == StrList(degraded) && Get(report, DegradedBundleMode) == Bool(mode)
    ensures NoDuplicates(RuntimeWarningsOf(report))
    ensures forall t :: t in RuntimeWarningsOf(report) <==>
                        t in listed || t in degraded || (mode && t == "degraded_bundle_mode")
  {
    FlatMapPair(ItemTexts(report), BundleValidationWarnings, DegradedModeReasons);
    TextsListed(listed);
    TextsListed(degraded);
    var flag := if mode then ["degraded_bundle_mode"] else [];
    DedupIsDistinct(listed + degraded + flag);
    assert RuntimeWarningsOf(report) == Dedup(listed + degraded + flag);
  }

  /** What a bundle run warns of, each once: the comparison's warnings, missing preferred routes behind a passed gate,
      and
      the bundle's own degradation. A refused bundle warns of nothing. */
  lemma BundleRunWarnings(b: Bundle)
    ensures var w := RuntimeWarningsOf(RuntimeReportToJson(SimulatedBundle(b)));
      && NoDuplicates(w)
      && forall t :: t in w <==>
           && Acceptable(b)
           && (|| ComparisonWarns(b, t)
               || (t == "preferred_routes_missing" && Gate(b.profile.value).passed
                   && PreferredRoutes !in b.profile.value)
               || (t == "degraded_bundle_mode" && (SomeAbsent(b) || Says(b.solver, SolverStatus, Str("degraded")))))
  {
    hide Gate, PlanOf, ValidateBundle, Acceptable, ComparisonWarningsOf, ComparisonWarns, RuntimeWarningsOf, States;
    hide SomeAbsent, RuntimeReportToJson, SimulatedBundle;
    BundlePassesExactly(b);
    BundleWarningsAreExact(b);
    ComparisonTexts(b);
    ReportSays(b);
    var v := ValidateBundle(b);
    RunWarnings(RuntimeReportToJson(SimulatedBundle(b)), v.warnings, DegradedReasons(b), v.status.Degraded());
    DegradedExactly(b);
  }

  function DegradedReasons(b: Bundle): seq<string> {
    if SimulatedBundle(b).degraded then ["preferred_routes_missing"] else []
  }

  lemma ReportSays(b: Bundle)
    ensures var v, report := ValidateBundle(b), RuntimeReportToJson(SimulatedBundle(b));
      && Get(report, BundleValidationWarnings) == StrList(v.warnings)
      && Get(report, DegradedModeReasons) == StrList(DegradedReasons(b))
      && Get(report, DegradedBundleMode) == Bool(v.status.Degraded())
  {
    hide Gate, PlanOf, ValidateBundle, BasePlan;
  }

  lemma DegradedExactly(b: Bundle)
    ensures SimulatedBundle(b).degraded <==>
            Acceptable(b) && Gate(b.profile.value).passed && PreferredRoutes !in b.profile.value
    ensures ValidateBundle(b).status.Degraded() ==> Acceptable(b)
    ensures Acceptable(b) ==> (ValidateBundle(b).status.Degraded() <==>
                               SomeAbsent(b) || Says(b.solver, SolverStatus, Str("degraded")))
    ensures Acceptable(b) ==> b.profile.Some?
  {
    hide PlanOf, ValidateBundle, BasePlan, GateFailures;
    BundlePassesExactly(b);
  }

  /** The report of a profile's dry run states the gate's outcome and what the profile itself states. */
  lemma ReportShowsProfile(profile: Object)
    ensures var report := RuntimeReportToJson(SimulatedProfile(profile));
      && Get(report, SafetyGatePassed) == Bool(Gate(profile).passed)
      && Get(report, HardwareControlEnabled) == Bool(Get(profile, HardwareControlEnabled) != Bool(false))
      && Get(report, HumanReviewRequired) == Bool(Get(profile, HumanReviewRequired) == Bool(true))
      && (forall claim :: Get(report, ClaimBoundary) == Str(claim) <==> Get(profile, ClaimBoundary) == Str(claim))
      && BundleValidationPassed !in report
  {
    hide Gate, AllRecords, Select;
  }
}
