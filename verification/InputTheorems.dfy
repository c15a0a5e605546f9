/** Which command inputs are refused and what is read from the files: profile, bundle, scenario and configuration. */
module InputTheorems {
  import opened Base
  import opened JsonValues
  import opened RuntimeStage
  import opened PipelineInputs
  import FailureInjector
  import Adapters
  import RollbackPlanner
  import PolicySimulator
  import Chain

  /** Exactly one of profile and bundle is given. */
  predicate OneInput(i: Inputs) {
    (i.profile.NotGiven? && !i.bundle.NoBundle?) || (!i.profile.NotGiven? && i.bundle.NoBundle?)
  }

  /** The inputs are accepted exactly when one of profile and bundle is given, every path given is of the right kind and
      resolves, and the output stays outside the input; and a refusal gives a reason that is true. */
  lemma InputRefusedExactly(i: Inputs)
    ensures InputError(i).None? <==>
            && OneInput(i) && !i.profile.NotAFile? && !i.bundle.NotADirectory? && !i.scenario.NotAFile?
            && !i.config.NotAFile? && i.pathsResolve && !i.outputInsideInput
    ensures match InputError(i)
            case None => true
            case Some(reason) =>
              && (!OneInput(i) <==> reason == "exactly_one_of_profile_or_bundle_required")
              && (reason == "profile_path_must_be_file" ==> i.profile.NotAFile?)
              && (reason == "bundle_path_must_be_directory" ==> i.bundle.NotADirectory?)
              && (reason == "failure_scenario_path_must_be_file" ==> i.scenario.NotAFile?)
              && (reason == "policy_config_path_must_be_file" ==> i.config.NotAFile?)
              && (reason == "path_resolution_failed" ==> !i.pathsResolve)
              && (reason == "output_directory_must_not_be_inside_input_directory" ==> i.outputInsideInput)
  {
    ReasonLengths();
  }

  lemma ReasonLengths()
    ensures |"exactly_one_of_profile_or_bundle_required"| == 41 && |"profile_path_must_be_file"| == 25
    ensures |"bundle_path_must_be_directory"| == 29 && |"failure_scenario_path_must_be_file"| == 34
    ensures |"policy_config_path_must_be_file"| == 31 && |"path_resolution_failed"| == 22
    ensures |"output_directory_must_not_be_inside_input_directory"| == 51
  {
  }

  /** The file holds this object. */
  ghost predicate Holds(w: World, f: FileInput, o: Object) {
    f.File? && w.parse(f.bytes) == Some(Obj(o))
  }

  /** Of an accepted input, a profile is loaded exactly when its file holds an object, which then is the profile; a
      bundle
      whenever its profile file is missing or holds one. */
  lemma LoadIsExact(w: World, i: Inputs)
    requires InputError(i).None?
    ensures forall p :: Load(w, i) == ProfileLoaded(p) <==> Holds(w, i.profile, p)
    ensures i.profile.File? ==>
              (Load(w, i).LoadFailed? <==> forall p :: !Holds(w, i.profile, p))
              && (Load(w, i) == LoadFailed("input_load_failed:profile_invalid_json") ==> w.parse(i.profile.bytes).None?)
              && (Load(w, i) == LoadFailed("input_load_failed:profile_root_must_be_object") ==>
                    w.parse(i.profile.bytes).Some?)
    ensures i.bundle.BundleDir? ==>
              (Load(w, i).LoadFailed? <==>
               PROFILE_FILE in i.bundle.files && forall p :: w.parse(i.bundle.files[PROFILE_FILE]) != Some(Obj(p)))
              && (Load(w, i).BundleLoaded? ==> LoadBundle(w, i.bundle.files) == Some(Load(w, i).bundle))
  {
    hide PROFILE_FILE, SOLVER_FILE, VALIDATION_FILE, COMPARISON_FILE, PASSPORT_FILE;
    LoadTextsDiffer();
    if i.profile.File? {
      var payload := w.parse(i.profile.bytes);
      if payload.Some? && payload.value.Obj? { assert Holds(w, i.profile, payload.value.fields); }
    }
  }

  lemma LoadTextsDiffer()
    ensures |"input_load_failed:profile_invalid_json"| == 38 && |"input_load_failed:profile_root_must_be_object"| == 45
  {
  }

  /** The artifact is what its file holds, absent without a file. */
  ghost predicate ArtifactHolds(w: World, dir: Directory, name: string, a: Artifact) {
    match a
    case Absent => name !in dir
    case Undecodable => name in dir && forall o :: w.parse(dir[name]) != Some(Obj(o))
    case Given(payload) => name in dir && w.parse(dir[name]) == Some(Obj(payload))
  }

  /** A loaded bundle holds the five artifacts of its directory. */
  ghost predicate BundleHolds(w: World, dir: Directory, b: Bundle) {
    && (b.profile.None? ==> ArtifactHolds(w, dir, "recovery_profile.json", Absent))
    && (b.profile.Some? ==> ArtifactHolds(w, dir, "recovery_profile.json", Given(b.profile.value)))
    && ArtifactHolds(w, dir, "solver_report.json", b.solver)
    && ArtifactHolds(w, dir, "artifact_validation_report.json", b.validation)
    && ArtifactHolds(w, dir, "comparison_report.json", b.comparison)
    && ArtifactHolds(w, dir, "functional_passport.json", b.passport)
  }

  lemma ArtifactRead(w: World, dir: Directory, name: string)
    ensures ArtifactHolds(w, dir, name, ArtifactIn(w, dir, name))
  {
  }

  lemma BundleLoadIsExact(w: World, dir: Directory)
    ensures match LoadBundle(w, dir)
            case Some(b) => BundleHolds(w, dir, b)
            case None => ArtifactHolds(w, dir, "recovery_profile.json", Undecodable)
  {
    hide ArtifactHolds, ArtifactIn;
    ArtifactRead(w, dir, PROFILE_FILE);
    ArtifactRead(w, dir, SOLVER_FILE);
    ArtifactRead(w, dir, VALIDATION_FILE);
    ArtifactRead(w, dir, COMPARISON_FILE);
    ArtifactRead(w, dir, PASSPORT_FILE);
  }

  /** No scenario is the default one; a given file must hold an acceptable scenario. */
  lemma ScenarioReadExactly(w: World, f: FileInput)
    ensures Chain.ScenarioInputAccepted(ScenarioOf(w, f)) <==>
            f.NotGiven? || exists raw :: Holds(w, f, raw) && FailureInjector.ScenarioAccepted(raw)
    ensures forall raw :: ScenarioOf(w, f) == RollbackPlanner.GivenScenario(raw) <==> Holds(w, f, raw)
    ensures f.NotGiven? <==> ScenarioOf(w, f).NoScenario?
  {
    hide FailureInjector.ScenarioAccepted;
    if f.File? && w.parse(f.bytes).Some? && w.parse(f.bytes).value.Obj? {
      assert Holds(w, f, w.parse(f.bytes).value.fields);
    }
  }

  /** No configuration is the default one; a given file must hold an acceptable configuration. */
  lemma ConfigReadExactly(w: World, f: FileInput)
    ensures PolicySimulator.ConfigInputAccepted(ConfigOf(w, f)) <==>
            f.NotGiven? || exists raw :: Holds(w, f, raw) && PolicySimulator.ConfigAccepted(raw)
    ensures forall raw :: ConfigOf(w, f) == PolicySimulator.GivenConfig(raw) <==> Holds(w, f, raw)
    ensures f.NotGiven? <==> ConfigOf(w, f).NoConfig?
  {
    hide PolicySimulator.ConfigAccepted;
    if f.File? && w.parse(f.bytes).Some? && w.parse(f.bytes).value.Obj? {
      assert Holds(w, f, w.parse(f.bytes).value.fields);
    }
  }

  // ---- what is staged for evidence ----

  lemma StagedIsHeld(w: World, i: Inputs, docs: Documents, s: Staged)
    requires StagedBytes(w, i, docs, s).Some?
    ensures StagedName(s) in Staging(w, i, docs)
    ensures Staging(w, i, docs)[StagedName(s)] == StagedBytes(w, i, docs, s).value
  {
    hide StagedBytes, StagedName, COPY_ORDER, Turn;
    CopiedHolds(x => StagedBytes(w, i, docs, x), |COPY_ORDER|);
    assert Turn(s) < |COPY_ORDER|;
  }

  /** The directory holds these bytes under this name. */
  predicate HeldAs(dir: Directory, name: string, bytes: Bytes) {
    name in dir && dir[name] == bytes
  }

  /** The documents of the simulation are staged under their names. */
  lemma SimulationIsStaged(w: World, i: Inputs, docs: Documents)
    ensures var dir := Staging(w, i, docs);
      && HeldAs(dir, "runtime_plan.json", w.encode(Obj(docs.plan)))
      && HeldAs(dir, "runtime_report.json", w.encode(Obj(docs.runtime)))
      && HeldAs(dir, "adapter_report.json", w.encode(Obj(Adapters.AdapterReportToJson(docs.adapter))))
  {
    hide Staging, Adapters.AdapterReportToJson;
    StagedIsHeld(w, i, docs, PlanStaged);
    StagedIsHeld(w, i, docs, RuntimeReportStaged);
    StagedIsHeld(w, i, docs, AdapterReportStaged);
  }

  /** So are those of the rollback and the policy. */
  lemma DecisionsAreStaged(w: World, i: Inputs, docs: Documents)
    ensures var dir := Staging(w, i, docs);
      && HeldAs(dir, "rollback_plan.json", w.encode(Obj(RollbackPlanner.RollbackPlanToJson(docs.failure))))
      && HeldAs(dir, "rollback_report.json", w.encode(Obj(RollbackPlanner.RollbackReportToJson(docs.failure))))
      && HeldAs(dir, "policy_decision.json", w.encode(Obj(PolicySimulator.DecisionToJson(docs.decision))))
      && HeldAs(dir, "policy_report.json", w.encode(Obj(PolicySimulator.PolicyReportToJson(docs.decision, docs.plan))))
  {
    hide Staging, RollbackPlanner.RollbackPlanToJson, RollbackPlanner.RollbackReportToJson;
    hide PolicySimulator.DecisionToJson, PolicySimulator.PolicyReportToJson;
    StagedIsHeld(w, i, docs, RollbackPlanStaged);
    StagedIsHeld(w, i, docs, RollbackReportStaged);
    StagedIsHeld(w, i, docs, PolicyDecisionStaged);
    StagedIsHeld(w, i, docs, PolicyReportStaged);
  }

  /** And the four traces. */
  lemma TracesAreStaged(w: World, i: Inputs, docs: Documents)
    ensures var dir := Staging(w, i, docs);
      && HeldAs(dir, "runtime_events.jsonl", i.traces.runtime) && HeldAs(dir, "adapter_trace.jsonl", i.traces.adapter)
      && HeldAs(dir, "failure_trace.jsonl", i.traces.failure) && HeldAs(dir, "policy_trace.jsonl", i.traces.policy)
  {
    hide Staging;
    StagedIsHeld(w, i, docs, RuntimeEventsStaged);
    StagedIsHeld(w, i, docs, AdapterTraceStaged);
    StagedIsHeld(w, i, docs, FailureTraceStaged);
    StagedIsHeld(w, i, docs, PolicyTraceStaged);
  }
}
