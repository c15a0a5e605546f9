/** What a pipeline run is given, and what its stages make of it. */
module PipelineInputs {
  import opened Base
  import opened JsonValues
  import opened RuntimePlan
  import opened RuntimeStage
  import opened PipelineRunner
  import Adapters
  import RollbackPlanner
  import PolicyEvaluator
  import PolicySimulator
  import Chain
  import EvidenceSource
  import EvidenceCheck

  datatype FileInput = NotGiven | NotAFile | File(bytes: Bytes)
  datatype BundleInput = NoBundle | NotADirectory | BundleDir(files: Directory)

  /** The bytes of the event traces the stages write: nothing reads them back. */
  datatype Traces = Traces(runtime: Bytes, adapter: Bytes, failure: Bytes, policy: Bytes)

  /** The command's paths, what they hold, and the faults of the outside world. */
  datatype Inputs = Inputs(
    profile: FileInput, bundle: BundleInput, scenario: FileInput, config: FileInput,
    pathsResolve: bool, outputInsideInput: bool,
    dryRunFault: Option<string>, evidenceFault: Option<string>, traces: Traces)

  /** `_validate_inputs` */
  function InputError(i: Inputs): Option<string> {
    if i.profile.NotGiven? == i.bundle.NoBundle? then Some("exactly_one_of_profile_or_bundle_required")
    else if i.profile.NotAFile? then Some("profile_path_must_be_file")
    else if i.bundle.NotADirectory? then Some("bundle_path_must_be_directory")
    else if i.scenario.NotAFile? then Some("failure_scenario_path_must_be_file")
    else if i.config.NotAFile? then Some("policy_config_path_must_be_file")
    else if !i.pathsResolve then Some("path_resolution_failed")
    else if i.outputInsideInput then Some("output_directory_must_not_be_inside_input_directory")
    else None
  }

  // ---- loading ----

  datatype Loading = LoadFailed(reason: string) | ProfileLoaded(profile: Object) | BundleLoaded(bundle: Bundle)

  /** The load at the start of a run. */
  function Load(w: World, i: Inputs): Loading {
    if i.profile.File? then
      var payload := w.parse(i.profile.bytes);
      if payload.None? then LoadFailed("input_load_failed:profile_invalid_json")
      else if !payload.value.Obj? then LoadFailed("input_load_failed:profile_root_must_be_object")
      else ProfileLoaded(payload.value.fields)
    else if i.bundle.BundleDir? then
      var bundle := LoadBundle(w, i.bundle.files);
      if bundle.Some? then BundleLoaded(bundle.value) else LoadFailed("input_load_failed:recovery_profile_invalid_json")
    else LoadFailed("input_load_failed:")
  }

  function ScenarioOf(w: World, f: FileInput): RollbackPlanner.ScenarioInput {
    match f
    case NotGiven => RollbackPlanner.NoScenario
    case NotAFile => RollbackPlanner.UnreadableScenario("scenario_not_readable")
    case File(bytes) =>
      var payload := w.parse(bytes);
      if payload.None? then RollbackPlanner.UnreadableScenario("scenario_invalid_json")
      else if !payload.value.Obj? then RollbackPlanner.UnreadableScenario("scenario_not_object")
      else RollbackPlanner.GivenScenario(payload.value.fields)
  }

  function ConfigOf(w: World, f: FileInput): PolicySimulator.ConfigInput {
    match f
    case NotGiven => PolicySimulator.NoConfig
    case NotAFile => PolicySimulator.UnreadableConfig("policy_config_not_readable")
    case File(bytes) =>
      var payload := w.parse(bytes);
      if payload.None? then PolicySimulator.UnreadableConfig("policy_config_invalid_json")
      else if !payload.value.Obj? then PolicySimulator.UnreadableConfig("policy_config_not_object")
      else PolicySimulator.GivenConfig(payload.value.fields)
  }

  function DryRunOf(l: Loading): DryRun {
    match l
    case ProfileLoaded(profile) => SimulatedProfile(profile)
    case BundleLoaded(bundle) => SimulatedBundle(bundle)
    case LoadFailed(_) => SimulatedProfile(map[])
  }

  // ---- the documents of a run ----

  datatype Documents = Documents(
    plan: Object, runtime: Object, adapter: Adapters.AdapterReport, failure: RollbackPlanner.RollbackReport,
    decision: PolicyEvaluator.Decision)

  /** Each stage works on the documents of the stages before it; writing and reading back is the identity. */
  function DocumentsOf(d: DryRun, scenario: RollbackPlanner.ScenarioInput,
                       config: PolicySimulator.ConfigInput): Documents {
    var plan := PlanToJson(d.plan);
    Documents(plan, RuntimeReportToJson(d), Adapters.SimulateReport(plan),
              RollbackPlanner.FailureReport(plan, scenario),
              Chain.PolicyOf(plan, scenario, config))
  }

  // ---- staging for evidence ----

  /** The files the runner copies for the evidence stage. */
  datatype Staged =
    | PlanStaged | RuntimeReportStaged | RuntimeEventsStaged | AdapterReportStaged | AdapterTraceStaged
    | FailureTraceStaged
    | RollbackPlanStaged | RollbackReportStaged | PolicyTraceStaged | PolicyDecisionStaged | PolicyReportStaged
    | ProfileStaged | SolverStaged | ValidationStaged | ComparisonStaged | PassportStaged

  function StagedName(s: Staged): string {
    match s
    case PlanStaged => EvidenceSource.PLAN_FILE
    case RuntimeReportStaged => EvidenceSource.RUNTIME_REPORT_FILE
    case RuntimeEventsStaged => "runtime_events.jsonl"
    case AdapterReportStaged => "adapter_report.json"
    case AdapterTraceStaged => "adapter_trace.jsonl"
    case FailureTraceStaged => "failure_trace.jsonl"
    case RollbackPlanStaged => "rollback_plan.json"
    case RollbackReportStaged => "rollback_report.json"
    case PolicyTraceStaged => "policy_trace.jsonl"
    case PolicyDecisionStaged => EvidenceSource.POLICY_DECISION_FILE
    case PolicyReportStaged => EvidenceSource.POLICY_REPORT_FILE
    case ProfileStaged => PROFILE_FILE
    case SolverStaged => SOLVER_FILE
    case ValidationStaged => VALIDATION_FILE
    case ComparisonStaged => COMPARISON_FILE
    case PassportStaged => PASSPORT_FILE
  }

  /** Enough of a name to tell it apart: its length, and its characters at 0 and 8. */
  function NameMark(s: Staged): (nat, char, char) {
    match s
    case PlanStaged => (17, 'r', 'p')
    case RuntimeReportStaged => (19, 'r', 'r')
    case RuntimeEventsStaged => (20, 'r', 'e')
    case AdapterReportStaged => (19, 'a', 'r')
    case AdapterTraceStaged => (19, 'a', 't')
    case FailureTraceStaged => (19, 'f', 't')
    case RollbackPlanStaged => (18, 'r', '_')
    case RollbackReportStaged => (20, 'r', '_')
    case PolicyTraceStaged => (18, 'p', 'r')
    case PolicyDecisionStaged => (20, 'p', 'e')
    case PolicyReportStaged => (18, 'p', 'e')
    case ProfileStaged => (21, 'r', '_')
    case SolverStaged => (18, 's', 'e')
    case ValidationStaged => (31, 'a', '_')
    case ComparisonStaged => (22, 'c', 'o')
    case PassportStaged => (24, 'f', 'a')
  }

  lemma MarkIsInName(s: Staged)
    ensures var t := StagedName(s); |t| > 8 && (|t|, t[0], t[8]) == NameMark(s)
  {
  }

  lemma StagedNamesDiffer(a: Staged, b: Staged)
    requires StagedName(a) == StagedName(b)
    ensures a == b
  {
    MarkIsInName(a);
    MarkIsInName(b);
  }

  /** The document a staged file holds, for the files a run writes as JSON. */
  function WrittenDocument(docs: Documents, s: Staged): Option<Object> {
    match s
    case PlanStaged => Some(docs.plan)
    case RuntimeReportStaged => Some(docs.runtime)
    case AdapterReportStaged => Some(Adapters.AdapterReportToJson(docs.adapter))
    case RollbackPlanStaged => Some(RollbackPlanner.RollbackPlanToJson(docs.failure))
    case RollbackReportStaged => Some(RollbackPlanner.RollbackReportToJson(docs.failure))
    case PolicyDecisionStaged => Some(PolicySimulator.DecisionToJson(docs.decision))
    case PolicyReportStaged => Some(PolicySimulator.PolicyReportToJson(docs.decision, docs.plan))
    case _ => None
  }

  function TraceBytes(t: Traces, s: Staged): Option<Bytes> {
    match s
    case RuntimeEventsStaged => Some(t.runtime)
    case AdapterTraceStaged => Some(t.adapter)
    case FailureTraceStaged => Some(t.failure)
    case PolicyTraceStaged => Some(t.policy)
    case _ => None
  }

  predicate FromInput(s: Staged) {
    s.ProfileStaged? || s.SolverStaged? || s.ValidationStaged? || s.ComparisonStaged? || s.PassportStaged?
  }

  /** Files copied from the input: the profile, or whichever bundle files are present. */
  function InputBytes(i: Inputs, s: Staged): Option<Bytes> {
    if s.ProfileStaged? && i.profile.File? then Some(i.profile.bytes)
    else if i.bundle.BundleDir? && FromInput(s) && StagedName(s) in i.bundle.files
      then Some(i.bundle.files[StagedName(s)])
    else None
  }

  function StagedBytes(w: World, i: Inputs, docs: Documents, s: Staged): Option<Bytes> {
    var written := WrittenDocument(docs, s);
    if written.Some? then Some(w.encode(Obj(written.value)))
    else if FromInput(s) then InputBytes(i, s)
    else TraceBytes(i.traces, s)
  }

  /** The order in which files are copied. */
  const COPY_ORDER: seq<Staged> :=
    [PlanStaged, RuntimeReportStaged, RuntimeEventsStaged, AdapterReportStaged, AdapterTraceStaged, FailureTraceStaged,
     RollbackPlanStaged, RollbackReportStaged, PolicyTraceStaged, PolicyDecisionStaged, PolicyReportStaged,
     ProfileStaged,
     SolverStaged, ValidationStaged, ComparisonStaged, PassportStaged]

  function CopyIfPresent(dir: Directory, name: string, bytes: Option<Bytes>): Directory {
    if bytes.Some? then dir[name := bytes.value] else dir
  }

  /** The first n copies. */
  function Copied(bytes: Staged -> Option<Bytes>, n: nat): Directory
    requires n <= |COPY_ORDER|
  {
    if n == 0 then map[]
    else CopyIfPresent(Copied(bytes, n - 1), StagedName(COPY_ORDER[n - 1]), bytes(COPY_ORDER[n - 1]))
  }

  /** The staging directory. */
  function Staging(w: World, i: Inputs, docs: Documents): Directory {
    Copied(s => StagedBytes(w, i, docs, s), |COPY_ORDER|)
  }

  /** Where a staged file comes in the copy order. */
  function Turn(s: Staged): (n: nat)
    ensures n < |COPY_ORDER| && COPY_ORDER[n] == s
  {
    match s
    case PlanStaged => 0
    case RuntimeReportStaged => 1
    case RuntimeEventsStaged => 2
    case AdapterReportStaged => 3
    case AdapterTraceStaged => 4
    case FailureTraceStaged => 5
    case RollbackPlanStaged => 6
    case RollbackReportStaged => 7
    case PolicyTraceStaged => 8
    case PolicyDecisionStaged => 9
    case PolicyReportStaged => 10
    case ProfileStaged => 11
    case SolverStaged => 12
    case ValidationStaged => 13
    case ComparisonStaged => 14
    case PassportStaged => 15
  }

  lemma TurnOf(n: nat)
    requires n < |COPY_ORDER|
    ensures Turn(COPY_ORDER[n]) == n
  {
  }

  /** Copying overwrites nothing: the directory holds exactly the present files, each under its own name. */
  lemma {:induction false} CopiedHolds(bytes: Staged -> Option<Bytes>, n: nat)
    requires n <= |COPY_ORDER|
    ensures forall s :: Turn(s) < n && bytes(s).Some? ==>
              StagedName(s) in Copied(bytes, n) && Copied(bytes, n)[StagedName(s)] == bytes(s).value
    ensures forall name :: name in Copied(bytes, n) ==>
            exists s :: StagedName(s) == name && bytes(s) == Some(Copied(bytes, n)[name])
  {
    hide StagedName, COPY_ORDER, Turn;
    if n > 0 {
      CopiedHolds(bytes, n - 1);
      var last := COPY_ORDER[n - 1];
      TurnOf(n - 1);
      forall s | Turn(s) < n && bytes(s).Some?
        ensures StagedName(s) in Copied(bytes, n) && Copied(bytes, n)[StagedName(s)] == bytes(s).value
      {
        if StagedName(s) == StagedName(last) { StagedNamesDiffer(s, last); }
        assert Turn(s) == n - 1 ==> s == COPY_ORDER[Turn(s)] == last;
      }
      forall name | name in Copied(bytes, n)
        ensures exists s :: StagedName(s) == name && bytes(s) == Some(Copied(bytes, n)[name]) {
        if name == StagedName(last) && bytes(last).Some? {
          assert bytes(last) == Some(Copied(bytes, n)[name]);
        } else {
          assert name in Copied(bytes, n - 1);
        }
      }
    }
  }

  /** Copies the files of a run, in order, into an empty directory. */
  method StageFiles(w: World, i: Inputs, docs: Documents) returns (dir: Directory)
    ensures dir == Staging(w, i, docs)
  {
    hide StagedBytes, StagedName;
    ghost var bytes := s => StagedBytes(w, i, docs, s);
    dir := map[];
    for n := 0 to |COPY_ORDER|
      invariant dir == Copied(bytes, n)
    {
      dir := CopyIfPresent(dir, StagedName(COPY_ORDER[n]), StagedBytes(w, i, docs, COPY_ORDER[n]));
    }
  }

  function EvidenceOf(w: World, i: Inputs, docs: Documents): EvidenceFacts {
    if i.evidenceFault.Some? then EvidenceBlocked("evidence_bundle_failed:" + i.evidenceFault.value)
    else
      var check := EvidenceCheck.CheckOf(w, EvidenceSource.Collect(Staging(w, i, docs), EvidenceSource.STANDARD),
                                         EvidenceSource.STANDARD);
      if EvidenceCheck.Passing(check.status)
      then EvidencePassed(EvidenceCheck.Each(x => EvidenceSource.WarningText(x), check.warnings))
      else EvidenceBlocked(EvidenceCheck.StatusText(check.status))
  }

  // ---- the facts of a run ----

  const NO_FACTS: Facts := Facts(None, None, None, None, [], None, [], None, None, [], EvidencePassed([]))

  function AdapterBlockOf(r: Adapters.AdapterReport): Option<string> {
    if Chain.AdapterBlocked(r.status) then Some(Adapters.AdapterStatusText(r.status)) else None
  }

  function FailureBlockOf(r: RollbackPlanner.RollbackReport): Option<string> {
    if Chain.FailureBlocked(r.status) then Some(RollbackPlanner.RollbackStatusText(r.status)) else None
  }

  function PolicyBlockOf(d: PolicyEvaluator.Decision): Option<string> {
    if Chain.PolicyBlocked(d.status) then Some(PolicyEvaluator.PolicyStateText(d.status)) else None
  }

  function StageFacts(docs: Documents, fault: Option<string>, evidence: EvidenceFacts): Facts {
    Facts(None, None, fault, RuntimeBlockOf(docs.runtime), RuntimeWarningsOf(docs.runtime),
          AdapterBlockOf(docs.adapter), docs.adapter.blockReasons, FailureBlockOf(docs.failure),
          PolicyBlockOf(docs.decision), docs.decision.warnings + docs.decision.warningInputs, evidence)
  }

  /** The documents of the run on these inputs. */
  function DocumentsOn(w: World, i: Inputs): Documents {
    DocumentsOf(DryRunOf(Load(w, i)), ScenarioOf(w, i.scenario), ConfigOf(w, i.config))
  }

  function LoadFault(l: Loading): Option<string> {
    match l case LoadFailed(reason) => Some(reason) case _ => None
  }

  /** What every stage reports on these inputs. */
  function FactsOf(w: World, i: Inputs): Facts {
    if InputError(i).Some? then NO_FACTS.(inputError := InputError(i))
    else if LoadFault(Load(w, i)).Some? then NO_FACTS.(loadError := LoadFault(Load(w, i)))
    else StageFacts(DocumentsOn(w, i), i.dryRunFault, EvidenceOf(w, i, DocumentsOn(w, i)))
  }

  /** The facts of an accepted and loaded input, field by field. */
  lemma FactsAgree(w: World, i: Inputs)
    ensures var f, docs := FactsOf(w, i), DocumentsOn(w, i);
      && f.inputError == InputError(i)
      && (InputError(i).None? ==> f.loadError == LoadFault(Load(w, i)))
      && (InputError(i).None? && LoadFault(Load(w, i)).None? ==>
            f == StageFacts(docs, i.dryRunFault, EvidenceOf(w, i, docs)))
  {
    hide EvidenceOf, DocumentsOn, Load, InputError, RuntimeBlockOf, RuntimeWarningsOf;
    hide AdapterBlockOf, FailureBlockOf, PolicyBlockOf;
  }
}
