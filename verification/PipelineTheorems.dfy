/** What holds of every pipeline run from its inputs, and exactly when a run blocks. */
module PipelineTheorems {
  import opened Base
  import opened JsonValues
  import opened SafetyGate
  import opened PlanBuilder
  import opened RuntimePlan
  import opened RuntimeStage
  import opened PipelineReport
  import opened PipelineRunner
  import opened RunTheorems
  import opened RunReportTheorems
  import opened PipelineInputs
  import opened EvidenceStageTheorems
  import EvidenceSource
  import EvidenceCheck
  import Adapters
  import FailureInjector
  import RollbackPlanner
  import PolicySimulator
  import Chain

  // ---- the adapter stage never blocks ----

  /** Only refused plans block the adapter stage. */
  lemma AdapterBlocksExactly(plan: Object)
    ensures AdapterBlockOf(Adapters.SimulateReport(plan)).None? <==> Validation(plan).SafetyPassed()
  {
    hide Validation, Adapters.AdapterStatusText;
    Chain.AdapterBlocksOnlyRefusedPlans(plan);
  }

  /** The profile a run plans from. */
  function LoadedProfile(l: Loading): Object {
    match l
    case ProfileLoaded(profile) => profile
    case BundleLoaded(bundle) => (match bundle.profile case Some(profile) => profile case None => map[])
    case LoadFailed(_) => map[]
  }

  /** A dry run whose gate passed plans what its profile plans. */
  ghost predicate Planned(d: DryRun, profile: Object) {
    d.gatePassed ==> Gate(profile).passed && d.plan == PlanOf(profile) && d.degraded == Gate(profile).degraded
  }

  lemma BundleDryRunIsPlanned(b: Bundle)
    ensures Planned(SimulatedBundle(b), LoadedProfile(BundleLoaded(b)))
    ensures b.profile.Some? && SimulatedBundle(b).gatePassed ==> Acceptable(b)
  {
    hide Gate, PlanOf, Acceptable, ValidateBundle;
    BundlePassesExactly(b);
  }

  lemma LoadedRunsArePlanned(l: Loading)
    requires !l.LoadFailed?
    ensures Planned(DryRunOf(l), LoadedProfile(l))
    ensures RuntimeBlockOf(RuntimeReportToJson(DryRunOf(l))).None? <==> DryRunOf(l).gatePassed
  {
    hide Gate, PlanOf, RuntimeReportToJson, RuntimeBlockOf, ValidateBundle;
    match l {
      case ProfileLoaded(p) =>
        RuntimeBlocksExactly(SimulatedProfile(p));
      case BundleLoaded(b) =>
        BundleDryRunIsPlanned(b);
        BundleDryRunIsGated(b);
        RuntimeBlocksExactly(SimulatedBundle(b));
    }
  }

  lemma PassedGateUnblocksAdapter(d: DryRun, profile: Object)
    requires Planned(d, profile) && d.gatePassed
    ensures AdapterBlockOf(Adapters.SimulateReport(PlanToJson(d.plan))).None?
  {
    hide Gate, PlanOf, PlanToJson, Validation, Adapters.SimulateReport, AdapterBlockOf;
    PassedGateBuildsAcceptedPlan(profile);
    AdapterBlocksExactly(PlanToJson(d.plan));
  }

  /** The inputs are accepted and their profile or bundle loads. */
  predicate Loads(w: World, i: Inputs) {
    InputError(i).None? && !Load(w, i).LoadFailed?
  }

  /** What the first two stages say about a loaded input. */
  lemma LoadedFacts(w: World, i: Inputs)
    requires Loads(w, i)
    ensures FactsOf(w, i) == StageFacts(DocumentsOn(w, i), i.dryRunFault, EvidenceOf(w, i, DocumentsOn(w, i)))
    ensures RuntimeBlockOf(DocumentsOn(w, i).runtime).None? <==> DryRunOf(Load(w, i)).gatePassed
    ensures DryRunOf(Load(w, i)).gatePassed ==> AdapterBlockOf(DocumentsOn(w, i).adapter).None?
  {
    hide EvidenceOf, DryRunOf, RuntimeReportToJson, RuntimeBlockOf, RuntimeWarningsOf, PlanToJson, Load, InputError;
    hide Adapters.SimulateReport, AdapterBlockOf, LoadedProfile, Planned;
    hide RollbackPlanner.FailureReport, Chain.PolicyOf, ScenarioOf, ConfigOf, FailureBlockOf, PolicyBlockOf, StageFacts;
    FactsAgree(w, i);
    LoadedRunsArePlanned(Load(w, i));
    if DryRunOf(Load(w, i)).gatePassed {
      PassedGateUnblocksAdapter(DryRunOf(Load(w, i)), LoadedProfile(Load(w, i)));
    }
  }

  /** On no input does the adapter stage block: its fall-through branch is unreachable. */
  lemma AdapterNeverStops(w: World, i: Inputs, flags: Flags)
    ensures !AdapterStops(FactsOf(w, i), flags)
  {
    hide FactsOf, Load, InputError, DocumentsOn, EvidenceOf, AdapterBlockOf, FailureBlockOf, PolicyBlockOf, DryRunOf;
    hide RuntimeBlockOf, RuntimeWarningsOf;
    FactsAgree(w, i);
    if Loads(w, i) {
      LoadedFacts(w, i);
    }
  }

  ghost predicate RespectsDependencies(r: RunResult) {
    DependencySafe(Normalize(r.stages))
  }

  /** Dependency safety over all runs: every stage that ran has its declared dependencies done, at most one stage
      stopped, and every later stage except the report is skipped. */
  lemma EveryRunRespectsDependencies(w: World, i: Inputs, flags: Flags)
    ensures RespectsDependencies(RunOf(FactsOf(w, i), flags))
  {
    hide FactsOf, RunOf, DependencySafe, AdapterStops, Normalize;
    AdapterNeverStops(w, i, flags);
    DependenciesRespectedExactly(FactsOf(w, i), flags);
  }

  /** The terminal state is that of a run with this ending. */
  ghost predicate EndsFaithfully(r: RunResult, e: Ending, raised: bool) {
    FaithfulTerminal(r.exitCode, Normalize(r.stages), ReportOf(r).terminal, e.done, e.done == 1 && raised)
  }

  /** On every run the terminal state is faithful: it names the unique stopped stage, or the report when the dry run
      raised. */
  lemma EveryRunEndsFaithfully(w: World, i: Inputs, flags: Flags)
    ensures var f := FactsOf(w, i); EndsFaithfully(RunOf(f, flags), EndsAt(f, flags), f.dryRunError.Some?)
  {
    hide FactsOf, RunOf, AdapterStops, EndsAt, FaithfulTerminal, ReportOf, Normalize;
    AdapterNeverStops(w, i, flags);
    TerminalStateIsFaithful(FactsOf(w, i), flags);
  }

  ghost predicate ReportsConsistently(r: RunResult) {
    var report := ReportOf(r);
    var c := report.counts;
    && c.completed + c.withWarnings + c.skipped + c.blocked + c.failed == 7 == c.total
    && report.consistency.AllTrue()
  }

  /** On every run the stage counts sum to seven and all consistency checks of the report hold. */
  lemma EveryReportIsConsistent(w: World, i: Inputs, flags: Flags)
    ensures ReportsConsistently(RunOf(FactsOf(w, i), flags))
  {
    hide FactsOf, RunOf, AdapterStops, ReportOf;
    AdapterNeverStops(w, i, flags);
    RunReportIsConsistent(FactsOf(w, i), flags);
  }

  // ---- when a run blocks ----

  lemma FailureBlocksExactly(plan: Object, scenario: RollbackPlanner.ScenarioInput)
    requires Validation(plan).SafetyPassed()
    ensures FailureBlockOf(RollbackPlanner.FailureReport(plan, scenario)).None? <==>
            Chain.ScenarioInputAccepted(scenario)
  {
    hide Validation, RollbackPlanner.FailureReport, RollbackPlanner.RollbackStatusText, Chain.ScenarioInputAccepted;
    Chain.FailureStageOutcome(plan, scenario);
    if Chain.ScenarioInputAccepted(scenario) {
      Chain.StageReportFacts(plan, scenario);
    }
  }

  lemma RefusedConfigBlocks(plan: Object, scenario: RollbackPlanner.ScenarioInput, config: PolicySimulator.ConfigInput)
    requires Validation(plan).SafetyPassed() && !PolicySimulator.ConfigInputAccepted(config)
    ensures Chain.PolicyBlocked(Chain.PolicyOf(plan, scenario, config).status)
  {
    hide Validation, Adapters.SimulateReport, RollbackPlanner.FailureReport, PolicySimulator.ConfigInputAccepted;
    hide PolicySimulator.PolicyOutcome;
    hide Adapters.AdapterReportToJson, RollbackPlanner.RollbackReportToJson;
    Chain.AdapterReportPasses(Adapters.SimulateReport(plan));
    Chain.RollbackReportPasses(RollbackPlanner.FailureReport(plan, scenario));
    PolicySimulator.AcceptedInputsReachEvaluator(plan, config, Chain.AdapterDoc(plan),
                                                 Chain.RollbackDoc(plan, scenario));
  }

  lemma PolicyBlocksExactly(plan: Object, scenario: RollbackPlanner.ScenarioInput, config: PolicySimulator.ConfigInput)
    requires Chain.GatedPlan(plan) && Chain.ScenarioInputAccepted(scenario)
    ensures PolicyBlockOf(Chain.PolicyOf(plan, scenario, config)).None? <==> PolicySimulator.ConfigInputAccepted(config)
  {
    hide Chain.PolicyOf, PolicySimulator.ConfigInputAccepted, Validation, Chain.PolicyBlocked;
    hide Chain.ScenarioInputAccepted;
    hide Chain.DegradedStatus, Chain.PolicyOn;
    if PolicySimulator.ConfigInputAccepted(config) {
      Chain.PolicyClosedFormOnPlans(plan, scenario, config);
    } else {
      RefusedConfigBlocks(plan, scenario, config);
    }
  }

  /** What the gate asks of a loaded input: a conforming profile, and around it an acceptable bundle. */
  ghost predicate GateAsks(l: Loading) {
    (l.BundleLoaded? ==> Acceptable(l.bundle)) && Conforms(LoadedProfile(l))
  }

  lemma GatePassesExactly(l: Loading)
    requires !l.LoadFailed?
    ensures DryRunOf(l).gatePassed <==> GateAsks(l)
  {
    hide Gate, PlanOf, Acceptable, Conforms, ValidateBundle;
    GatePassesExactlyConforming(LoadedProfile(l));
    if l.BundleLoaded? {
      BundlePassesExactly(l.bundle);
      AcceptableHasProfile(l.bundle);
    }
  }

  lemma AcceptableHasProfile(b: Bundle)
    ensures Acceptable(b) ==> b.profile.Some?
  {
  }

  /** What one staged file of an accepted bundle holds. */
  lemma BundleFileDecodes(w: World, dir: EvidenceSource.Directory, b: Bundle, s: Staged)
    requires LoadBundle(w, dir) == Some(b) && Acceptable(b) && FromInput(s) && StagedName(s) in dir
    ensures Decoded(w, Some(dir[StagedName(s)])).Some?
    ensures s.ProfileStaged? ==> Decoded(w, Some(dir[StagedName(s)])) == b.profile
  {
    hide PROFILE_FILE, SOLVER_FILE, VALIDATION_FILE, COMPARISON_FILE, PASSPORT_FILE, AboutProfile;
    var all := [b.solver, b.validation, b.comparison, b.passport];
    assert all[0] in all && all[1] in all && all[2] in all && all[3] in all;
  }

  /** The staged input files of a run whose gate passed hold objects. */
  lemma LoadedInputsDecode(w: World, i: Inputs)
    requires Loads(w, i) && GateAsks(Load(w, i))
    ensures InputsDecode(w, i, LoadedProfile(Load(w, i)))
  {
    hide LoadBundle, Acceptable, Conforms, StagedName, Decoded;
    var l := Load(w, i);
    if i.profile.File? {
      assert Decoded(w, Some(i.profile.bytes)) == Some(LoadedProfile(l)) by { ProfileDecodes(w, i); }
    } else {
      AcceptableHasProfile(l.bundle);
      forall s | FromInput(s) && StagedName(s) in i.bundle.files
        ensures Decoded(w, Some(i.bundle.files[StagedName(s)])).Some?
        ensures s.ProfileStaged? ==> Decoded(w, Some(i.bundle.files[StagedName(s)])) == Some(LoadedProfile(l))
      {
        BundleFileDecodes(w, i.bundle.files, l.bundle, s);
      }
    }
  }

  lemma ProfileDecodes(w: World, i: Inputs)
    requires Loads(w, i) && i.profile.File?
    ensures Decoded(w, Some(i.profile.bytes)) == Some(LoadedProfile(Load(w, i)))
  {
    hide InputError;
  }

  /** Why a run blocks: an input error, a fault of the dry run or of the evidence builder, or what a stage finds. */
  ghost predicate MustBlock(w: World, i: Inputs, noEvidence: bool) {
    || !Loads(w, i)
    || i.dryRunFault.Some?
    || !GateAsks(Load(w, i))
    || !Chain.ScenarioInputAccepted(ScenarioOf(w, i.scenario))
    || !PolicySimulator.ConfigInputAccepted(ConfigOf(w, i.config))
    || (!noEvidence && (i.evidenceFault.Some?
                        || !EvidenceHolds(w, i, DocumentsOn(w, i), Get(LoadedProfile(Load(w, i)), ProfileId))))
  }

  ghost predicate StageStops(f: Facts, noEvidence: bool) {
    || f.inputError.Some? || f.loadError.Some? || f.dryRunError.Some?
    || f.runtimeBlock.Some? || f.adapterBlock.Some? || f.failureBlock.Some? || f.policyBlock.Some?
    || (!noEvidence && f.evidence.EvidenceBlocked?)
  }

  lemma StopsExactly(f: Facts, noEvidence: bool)
    ensures EndsAt(f, Flags(false, noEvidence)).stopped <==> StageStops(f, noEvidence)
  {
  }

  /** Each stage of a loaded run, after the ones before it let the run pass. */
  lemma StagesBlockExactly(w: World, i: Inputs, d: DryRun, profile: Object, scenario: RollbackPlanner.ScenarioInput,
                           config: PolicySimulator.ConfigInput)
    requires Planned(d, profile) && d.gatePassed
    ensures var docs := DocumentsOf(d, scenario, config);
      && (FailureBlockOf(docs.failure).None? <==> Chain.ScenarioInputAccepted(scenario))
      && (Chain.ScenarioInputAccepted(scenario) ==>
            (PolicyBlockOf(docs.decision).None? <==> PolicySimulator.ConfigInputAccepted(config)))
      && GatedDocuments(docs, d, profile)
  {
    hide Gate, PlanOf, PlanToJson, RuntimeReportToJson, FailureBlockOf, PolicyBlockOf, GatedDocuments;
    hide Adapters.SimulateReport, RollbackPlanner.FailureReport, Chain.PolicyOf, Validation;
    hide Chain.ScenarioInputAccepted, PolicySimulator.ConfigInputAccepted;
    var plan := PlanToJson(d.plan);
    PassedGateBuildsAcceptedPlan(profile);
    FailureBlocksExactly(plan, scenario);
    Chain.PassedGateGivesGatedPlan(profile);
    if Chain.ScenarioInputAccepted(scenario) {
      PolicyBlocksExactly(plan, scenario, config);
    }
    DocumentsAreGated(d, profile, scenario, config);
  }

  lemma EvidenceOutcome(w: World, i: Inputs, docs: Documents, d: DryRun, profile: Object)
    requires WrittenReadBack(w, docs) && InputsDecode(w, i, profile) && GatedDocuments(docs, d, profile)
    ensures EvidenceOf(w, i, docs).EvidencePassed? <==>
            i.evidenceFault.None? && EvidenceHolds(w, i, docs, Get(profile, ProfileId))
  {
    hide WrittenReadBack, InputsDecode, GatedDocuments, EvidenceHolds, EvidenceCheck.CheckOf, EvidenceSource.Collect;
    hide Staging, EvidenceCheck.StatusText;
    EvidencePassesExactly(w, i, docs, d, profile);
  }

  /** The documents a loaded run writes read back. */
  ghost predicate RunReadsBack(w: World, i: Inputs) {
    Loads(w, i) ==> WrittenReadBack(w, DocumentsOn(w, i))
  }

  lemma FactsStopExactly(w: World, i: Inputs, noEvidence: bool)
    requires RunReadsBack(w, i)
    ensures StageStops(FactsOf(w, i), noEvidence) <==> MustBlock(w, i, noEvidence)
  {
    hide FactsOf, EvidenceOf, WrittenReadBack, InputsDecode, GatedDocuments, EvidenceHolds, Load, InputError, DryRunOf;
    hide ScenarioOf, ConfigOf, GateAsks, LoadedProfile, Planned, DocumentsOf;
    hide RuntimeBlockOf, RuntimeWarningsOf, AdapterBlockOf, FailureBlockOf, PolicyBlockOf;
    hide Chain.ScenarioInputAccepted, PolicySimulator.ConfigInputAccepted;
    FactsAgree(w, i);
    if Loads(w, i) {
      var l, docs := Load(w, i), DocumentsOn(w, i);
      LoadedFacts(w, i);
      GatePassesExactly(l);
      LoadedRunsArePlanned(l);
      if GateAsks(l) {
        LoadedInputsDecode(w, i);
        StagesBlockExactly(w, i, DryRunOf(l), LoadedProfile(l), ScenarioOf(w, i.scenario), ConfigOf(w, i.config));
        EvidenceOutcome(w, i, docs, DryRunOf(l), LoadedProfile(l));
      }
    }
  }

  /** Exact blocking: without `stop_on_warning` a run exits 2 if and only if its inputs do not load, the dry run raises,
      the bundle or the profile is refused, the scenario is refused, the policy configuration is refused, or, when
      evidence is wanted, its builder fails, one of the four required documents exceeds the size limit, or a supporting
      bundle artifact crosses the boundary or names another profile. It exits 0 otherwise. */
  lemma ExactBlocking(w: World, i: Inputs, noEvidence: bool)
    requires RunReadsBack(w, i)
    ensures var r := RunOf(FactsOf(w, i), Flags(false, noEvidence));
            && (r.exitCode == EXIT_INVALID <==> MustBlock(w, i, noEvidence))
            && (r.exitCode == EXIT_OK || r.exitCode == EXIT_INVALID)
  {
    hide FactsOf, RunOf, EndsAt, AdapterStops, MustBlock, RunReadsBack, StageStops;
    FactsStopExactly(w, i, noEvidence);
    StopsExactly(FactsOf(w, i), noEvidence);
    AdapterNeverStops(w, i, Flags(false, noEvidence));
    FinalStatusAndExit(FactsOf(w, i), Flags(false, noEvidence));
  }

  // ---- the selected policy of a run ----

  /** A stage that is done in the expected shape was passed. */
  lemma DoneStageWasPassed(n: seq<StageResult>, e: Ending)
    requires Shape(n, e)
    ensures n[4].Done() ==> e.done >= 5
  {
  }

  lemma PassedPolicyMeans(f: Facts, flags: Flags)
    requires EndsAt(f, flags).done >= 5
    ensures f.runtimeBlock.None? && f.failureBlock.None? && f.policyBlock.None?
  {
  }

  /** The closed form on the documents of a run, from the degradation of its plan. */
  ghost predicate SelectsFinalPolicy(docs: Documents, degraded: bool, s: FailureInjector.Scenario) {
    && docs.decision.selected ==
       Chain.FinalPolicy(degraded, s.mode, Chain.SimulatedBefore(docs.plan, s), docs.adapter.blocked > 0)
    && docs.decision.status ==
       Chain.FinalState(degraded, s.mode, Chain.SimulatedBefore(docs.plan, s), docs.adapter.blocked > 0)
  }

  ghost predicate CompletedPolicy(r: RunResult) {
    Normalize(r.stages)[4].Done()
  }

  lemma CompletedPolicyMeans(w: World, i: Inputs, flags: Flags)
    requires CompletedPolicy(RunOf(FactsOf(w, i), flags))
    ensures var f := FactsOf(w, i); f.runtimeBlock.None? && f.failureBlock.None? && f.policyBlock.None?
  {
    hide FactsOf, RunOf, EndsAt, AdapterStops, Normalize, Shape;
    var f := FactsOf(w, i);
    AdapterNeverStops(w, i, flags);
    RunHasShape(f, flags);
    DoneStageWasPassed(Normalize(RunOf(f, flags).stages), EndsAt(f, flags));
    PassedPolicyMeans(f, flags);
  }

  lemma UnblockedPolicyIsClosedForm(d: DryRun, profile: Object, scenario: RollbackPlanner.ScenarioInput,
                                    config: PolicySimulator.ConfigInput)
    requires Planned(d, profile) && d.gatePassed
    requires Chain.ScenarioInputAccepted(scenario) && PolicySimulator.ConfigInputAccepted(config)
    ensures SelectsFinalPolicy(DocumentsOf(d, scenario, config), d.degraded,
                               RollbackPlanner.LoadScenario(scenario).scenario)
  {
    hide Gate, PlanToJson, PlanOf, RuntimeReportToJson, Adapters.SimulateReport, RollbackPlanner.FailureReport;
    hide Chain.PolicyOf, Chain.ScenarioInputAccepted, PolicySimulator.ConfigInputAccepted, Chain.SimulatedBefore;
    hide Chain.FinalPolicy, Chain.FinalState, RollbackPlanner.LoadScenario, Chain.PolicyBlocked;
    Chain.PolicyClosedForm(profile, scenario, config);
  }

  /** Whenever a run completes its policy stage, with or without warnings, on a profile or on a bundle, under any
      options, the selected policy is the closed form over degradation, failure mode, actions simulated before the
      failure and rejections. */
  lemma CompletedPolicyIsClosedForm(w: World, i: Inputs, flags: Flags)
    requires Loads(w, i)
    ensures CompletedPolicy(RunOf(FactsOf(w, i), flags)) ==>
              SelectsFinalPolicy(DocumentsOn(w, i), DryRunOf(Load(w, i)).degraded,
                                 RollbackPlanner.LoadScenario(ScenarioOf(w, i.scenario)).scenario)
  {
    hide FactsOf, RunOf, EvidenceOf, DryRunOf, Load, InputError, DocumentsOf, ScenarioOf, ConfigOf;
    hide LoadedProfile, Planned;
    hide RuntimeBlockOf, RuntimeWarningsOf, AdapterBlockOf, FailureBlockOf, PolicyBlockOf, CompletedPolicy;
    hide SelectsFinalPolicy, GatedDocuments, Chain.ScenarioInputAccepted, PolicySimulator.ConfigInputAccepted;
    if CompletedPolicy(RunOf(FactsOf(w, i), flags)) {
      var d, profile := DryRunOf(Load(w, i)), LoadedProfile(Load(w, i));
      CompletedPolicyMeans(w, i, flags);
      LoadedFacts(w, i);
      LoadedRunsArePlanned(Load(w, i));
      StagesBlockExactly(w, i, d, profile, ScenarioOf(w, i.scenario), ConfigOf(w, i.config));
      UnblockedPolicyIsClosedForm(d, profile, ScenarioOf(w, i.scenario), ConfigOf(w, i.config));
    }
  }
}
