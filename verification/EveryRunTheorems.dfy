/** What every pipeline run reports, from its inputs: how it ends, what it warns of, and why it blocks. */
module EveryRunTheorems {
  import opened Base
  import opened JsonValues
  import opened SafetyGate
  import opened PlanBuilder
  import opened RuntimePlan
  import opened RuntimeStage
  import opened RuntimeTheorems
  import opened PipelineReport
  import opened PipelineRunner
  import opened RunTheorems
  import opened RunStatusTheorems
  import opened RunDetailTheorems
  import opened PipelineInputs
  import opened PipelineTheorems
  import EvidenceSource
  import EvidenceCheck
  import SourceStatusTheorems
  import PlanTheorems
  import Adapters
  import FailureInjector
  import RollbackPlanner
  import PolicySimulator
  import PolicyTheorems
  import ReasonTheorems
  import Chain

  // ---- how a run ends ----

  /** On every run that loads its inputs the status is that of its warnings: with exit code 0 it completed with warnings
      exactly when it warned, exactly when some stage before the report did, and the report stage shows the same. A run
      that does not load ends as invalid. */
  lemma EveryRunTellsItsStatus(w: World, i: Inputs, flags: Flags)
    ensures var r := RunOf(FactsOf(w, i), flags);
            if Loads(w, i) then ToldByStages(r) else r.status == PipelineInvalidInput && r.exitCode == EXIT_INVALID
  {
    hide FactsOf, ToldByStages, AdapterStops, Load, InputError, EvidenceOf, DocumentsOn;
    FactsAgree(w, i);
    AdapterNeverStops(w, i, flags);
    if Loads(w, i) {
      RunIsToldByStages(FactsOf(w, i), flags);
    }
  }

  /** Warnings, blocking reasons and terminal state of every run are those its facts call for. */
  lemma EveryRunReportsItsFacts(w: World, i: Inputs, flags: Flags)
    ensures ReportsItsFacts(RunOf(FactsOf(w, i), flags), FactsOf(w, i), EndsAt(FactsOf(w, i), flags))
  {
    hide FactsOf, RunOf, AdapterStops, ReportsItsFacts, EndsAt;
    AdapterNeverStops(w, i, flags);
    RunReportsItsFacts(FactsOf(w, i), flags);
  }

  /** Why stages are skipped, what the matrix shows and what the evidence summary says. */
  ghost predicate SaysInDetail(r: RunResult, skip: Cause, stop: string) {
    var n, m, e := Normalize(r.stages), ReportOf(r).matrix, ReportOf(r).evidence;
      && (forall k :: 0 <= k < 7 && n[k].status.Skipped? ==> n[k].skipReason == Some(skip))
      && (forall k :: 0 <= k < 7 ==>
            && STAGES[k] in m && m[STAGES[k]].status == n[k].status && m[STAGES[k]].ran == !n[k].status.Skipped?
            && m[STAGES[k]].reason == ShownReason(n[k], skip, stop))
      && (e.ran <==> n[5].Ran()) && (e.skipped <==> n[5].status.Skipped?) && (e.blocked <==> n[5].status.Blocked?)
      && e.skipReason == (if n[5].status.Skipped? then Some(skip) else None)
  }

  lemma EveryRunSaysInDetail(w: World, i: Inputs, flags: Flags)
    ensures var f := FactsOf(w, i);
            SaysInDetail(RunOf(f, flags), SkipCauseOf(f, flags), StopReason(f, EndsAt(f, flags)))
  {
    hide FactsOf, RunOf, AdapterStops, EndsAt, SkipCauseOf, StopReason, Normalize, ReportOf;
    AdapterNeverStops(w, i, flags);
    SkipsAreExact(FactsOf(w, i), flags);
    MatrixIsExact(FactsOf(w, i), flags);
    EvidenceSummaryIsExact(FactsOf(w, i), flags);
  }

  // ---- the runtime stage ----

  /** What the runtime stage of a loaded run warns of. */
  ghost predicate RuntimeWarns(l: Loading, t: string) {
    match l
    case ProfileLoaded(p) => t == "preferred_routes_missing" && Conforms(p) && PreferredRoutes !in p
    case BundleLoaded(b) =>
      && Acceptable(b)
      && (|| ComparisonWarns(b, t)
          || (t == "preferred_routes_missing" && Conforms(b.profile.value) && PreferredRoutes !in b.profile.value)
          || (t == "degraded_bundle_mode" && (SomeAbsent(b) || Says(b.solver, SolverStatus, Str("degraded")))))
    case LoadFailed(_) => false
  }

  lemma RuntimeWarnsExactly(l: Loading)
    requires !l.LoadFailed?
    ensures forall t :: t in RuntimeWarningsOf(RuntimeReportToJson(DryRunOf(l))) <==> RuntimeWarns(l, t)
  {
    hide RuntimeWarningsOf, RuntimeReportToJson, Gate, Conforms, ComparisonWarns, Acceptable, SomeAbsent, States;
    match l {
      case ProfileLoaded(p) =>
        ProfileRunWarnings(p);
        GatePassesExactlyConforming(p);
      case BundleLoaded(b) =>
        BundleRunWarnings(b);
        AcceptableHasProfile(b);
        if Acceptable(b) { GatePassesExactlyConforming(b.profile.value); }
    }
  }

  /** Why the runtime stage of a loaded run blocks: its bundle is not acceptable, or its profile does not conform. */
  ghost function RuntimeRefusal(l: Loading): Option<string> {
    if l.BundleLoaded? && !Acceptable(l.bundle) then Some("blocked_by_bundle_validation")
    else if !Conforms(LoadedProfile(l)) then Some("blocked_by_safety_gate")
    else None
  }

  lemma RuntimeBlockIsExact(l: Loading)
    requires !l.LoadFailed?
    ensures RuntimeBlockOf(RuntimeReportToJson(DryRunOf(l))) == RuntimeRefusal(l)
  {
    hide Gate, PlanOf, Conforms, Acceptable, ValidateBundle, BasePlan;
    GatePassesExactlyConforming(LoadedProfile(l));
    if l.BundleLoaded? {
      BundlePassesExactly(l.bundle);
      AcceptableHasProfile(l.bundle);
    }
  }

  /** The facts are those of this loaded input, as far as the runtime stage goes. */
  ghost predicate RuntimeFacts(f: Facts, l: Loading, fault: Option<string>) {
    && f.dryRunError == fault && f.runtimeBlock == RuntimeRefusal(l)
    && forall t :: t in f.runtimeWarnings <==> RuntimeWarns(l, t)
  }

  /** The runtime stage of a loaded run, from its input. */
  lemma RuntimeFactsAreExact(w: World, i: Inputs)
    requires Loads(w, i)
    ensures RuntimeFacts(FactsOf(w, i), Load(w, i), i.dryRunFault)
  {
    hide EvidenceOf, DryRunOf, RuntimeReportToJson, RuntimeBlockOf, RuntimeWarningsOf, PlanToJson, Load, InputError;
    hide Adapters.SimulateReport, AdapterBlockOf, LoadedProfile, RuntimeRefusal, RuntimeWarns, ScenarioOf, ConfigOf;
    hide RollbackPlanner.FailureReport, Chain.PolicyOf, FailureBlockOf, PolicyBlockOf;
    LoadedFacts(w, i);
    RuntimeBlockIsExact(Load(w, i));
    RuntimeWarnsExactly(Load(w, i));
  }

  // ---- the adapter stage ----

  /** What the adapter stage of a run whose gate passed warns of: of the plan's status when it is degraded, otherwise of
      what its rejected actions give. */
  ghost predicate AdapterWarns(profile: Object, t: string) {
    if PreferredRoutes !in profile then t == "degraded_no_execution_plan"
    else Adapters.IsRejection(Chain.PlanDoc(profile), t)
  }

  lemma AdapterWarnsExactly(profile: Object)
    requires Conforms(profile)
    ensures forall t :: t in Adapters.SimulateReport(Chain.PlanDoc(profile)).blockReasons <==> AdapterWarns(profile, t)
  {
    hide Conforms, Gate, Chain.PlanDoc, Adapters.SimulateReport, Adapters.IsRejection, Adapters.Rejects, Validation;
    var plan := Chain.PlanDoc(profile);
    GatePassesExactlyConforming(profile);
    Chain.PassedGateGivesGatedPlan(profile);
    Chain.PlanIsAccepted(plan);
    Adapters.AdapterReportIsExact(plan);
    DegradedIsNotExecutable(plan);
  }

  lemma DegradedIsNotExecutable(plan: Object)
    requires Chain.GatedPlan(plan)
    ensures Adapters.NotExecutable(plan) <==> Chain.DegradedStatus(plan)
    ensures Chain.DegradedStatus(plan) ==> Get(plan, PlanStatus) == Str("degraded_no_execution_plan")
  {
    hide Validation;
    Chain.GatedPlanStatus(plan);
  }

  /** Some planned action has a role that no adapter supports. */
  ghost predicate PlansUnsupportedRole(profile: Object) {
    exists i :: 0 <= i < |PlanOf(profile).actions|
                && PlanOf(profile).actions[i].role !in {Some("sensor_tile"), Some("routing_tile"), Some("memory_tile")}
  }

  lemma PlannedActionAccepted(profile: Object, i: nat)
    requires i < |PlanOf(profile).actions|
    ensures var actions := PlanActions(Chain.PlanDoc(profile));
      && |actions| == |PlanOf(profile).actions|
      && (Adapters.Accepts(actions[i]) <==>
          PlanOf(profile).actions[i].role in {Some("sensor_tile"), Some("routing_tile"), Some("memory_tile")})
      && (!Adapters.Accepts(actions[i]) ==> Adapters.ResultFor(actions[i]).reason == "role_missing_or_unresolvable")
  {
    hide PlanOf, PlanToJson, PlanActions, Adapters.Accepts, Adapters.ResultFor, Adapters.NamesSupportedRole;
    DocumentShowsPlan(PlanOf(profile));
    PlanTheorems.PlannedAssigns(profile);
    var o, r := PlanActions(Chain.PlanDoc(profile))[i], PlanOf(profile).actions[i];
    assert r in PlanOf(profile).actions && Shows(o, r);
    Adapters.PlannedAcceptedExactly(o, r.role);
    Adapters.ResultIsExact(o);
    Adapters.ResultSimulatedExactlyAccepted(o);
    if !Adapters.Accepts(o) && Get(o, Role) == Str("") { EmptyNamesNothing(o); }
  }

  lemma EmptyNamesNothing(o: Object)
    requires Get(o, Role) == Str("") && Get(o, TargetRole) == Null
    ensures !Adapters.NamesSupportedRole(o)
  {
  }

  /** On the plan of a profile an action is rejected exactly when its role is unsupported, and always for one reason. */
  lemma RejectionsAreByRole(profile: Object)
    ensures Adapters.Rejects(Chain.PlanDoc(profile)) <==> PlansUnsupportedRole(profile)
    ensures forall t :: Adapters.IsRejection(Chain.PlanDoc(profile), t) <==>
                        PlansUnsupportedRole(profile) && t == "role_missing_or_unresolvable"
  {
    hide PlanOf, Chain.PlanDoc, PlanActions, Adapters.Accepts, Adapters.ResultFor;
    var actions, records := PlanActions(Chain.PlanDoc(profile)), PlanOf(profile).actions;
    DocumentHasActions(profile);
    forall i | 0 <= i < |records|
      ensures (Adapters.Accepts(actions[i]) <==>
               records[i].role in {Some("sensor_tile"), Some("routing_tile"), Some("memory_tile")})
              && (!Adapters.Accepts(actions[i]) ==>
                    Adapters.ResultFor(actions[i]).reason == "role_missing_or_unresolvable")
    {
      PlannedActionAccepted(profile, i);
    }
  }

  lemma DocumentHasActions(profile: Object)
    ensures |PlanActions(Chain.PlanDoc(profile))| == |PlanOf(profile).actions|
  {
    hide PlanOf, PlanToJson, PlanActions;
    DocumentShowsPlan(PlanOf(profile));
  }

  lemma LoadedPlan(l: Loading)
    requires !l.LoadFailed? && GateAsks(l)
    ensures PlanToJson(DryRunOf(l).plan) == Chain.PlanDoc(LoadedProfile(l))
    ensures Gate(LoadedProfile(l)).passed && DryRunOf(l).gatePassed
            && PipelineTheorems.Planned(DryRunOf(l), LoadedProfile(l))
    ensures Gate(LoadedProfile(l)).degraded <==> PreferredRoutes !in LoadedProfile(l)
  {
    hide Gate, PlanOf, PlanToJson, Conforms, Acceptable, DryRunOf, LoadedProfile;
    GatePassesExactly(l);
    LoadedRunsArePlanned(l);
    GatePassesExactlyConforming(LoadedProfile(l));
  }

  /** The adapter stage of a run whose gate passed never blocks and warns as said. */
  lemma AdapterFactsAreExact(w: World, i: Inputs)
    requires Loads(w, i) && GateAsks(Load(w, i))
    ensures var f := FactsOf(w, i);
      && f.adapterBlock.None?
      && forall t :: t in f.adapterWarnings <==> AdapterWarns(LoadedProfile(Load(w, i)), t)
  {
    hide EvidenceOf, DryRunOf, RuntimeReportToJson, RuntimeBlockOf, RuntimeWarningsOf, PlanToJson, Load, InputError;
    hide Adapters.SimulateReport, AdapterBlockOf, LoadedProfile, Conforms, Acceptable, AdapterWarns, ScenarioOf,
    ConfigOf;
    hide RollbackPlanner.FailureReport, Chain.PolicyOf, FailureBlockOf, PolicyBlockOf, Gate;
    LoadedFacts(w, i);
    LoadedPlan(Load(w, i));
    AdapterWarnsExactly(LoadedProfile(Load(w, i)));
  }

  // ---- the failure and the policy stage ----

  lemma FailureBlockIsExact(plan: Object, scenario: RollbackPlanner.ScenarioInput)
    requires Validation(plan).SafetyPassed()
    ensures FailureBlockOf(RollbackPlanner.FailureReport(plan, scenario)) ==
            if Chain.ScenarioInputAccepted(scenario) then None else Some("blocked_scenario_safety_boundary")
  {
    hide Validation, RollbackPlanner.FailureReport, Chain.ScenarioInputAccepted;
    Chain.FailureStageOutcome(plan, scenario);
    if Chain.ScenarioInputAccepted(scenario) { Chain.StageReportFacts(plan, scenario); }
  }

  /** Why the policy stage blocks: a configuration that cannot be used, or one that steps over the boundary. */
  ghost function PolicyRefusal(config: PolicySimulator.ConfigInput): Option<string> {
    if PolicyTheorems.ConfigFaulty(config) then Some("blocked_invalid_artifacts")
    else if PolicyTheorems.ConfigOutOfBounds(config) then Some("blocked_policy_config_safety_boundary")
    else None
  }

  lemma AcceptedExactly(config: PolicySimulator.ConfigInput)
    ensures PolicySimulator.ConfigInputAccepted(config) <==>
            !PolicyTheorems.ConfigFaulty(config) && !PolicyTheorems.ConfigOutOfBounds(config)
  {
    hide PolicyTheorems.ConfigFaulty, PolicyTheorems.ConfigOutOfBounds, PolicySimulator.ConfigAccepted;
    PolicyTheorems.ConfigRefusedExactly(config);
    if config.GivenConfig? { PolicySimulator.ConfigRefusedExactlyUnlessAccepted(config.raw); }
  }

  lemma RefusedPolicyBlock(plan: Object, scenario: RollbackPlanner.ScenarioInput, config: PolicySimulator.ConfigInput)
    requires Validation(plan).SafetyPassed() && !PolicySimulator.ConfigInputAccepted(config)
    ensures PolicyBlockOf(Chain.PolicyOf(plan, scenario, config)) == PolicyRefusal(config)
  {
    hide Validation, Adapters.SimulateReport, RollbackPlanner.FailureReport, PolicySimulator.ConfigInputAccepted;
    hide PolicySimulator.PolicyOutcome, PolicyTheorems.ConfigFaulty, PolicyTheorems.ConfigOutOfBounds;
    hide Adapters.AdapterReportToJson, RollbackPlanner.RollbackReportToJson, PolicySimulator.ReportAccepted;
    hide ReasonTheorems.PlanFaulty, ReasonTheorems.PlanUnsafe;
    Chain.AdapterReportPasses(Adapters.SimulateReport(plan));
    Chain.RollbackReportPasses(RollbackPlanner.FailureReport(plan, scenario));
    AcceptedExactly(config);
    PlanIsUsable(plan);
    PolicyTheorems.RefusalsAreExact(plan, config, PolicySimulator.ReportPayload(Chain.AdapterDoc(plan)),
                                    PolicySimulator.ReportPayload(Chain.RollbackDoc(plan, scenario)));
  }

  lemma PlanIsUsable(plan: Object)
    requires Validation(plan).SafetyPassed()
    ensures !ReasonTheorems.PlanFaulty(plan)
  {
    hide ReasonTheorems.PlanFaulty, ReasonTheorems.PlanUnsafe, Validation;
    ReasonTheorems.PlanRefusedExactly(plan);
  }

  lemma PolicyBlockIsExact(plan: Object, scenario: RollbackPlanner.ScenarioInput, config: PolicySimulator.ConfigInput)
    requires Chain.GatedPlan(plan) && Chain.ScenarioInputAccepted(scenario)
    ensures PolicyBlockOf(Chain.PolicyOf(plan, scenario, config)) == PolicyRefusal(config)
  {
    hide Validation, Chain.PolicyOf, PolicySimulator.ConfigInputAccepted, Chain.ScenarioInputAccepted, Chain.GatedPlan;
    hide PolicyTheorems.ConfigFaulty, PolicyTheorems.ConfigOutOfBounds, Chain.PolicyBlocked;
    hide Chain.PolicyOn, Chain.StateOn;
    AcceptedExactly(config);
    if PolicySimulator.ConfigInputAccepted(config) {
      Chain.PolicyClosedFormOnPlans(plan, scenario, config);
    } else {
      Chain.PlanIsAccepted(plan);
      RefusedPolicyBlock(plan, scenario, config);
    }
  }

  /** What the policy stage warns of: what the rollback plan asks for, a degraded plan, and rejected actions. */
  ghost predicate PolicyWarns(profile: Object, s: FailureInjector.Scenario, t: string) {
    var plan := Chain.PlanDoc(profile);
    var degraded := PreferredRoutes !in profile;
    var rollback := !degraded && FailureInjector.Injecting(s.mode) && Chain.SimulatedBefore(plan, s) > 0;
    var stop := !degraded && FailureInjector.SafeStopMode(s.mode);
    || (degraded && (t == "runtime_plan.degraded_no_execution_plan" || t == "degraded_mode_requires_human_review"))
    || (!degraded && Adapters.Rejects(plan)
        && (t == "adapter_report.blocked_actions" || t == "adapter_report.adapter_block_reasons"
            || t == "adapter_blocks_present" || Adapters.IsRejection(plan, t)))
    || (rollback && (t == "rollback_report.rollback_required" || t == "rollback_required"))
    || (stop && (t == "rollback_report.safe_stop_required" || t == "safe_stop_required"))
  }

  /** The texts of four optional parts, one of them a list. */
  lemma FourParts(a: bool, first: seq<string>, b: bool, t2: string, c: bool, t3: string, d: bool, t4: string)
    ensures forall t :: t in Dedup((if a then first else []) + (if b then [t2] else []) + (if c then [t3] else [])
                                   + (if d then [t4] else [])) <==>
              (a && t in first) || (b && t == t2) || (c && t == t3) || (d && t == t4)
  {
  }

  lemma FinalWarningsAre(p: RollbackPlanner.RollbackPlan, degraded: bool, rejected: bool, rejections: seq<string>,
                         t: string)
    ensures t in Dedup(Chain.FinalWarnings(p, degraded, rejected, rejections)) <==>
            || (rejected && (t == "adapter_blocks_present" || t in rejections))
            || (degraded && t == "degraded_mode_requires_human_review")
            || (p.required && t == "rollback_required") || (p.safeStop && t == "safe_stop_required")
  {
    hide Dedup;
    var first := ["adapter_blocks_present"] + rejections;
    FourParts(rejected, first, degraded, "degraded_mode_requires_human_review", p.required, "rollback_required",
              p.safeStop, "safe_stop_required");
    assert t in first <==> t == "adapter_blocks_present" || t in rejections;
  }

  lemma FinalInputsAre(p: RollbackPlanner.RollbackPlan, degraded: bool, rejected: bool, t: string)
    ensures t in Dedup(Chain.FinalWarningInputs(p, degraded, rejected)) <==>
            || (rejected && (t == "adapter_report.blocked_actions" || t == "adapter_report.adapter_block_reasons"))
            || (degraded && t == "runtime_plan.degraded_no_execution_plan")
            || (p.safeStop && t == "rollback_report.safe_stop_required")
            || (p.required && t == "rollback_report.rollback_required")
  {
    hide Dedup;
    var first := ["adapter_report.blocked_actions", "adapter_report.adapter_block_reasons"];
    PolicyTheorems.PairIs("adapter_report.blocked_actions", "adapter_report.adapter_block_reasons");
    FourParts(rejected, first, degraded, "runtime_plan.degraded_no_execution_plan", p.safeStop,
              "rollback_report.safe_stop_required", p.required, "rollback_report.rollback_required");
  }

  lemma PolicyWarnsExactly(profile: Object, scenario: RollbackPlanner.ScenarioInput,
                           config: PolicySimulator.ConfigInput, t: string)
    requires Conforms(profile)
    requires Chain.ScenarioInputAccepted(scenario) && PolicySimulator.ConfigInputAccepted(config)
    ensures var d := Chain.PolicyOf(Chain.PlanDoc(profile), scenario, config);
            t in d.warnings + d.warningInputs <==>
            PolicyWarns(profile, RollbackPlanner.LoadScenario(scenario).scenario, t)
  {
    hide Conforms, Gate, Chain.PlanDoc, Adapters.SimulateReport, Adapters.IsRejection, Adapters.Rejects, Validation;
    hide Chain.PolicyOf, Chain.ScenarioInputAccepted, PolicySimulator.ConfigInputAccepted, Chain.SimulatedBefore;
    hide RollbackPlanner.LoadScenario, RollbackPlanner.FailureReport, Chain.FinalWarnings, Chain.FinalWarningInputs;
    hide Dedup, FailureInjector.SafeStopMode, FailureInjector.Injecting, Chain.FinalReasons;
    var plan := Chain.PlanDoc(profile);
    GatePassesExactlyConforming(profile);
    Chain.DecisionIsExact(profile, scenario, config);
    Chain.PassedGateGivesGatedPlan(profile);
    Chain.PlanIsAccepted(plan);
    Adapters.AdapterReportIsExact(plan);
    DegradedIsNotExecutable(plan);
    var p, a := RollbackPlanner.FailureReport(plan, scenario).plan, Adapters.SimulateReport(plan);
    FinalWarningsAre(p, Gate(profile).degraded, a.blocked > 0, a.blockReasons, t);
    FinalInputsAre(p, Gate(profile).degraded, a.blocked > 0, t);
  }

  /** The failure stage of a run whose gate passed blocks exactly on a refused scenario, the policy stage then exactly
      on
      a refused configuration, and otherwise it warns as said. */
  ghost predicate LaterFacts(f: Facts, profile: Object, scenario: RollbackPlanner.ScenarioInput,
                             config: PolicySimulator.ConfigInput)
  {
    && f.failureBlock == (if Chain.ScenarioInputAccepted(scenario) then None
                          else Some("blocked_scenario_safety_boundary"))
    && (Chain.ScenarioInputAccepted(scenario) ==>
          && f.policyBlock == PolicyRefusal(config)
          && (PolicyRefusal(config).None? ==>
                forall t :: t in f.policyWarnings <==>
                            PolicyWarns(profile, RollbackPlanner.LoadScenario(scenario).scenario, t)))
  }

  lemma LaterFactsAreExact(w: World, i: Inputs)
    requires Loads(w, i) && GateAsks(Load(w, i))
    ensures LaterFacts(FactsOf(w, i), LoadedProfile(Load(w, i)), ScenarioOf(w, i.scenario), ConfigOf(w, i.config))
  {
    hide EvidenceOf, DryRunOf, RuntimeReportToJson, RuntimeBlockOf, RuntimeWarningsOf, PlanToJson, Load, InputError;
    hide Adapters.SimulateReport, AdapterBlockOf, LoadedProfile, Conforms, Acceptable, PolicyWarns, ScenarioOf,
    ConfigOf;
    hide RollbackPlanner.FailureReport, Chain.PolicyOf, FailureBlockOf, PolicyBlockOf, Gate, Chain.PlanDoc,
    Chain.GatedPlan;
    hide Chain.ScenarioInputAccepted, PolicyTheorems.ConfigFaulty, PolicyTheorems.ConfigOutOfBounds;
    hide RollbackPlanner.LoadScenario, Validation, PolicySimulator.ConfigInputAccepted;
    var l := Load(w, i);
    var profile, scenario, config := LoadedProfile(l), ScenarioOf(w, i.scenario), ConfigOf(w, i.config);
    LoadedFacts(w, i);
    LoadedPlan(l);
    GatePassesExactlyConforming(profile);
    Chain.PassedGateGivesGatedPlan(profile);
    Chain.PlanIsAccepted(Chain.PlanDoc(profile));
    FailureBlockIsExact(Chain.PlanDoc(profile), scenario);
    if Chain.ScenarioInputAccepted(scenario) {
      PolicyBlockIsExact(Chain.PlanDoc(profile), scenario, config);
      AcceptedExactly(config);
      if PolicyRefusal(config).None? {
        forall t ensures t in FactsOf(w, i).policyWarnings <==>
                         PolicyWarns(profile, RollbackPlanner.LoadScenario(scenario).scenario, t) {
          PolicyWarnsExactly(profile, scenario, config, t);
        }
      }
    }
  }

  // ---- the evidence stage ----

  /** The evidence stage of this directory: a fault of the builder and a failing status block, a passing status hands on
      the warnings of the source check. */
  ghost predicate EvidenceTold(e: EvidenceFacts, w: World, staged: Directory, fault: Option<string>) {
    var schema := EvidenceSource.STANDARD;
    var status := EvidenceCheck.CheckOf(w, EvidenceSource.Collect(staged, schema), schema).status;
    if fault.Some? then e == EvidenceBlocked("evidence_bundle_failed:" + fault.value)
    else if EvidenceCheck.Passing(status) then
      e.EvidencePassed?
      && forall t :: t in e.warnings <==>
                     exists x :: SourceStatusTheorems.Warns(w, staged, schema, x) && EvidenceSource.WarningText(x) == t
    else e == EvidenceBlocked(EvidenceCheck.StatusText(status))
  }

  lemma WarningTextsAre(warnings: seq<EvidenceSource.Warning>, texts: seq<string>)
    requires texts == EvidenceCheck.Each(x => EvidenceSource.WarningText(x), warnings)
    ensures forall t :: t in texts <==> exists x :: x in warnings && EvidenceSource.WarningText(x) == t
  {
    forall t ensures t in texts <==> exists x :: x in warnings && EvidenceSource.WarningText(x) == t {
      if x :| x in warnings && EvidenceSource.WarningText(x) == t {
        var k :| 0 <= k < |warnings| && warnings[k] == x;
        assert texts[k] == t;
      }
    }
  }

  lemma EvidenceFactsAreExact(w: World, i: Inputs)
    requires Loads(w, i)
    ensures EvidenceTold(FactsOf(w, i).evidence, w, Staging(w, i, DocumentsOn(w, i)), i.evidenceFault)
  {
    hide DocumentsOn, DryRunOf, RuntimeBlockOf, RuntimeWarningsOf, Load, InputError, EvidenceSource.STANDARD, Staging;
    hide AdapterBlockOf, FailureBlockOf, PolicyBlockOf, EvidenceCheck.CheckOf, EvidenceSource.WarningText;
    hide EvidenceCheck.StatusText, EvidenceCheck.Passing, SourceStatusTheorems.Warns, EvidenceSource.Collect;
    LoadedFacts(w, i);
    var staged := Staging(w, i, DocumentsOn(w, i));
    var check := EvidenceCheck.CheckOf(w, EvidenceSource.Collect(staged, EvidenceSource.STANDARD),
                                       EvidenceSource.STANDARD);
    SourceStatusTheorems.WarningsAreExact(w, staged, EvidenceSource.STANDARD);
    WarningTextsAre(check.warnings, EvidenceCheck.Each(x => EvidenceSource.WarningText(x), check.warnings));
  }
}
