/** `run_pipeline` from its inputs to its result. */
module Pipeline {
  import opened Base
  import opened JsonValues
  import opened RuntimePlan
  import opened RuntimeStage
  import opened PipelineReport
  import opened PipelineRunner
  import opened PipelineInputs
  import Adapters
  import RollbackPlanner
  import PolicyEvaluator
  import PolicySimulator
  import Chain
  import EvidenceSource
  import EvidenceCheck
  import Bundles = EvidenceBundle

  /** The run so far agrees with `p`: still going with the same lists, or ended with the same result. */
  ghost predicate Agrees(log: Log, result: Option<RunResult>, p: Progress) {
    match p
    case Running(expected) => result.None? && log == expected
    case Ended(_, _, _) => result == Some(Finalize(p))
  }

  method LoadInput(run: Run, w: World, i: Inputs, flags: Flags, ghost f: Facts)
    returns (l: Loading, result: Option<RunResult>)
    requires run.State() == Log([], [PipelineStarted], [], [], flags.noEvidence)
    requires f.inputError == InputError(i)
    requires InputError(i).None? ==> f.loadError == LoadFault(Load(w, i))
    modifies run
    ensures Agrees(run.State(), result, AfterInput(f, flags))
    ensures l == Load(w, i)
    ensures result.None? <==> InputError(i).None? && !l.LoadFailed?
  {
    l := Load(w, i);
    var error := InputError(i);
    if error.Some? {
      run.Fail(InputLoad, Failed, [], error.value);
      var r := run.FinishInvalid();
      return l, Some(r);
    }
    run.Start(InputLoad);
    if l.LoadFailed? {
      run.Fail(InputLoad, Failed, [], l.reason);
      var r := run.FinishInvalid();
      return l, Some(r);
    }
    run.Complete(InputLoad, []);
    result := None;
  }

  method DryRunStage(run: Run, fault: Option<string>, report: Object, flags: Flags, ghost f: Facts)
    returns (result: Option<RunResult>)
    requires f.dryRunError == fault
    requires f.runtimeBlock == RuntimeBlockOf(report) && f.runtimeWarnings == RuntimeWarningsOf(report)
    modifies run
    ensures Agrees(run.State(), result, AfterRuntime(f, flags, old(run.State())))
  {
    run.Start(RuntimeDryRun);
    if fault.Some? {
      run.Fail(RuntimeDryRun, Failed, [], fault.value);
      var r := run.FinishBlocked();
      return Some(r);
    }
    var warnings := CollectRuntimeWarnings(report);
    var block := RuntimeBlockOf(report);
    if block.Some? {
      run.Warn(RuntimeDryRun, warnings);
      run.Fail(RuntimeDryRun, Blocked, warnings, block.value);
      run.Skip([AdapterSimulation, FailureRollback, PolicySimulation, EvidenceBundle], AfterBlocked(RuntimeDryRun));
      var r := run.FinishBlocked();
      return Some(r);
    }
    run.Complete(RuntimeDryRun, warnings);
    if flags.stopOnWarning && warnings != [] {
      run.SkipRemainingAfterWarning();
      var r := run.FinishWithWarnings();
      return Some(r);
    }
    result := None;
  }

  /** A blocked adapter stage goes on to the failure stage. */
  method AdapterStage(run: Run, block: Option<string>, warnings: seq<string>, flags: Flags, ghost f: Facts)
    returns (result: Option<RunResult>)
    requires f.adapterBlock == block && f.adapterWarnings == warnings
    modifies run
    ensures Agrees(run.State(), result, AfterAdapter(f, flags, old(run.State())))
  {
    result := None;
    run.Start(AdapterSimulation);
    if block.Some? {
      run.Fail(AdapterSimulation, Blocked, [], block.value);
    } else {
      run.Complete(AdapterSimulation, warnings);
      if flags.stopOnWarning && warnings != [] {
        run.SkipRemainingAfterWarning();
        var r := run.FinishWithWarnings();
        result := Some(r);
      }
    }
  }

  method FailureStage(run: Run, block: Option<string>, ghost f: Facts) returns (result: Option<RunResult>)
    requires f.failureBlock == block
    modifies run
    ensures Agrees(run.State(), result, AfterFailure(f, old(run.State())))
  {
    run.Start(FailureRollback);
    if block.Some? {
      run.Fail(FailureRollback, Blocked, [], block.value);
      run.Skip([PolicySimulation, EvidenceBundle], AfterBlocked(FailureRollback));
      var r := run.FinishBlocked();
      return Some(r);
    }
    run.Complete(FailureRollback, []);
    result := None;
  }

  method PolicyStage(run: Run, block: Option<string>, warnings: seq<string>, flags: Flags, ghost f: Facts)
    returns (result: Option<RunResult>)
    requires f.policyBlock == block && f.policyWarnings == warnings
    modifies run
    ensures Agrees(run.State(), result, AfterPolicy(f, flags, old(run.State())))
  {
    run.Start(PolicySimulation);
    if block.Some? {
      run.Fail(PolicySimulation, Blocked, [], block.value);
      run.Skip([EvidenceBundle], AfterBlocked(PolicySimulation));
      run.evidenceSkipped := true;
      var r := run.FinishBlocked();
      return Some(r);
    }
    run.Complete(PolicySimulation, warnings);
    if flags.stopOnWarning && warnings != [] {
      run.Skip([EvidenceBundle], StopOnWarning);
      run.evidenceSkipped := true;
      var r := run.FinishWithWarnings();
      return Some(r);
    }
    result := None;
  }

  method EvidenceStage(run: Run, w: World, i: Inputs, docs: Documents, flags: Flags, ghost f: Facts)
    returns (result: Option<RunResult>)
    requires f.evidence == EvidenceOf(w, i, docs)
    modifies run
    ensures Agrees(run.State(), result, AfterEvidence(f, flags, old(run.State())))
  {
    hide EvidenceOf;
    result := None;
    if flags.noEvidence {
      run.stages := run.stages + [MakeStage(EvidenceBundle, Skipped, [], [], Some(EvidenceDisabled))];
      run.trace := run.trace + [StageSkipped(EvidenceBundle, EvidenceDisabled)];
      return;
    }
    run.Start(EvidenceBundle);
    var outcome := BuildEvidence(w, i, docs);
    match outcome {
      case EvidenceBlocked(reason) =>
        run.Fail(EvidenceBundle, Blocked, [], reason);
        var r := run.FinishBlocked();
        result := Some(r);
      case EvidencePassed(warnings) =>
        run.Complete(EvidenceBundle, warnings);
    }
  }

  /** Stages the files of the run and builds the evidence bundle over them. */
  method BuildEvidence(w: World, i: Inputs, docs: Documents) returns (outcome: EvidenceFacts)
    ensures outcome == EvidenceOf(w, i, docs)
  {
    hide Staging, EvidenceSource.Collect, EvidenceCheck.CheckOf, EvidenceCheck.StatusText;
    if i.evidenceFault.Some? {
      return EvidenceBlocked("evidence_bundle_failed:" + i.evidenceFault.value);
    }
    var staging := StageFiles(w, i, docs);
    var output := new Bundles.EvidenceOutput();
    var check := output.Build(w, staging, EvidenceSource.STANDARD);
    if !EvidenceCheck.Passing(check.status) {
      return EvidenceBlocked(EvidenceCheck.StatusText(check.status));
    }
    outcome := EvidencePassed(EvidenceCheck.Each(x => EvidenceSource.WarningText(x), check.warnings));
  }

  method SimulateLoaded(l: Loading) returns (d: DryRun)
    requires !l.LoadFailed?
    ensures d == DryRunOf(l)
  {
    match l {
      case ProfileLoaded(profile) => d := SimulateProfile(profile);
      case BundleLoaded(bundle) => d := SimulateBundle(bundle);
    }
  }

  /** The policy stage on the documents before it. */
  method SimulateDecision(plan: Object, config: PolicySimulator.ConfigInput, scenario: RollbackPlanner.ScenarioInput,
                          adapter: Adapters.AdapterReport, failure: RollbackPlanner.RollbackReport)
    returns (decision: PolicyEvaluator.Decision)
    requires adapter == Adapters.SimulateReport(plan) && failure == RollbackPlanner.FailureReport(plan, scenario)
    ensures decision == Chain.PolicyOf(plan, scenario, config)
  {
    hide PolicySimulator.PolicyOutcome, RollbackPlanner.FailureReport, Adapters.SimulateReport;
    hide Adapters.AdapterReportToJson, RollbackPlanner.RollbackReportToJson;
    decision := PolicySimulator.SimulatePolicy(plan, config,
      PolicySimulator.ReportPayload(Adapters.AdapterReportToJson(adapter)),
      PolicySimulator.ReportPayload(RollbackPlanner.RollbackReportToJson(failure)));
  }

  /** `run_pipeline`: the result is the run of the facts its inputs give. */
  method RunPipeline(w: World, i: Inputs, flags: Flags) returns (r: RunResult)
    ensures r == RunOf(FactsOf(w, i), flags)
  {
    hide FactsOf, EvidenceOf, Load, RuntimeReportToJson, Adapters.SimulateReport, RollbackPlanner.FailureReport;
    hide Chain.PolicyOf, AdapterBlockOf, FailureBlockOf, PolicyBlockOf, RuntimeBlockOf, RuntimeWarningsOf, DryRunOf;
    hide InputError, PlanToJson, ScenarioOf, ConfigOf, Finalize;
    hide AfterInput, AfterRuntime, AfterAdapter, AfterFailure, AfterPolicy, AfterEvidence, AtEnd;
    ghost var f := FactsOf(w, i);
    FactsAgree(w, i);
    var run := new Run(flags);
    var l, result := LoadInput(run, w, i, flags, f);
    if result.Some? {
      return result.value;
    }
    var d := SimulateLoaded(l);
    var plan, runtime := PlanToJson(d.plan), RuntimeReportToJson(d);
    result := DryRunStage(run, i.dryRunFault, runtime, flags, f);
    if result.Some? {
      return result.value;
    }
    var adapter := Adapters.SimulatePlan(plan);
    result := AdapterStage(run, AdapterBlockOf(adapter), adapter.blockReasons, flags, f);
    if result.Some? {
      return result.value;
    }
    var scenario := ScenarioOf(w, i.scenario);
    var failure := RollbackPlanner.SimulateFailure(plan, scenario);
    result := FailureStage(run, FailureBlockOf(failure), f);
    if result.Some? {
      return result.value;
    }
    var decision := SimulateDecision(plan, ConfigOf(w, i.config), scenario, adapter, failure);
    result := PolicyStage(run, PolicyBlockOf(decision), decision.warnings + decision.warningInputs, flags, f);
    if result.Some? {
      return result.value;
    }
    result := EvidenceStage(run, w, i, Documents(plan, runtime, adapter, failure, decision), flags, f);
    if result.Some? {
      return result.value;
    }
    r := run.FinishNormally();
  }
}
