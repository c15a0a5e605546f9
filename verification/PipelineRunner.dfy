/** The pipeline runner: one mutable run that grows its stage, trace, warning and blocking lists across many exits. */
module PipelineRunner {
  import opened Base
  import opened PipelineReport

  /** What each stage reports to the runner; `None` means the stage did not block. */
  datatype Facts = Facts(
    inputError: Option<string>,       // the paths are refused before anything is loaded
    loadError: Option<string>,        // loading the profile or bundle raised
    dryRunError: Option<string>,      // the dry run raised
    runtimeBlock: Option<string>, runtimeWarnings: seq<string>,
    adapterBlock: Option<string>, adapterWarnings: seq<string>,
    failureBlock: Option<string>,
    policyBlock: Option<string>, policyWarnings: seq<string>,
    evidence: EvidenceFacts)

  /** A collection fault and a failed validation both block the evidence stage. */
  datatype EvidenceFacts = EvidenceBlocked(reason: string) | EvidencePassed(warnings: seq<string>)

  datatype Flags = Flags(stopOnWarning: bool, noEvidence: bool)

  datatype Event =
    | PipelineStarted
    | StageStarted(stage: StageName) | StageCompleted(stage: StageName) | StageFailed(stage: StageName, reason: string)
    | StageWarned(stage: StageName, reason: string) | StageSkipped(stage: StageName, cause: Cause)
    | TerminalRecorded(terminal: Terminal) | ConsistencyChecked | CompletedAs(status: PipelineStatus)

  const EXIT_OK := 0
  const EXIT_INVALID := 2

  /** What a run hands to the report writer. */
  datatype RunResult = RunResult(
    exitCode: int, status: PipelineStatus, stages: seq<StageResult>, trace: seq<Event>, warnings: seq<string>,
    blocking: seq<string>, evidenceSkipped: bool)

  function ReportOf(r: RunResult): Report {
    BuildReport(r.status, r.exitCode, r.stages, r.warnings, Causes(r.blocking), r.evidenceSkipped)
  }

  /** The lists a run mutates. */
  datatype Log = Log(stages: seq<StageResult>, trace: seq<Event>, warnings: seq<string>, blocking: seq<string>,
                     evidenceSkipped: bool)

  /** A run after some stage: still going, or ended with a status and an exit code. */
  datatype Progress = Running(log: Log) | Ended(log: Log, status: PipelineStatus, exitCode: int)

  function Warned(stage: StageName, warnings: seq<string>): seq<Event> {
    seq(|warnings|, i requires 0 <= i < |warnings| => StageWarned(stage, warnings[i]))
  }

  function Causes(texts: seq<string>): seq<Cause> {
    seq(|texts|, i requires 0 <= i < |texts| => Cause(texts[i]))
  }

  function SkippedStage(name: StageName, cause: Cause): StageResult {
    MakeStage(name, Skipped, [], [cause], None)
  }

  function SkippedStages(names: seq<StageName>, cause: Cause): seq<StageResult> {
    seq(|names|, i requires 0 <= i < |names| => SkippedStage(names[i], cause))
  }

  /** A stage skipped by `stop_on_warning` carries the reason directly. */
  function WarnSkipped(names: seq<StageName>): seq<StageResult> {
    seq(|names|, i requires 0 <= i < |names| => MakeStage(names[i], Skipped, [], [], Some(StopOnWarning)))
  }

  function SkipEvents(names: seq<StageName>, cause: Cause): seq<Event> {
    seq(|names|, i requires 0 <= i < |names| => StageSkipped(names[i], cause))
  }

  function FailedLog(log: Log, stage: StageName, status: StageStatus, warnings: seq<string>, reason: string): Log {
    log.(stages := log.stages + [MakeStage(stage, status, warnings, [Cause(reason)], None)],
         trace := log.trace + [StageFailed(stage, reason)], blocking := log.blocking + [reason])
  }

  function DoneLog(log: Log, stage: StageName, warnings: seq<string>): Log {
    log.(stages := log.stages
         + [MakeStage(stage, if warnings != [] then CompletedWithWarnings else Completed, warnings, [], None)],
         trace := log.trace + Warned(stage, warnings) + [StageCompleted(stage)], warnings := log.warnings + warnings)
  }

  function SkipAll(log: Log, names: seq<StageName>, cause: Cause): Log {
    log.(stages := log.stages + SkippedStages(names, cause), trace := log.trace + SkipEvents(names, cause))
  }

  function Begin(log: Log, stage: StageName): Log {
    log.(trace := log.trace + [StageStarted(stage)])
  }

  /** `_blocked_after` */
  function BlockedAfter(log: Log): Progress {
    Ended(log.(stages := log.stages + [MakeStage(ReportStage, Completed, [], [], None)],
               trace := log.trace + [StageCompleted(ReportStage)]), PipelineBlocked, EXIT_INVALID)
  }

  /** `_completed_with_warnings_after` */
  function WarnedAfter(log: Log): Progress {
    Ended(log.(stages := log.stages + [MakeStage(ReportStage, CompletedWithWarnings, log.warnings, [], None)],
               trace := log.trace + [StageCompleted(ReportStage)]), PipelineCompletedWithWarnings, EXIT_OK)
  }

  function AfterInput(f: Facts, flags: Flags): Progress {
    var log := Log([], [PipelineStarted], [], [], flags.noEvidence);
    if f.inputError.Some? then
      Ended(FailedLog(log, InputLoad, Failed, [], f.inputError.value), PipelineInvalidInput, EXIT_INVALID)
    else if f.loadError.Some? then
      Ended(FailedLog(Begin(log, InputLoad), InputLoad, Failed, [], f.loadError.value), PipelineInvalidInput,
            EXIT_INVALID)
    else Running(DoneLog(Begin(log, InputLoad), InputLoad, []))
  }

  function AfterRuntime(f: Facts, flags: Flags, log0: Log): Progress {
    var log := Begin(log0, RuntimeDryRun);
    if f.dryRunError.Some? then BlockedAfter(FailedLog(log, RuntimeDryRun, Failed, [], f.dryRunError.value))
    else if f.runtimeBlock.Some? then
      var warned := log.(warnings := log.warnings + f.runtimeWarnings,
                         trace := log.trace + Warned(RuntimeDryRun, f.runtimeWarnings));
      BlockedAfter(SkipAll(FailedLog(warned, RuntimeDryRun, Blocked, f.runtimeWarnings, f.runtimeBlock.value),
                           [AdapterSimulation, FailureRollback, PolicySimulation, EvidenceBundle],
                           AfterBlocked(RuntimeDryRun)))
    else
      var done := DoneLog(log, RuntimeDryRun, f.runtimeWarnings);
      if flags.stopOnWarning && f.runtimeWarnings != [] then WarnedAfter(StopRemaining(done))
      else Running(done)
  }

  /** `_skip_remaining_after_warning`: every registry stage not yet present, except the first and the last. */
  function Remaining(stages: seq<StageResult>, n: nat): seq<StageName>
    requires n <= |STAGES|
  {
    if n == 0 then []
    else
      var name := STAGES[n - 1];
      Remaining(stages, n - 1)
      + (if LastNamed(stages, name).Some? || name == InputLoad || name == ReportStage then [] else [name])
  }

  function StopRemaining(log: Log): Log {
    var names := Remaining(log.stages, |STAGES|);
    log.(stages := log.stages + WarnSkipped(names), trace := log.trace + SkipEvents(names, StopOnWarning))
  }

  /** A blocked adapter stage falls through to the failure stage. */
  function AfterAdapter(f: Facts, flags: Flags, log0: Log): Progress {
    var log := Begin(log0, AdapterSimulation);
    if f.adapterBlock.Some? then Running(FailedLog(log, AdapterSimulation, Blocked, [], f.adapterBlock.value))
    else
      var done := DoneLog(log, AdapterSimulation, f.adapterWarnings);
      if flags.stopOnWarning && f.adapterWarnings != [] then WarnedAfter(StopRemaining(done))
      else Running(done)
  }

  function AfterFailure(f: Facts, log0: Log): Progress {
    var log := Begin(log0, FailureRollback);
    if f.failureBlock.Some? then
      BlockedAfter(SkipAll(FailedLog(log, FailureRollback, Blocked, [], f.failureBlock.value),
                           [PolicySimulation, EvidenceBundle], AfterBlocked(FailureRollback)))
    else Running(DoneLog(log, FailureRollback, []))
  }

  function AfterPolicy(f: Facts, flags: Flags, log0: Log): Progress {
    var log := Begin(log0, PolicySimulation);
    if f.policyBlock.Some? then
      BlockedAfter(SkipAll(FailedLog(log, PolicySimulation, Blocked, [], f.policyBlock.value),
                           [EvidenceBundle], AfterBlocked(PolicySimulation)).(evidenceSkipped := true))
    else
      var done := DoneLog(log, PolicySimulation, f.policyWarnings);
      if flags.stopOnWarning && f.policyWarnings != [] then
        WarnedAfter(SkipAll(done, [EvidenceBundle], StopOnWarning).(evidenceSkipped := true))
      else Running(done)
  }

  function AfterEvidence(f: Facts, flags: Flags, log0: Log): Progress {
    if flags.noEvidence then
      Running(log0.(stages := log0.stages + [MakeStage(EvidenceBundle, Skipped, [], [], Some(EvidenceDisabled))],
                    trace := log0.trace + [StageSkipped(EvidenceBundle, EvidenceDisabled)]))
    else
      var log := Begin(log0, EvidenceBundle);
      match f.evidence
      case EvidenceBlocked(reason) => BlockedAfter(FailedLog(log, EvidenceBundle, Blocked, [], reason))
      case EvidencePassed(warnings) => Running(DoneLog(log, EvidenceBundle, warnings))
  }

  /** The normal end of a run. */
  function AtEnd(log: Log): Progress {
    var status := if log.blocking != [] then PipelineBlocked
                  else if log.warnings != [] then PipelineCompletedWithWarnings else PipelineCompleted;
    var reportStatus := if log.blocking == [] && log.warnings != [] then CompletedWithWarnings else Completed;
    Ended(log.(stages := log.stages + [MakeStage(ReportStage, reportStatus, log.warnings, [], None)],
               trace := log.trace + [StageCompleted(ReportStage)]),
          status, if log.blocking != [] then EXIT_INVALID else EXIT_OK)
  }

  function Closing(status: PipelineStatus, terminal: Terminal): seq<Event> {
    [TerminalRecorded(terminal), ConsistencyChecked, CompletedAs(status)]
  }

  /** `_finalize`; a run that ends with exit code 0 reports no blocking reasons. */
  function Finalize(p: Progress): RunResult
    requires p.Ended?
  {
    RunResult(p.exitCode, p.status, p.log.stages,
              p.log.trace + Closing(p.status, TerminalState(p.status, p.log.stages)),
              p.log.warnings, if p.exitCode == EXIT_OK then [] else p.log.blocking, p.log.evidenceSkipped)
  }

  /** The run from the failure stage on. */
  function FromFailure(f: Facts, flags: Flags, log: Log): (p: Progress)
    ensures p.Ended?
  {
    var p4 := AfterFailure(f, log);
    if p4.Ended? then p4 else
    var p5 := AfterPolicy(f, flags, p4.log);
    if p5.Ended? then p5 else
    var p6 := AfterEvidence(f, flags, p5.log);
    if p6.Ended? then p6 else AtEnd(p6.log)
  }

  /** The whole run, stage after stage until one ends it. */
  function Final(f: Facts, flags: Flags): (p: Progress)
    ensures p.Ended?
  {
    var p1 := AfterInput(f, flags);
    if p1.Ended? then p1 else
    var p2 := AfterRuntime(f, flags, p1.log);
    if p2.Ended? then p2 else
    var p3 := AfterAdapter(f, flags, p2.log);
    if p3.Ended? then p3 else FromFailure(f, flags, p3.log)
  }

  function RunOf(f: Facts, flags: Flags): RunResult {
    Finalize(Final(f, flags))
  }

  method RemainingStages(present: seq<StageResult>) returns (names: seq<StageName>)
    ensures names == Remaining(present, |STAGES|)
  {
    names := [];
    for i := 0 to |STAGES|
      invariant names == Remaining(present, i)
    {
      var name := STAGES[i];
      if LastNamed(present, name).None? && name != InputLoad && name != ReportStage {
        names := names + [name];
      }
    }
  }

  /** One pipeline run with the lists the source passes around and mutates. */
  class Run {
    var stages: seq<StageResult>
    var trace: seq<Event>
    var warnings: seq<string>
    var blocking: seq<string>
    var evidenceSkipped: bool

    ghost function State(): Log
      reads this
    {
      Log(stages, trace, warnings, blocking, evidenceSkipped)
    }

    constructor (flags: Flags)
      ensures State() == Log([], [PipelineStarted], [], [], flags.noEvidence)
    {
      stages, trace, warnings, blocking, evidenceSkipped := [], [PipelineStarted], [], [], flags.noEvidence;
    }

    method Start(stage: StageName)
      modifies this`trace
      ensures trace == old(trace) + [StageStarted(stage)]
    {
      trace := trace + [StageStarted(stage)];
    }

    method Fail(stage: StageName, status: StageStatus, stageWarnings: seq<string>, reason: string)
      modifies this
      ensures State() == FailedLog(old(State()), stage, status, stageWarnings, reason)
    {
      stages := stages + [MakeStage(stage, status, stageWarnings, [Cause(reason)], None)];
      blocking := blocking + [reason];
      trace := trace + [StageFailed(stage, reason)];
    }

    /** Record the warnings of a stage and one warning event for each. */
    method Warn(stage: StageName, stageWarnings: seq<string>)
      modifies this`warnings, this`trace
      ensures warnings == old(warnings) + stageWarnings
      ensures trace == old(trace) + Warned(stage, stageWarnings)
    {
      warnings := warnings + stageWarnings;
      for i := 0 to |stageWarnings|
        invariant warnings == old(warnings) + stageWarnings
        invariant trace == old(trace) + Warned(stage, stageWarnings)[..i]
      {
        trace := trace + [StageWarned(stage, stageWarnings[i])];
      }
    }

    method Complete(stage: StageName, stageWarnings: seq<string>)
      modifies this
      ensures State() == DoneLog(old(State()), stage, stageWarnings)
    {
      if stageWarnings != [] {
        Warn(stage, stageWarnings);
      }
      stages := stages
        + [MakeStage(stage, if stageWarnings != [] then CompletedWithWarnings else Completed, stageWarnings, [], None)];
      trace := trace + [StageCompleted(stage)];
    }

    /** The `_skip_*` helpers for a blocked stage. */
    method Skip(names: seq<StageName>, cause: Cause)
      modifies this`stages, this`trace
      ensures State() == SkipAll(old(State()), names, cause)
    {
      for i := 0 to |names|
        invariant stages == old(stages) + SkippedStages(names, cause)[..i]
        invariant trace == old(trace) + SkipEvents(names, cause)[..i]
      {
        stages := stages + [MakeStage(names[i], Skipped, [], [cause], None)];
        trace := trace + [StageSkipped(names[i], cause)];
      }
    }

    method SkipRemainingAfterWarning()
      modifies this`stages, this`trace
      ensures State() == StopRemaining(old(State()))
    {
      var names := RemainingStages(stages);
      for i := 0 to |names|
        invariant stages == old(stages) + WarnSkipped(names)[..i]
        invariant trace == old(trace) + SkipEvents(names, StopOnWarning)[..i]
      {
        stages := stages + [MakeStage(names[i], Skipped, [], [], Some(StopOnWarning))];
        trace := trace + [StageSkipped(names[i], StopOnWarning)];
      }
    }

    /** `_finalize`: the completion event already recorded is popped and re-appended after the terminal state. */
    method Finish(status: PipelineStatus, exitCode: int, reported: seq<string>, ghost before: seq<Event>)
      returns (r: RunResult)
      requires trace == before + [CompletedAs(status)]
      modifies this`trace
      ensures r == RunResult(exitCode, status, stages, before + Closing(status, TerminalState(status, stages)),
                             warnings, reported, evidenceSkipped)
      ensures trace == r.trace
    {
      var terminal := TerminalState(status, stages);
      var completion := trace[|trace| - 1];
      trace := trace[..|trace| - 1];
      assert trace == before;
      trace := trace + [TerminalRecorded(terminal)];
      trace := trace + [ConsistencyChecked];
      trace := trace + [completion];
      assert trace == before + Closing(status, terminal);
      r := RunResult(exitCode, status, stages, trace, warnings, reported, evidenceSkipped);
    }

    method FinishBlocked() returns (r: RunResult)
      modifies this
      ensures r == Finalize(BlockedAfter(old(State())))
      ensures trace == r.trace && stages == r.stages
    {
      trace := trace + [StageCompleted(ReportStage)];
      ghost var before := trace;
      trace := trace + [CompletedAs(PipelineBlocked)];
      stages := stages + [MakeStage(ReportStage, Completed, [], [], None)];
      r := Finish(PipelineBlocked, EXIT_INVALID, blocking, before);
    }

    method FinishWithWarnings() returns (r: RunResult)
      modifies this
      ensures r == Finalize(WarnedAfter(old(State())))
      ensures trace == r.trace && stages == r.stages
    {
      trace := trace + [StageCompleted(ReportStage)];
      ghost var before := trace;
      trace := trace + [CompletedAs(PipelineCompletedWithWarnings)];
      stages := stages + [MakeStage(ReportStage, CompletedWithWarnings, warnings, [], None)];
      r := Finish(PipelineCompletedWithWarnings, EXIT_OK, [], before);
    }

    method FinishNormally() returns (r: RunResult)
      modifies this
      ensures r == Finalize(AtEnd(old(State())))
      ensures trace == r.trace && stages == r.stages
    {
      var status := if blocking != [] then PipelineBlocked
                    else if warnings != [] then PipelineCompletedWithWarnings else PipelineCompleted;
      var exitCode := if blocking != [] then EXIT_INVALID else EXIT_OK;
      trace := trace + [StageCompleted(ReportStage)];
      ghost var before := trace;
      trace := trace + [CompletedAs(status)];
      stages := stages + [MakeStage(ReportStage,
                                    if blocking != [] then Completed
                                    else if warnings != [] then CompletedWithWarnings else Completed,
                                    warnings, [], None)];
      r := Finish(status, exitCode, blocking, before);
    }

    method FinishInvalid() returns (r: RunResult)
      modifies this
      ensures r == Finalize(Ended(old(State()), PipelineInvalidInput, EXIT_INVALID))
      ensures trace == r.trace && stages == r.stages
    {
      ghost var before := trace;
      trace := trace + [CompletedAs(PipelineInvalidInput)];
      r := Finish(PipelineInvalidInput, EXIT_INVALID, blocking, before);
    }
  }
}
