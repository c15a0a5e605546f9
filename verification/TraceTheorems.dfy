/** Trace discipline: the start and close events of a run are exactly the brackets its stage results call for. */
module TraceTheorems {
  import opened Base
  import opened PipelineReport
  import opened PipelineRunner

  /** The five stages between input_load and pipeline_report. */
  predicate Inner(s: StageName) {
    s != InputLoad && s != ReportStage
  }

  datatype Bracket = Open(stage: StageName) | Close(stage: StageName, completed: bool)

  function BracketOf(e: Event): seq<Bracket> {
    match e
    case StageStarted(s) => if Inner(s) then [Open(s)] else []
    case StageCompleted(s) => if Inner(s) then [Close(s, true)] else []
    case StageFailed(s, _) => if Inner(s) then [Close(s, false)] else []
    case _ => []
  }

  /** The start and close events of inner stages, in trace order. */
  function Brackets(trace: seq<Event>): seq<Bracket> {
    FlatMap(BracketOf, trace)
  }

  function BracketsOf(r: StageResult): seq<Bracket> {
    if Inner(r.name) && r.Ran() then [Open(r.name), Close(r.name, r.Done())] else []
  }

  /** One open and one close for every inner stage that ran, in stage order. */
  function Expected(stages: seq<StageResult>): seq<Bracket> {
    FlatMap(BracketsOf, stages)
  }

  ghost predicate NotCompletion(trace: seq<Event>) {
    forall e :: e in trace ==> !e.CompletedAs?
  }

  /** The stages logged so far are bracketed, and no completion event has been recorded. */
  ghost predicate Tidy(log: Log) {
    Brackets(log.trace) == Expected(log.stages) && NotCompletion(log.trace)
  }

  lemma ExpectedSnoc(stages: seq<StageResult>, r: StageResult)
    ensures Expected(stages + [r]) == Expected(stages) + BracketsOf(r)
  {
    FlatMapAppend(BracketsOf, stages, [r]);
    FlatMapOne(BracketsOf, r);
  }

  lemma NoBrackets(trace: seq<Event>)
    requires forall i :: 0 <= i < |trace| ==> trace[i].StageWarned? || trace[i].StageSkipped?
    ensures Brackets(trace) == []
  {
    FlatMapEmpty(BracketOf, trace);
  }

  /** The trace of one stage that starts, warns and closes. */
  lemma OneStageBrackets(trace: seq<Event>, stage: StageName, warnings: seq<string>, close: Event)
    requires Inner(stage)
    ensures Brackets(trace + [StageStarted(stage)] + Warned(stage, warnings) + [close])
         == Brackets(trace) + [Open(stage)] + BracketOf(close)
  {
    FlatMapAppend(BracketOf, trace + [StageStarted(stage)] + Warned(stage, warnings), [close]);
    FlatMapAppend(BracketOf, trace + [StageStarted(stage)], Warned(stage, warnings));
    FlatMapAppend(BracketOf, trace, [StageStarted(stage)]);
    FlatMapOne(BracketOf, close);
    FlatMapOne(BracketOf, StageStarted(stage));
    NoBrackets(Warned(stage, warnings));
  }

  lemma DoneIsTidy(log: Log, stage: StageName, warnings: seq<string>)
    requires Tidy(log) && Inner(stage)
    ensures Tidy(DoneLog(Begin(log, stage), stage, warnings))
  {
    OneStageBrackets(log.trace, stage, warnings, StageCompleted(stage));
    var r := MakeStage(stage, if warnings != [] then CompletedWithWarnings else Completed, warnings, [], None);
    ExpectedSnoc(log.stages, r);
    assert r.name == stage && r.Done() && r.Ran();
  }

  lemma FailedIsTidy(log: Log, stage: StageName, status: StageStatus, reason: string)
    requires Tidy(log) && Inner(stage) && (status.Blocked? || status.Failed?)
    ensures Tidy(FailedLog(Begin(log, stage), stage, status, [], reason))
  {
    OneStageBrackets(log.trace, stage, [], StageFailed(stage, reason));
    assert log.trace + [StageStarted(stage)] + Warned(stage, []) == log.trace + [StageStarted(stage)];
    ExpectedSnoc(log.stages, MakeStage(stage, status, [], [Cause(reason)], None));
  }

  lemma WarnedThenFailedIsTidy(log: Log, stage: StageName, warnings: seq<string>, reason: string)
    requires Tidy(log) && Inner(stage)
    ensures var warned := Begin(log, stage).(trace := Begin(log, stage).trace + Warned(stage, warnings),
                                             warnings := log.warnings + warnings);
      Tidy(FailedLog(warned, stage, Blocked, warnings, reason))
  {
    OneStageBrackets(log.trace, stage, warnings, StageFailed(stage, reason));
    ExpectedSnoc(log.stages, MakeStage(stage, Blocked, warnings, [Cause(reason)], None));
  }

  /** Appending skipped or outer stages together with events that open and close nothing keeps a log tidy. */
  lemma QuietAppend(log: Log, stages: seq<StageResult>, events: seq<Event>, log': Log)
    requires Tidy(log)
    requires log'.stages == log.stages + stages && log'.trace == log.trace + events
    requires forall i :: 0 <= i < |stages| ==> stages[i].status.Skipped? || !Inner(stages[i].name)
    requires Brackets(events) == [] && NotCompletion(events)
    ensures Tidy(log')
  {
    FlatMapAppend(BracketOf, log.trace, events);
    FlatMapAppend(BracketsOf, log.stages, stages);
    FlatMapEmpty(BracketsOf, stages);
  }

  lemma SkipIsTidy(log: Log, names: seq<StageName>, cause: Cause, evidenceSkipped: bool)
    requires Tidy(log)
    ensures Tidy(SkipAll(log, names, cause).(evidenceSkipped := evidenceSkipped))
  {
    NoBrackets(SkipEvents(names, cause));
    QuietAppend(log, SkippedStages(names, cause), SkipEvents(names, cause), SkipAll(log, names, cause));
  }

  lemma StopRemainingIsTidy(log: Log)
    requires Tidy(log)
    ensures Tidy(StopRemaining(log))
  {
    var names := Remaining(log.stages, |STAGES|);
    NoBrackets(SkipEvents(names, StopOnWarning));
    QuietAppend(log, WarnSkipped(names), SkipEvents(names, StopOnWarning), StopRemaining(log));
  }

  lemma ReportIsTidy(log: Log, r: StageResult, log': Log)
    requires Tidy(log) && r.name == ReportStage
    requires log'.stages == log.stages + [r] && log'.trace == log.trace + [StageCompleted(ReportStage)]
    ensures Tidy(log')
  {
    FlatMapOne(BracketOf, StageCompleted(ReportStage));
    QuietAppend(log, [r], [StageCompleted(ReportStage)], log');
  }

  lemma EndsTidy(log: Log)
    requires Tidy(log)
    ensures Tidy(BlockedAfter(log).log) && Tidy(WarnedAfter(log).log) && Tidy(AtEnd(log).log)
  {
    var b, w, e := BlockedAfter(log).log, WarnedAfter(log).log, AtEnd(log).log;
    ReportIsTidy(log, b.stages[|log.stages|], b);
    ReportIsTidy(log, w.stages[|log.stages|], w);
    ReportIsTidy(log, e.stages[|log.stages|], e);
  }

  /** A log of events that bracket nothing and of outer stages is tidy. */
  lemma QuietLogIsTidy(log: Log)
    requires forall i :: 0 <= i < |log.trace| ==> BracketOf(log.trace[i]) == [] && !log.trace[i].CompletedAs?
    requires forall i :: 0 <= i < |log.stages| ==> !Inner(log.stages[i].name)
    ensures Tidy(log)
  {
    FlatMapEmpty(BracketsOf, log.stages);
    FlatMapEmpty(BracketOf, log.trace);
  }

  lemma InputIsTidy(f: Facts, flags: Flags)
    ensures Tidy(AfterInput(f, flags).log)
  {
    hide Tidy;
    var log := AfterInput(f, flags).log;
    assert |log.stages| == 1 && log.stages[0].name == InputLoad;
    QuietLogIsTidy(log);
  }

  lemma RuntimeIsTidy(f: Facts, flags: Flags, log: Log)
    requires Tidy(log)
    ensures Tidy(AfterRuntime(f, flags, log).log)
  {
    if f.dryRunError.Some? {
      FailedIsTidy(log, RuntimeDryRun, Failed, f.dryRunError.value);
      EndsTidy(FailedLog(Begin(log, RuntimeDryRun), RuntimeDryRun, Failed, [], f.dryRunError.value));
    } else if f.runtimeBlock.Some? {
      WarnedThenFailedIsTidy(log, RuntimeDryRun, f.runtimeWarnings, f.runtimeBlock.value);
      var begun := Begin(log, RuntimeDryRun);
      var warned := begun.(warnings := log.warnings + f.runtimeWarnings,
                           trace := begun.trace + Warned(RuntimeDryRun, f.runtimeWarnings));
      var failed := FailedLog(warned, RuntimeDryRun, Blocked, f.runtimeWarnings, f.runtimeBlock.value);
      var names := [AdapterSimulation, FailureRollback, PolicySimulation, EvidenceBundle];
      SkipIsTidy(failed, names, AfterBlocked(RuntimeDryRun), failed.evidenceSkipped);
      EndsTidy(SkipAll(failed, names, AfterBlocked(RuntimeDryRun)));
    } else {
      DoneIsTidy(log, RuntimeDryRun, f.runtimeWarnings);
      var done := DoneLog(Begin(log, RuntimeDryRun), RuntimeDryRun, f.runtimeWarnings);
      StopRemainingIsTidy(done);
      EndsTidy(StopRemaining(done));
    }
  }

  lemma AdapterIsTidy(f: Facts, flags: Flags, log: Log)
    requires Tidy(log)
    ensures Tidy(AfterAdapter(f, flags, log).log)
  {
    if f.adapterBlock.Some? {
      FailedIsTidy(log, AdapterSimulation, Blocked, f.adapterBlock.value);
    } else {
      DoneIsTidy(log, AdapterSimulation, f.adapterWarnings);
      var done := DoneLog(Begin(log, AdapterSimulation), AdapterSimulation, f.adapterWarnings);
      StopRemainingIsTidy(done);
      EndsTidy(StopRemaining(done));
    }
  }

  lemma FailureIsTidy(f: Facts, log: Log)
    requires Tidy(log)
    ensures Tidy(AfterFailure(f, log).log)
  {
    if f.failureBlock.Some? {
      FailedIsTidy(log, FailureRollback, Blocked, f.failureBlock.value);
      var failed := FailedLog(Begin(log, FailureRollback), FailureRollback, Blocked, [], f.failureBlock.value);
      SkipIsTidy(failed, [PolicySimulation, EvidenceBundle], AfterBlocked(FailureRollback), failed.evidenceSkipped);
      EndsTidy(SkipAll(failed, [PolicySimulation, EvidenceBundle], AfterBlocked(FailureRollback)));
    } else {
      DoneIsTidy(log, FailureRollback, []);
    }
  }

  lemma PolicyIsTidy(f: Facts, flags: Flags, log: Log)
    requires Tidy(log)
    ensures Tidy(AfterPolicy(f, flags, log).log)
  {
    if f.policyBlock.Some? {
      FailedIsTidy(log, PolicySimulation, Blocked, f.policyBlock.value);
      var failed := FailedLog(Begin(log, PolicySimulation), PolicySimulation, Blocked, [], f.policyBlock.value);
      SkipIsTidy(failed, [EvidenceBundle], AfterBlocked(PolicySimulation), true);
      EndsTidy(SkipAll(failed, [EvidenceBundle], AfterBlocked(PolicySimulation)).(evidenceSkipped := true));
    } else {
      DoneIsTidy(log, PolicySimulation, f.policyWarnings);
      var done := DoneLog(Begin(log, PolicySimulation), PolicySimulation, f.policyWarnings);
      SkipIsTidy(done, [EvidenceBundle], StopOnWarning, true);
      EndsTidy(SkipAll(done, [EvidenceBundle], StopOnWarning).(evidenceSkipped := true));
    }
  }

  lemma EvidenceIsTidy(f: Facts, flags: Flags, log: Log)
    requires Tidy(log)
    ensures Tidy(AfterEvidence(f, flags, log).log)
  {
    if flags.noEvidence {
      NoBrackets([StageSkipped(EvidenceBundle, EvidenceDisabled)]);
      QuietAppend(log, [MakeStage(EvidenceBundle, Skipped, [], [], Some(EvidenceDisabled))],
                  [StageSkipped(EvidenceBundle, EvidenceDisabled)], AfterEvidence(f, flags, log).log);
    } else if f.evidence.EvidenceBlocked? {
      FailedIsTidy(log, EvidenceBundle, Blocked, f.evidence.reason);
      EndsTidy(FailedLog(Begin(log, EvidenceBundle), EvidenceBundle, Blocked, [], f.evidence.reason));
    } else {
      DoneIsTidy(log, EvidenceBundle, f.evidence.warnings);
    }
  }

  lemma FinalIsTidy(f: Facts, flags: Flags)
    ensures Tidy(Final(f, flags).log)
  {
    InputIsTidy(f, flags);
    var p1 := AfterInput(f, flags);
    if p1.Running? {
      RuntimeIsTidy(f, flags, p1.log);
      var p2 := AfterRuntime(f, flags, p1.log);
      if p2.Running? {
        AdapterIsTidy(f, flags, p2.log);
        var p3 := AfterAdapter(f, flags, p2.log);
        if p3.Running? {
          TailIsTidy(f, flags, p3.log);
        }
      }
    }
  }

  lemma TailIsTidy(f: Facts, flags: Flags, log: Log)
    requires Tidy(log)
    ensures Tidy(FromFailure(f, flags, log).log)
  {
    FailureIsTidy(f, log);
    var p4 := AfterFailure(f, log);
    if p4.Running? {
      PolicyIsTidy(f, flags, p4.log);
      var p5 := AfterPolicy(f, flags, p4.log);
      if p5.Running? {
        EvidenceIsTidy(f, flags, p5.log);
        EndsTidy(AfterEvidence(f, flags, p5.log).log);
      }
    }
  }

  /** Trace discipline, on every run without exception: the trace is a body and three closing events (terminal state,
      consistency check, and the only completion event); the start and close events of the inner stages in the body
      are, in order, one start and one matching close for exactly the stages that ran, closed as completed or failed
      as their status says. */
  lemma TraceIsDisciplined(f: Facts, flags: Flags)
    ensures var r := RunOf(f, flags);
      && |r.trace| >= 3
      && var body := r.trace[..|r.trace| - 3];
         && r.trace == body + Closing(r.status, TerminalState(r.status, r.stages))
         && NotCompletion(body)
         && Brackets(body) == Expected(r.stages)
  {
    FinalIsTidy(f, flags);
    var log := Final(f, flags).log;
    var r := RunOf(f, flags);
    assert r.trace[..|r.trace| - 3] == log.trace;
  }
}
