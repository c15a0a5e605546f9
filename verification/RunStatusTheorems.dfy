/** What a run says of itself in the end: its status, its warnings and its blocking reasons are those of its stages. */
module RunStatusTheorems {
  import opened Base
  import opened PipelineReport
  import opened PipelineRunner
  import opened RunTheorems
  import opened RunReportTheorems

  // ---- the lists of a run are the sums of its stages ----

  function OwnWarnings(): StageResult -> seq<string> {
    (s: StageResult) => s.warnings
  }

  /** The reason a blocked or failed stage gives. */
  function OwnBlocks(): StageResult -> seq<Cause> {
    (s: StageResult) => if s.Stopped() then s.blocking else []
  }

  /** The status of a stage agrees with its warnings and its reasons. */
  predicate StatusFits(s: StageResult) {
    && (s.Done() ==> (s.status.CompletedWithWarnings? <==> s.warnings != []))
    && (s.status.Skipped? ==> s.warnings == [])
    && (s.Stopped() ==> |s.blocking| == 1)
    && (s.status.Blocked? ==> s.blockReason == Some(s.blocking[0]))
    && (s.status.Failed? ==> s.failureReason == Some(s.blocking[0]))
  }

  /** The warnings and blocking reasons of a run are those of these stages, in order. */
  ghost predicate Booked(stages: seq<StageResult>, warnings: seq<string>, blocking: seq<string>) {
    && warnings == FlatMap(OwnWarnings(), stages)
    && Causes(blocking) == FlatMap(OwnBlocks(), stages)
    && forall s :: s in stages ==> StatusFits(s)
  }

  lemma BookOne(stages: seq<StageResult>, warnings: seq<string>, blocking: seq<string>, s: StageResult,
                added: seq<string>, stops: seq<string>)
    requires Booked(stages, warnings, blocking) && StatusFits(s)
    requires added == s.warnings && Causes(stops) == OwnBlocks()(s)
    ensures Booked(stages + [s], warnings + added, blocking + stops)
  {
    FlatMapAppend(OwnWarnings(), stages, [s]);
    FlatMapAppend(OwnBlocks(), stages, [s]);
    FlatMapOne(OwnWarnings(), s);
    FlatMapOne(OwnBlocks(), s);
    assert Causes(blocking + stops) == Causes(blocking) + Causes(stops);
  }

  ghost predicate LogBooked(log: Log) {
    Booked(log.stages, log.warnings, log.blocking)
  }

  lemma BeginBooked(log: Log, stage: StageName)
    requires LogBooked(log)
    ensures LogBooked(Begin(log, stage))
  {
  }

  lemma DoneBooked(log: Log, stage: StageName, warnings: seq<string>)
    requires LogBooked(log)
    ensures LogBooked(DoneLog(log, stage, warnings))
  {
    hide Booked;
    var s := MakeStage(stage, if warnings != [] then CompletedWithWarnings else Completed, warnings, [], None);
    BookOne(log.stages, log.warnings, log.blocking, s, warnings, []);
    assert log.blocking + [] == log.blocking;
  }

  lemma StopBooked(log: Log, stage: StageName, status: StageStatus, reason: string)
    requires LogBooked(log) && (status == Blocked || status == Failed)
    ensures LogBooked(FailedLog(log, stage, status, [], reason))
  {
    hide Booked;
    var s := MakeStage(stage, status, [], [Cause(reason)], None);
    BookOne(log.stages, log.warnings, log.blocking, s, [], [reason]);
    assert log.warnings + [] == log.warnings;
  }

  /** A blocked runtime stage reports its warnings before it blocks. */
  lemma WarnedStopBooked(log: Log, stage: StageName, warnings: seq<string>, reason: string)
    requires LogBooked(log)
    ensures LogBooked(FailedLog(log.(warnings := log.warnings + warnings, trace := log.trace + Warned(stage, warnings)),
                                stage, Blocked, warnings, reason))
  {
    hide Booked;
    BookOne(log.stages, log.warnings, log.blocking, MakeStage(stage, Blocked, warnings, [Cause(reason)], None),
            warnings, [reason]);
  }

  lemma {:induction false} SkippedBooked(stages: seq<StageResult>, warnings: seq<string>, blocking: seq<string>,
                                         skipped: seq<StageResult>)
    requires Booked(stages, warnings, blocking)
    requires forall s :: s in skipped ==> s.status.Skipped? && s.warnings == []
    ensures Booked(stages + skipped, warnings, blocking)
  {
    hide Booked;
    if skipped == [] {
      assert stages + skipped == stages;
    } else {
      var n := |skipped| - 1;
      assert skipped[n] in skipped;
      SkippedBooked(stages, warnings, blocking, skipped[..n]);
      BookOne(stages + skipped[..n], warnings, blocking, skipped[n], [], []);
      assert stages + skipped == (stages + skipped[..n]) + [skipped[n]];
      assert warnings + [] == warnings && blocking + [] == blocking;
    }
  }

  lemma SkipBooked(log: Log, names: seq<StageName>, cause: Cause)
    requires LogBooked(log)
    ensures LogBooked(SkipAll(log, names, cause))
  {
    hide Booked;
    SkippedBooked(log.stages, log.warnings, log.blocking, SkippedStages(names, cause));
  }

  lemma RemainderBooked(log: Log)
    requires LogBooked(log)
    ensures LogBooked(StopRemaining(log))
  {
    hide Booked;
    SkippedBooked(log.stages, log.warnings, log.blocking, WarnSkipped(Remaining(log.stages, |STAGES|)));
  }

  /** An ended run: its lists are those of the stages before the report; its status, its exit code and the report's
      status follow from the lists. */
  ghost predicate Concluded(p: Progress) {
    && p.Ended? && |p.log.stages| > 0
    && var n := |p.log.stages| - 1;
       var report := p.log.stages[n];
       && Booked(p.log.stages[..n], p.log.warnings, p.log.blocking)
       && report.name == ReportStage && report.Done()
       && (if p.exitCode == EXIT_OK
           then p.status == (if p.log.warnings != [] then PipelineCompletedWithWarnings else PipelineCompleted)
                && report.warnings == p.log.warnings && StatusFits(report)
           else p.exitCode == EXIT_INVALID && p.status == PipelineBlocked && p.log.blocking != []
                && (report.status.CompletedWithWarnings? ==> report.warnings != []))
  }

  ghost predicate StepBooked(p: Progress) {
    if p.Running? then LogBooked(p.log) else Concluded(p)
  }

  lemma BlockedConcluded(log: Log)
    requires LogBooked(log) && log.blocking != []
    ensures Concluded(BlockedAfter(log))
  {
    hide Booked;
    assert (log.stages + [MakeStage(ReportStage, Completed, [], [], None)])[..|log.stages|] == log.stages;
  }

  lemma WarnedConcluded(log: Log)
    requires LogBooked(log) && log.warnings != []
    ensures Concluded(WarnedAfter(log))
  {
    hide Booked;
    assert (log.stages + [MakeStage(ReportStage, CompletedWithWarnings, log.warnings, [], None)])[..|log.stages|]
           == log.stages;
  }

  lemma EndConcluded(log: Log)
    requires LogBooked(log)
    ensures Concluded(AtEnd(log))
  {
    hide Booked;
    var p := AtEnd(log);
    assert p.log.stages[..|log.stages|] == log.stages;
  }

  lemma RuntimeBooked(f: Facts, flags: Flags, log0: Log)
    requires LogBooked(log0)
    ensures StepBooked(AfterRuntime(f, flags, log0))
  {
    hide LogBooked, Concluded, MakeStage, DoneLog, FailedLog, SkipAll, StopRemaining;
    BeginBooked(log0, RuntimeDryRun);
    var log := Begin(log0, RuntimeDryRun);
    if f.dryRunError.Some? {
      StopBooked(log, RuntimeDryRun, Failed, f.dryRunError.value);
      FailedHasReason(log, RuntimeDryRun, Failed, [], f.dryRunError.value);
      BlockedConcluded(FailedLog(log, RuntimeDryRun, Failed, [], f.dryRunError.value));
    } else if f.runtimeBlock.Some? {
      WarnedStopBooked(log, RuntimeDryRun, f.runtimeWarnings, f.runtimeBlock.value);
      var warned := log.(warnings := log.warnings + f.runtimeWarnings,
                         trace := log.trace + Warned(RuntimeDryRun, f.runtimeWarnings));
      var failed := FailedLog(warned, RuntimeDryRun, Blocked, f.runtimeWarnings, f.runtimeBlock.value);
      FailedHasReason(warned, RuntimeDryRun, Blocked, f.runtimeWarnings, f.runtimeBlock.value);
      SkipConcluded(failed, [AdapterSimulation, FailureRollback, PolicySimulation, EvidenceBundle],
                    AfterBlocked(RuntimeDryRun));
    } else {
      DoneOrWarned(log, RuntimeDryRun, f.runtimeWarnings);
    }
  }

  lemma FailedHasReason(log: Log, stage: StageName, status: StageStatus, warnings: seq<string>, reason: string)
    ensures FailedLog(log, stage, status, warnings, reason).blocking != []
  {
  }

  lemma SkipConcluded(log: Log, names: seq<StageName>, cause: Cause)
    requires LogBooked(log) && log.blocking != []
    ensures Concluded(BlockedAfter(SkipAll(log, names, cause)))
    ensures Concluded(BlockedAfter(SkipAll(log, names, cause).(evidenceSkipped := true)))
  {
    hide Concluded, BlockedAfter;
    SkipBooked(log, names, cause);
    BlockedConcluded(SkipAll(log, names, cause));
    BlockedConcluded(SkipAll(log, names, cause).(evidenceSkipped := true));
  }

  /** A stage that completes, and what `stop_on_warning` makes of its warnings. */
  lemma DoneOrWarned(log: Log, stage: StageName, warnings: seq<string>)
    requires LogBooked(log)
    ensures LogBooked(DoneLog(log, stage, warnings))
    ensures warnings != [] ==> Concluded(WarnedAfter(StopRemaining(DoneLog(log, stage, warnings))))
    ensures warnings != [] ==>
              Concluded(WarnedAfter(SkipAll(DoneLog(log, stage, warnings), [EvidenceBundle], StopOnWarning)
                                    .(evidenceSkipped := true)))
  {
    hide Concluded, WarnedAfter, Booked;
    DoneBooked(log, stage, warnings);
    if warnings != [] {
      var done := DoneLog(log, stage, warnings);
      RemainderBooked(done);
      SkipBooked(done, [EvidenceBundle], StopOnWarning);
      WarnedConcluded(StopRemaining(done));
      WarnedConcluded(SkipAll(done, [EvidenceBundle], StopOnWarning).(evidenceSkipped := true));
    }
  }

  lemma AdapterBooked(f: Facts, flags: Flags, log0: Log)
    requires LogBooked(log0)
    ensures StepBooked(AfterAdapter(f, flags, log0))
  {
    hide LogBooked, Concluded, MakeStage, DoneLog, FailedLog, StopRemaining;
    BeginBooked(log0, AdapterSimulation);
    var log := Begin(log0, AdapterSimulation);
    if f.adapterBlock.Some? {
      StopBooked(log, AdapterSimulation, Blocked, f.adapterBlock.value);
    } else {
      DoneOrWarned(log, AdapterSimulation, f.adapterWarnings);
    }
  }

  lemma FailureBooked(f: Facts, log0: Log)
    requires LogBooked(log0)
    ensures StepBooked(AfterFailure(f, log0))
  {
    hide LogBooked, Concluded, MakeStage, DoneLog, FailedLog, SkipAll;
    BeginBooked(log0, FailureRollback);
    var log := Begin(log0, FailureRollback);
    if f.failureBlock.Some? {
      StopBooked(log, FailureRollback, Blocked, f.failureBlock.value);
      FailedHasReason(log, FailureRollback, Blocked, [], f.failureBlock.value);
      SkipConcluded(FailedLog(log, FailureRollback, Blocked, [], f.failureBlock.value),
                    [PolicySimulation, EvidenceBundle], AfterBlocked(FailureRollback));
    } else {
      DoneOrWarned(log, FailureRollback, []);
    }
  }

  lemma PolicyBooked(f: Facts, flags: Flags, log0: Log)
    requires LogBooked(log0)
    ensures StepBooked(AfterPolicy(f, flags, log0))
  {
    hide LogBooked, Concluded, MakeStage, DoneLog, FailedLog, SkipAll;
    BeginBooked(log0, PolicySimulation);
    var log := Begin(log0, PolicySimulation);
    if f.policyBlock.Some? {
      StopBooked(log, PolicySimulation, Blocked, f.policyBlock.value);
      FailedHasReason(log, PolicySimulation, Blocked, [], f.policyBlock.value);
      SkipConcluded(FailedLog(log, PolicySimulation, Blocked, [], f.policyBlock.value), [EvidenceBundle],
                    AfterBlocked(PolicySimulation));
    } else {
      DoneOrWarned(log, PolicySimulation, f.policyWarnings);
    }
  }

  lemma EvidenceBooked(f: Facts, flags: Flags, log0: Log)
    requires LogBooked(log0)
    ensures StepBooked(AfterEvidence(f, flags, log0))
  {
    hide Booked, Concluded, DoneLog, FailedLog;
    BeginBooked(log0, EvidenceBundle);
    var log := Begin(log0, EvidenceBundle);
    if flags.noEvidence {
      SkippedBooked(log0.stages, log0.warnings, log0.blocking,
                    [MakeStage(EvidenceBundle, Skipped, [], [], Some(EvidenceDisabled))]);
    } else {
      match f.evidence {
        case EvidenceBlocked(reason) =>
          StopBooked(log, EvidenceBundle, Blocked, reason);
          FailedHasReason(log, EvidenceBundle, Blocked, [], reason);
          BlockedConcluded(FailedLog(log, EvidenceBundle, Blocked, [], reason));
        case EvidencePassed(warnings) =>
          DoneOrWarned(log, EvidenceBundle, warnings);
      }
    }
  }

  lemma InputBooked(f: Facts, flags: Flags)
    requires f.inputError.None? && f.loadError.None?
    ensures AfterInput(f, flags).Running? && LogBooked(AfterInput(f, flags).log)
  {
    var log := Log([], [PipelineStarted], [], [], flags.noEvidence);
    assert LogBooked(log);
    DoneBooked(Begin(log, InputLoad), InputLoad, []);
  }

  /** Every run that loads its inputs ends concluded. */
  lemma RunIsConcluded(f: Facts, flags: Flags)
    requires f.inputError.None? && f.loadError.None?
    ensures Concluded(Final(f, flags))
  {
    hide LogBooked, Concluded, AfterInput, AfterRuntime, AfterAdapter, AfterFailure, AfterPolicy, AfterEvidence, AtEnd;
    InputBooked(f, flags);
    var p1 := AfterInput(f, flags);
    RuntimeBooked(f, flags, p1.log);
    var p2 := AfterRuntime(f, flags, p1.log);
    if p2.Running? {
      AdapterBooked(f, flags, p2.log);
      var p3 := AfterAdapter(f, flags, p2.log);
      if p3.Running? {
        FailureBooked(f, p3.log);
        var p4 := AfterFailure(f, p3.log);
        if p4.Running? {
          PolicyBooked(f, flags, p4.log);
          var p5 := AfterPolicy(f, flags, p4.log);
          if p5.Running? {
            EvidenceBooked(f, flags, p5.log);
            var p6 := AfterEvidence(f, flags, p5.log);
            if p6.Running? { EndConcluded(p6.log); }
          }
        }
      }
    }
  }

  // ---- status, report and warnings ----

  /** The status of a run is that of its warnings, the report stage shows the same, and both warn exactly when some
      stage before the report completed with warnings. A blocked run gives the reasons of its stopped stages. */
  ghost predicate ToldByStages(r: RunResult) {
    && |r.stages| > 0
    && var n := |r.stages| - 1;
       var inner, report := r.stages[..n], r.stages[n];
       && report.name == ReportStage && r.warnings == FlatMap(OwnWarnings(), inner)
       && (r.exitCode == EXIT_OK || r.exitCode == EXIT_INVALID)
       && (r.exitCode == EXIT_OK ==>
             && r.blocking == [] && report.warnings == r.warnings
             && (r.status == PipelineCompletedWithWarnings <==> r.warnings != [])
             && (r.status == PipelineCompleted <==> r.warnings == [])
             && (report.status == CompletedWithWarnings <==> r.warnings != [])
             && (report.status == Completed <==> r.warnings == [])
             && (r.warnings != [] <==> exists s :: s in inner && s.status == CompletedWithWarnings))
       && (r.exitCode == EXIT_INVALID ==>
             r.status == PipelineBlocked && r.blocking != [] && Causes(r.blocking) == FlatMap(OwnBlocks(), inner))
  }

  lemma NoneStoppedBefore(stages: seq<StageResult>, e: Ending)
    requires |stages| == 7 && Shape(stages, e) && !e.stopped
    ensures forall s :: s in stages[..6] ==> !s.Stopped()
  {
    forall s | s in stages[..6] ensures !s.Stopped() {
      var i :| 0 <= i < 6 && stages[..6][i] == s;
      assert stages[i] == s;
    }
  }

  lemma WarnedExactly(inner: seq<StageResult>, warnings: seq<string>, blocking: seq<string>)
    requires Booked(inner, warnings, blocking) && forall s :: s in inner ==> !s.Stopped()
    ensures warnings != [] <==> exists s :: s in inner && s.status == CompletedWithWarnings
  {
    FlatMapEmptyExactly(OwnWarnings(), inner);
    if warnings != [] {
      var s :| s in inner && OwnWarnings()(s) != [];
      assert s.status == CompletedWithWarnings;
    }
  }

  /** Every run that loads its inputs and whose adapter stage does not stop is told by its stages. */
  lemma RunIsToldByStages(f: Facts, flags: Flags)
    requires f.inputError.None? && f.loadError.None? && !AdapterStops(f, flags)
    ensures ToldByStages(RunOf(f, flags))
  {
    hide Final, AdapterStops, EndsAt, Booked, Shape, TerminalState, StatusFits;
    RunIsConcluded(f, flags);
    var p, e := Final(f, flags), EndsAt(f, flags);
    if p.exitCode == EXIT_OK {
      ReportFits(p);
      OkEndsAsExpected(f, flags);
      NoneStoppedBefore(p.log.stages, e);
      WarnedExactly(p.log.stages[..6], p.log.warnings, p.log.blocking);
    }
    ConcludedBooks(p);
  }

  lemma ReportFits(p: Progress)
    requires Concluded(p) && p.exitCode == EXIT_OK
    ensures var report := p.log.stages[|p.log.stages| - 1];
            && (report.status == CompletedWithWarnings <==> p.log.warnings != [])
            && (report.status == Completed <==> p.log.warnings == [])
  {
    hide Booked;
  }

  lemma ConcludedBooks(p: Progress)
    requires Concluded(p)
    ensures var inner := p.log.stages[..|p.log.stages| - 1];
            p.log.warnings == FlatMap(OwnWarnings(), inner) && Causes(p.log.blocking) == FlatMap(OwnBlocks(), inner)
  {
    hide StatusFits;
  }

  lemma OkEndsAsExpected(f: Facts, flags: Flags)
    requires f.inputError.None? && f.loadError.None? && !AdapterStops(f, flags) && Final(f, flags).exitCode == EXIT_OK
    ensures |Final(f, flags).log.stages| == 7 && Shape(Final(f, flags).log.stages, EndsAt(f, flags))
    ensures !EndsAt(f, flags).stopped
  {
    hide Shape, AfterAdapter, AfterFailure, AfterPolicy, AfterEvidence, AtEnd;
    if f.dryRunError.None? {
      RunEndsAsExpected(f, flags);
    }
  }

  // ---- the lists and the terminal state, from the facts ----

  function EvidenceWarnings(f: Facts): seq<string> {
    match f.evidence case EvidencePassed(warnings) => warnings case EvidenceBlocked(_) => []
  }

  /** The warnings of the stages a run got through; a blocked runtime stage has warned before. */
  function WarningsUpTo(f: Facts, e: Ending): seq<string> {
    (if e.done >= 2 || (e.done == 1 && f.dryRunError.None?) then f.runtimeWarnings else [])
    + (if e.done >= 3 then f.adapterWarnings else [])
    + (if e.done >= 5 then f.policyWarnings else [])
    + (if e.done >= 6 then EvidenceWarnings(f) else [])
  }

  function Given(reason: Option<string>): string {
    match reason case Some(text) => text case None => ""
  }

  /** The reason of the stage that stopped a run. */
  function StopReason(f: Facts, e: Ending): string {
    if e.done == 0 then Given(if f.inputError.Some? then f.inputError else f.loadError)
    else if e.done == 1 then Given(if f.dryRunError.Some? then f.dryRunError else f.runtimeBlock)
    else if e.done == 3 then Given(f.failureBlock)
    else if e.done == 4 then Given(f.policyBlock)
    else match f.evidence case EvidenceBlocked(reason) => reason case EvidencePassed(_) => ""
  }

  ghost predicate Lists(p: Progress, warnings: seq<string>, blocking: seq<string>) {
    p.log.warnings == warnings && p.log.blocking == blocking
  }

  lemma RuntimeLists(f: Facts, flags: Flags, log: Log)
    ensures Lists(AfterRuntime(f, flags, log), log.warnings + (if f.dryRunError.Some? then [] else f.runtimeWarnings),
                  log.blocking + (if f.dryRunError.Some? then [f.dryRunError.value]
                                  else if f.runtimeBlock.Some? then [f.runtimeBlock.value] else []))
  {
    hide MakeStage, Remaining, WarnSkipped, SkippedStages;
    assert log.warnings + [] == log.warnings && log.blocking + [] == log.blocking;
  }

  lemma AdapterLists(f: Facts, flags: Flags, log: Log)
    requires f.adapterBlock.None?
    ensures Lists(AfterAdapter(f, flags, log), log.warnings + f.adapterWarnings, log.blocking)
  {
    hide MakeStage, Remaining, WarnSkipped;
  }

  lemma FailureLists(f: Facts, log: Log)
    ensures Lists(AfterFailure(f, log), log.warnings,
                  log.blocking + (if f.failureBlock.Some? then [f.failureBlock.value] else []))
  {
    hide MakeStage, SkippedStages;
    assert log.warnings + [] == log.warnings && log.blocking + [] == log.blocking;
  }

  lemma PolicyLists(f: Facts, flags: Flags, log: Log)
    ensures Lists(AfterPolicy(f, flags, log), log.warnings + (if f.policyBlock.Some? then [] else f.policyWarnings),
                  log.blocking + (if f.policyBlock.Some? then [f.policyBlock.value] else []))
  {
    hide MakeStage, SkippedStages;
    assert log.warnings + [] == log.warnings && log.blocking + [] == log.blocking;
  }

  lemma EvidenceLists(f: Facts, flags: Flags, log: Log)
    ensures var p := AfterEvidence(f, flags, log);
            if flags.noEvidence then Lists(p, log.warnings, log.blocking)
            else Lists(p, log.warnings + EvidenceWarnings(f),
                       log.blocking + (if f.evidence.EvidenceBlocked? then [f.evidence.reason] else []))
  {
    hide MakeStage;
    assert log.warnings + [] == log.warnings && log.blocking + [] == log.blocking;
  }

  lemma InputLists(f: Facts, flags: Flags)
    ensures Lists(AfterInput(f, flags), [],
                  if f.inputError.Some? then [f.inputError.value]
                  else if f.loadError.Some? then [f.loadError.value] else [])
  {
    hide MakeStage;
  }

  lemma EndLists(log: Log)
    ensures Lists(AtEnd(log), log.warnings, log.blocking)
  {
  }

  /** The run went past the runtime stage. */
  predicate PastRuntime(f: Facts, flags: Flags) {
    && f.inputError.None? && f.loadError.None? && f.dryRunError.None? && f.runtimeBlock.None?
    && !(flags.stopOnWarning && f.runtimeWarnings != [])
  }

  lemma TailLists(f: Facts, flags: Flags, log: Log)
    requires PastRuntime(f, flags) && f.adapterBlock.None? && !(flags.stopOnWarning && f.adapterWarnings != [])
    ensures var e := EndsAt(f, flags);
            Lists(FromFailure(f, flags, log),
                  log.warnings + (if e.done >= 5 then f.policyWarnings else [])
                  + (if e.done >= 6 then EvidenceWarnings(f) else []),
                  log.blocking + (if e.stopped then [StopReason(f, e)] else []))
  {
    hide AfterFailure, AfterPolicy, AfterEvidence, AtEnd;
    FailureLists(f, log);
    var p4 := AfterFailure(f, log);
    FailureGoesOn(f, log);
    if p4.Running? {
      PolicyLists(f, flags, p4.log);
      var p5 := AfterPolicy(f, flags, p4.log);
      PolicyGoesOn(f, flags, p4.log);
      if p5.Running? {
        EvidenceLists(f, flags, p5.log);
        EvidenceGoesOn(f, flags, p5.log);
        EndLists(AfterEvidence(f, flags, p5.log).log);
      }
    }
  }

  lemma FailureGoesOn(f: Facts, log: Log)
    ensures AfterFailure(f, log).Running? <==> f.failureBlock.None?
  {
  }

  lemma PolicyGoesOn(f: Facts, flags: Flags, log: Log)
    ensures AfterPolicy(f, flags, log).Running? <==>
            f.policyBlock.None? && !(flags.stopOnWarning && f.policyWarnings != [])
  {
  }

  lemma EvidenceGoesOn(f: Facts, flags: Flags, log: Log)
    ensures AfterEvidence(f, flags, log).Running? <==> flags.noEvidence || f.evidence.EvidencePassed?
  {
  }

  lemma FirstStagesGoOn(f: Facts, flags: Flags, log: Log)
    ensures AfterInput(f, flags).Running? <==> f.inputError.None? && f.loadError.None?
    ensures AfterRuntime(f, flags, log).Running? <==>
            f.dryRunError.None? && f.runtimeBlock.None? && !(flags.stopOnWarning && f.runtimeWarnings != [])
    ensures AfterAdapter(f, flags, log).Running? <==>
            f.adapterBlock.Some? || !(flags.stopOnWarning && f.adapterWarnings != [])
  {
  }

  /** The warnings and blocking reasons of a run, exactly. */
  lemma FinalLists(f: Facts, flags: Flags)
    requires !AdapterStops(f, flags)
    ensures var e := EndsAt(f, flags);
            Lists(Final(f, flags), WarningsUpTo(f, e), if e.stopped then [StopReason(f, e)] else [])
  {
    hide AfterInput, AfterRuntime, AfterAdapter, FromFailure;
    InputLists(f, flags);
    var p1 := AfterInput(f, flags);
    FirstStagesGoOn(f, flags, p1.log);
    if p1.Running? {
      RuntimeLists(f, flags, p1.log);
      var p2 := AfterRuntime(f, flags, p1.log);
      if p2.Running? {
        AdapterLists(f, flags, p2.log);
        FirstStagesGoOn(f, flags, p2.log);
        var p3 := AfterAdapter(f, flags, p2.log);
        if p3.Running? {
          TailLists(f, flags, p3.log);
        }
      }
    }
  }

  /** The terminal state a run must have, from its facts: the stage that stopped it, that stage's reason and the
      failure category that goes with it. */
  function TerminalFor(f: Facts, e: Ending, warned: bool): Terminal {
    var reason := StopReason(f, e);
    if !e.stopped then
      Terminal(ReportStage,
               Cause(if warned then "pipeline_completed_with_warnings" else "pipeline_completed_simulation_only"), None,
               if warned then WarningsOnly else NoFailureCategory)
    else if e.done == 0 then
      Terminal(InputLoad, Cause(if reason == "" then "pipeline_invalid_input" else reason), Some(InputLoad),
               InvalidInput)
    else if e.done == 1 && f.dryRunError.Some? then
      Terminal(ReportStage, RunBlocked, Some(ReportStage), InternalFailure)
    else
      Terminal(STAGES[if e.done < 7 then e.done else 0],
               if e.done == 5 then Cause("evidence_validation_blocked")
               else if reason == "" then RunBlocked else Cause(reason),
               Some(STAGES[if e.done < 7 then e.done else 0]), CategoryAt(e.done, reason))
  }

  /** The failure category of a stage that blocked; the runtime stage tells a refused bundle from a refused profile. */
  function CategoryAt(k: nat, reason: string): Category {
    if k == 1 then
      if reason == "blocked_by_safety_gate" then RuntimeSafety
      else if reason == "blocked_by_bundle_validation" then BundleValidation else InternalFailure
    else if k == 2 then AdapterSafety
    else if k == 3 then ScenarioSafety
    else if k == 4 then PolicySafety
    else EvidenceValidation
  }

  lemma {:induction false} OnlyOneAdds<A, B>(f: A -> seq<B>, s: seq<A>, k: nat)
    requires k < |s| && forall i :: 0 <= i < |s| && i != k ==> f(s[i]) == []
    ensures FlatMap(f, s) == f(s[k])
  {
    assert s == s[..k] + [s[k]] + s[k + 1..];
    FlatMapAppend(f, s[..k] + [s[k]], s[k + 1..]);
    FlatMapAppend(f, s[..k], [s[k]]);
    FlatMapOne(f, s[k]);
    FlatMapEmpty(f, s[..k]);
    FlatMapEmpty(f, s[k + 1..]);
  }

  /** The stage that stopped gives the reason of the run. */
  lemma StoppedStageGivesReason(stages: seq<StageResult>, warnings: seq<string>, reason: string, e: Ending)
    requires |stages| == 7 && Shape(stages, e) && e.stopped
    requires Booked(stages[..6], warnings, [reason])
    ensures stages[e.done].status.Blocked? ==> stages[e.done].blockReason == Some(Cause(reason))
  {
    var inner := stages[..6];
    assert inner[e.done] in inner;
    forall i | 0 <= i < |inner| && i != e.done ensures OwnBlocks()(inner[i]) == [] {}
    OnlyOneAdds(OwnBlocks(), inner, e.done);
    assert Causes([reason]) == [Cause(reason)];
  }

  lemma BlockedRunTerminal(f: Facts, flags: Flags)
    requires f.inputError.None? && f.loadError.None? && f.dryRunError.None? && !AdapterStops(f, flags)
    requires EndsAt(f, flags).stopped
    ensures TerminalState(PipelineBlocked, RunOf(f, flags).stages) == TerminalFor(f, EndsAt(f, flags), false)
  {
    hide Final, Booked, Shape, EndsAt, StopReason, OwnBlocks, OwnWarnings;
    var p, e := Final(f, flags), EndsAt(f, flags);
    RunEndsAsExpected(f, flags);
    RunIsConcluded(f, flags);
    FinalLists(f, flags);
    ShapeBounds(p.log.stages, e);
    StoppedStageGivesReason(p.log.stages, p.log.warnings, StopReason(f, e), e);
    WhichStagesFail(f, flags);
    CanonicalNormalizes(p.log.stages);
    var n := Normalize(p.log.stages);
    FilledShape(p.log.stages, e);
    EndsAtZeroOnlyOnInput(f, flags);
    StoppedTwo(f, flags);
    BlockedTerminal(p.log.stages, e, StopReason(f, e));
  }

  lemma StoppedTwo(f: Facts, flags: Flags)
    requires !AdapterStops(f, flags)
    ensures EndsAt(f, flags).stopped ==> EndsAt(f, flags).done != 2
  {
  }

  lemma ShapeBounds(n: seq<StageResult>, e: Ending)
    requires Shape(n, e)
    ensures e.stopped ==> e.done < 6
  {
  }

  lemma BlockedTerminal(stages: seq<StageResult>, e: Ending, reason: string)
    requires e.stopped && 1 <= e.done < 6 && e.done != 2 && Shape(Normalize(stages), e)
    requires Normalize(stages)[e.done].status.Blocked?
    requires Normalize(stages)[e.done].blockReason == Some(Cause(reason))
    ensures var t := TerminalState(PipelineBlocked, stages);
            && t.stage == STAGES[e.done] && t.blockingStage == Some(STAGES[e.done])
            && t.exitReason == (if e.done == 5 then Cause("evidence_validation_blocked")
                                else if reason == "" then RunBlocked else Cause(reason))
            && t.category == CategoryAt(e.done, reason)
  {
    var n := Normalize(stages);
    NormalizeIsCanonical(stages);
    FirstWithFinds(n, Blocked, e.done);
  }

  lemma RaisedTerminal(stages: seq<StageResult>)
    requires Shape(Normalize(stages), Ending(1, true)) && Normalize(stages)[1].status.Failed?
    ensures TerminalState(PipelineBlocked, stages) ==
            Terminal(ReportStage, RunBlocked, Some(ReportStage), InternalFailure)
  {
    FirstWithNone(Normalize(stages), Blocked);
  }

  lemma InputTerminal(f: Facts, flags: Flags)
    requires f.inputError.Some? || f.loadError.Some?
    ensures var reason := StopReason(f, Ending(0, true));
            && RunOf(f, flags).status == PipelineInvalidInput
            && TerminalState(PipelineInvalidInput, RunOf(f, flags).stages) ==
               Terminal(InputLoad, Cause(if reason == "" then "pipeline_invalid_input" else reason), Some(InputLoad),
                        InvalidInput)
  {
    var stages := Final(f, flags).log.stages;
    assert |stages| == 1 && stages[0].name == InputLoad && stages[0].status == Failed;
    assert stages[0].failureReason == Some(Cause(StopReason(f, Ending(0, true))));
    CanonicalNormalizes(stages);
    var n := Normalize(stages);
    assert n[0] == FillReasons(stages[0]);
    FirstWithFinds(n, Failed, 0);
  }

  lemma FinishedTerminal(status: PipelineStatus, stages: seq<StageResult>, warned: bool)
    requires status == if warned then PipelineCompletedWithWarnings else PipelineCompleted
    ensures TerminalState(status, stages) ==
            Terminal(ReportStage,
                     Cause(if warned then "pipeline_completed_with_warnings" else "pipeline_completed_simulation_only"),
                     None, if warned then WarningsOnly else NoFailureCategory)
  {
  }

  /** The terminal state of the report is the one its facts call for. */
  lemma TerminalIsExact(f: Facts, flags: Flags)
    requires !AdapterStops(f, flags)
    ensures var r := RunOf(f, flags);
            ReportOf(r).terminal == TerminalFor(f, EndsAt(f, flags), r.warnings != [])
  {
    hide Final, EndsAt, StopReason, TerminalState, ToldByStages, AdapterStops, BuildReport;
    var r, e := RunOf(f, flags), EndsAt(f, flags);
    ReportTerminal(r);
    FinalStatusAndExit(f, flags);
    EndsAtZeroOnlyOnInput(f, flags);
    NormalizedTerminal(r.status, r.stages);
    if e.done == 0 {
      InputTerminal(f, flags);
      EndsAtInput(f, flags);
    } else {
      RunIsToldByStages(f, flags);
      if !e.stopped {
        StatusTold(r);
        FinishedTerminal(r.status, r.stages, r.warnings != []);
      } else if f.dryRunError.Some? {
        EndsAtRaised(f, flags);
        DryRunErrorShape(f, flags);
        RaisedTerminal(r.stages);
      } else {
        BlockedRunTerminal(f, flags);
      }
    }
  }

  lemma StatusTold(r: RunResult)
    requires ToldByStages(r) && r.exitCode == EXIT_OK
    ensures r.status == if r.warnings != [] then PipelineCompletedWithWarnings else PipelineCompleted
  {
  }

  lemma EndsAtInput(f: Facts, flags: Flags)
    requires f.inputError.Some? || f.loadError.Some?
    ensures EndsAt(f, flags) == Ending(0, true)
  {
  }

  lemma EndsAtRaised(f: Facts, flags: Flags)
    requires f.inputError.None? && f.loadError.None? && f.dryRunError.Some?
    ensures EndsAt(f, flags) == Ending(1, true)
  {
  }

  /** The report normalises once more, which changes nothing. */
  lemma NormalizedTerminal(status: PipelineStatus, stages: seq<StageResult>)
    ensures TerminalState(status, Normalize(stages)) == TerminalState(status, stages)
  {
    NormalizeIsCanonical(stages);
  }

  /** What a run reports, all in all: its lists and its terminal state are those its facts call for. */
  ghost predicate ReportsItsFacts(r: RunResult, f: Facts, e: Ending) {
    && r.warnings == WarningsUpTo(f, e)
    && r.blocking == (if e.stopped then [StopReason(f, e)] else [])
    && ReportOf(r).terminal == TerminalFor(f, e, r.warnings != [])
    && (e.done > 0 ==> ToldByStages(r))
  }

  lemma RunReportsItsFacts(f: Facts, flags: Flags)
    requires !AdapterStops(f, flags)
    ensures ReportsItsFacts(RunOf(f, flags), f, EndsAt(f, flags))
  {
    hide EndsAt, StopReason, TerminalState, ToldByStages, AdapterStops, BuildReport, Final, WarningsUpTo;
    FinalLists(f, flags);
    TerminalIsExact(f, flags);
    FinalStatusAndExit(f, flags);
    EndsAtZeroOnlyOnInput(f, flags);
    if EndsAt(f, flags).done > 0 {
      RunIsToldByStages(f, flags);
    }
  }
}
