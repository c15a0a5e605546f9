/** The trace, the skipped stages and the numbers of a run: each says what the stage results say. */
module RunDetailTheorems {
  import opened Base
  import opened PipelineReport
  import opened PipelineRunner
  import opened RunTheorems
  import opened RunReportTheorems
  import opened RunStatusTheorems

  // ---- the trace tells the stages ----

  /** What a trace or a stage result reports besides starting and closing. */
  datatype Note = WarnNote(stage: StageName, text: string) | StopNote(stage: StageName, cause: Cause)
    | SkipNote(stage: StageName, cause: Cause)

  function NotesIn(e: Event): seq<Note> {
    match e
    case StageWarned(s, text) => [WarnNote(s, text)]
    case StageFailed(s, text) => [StopNote(s, Cause(text))]
    case StageSkipped(s, cause) => [SkipNote(s, cause)]
    case _ => []
  }

  function WarnNotes(stage: StageName, warnings: seq<string>): seq<Note> {
    seq(|warnings|, i requires 0 <= i < |warnings| => WarnNote(stage, warnings[i]))
  }

  /** The notes a stage result calls for; the report stage repeats the warnings of the others and has none of its
      own. */
  function NotesOf(r: StageResult): seq<Note> {
    if r.name == ReportStage then []
    else
      WarnNotes(r.name, r.warnings)
      + (if r.Stopped() && r.blocking != [] then [StopNote(r.name, r.blocking[0])] else [])
      + (if r.status.Skipped? && r.skipReason.Some? then [SkipNote(r.name, r.skipReason.value)] else [])
  }

  ghost predicate Told(log: Log) {
    FlatMap(NotesIn, log.trace) == FlatMap(NotesOf, log.stages)
  }

  lemma GrowTold(log: Log, stages: seq<StageResult>, events: seq<Event>, log': Log)
    requires Told(log) && FlatMap(NotesIn, events) == FlatMap(NotesOf, stages)
    requires log'.stages == log.stages + stages && log'.trace == log.trace + events
    ensures Told(log')
  {
    FlatMapAppend(NotesIn, log.trace, events);
    FlatMapAppend(NotesOf, log.stages, stages);
  }

  lemma {:induction false} FlatMapSingles<A, B>(f: A -> seq<B>, s: seq<A>, t: seq<B>)
    requires |s| == |t| && forall i :: 0 <= i < |s| ==> f(s[i]) == [t[i]]
    ensures FlatMap(f, s) == t
  {
    if s != [] {
      FlatMapSingles(f, s[1..], t[1..]);
      assert t == [t[0]] + t[1..];
    }
  }

  /** One stage that starts, warns and closes. */
  lemma StageNotes(stage: StageName, warnings: seq<string>, close: Event)
    ensures FlatMap(NotesIn, [StageStarted(stage)] + Warned(stage, warnings) + [close]) ==
            WarnNotes(stage, warnings) + NotesIn(close)
  {
    FlatMapAppend(NotesIn, [StageStarted(stage)] + Warned(stage, warnings), [close]);
    FlatMapAppend(NotesIn, [StageStarted(stage)], Warned(stage, warnings));
    FlatMapOne(NotesIn, StageStarted(stage));
    FlatMapOne(NotesIn, close);
    FlatMapSingles(NotesIn, Warned(stage, warnings), WarnNotes(stage, warnings));
  }

  lemma DoneTold(log: Log, stage: StageName, warnings: seq<string>)
    requires Told(log) && stage != ReportStage
    ensures Told(DoneLog(Begin(log, stage), stage, warnings))
  {
    hide Told;
    var r := MakeStage(stage, if warnings != [] then CompletedWithWarnings else Completed, warnings, [], None);
    var events := [StageStarted(stage)] + Warned(stage, warnings) + [StageCompleted(stage)];
    var after := DoneLog(Begin(log, stage), stage, warnings);
    assert after.trace == log.trace + events;
    StageNotes(stage, warnings, StageCompleted(stage));
    FlatMapOne(NotesOf, r);
    assert NotesOf(r) == WarnNotes(stage, warnings);
    assert WarnNotes(stage, warnings) + [] == WarnNotes(stage, warnings);
    GrowTold(log, [r], events, after);
  }

  lemma StoppedTold(log: Log, stage: StageName, status: StageStatus, warnings: seq<string>, reason: string, log': Log)
    requires Told(log) && stage != ReportStage && (status.Blocked? || status.Failed?)
    requires log'.stages == log.stages + [MakeStage(stage, status, warnings, [Cause(reason)], None)]
    requires log'.trace ==
             log.trace + ([StageStarted(stage)] + Warned(stage, warnings) + [StageFailed(stage, reason)])
    ensures Told(log')
  {
    hide Told;
    var r := MakeStage(stage, status, warnings, [Cause(reason)], None);
    StageNotes(stage, warnings, StageFailed(stage, reason));
    FlatMapOne(NotesOf, r);
    assert NotesOf(r) == WarnNotes(stage, warnings) + [StopNote(stage, Cause(reason))];
    GrowTold(log, [r], [StageStarted(stage)] + Warned(stage, warnings) + [StageFailed(stage, reason)], log');
  }

  lemma FailedTold(log: Log, stage: StageName, status: StageStatus, reason: string)
    requires Told(log) && stage != ReportStage && (status.Blocked? || status.Failed?)
    ensures Told(FailedLog(Begin(log, stage), stage, status, [], reason))
  {
    hide Told;
    var after := FailedLog(Begin(log, stage), stage, status, [], reason);
    assert after.trace == log.trace + ([StageStarted(stage)] + Warned(stage, []) + [StageFailed(stage, reason)]);
    StoppedTold(log, stage, status, [], reason, after);
  }

  function SkipNotes(names: seq<StageName>, cause: Cause): seq<Note> {
    seq(|names|, i requires 0 <= i < |names| => SkipNote(names[i], cause))
  }

  lemma SkipTold(log: Log, names: seq<StageName>, cause: Cause, flag: bool)
    requires Told(log) && ReportStage !in names
    ensures Told(SkipAll(log, names, cause).(evidenceSkipped := flag))
  {
    hide Told;
    FlatMapSingles(NotesIn, SkipEvents(names, cause), SkipNotes(names, cause));
    FlatMapSingles(NotesOf, SkippedStages(names, cause), SkipNotes(names, cause));
    GrowTold(log, SkippedStages(names, cause), SkipEvents(names, cause),
             SkipAll(log, names, cause).(evidenceSkipped := flag));
  }

  lemma {:induction false} RemainingHasNoReport(stages: seq<StageResult>, n: nat)
    requires n <= |STAGES|
    ensures ReportStage !in Remaining(stages, n)
  {
    if n > 0 { RemainingHasNoReport(stages, n - 1); }
  }

  lemma StopTold(log: Log)
    requires Told(log)
    ensures Told(StopRemaining(log))
  {
    hide Told;
    var names := Remaining(log.stages, |STAGES|);
    RemainingHasNoReport(log.stages, |STAGES|);
    FlatMapSingles(NotesIn, SkipEvents(names, StopOnWarning), SkipNotes(names, StopOnWarning));
    FlatMapSingles(NotesOf, WarnSkipped(names), SkipNotes(names, StopOnWarning));
    GrowTold(log, WarnSkipped(names), SkipEvents(names, StopOnWarning), StopRemaining(log));
  }

  lemma ReportTold(log: Log, r: StageResult, log': Log)
    requires Told(log) && r.name == ReportStage
    requires log'.stages == log.stages + [r] && log'.trace == log.trace + [StageCompleted(ReportStage)]
    ensures Told(log')
  {
    FlatMapOne(NotesIn, StageCompleted(ReportStage));
    FlatMapOne(NotesOf, r);
    GrowTold(log, [r], [StageCompleted(ReportStage)], log');
  }

  lemma EndsTold(log: Log)
    requires Told(log)
    ensures Told(BlockedAfter(log).log) && Told(WarnedAfter(log).log) && Told(AtEnd(log).log)
  {
    hide Told;
    var b, w, e := BlockedAfter(log).log, WarnedAfter(log).log, AtEnd(log).log;
    ReportTold(log, b.stages[|log.stages|], b);
    ReportTold(log, w.stages[|log.stages|], w);
    ReportTold(log, e.stages[|log.stages|], e);
  }

  lemma InputTold(f: Facts, flags: Flags)
    ensures Told(AfterInput(f, flags).log)
  {
    var log := Log([], [PipelineStarted], [], [], flags.noEvidence);
    FlatMapOne(NotesIn, PipelineStarted);
    assert Told(log);
    if f.inputError.Some? {
      FlatMapOne(NotesIn, StageFailed(InputLoad, f.inputError.value));
      var r := MakeStage(InputLoad, Failed, [], [Cause(f.inputError.value)], None);
      FlatMapOne(NotesOf, r);
      GrowTold(log, [r], [StageFailed(InputLoad, f.inputError.value)], AfterInput(f, flags).log);
    } else if f.loadError.Some? {
      FailedTold(log, InputLoad, Failed, f.loadError.value);
    } else {
      DoneTold(log, InputLoad, []);
    }
  }

  lemma RuntimeTold(f: Facts, flags: Flags, log: Log)
    requires Told(log)
    ensures Told(AfterRuntime(f, flags, log).log)
  {
    hide Told, MakeStage, BlockedAfter, WarnedAfter, StopRemaining, DoneLog;
    var begun := Begin(log, RuntimeDryRun);
    if f.dryRunError.Some? {
      FailedTold(log, RuntimeDryRun, Failed, f.dryRunError.value);
      EndsTold(FailedLog(begun, RuntimeDryRun, Failed, [], f.dryRunError.value));
    } else if f.runtimeBlock.Some? {
      var warned := begun.(warnings := log.warnings + f.runtimeWarnings,
                           trace := begun.trace + Warned(RuntimeDryRun, f.runtimeWarnings));
      var failed := FailedLog(warned, RuntimeDryRun, Blocked, f.runtimeWarnings, f.runtimeBlock.value);
      assert failed.trace == log.trace + ([StageStarted(RuntimeDryRun)] + Warned(RuntimeDryRun, f.runtimeWarnings)
                                          + [StageFailed(RuntimeDryRun, f.runtimeBlock.value)]);
      StoppedTold(log, RuntimeDryRun, Blocked, f.runtimeWarnings, f.runtimeBlock.value, failed);
      var names := [AdapterSimulation, FailureRollback, PolicySimulation, EvidenceBundle];
      SkipTold(failed, names, AfterBlocked(RuntimeDryRun), failed.evidenceSkipped);
      EndsTold(SkipAll(failed, names, AfterBlocked(RuntimeDryRun)));
    } else {
      DoneTold(log, RuntimeDryRun, f.runtimeWarnings);
      var done := DoneLog(begun, RuntimeDryRun, f.runtimeWarnings);
      StopTold(done);
      EndsTold(StopRemaining(done));
    }
  }

  lemma AdapterTold(f: Facts, flags: Flags, log: Log)
    requires Told(log)
    ensures Told(AfterAdapter(f, flags, log).log)
  {
    hide Told, MakeStage, WarnedAfter, StopRemaining, DoneLog, FailedLog;
    if f.adapterBlock.Some? {
      FailedTold(log, AdapterSimulation, Blocked, f.adapterBlock.value);
    } else {
      DoneTold(log, AdapterSimulation, f.adapterWarnings);
      var done := DoneLog(Begin(log, AdapterSimulation), AdapterSimulation, f.adapterWarnings);
      StopTold(done);
      EndsTold(StopRemaining(done));
    }
  }

  lemma FailureTold(f: Facts, log: Log)
    requires Told(log)
    ensures Told(AfterFailure(f, log).log)
  {
    hide Told, MakeStage, BlockedAfter, DoneLog, FailedLog;
    if f.failureBlock.Some? {
      FailedTold(log, FailureRollback, Blocked, f.failureBlock.value);
      var failed := FailedLog(Begin(log, FailureRollback), FailureRollback, Blocked, [], f.failureBlock.value);
      var names, cause := [PolicySimulation, EvidenceBundle], AfterBlocked(FailureRollback);
      SkipTold(failed, names, cause, SkipAll(failed, names, cause).evidenceSkipped);
      EndsTold(SkipAll(failed, names, cause));
    } else {
      DoneTold(log, FailureRollback, []);
    }
  }

  lemma PolicyTold(f: Facts, flags: Flags, log: Log)
    requires Told(log)
    ensures Told(AfterPolicy(f, flags, log).log)
  {
    hide Told, MakeStage, BlockedAfter, WarnedAfter, DoneLog, FailedLog;
    if f.policyBlock.Some? {
      FailedTold(log, PolicySimulation, Blocked, f.policyBlock.value);
      var failed := FailedLog(Begin(log, PolicySimulation), PolicySimulation, Blocked, [], f.policyBlock.value);
      SkipTold(failed, [EvidenceBundle], AfterBlocked(PolicySimulation), true);
      EndsTold(SkipAll(failed, [EvidenceBundle], AfterBlocked(PolicySimulation)).(evidenceSkipped := true));
    } else {
      DoneTold(log, PolicySimulation, f.policyWarnings);
      var done := DoneLog(Begin(log, PolicySimulation), PolicySimulation, f.policyWarnings);
      SkipTold(done, [EvidenceBundle], StopOnWarning, true);
      EndsTold(SkipAll(done, [EvidenceBundle], StopOnWarning).(evidenceSkipped := true));
    }
  }

  lemma EvidenceTold(f: Facts, flags: Flags, log: Log)
    requires Told(log)
    ensures Told(AfterEvidence(f, flags, log).log)
  {
    hide Told, BlockedAfter, DoneLog, FailedLog;
    if flags.noEvidence {
      var r := MakeStage(EvidenceBundle, Skipped, [], [], Some(EvidenceDisabled));
      FlatMapOne(NotesIn, StageSkipped(EvidenceBundle, EvidenceDisabled));
      FlatMapOne(NotesOf, r);
      GrowTold(log, [r], [StageSkipped(EvidenceBundle, EvidenceDisabled)], AfterEvidence(f, flags, log).log);
    } else if f.evidence.EvidenceBlocked? {
      FailedTold(log, EvidenceBundle, Blocked, f.evidence.reason);
      EndsTold(FailedLog(Begin(log, EvidenceBundle), EvidenceBundle, Blocked, [], f.evidence.reason));
    } else {
      DoneTold(log, EvidenceBundle, f.evidence.warnings);
    }
  }

  lemma FinalTold(f: Facts, flags: Flags)
    ensures Told(Final(f, flags).log)
  {
    hide Told, AfterInput, AfterRuntime, AfterAdapter, AfterFailure, AfterPolicy, AfterEvidence, AtEnd;
    InputTold(f, flags);
    var p1 := AfterInput(f, flags);
    if p1.Running? {
      RuntimeTold(f, flags, p1.log);
      var p2 := AfterRuntime(f, flags, p1.log);
      if p2.Running? {
        AdapterTold(f, flags, p2.log);
        var p3 := AfterAdapter(f, flags, p2.log);
        if p3.Running? {
          FailureTold(f, p3.log);
          var p4 := AfterFailure(f, p3.log);
          if p4.Running? {
            PolicyTold(f, flags, p4.log);
            var p5 := AfterPolicy(f, flags, p4.log);
            if p5.Running? {
              EvidenceTold(f, flags, p5.log);
              EndsTold(AfterEvidence(f, flags, p5.log).log);
            }
          }
        }
      }
    }
  }

  /** On every run the warning, failure and skip events of the trace are, in order, what the stage results give: every
      warning with its stage, every stop with its reason, every skip with its cause, and nothing else. */
  lemma TraceTellsStages(f: Facts, flags: Flags)
    ensures FlatMap(NotesIn, RunOf(f, flags).trace) == FlatMap(NotesOf, RunOf(f, flags).stages)
  {
    hide Final, TerminalState;
    FinalTold(f, flags);
    var p := Final(f, flags);
    var closing := Closing(p.status, TerminalState(p.status, p.log.stages));
    FlatMapAppend(NotesIn, p.log.trace, closing);
    FlatMapEmpty(NotesIn, closing);
    assert FlatMap(NotesIn, p.log.trace) + [] == FlatMap(NotesIn, p.log.trace);
  }

  // ---- why stages are skipped ----

  /** The last stage done warned, and the run stops on warnings. */
  predicate WarningStops(f: Facts, flags: Flags, e: Ending) {
    && flags.stopOnWarning
    && (|| (e.done == 2 && f.runtimeWarnings != []) || (e.done == 3 && f.adapterWarnings != [])
        || (e.done == 5 && f.policyWarnings != []))
  }

  /** Why the stages a run does not reach are skipped: the stage that stopped it, its first warning, or the option. */
  function SkipCauseOf(f: Facts, flags: Flags): Cause {
    var e := EndsAt(f, flags);
    if e.stopped then AfterBlocked(STAGES[if e.done < 7 then e.done else 0])
    else if WarningStops(f, flags, e) then StopOnWarning
    else EvidenceDisabled
  }

  /** Every skipped stage of the list gives this cause. */
  ghost predicate SkipsSay(stages: seq<StageResult>, cause: Cause) {
    forall s :: s in stages && s.status.Skipped? ==> s.skipReason == Some(cause)
  }

  ghost predicate Skipless(stages: seq<StageResult>) {
    forall s :: s in stages ==> !s.status.Skipped?
  }

  lemma RuntimeStopSkips(f: Facts, flags: Flags, log: Log)
    requires Skipless(log.stages) && (f.dryRunError.Some? || f.runtimeBlock.Some?)
    ensures SkipsSay(AfterRuntime(f, flags, log).log.stages, AfterBlocked(RuntimeDryRun))
  {
    hide StopRemaining, WarnedAfter, DoneLog;
  }

  lemma RuntimeDoneSkips(f: Facts, flags: Flags, log: Log)
    requires Skipless(log.stages) && f.dryRunError.None? && f.runtimeBlock.None?
    ensures var p := AfterRuntime(f, flags, log);
            (p.Running? ==> Skipless(p.log.stages)) && SkipsSay(p.log.stages, StopOnWarning)
  {
    hide BlockedAfter, SkipAll, FailedLog;
  }

  lemma RuntimeSkips(f: Facts, flags: Flags, log: Log)
    requires Skipless(log.stages)
    ensures var p := AfterRuntime(f, flags, log);
      && (p.Running? ==> Skipless(p.log.stages))
      && SkipsSay(p.log.stages, if f.dryRunError.Some? || f.runtimeBlock.Some? then AfterBlocked(RuntimeDryRun)
                                else StopOnWarning)
  {
    hide AfterRuntime, SkipsSay, Skipless;
    FirstStagesGoOn(f, flags, log);
    if f.dryRunError.Some? || f.runtimeBlock.Some? {
      RuntimeStopSkips(f, flags, log);
    } else {
      RuntimeDoneSkips(f, flags, log);
    }
  }

  lemma AdapterSkips(f: Facts, flags: Flags, log: Log)
    requires Skipless(log.stages)
    ensures var p := AfterAdapter(f, flags, log);
            (p.Running? ==> Skipless(p.log.stages)) && SkipsSay(p.log.stages, StopOnWarning)
  {
  }

  lemma FailureSkips(f: Facts, log: Log)
    requires Skipless(log.stages)
    ensures var p := AfterFailure(f, log);
            (p.Running? ==> Skipless(p.log.stages)) && SkipsSay(p.log.stages, AfterBlocked(FailureRollback))
  {
  }

  lemma PolicySkips(f: Facts, flags: Flags, log: Log)
    requires Skipless(log.stages)
    ensures var p := AfterPolicy(f, flags, log);
      && (p.Running? ==> Skipless(p.log.stages))
      && SkipsSay(p.log.stages, if f.policyBlock.Some? then AfterBlocked(PolicySimulation) else StopOnWarning)
  {
  }

  lemma EvidenceSkips(f: Facts, flags: Flags, log: Log)
    requires Skipless(log.stages)
    ensures var p := AfterEvidence(f, flags, log);
      && (!flags.noEvidence ==> Skipless(p.log.stages))
      && SkipsSay(p.log.stages, EvidenceDisabled)
  {
  }

  lemma EndSkips(log: Log, cause: Cause)
    requires SkipsSay(log.stages, cause)
    ensures SkipsSay(AtEnd(log).log.stages, cause)
  {
  }

  lemma TailSkips(f: Facts, flags: Flags, log: Log)
    requires PastRuntime(f, flags) && f.adapterBlock.None? && !(flags.stopOnWarning && f.adapterWarnings != [])
    requires Skipless(log.stages)
    ensures SkipsSay(FromFailure(f, flags, log).log.stages, SkipCauseOf(f, flags))
  {
    hide AfterFailure, AfterPolicy, AfterEvidence, AtEnd, Skipless, SkipsSay;
    FailureSkips(f, log);
    FailureGoesOn(f, log);
    var p4 := AfterFailure(f, log);
    if p4.Running? {
      PolicySkips(f, flags, p4.log);
      PolicyGoesOn(f, flags, p4.log);
      var p5 := AfterPolicy(f, flags, p4.log);
      if p5.Running? {
        EvidenceSkips(f, flags, p5.log);
        EvidenceGoesOn(f, flags, p5.log);
        var log6 := AfterEvidence(f, flags, p5.log).log;
        if !flags.noEvidence { SkiplessSays(log6.stages, SkipCauseOf(f, flags)); }
        EndSkips(log6, SkipCauseOf(f, flags));
      }
    }
  }

  lemma SkiplessSays(stages: seq<StageResult>, cause: Cause)
    requires Skipless(stages)
    ensures SkipsSay(stages, cause)
  {
  }

  lemma RawSkips(f: Facts, flags: Flags)
    requires !AdapterStops(f, flags)
    ensures SkipsSay(Final(f, flags).log.stages, SkipCauseOf(f, flags))
  {
    hide AfterRuntime, AfterAdapter, FromFailure, SkipsSay, Skipless;
    var p1 := AfterInput(f, flags);
    InputSkips(f, flags);
    SkiplessSays(p1.log.stages, SkipCauseOf(f, flags));
    FirstStagesGoOn(f, flags, p1.log);
    if p1.Running? {
      RuntimeSkips(f, flags, p1.log);
      var p2 := AfterRuntime(f, flags, p1.log);
      if p2.Running? {
        AdapterSkips(f, flags, p2.log);
        FirstStagesGoOn(f, flags, p2.log);
        var p3 := AfterAdapter(f, flags, p2.log);
        if p3.Running? { TailSkips(f, flags, p3.log); }
      }
    }
  }

  lemma InputSkips(f: Facts, flags: Flags)
    ensures Skipless(AfterInput(f, flags).log.stages)
  {
  }

  /** A stage that is in no result is put down to the first stage that stopped. */
  lemma AbsentSkips(stages: seq<StageResult>, k: nat, cause: Cause)
    requires k < |STAGES| && SkipsSay(stages, cause)
    requires LastNamed(stages, STAGES[k]).None? ==> MissingCause(stages) == cause
    ensures NormalAt(stages, STAGES[k]).status.Skipped? ==> NormalAt(stages, STAGES[k]).skipReason == Some(cause)
  {
    LastNamedHasName(stages, STAGES[k]);
  }

  lemma NothingAbsent(stages: seq<StageResult>, k: nat)
    requires Canonical(stages) && |stages| == 7 && k < 7
    ensures LastNamed(stages, STAGES[k]).Some?
  {
    LastNamedHasName(stages, STAGES[k]);
    assert stages[k] in stages;
  }

  lemma AbsentAfterInput(f: Facts, flags: Flags)
    requires f.inputError.Some? || f.loadError.Some?
    ensures MissingCause(Final(f, flags).log.stages) == AfterBlocked(InputLoad) == SkipCauseOf(f, flags)
  {
    var stages := Final(f, flags).log.stages;
    assert |stages| == 1 && stages[0].name == InputLoad && stages[0].status == Failed;
  }

  lemma AbsentAfterRaise(f: Facts, flags: Flags)
    requires f.inputError.None? && f.loadError.None? && f.dryRunError.Some?
    ensures MissingCause(Final(f, flags).log.stages) == AfterBlocked(RuntimeDryRun) == SkipCauseOf(f, flags)
  {
    var stages := Final(f, flags).log.stages;
    assert |stages| == 3 && stages[0].status == Completed && stages[1].name == RuntimeDryRun
      && stages[1].status == Failed;
    assert FirstStopped(stages) == FirstStopped(stages[1..]) == Some(stages[1]);
  }

  /** Every skipped stage of a run says why: it comes after the stage that stopped, after the warning that ended the
      run,
      or evidence was not wanted. */
  lemma SkipsAreExact(f: Facts, flags: Flags)
    requires !AdapterStops(f, flags)
    ensures forall k :: 0 <= k < 7 && Normalize(RunOf(f, flags).stages)[k].status.Skipped? ==>
              Normalize(RunOf(f, flags).stages)[k].skipReason == Some(SkipCauseOf(f, flags))
  {
    hide Final, NormalAt, SkipCauseOf, SkipsSay, EndsAt, MissingCause, AdapterStops;
    var stages, cause := RunOf(f, flags).stages, SkipCauseOf(f, flags);
    RawSkips(f, flags);
    forall k | 0 <= k < 7
      ensures NormalAt(stages, STAGES[k]).status.Skipped? ==> NormalAt(stages, STAGES[k]).skipReason == Some(cause)
    {
      if f.inputError.Some? || f.loadError.Some? {
        AbsentAfterInput(f, flags);
      } else if f.dryRunError.Some? {
        AbsentAfterRaise(f, flags);
      } else {
        RunEndsAsExpected(f, flags);
        NothingAbsent(stages, k);
      }
      AbsentSkips(stages, k, cause);
    }
  }

  // ---- the numbers of the report ----

  /** The positions of the stages with this status. */
  function With(stages: seq<StageResult>, status: StageStatus): set<nat> {
    set i | 0 <= i < |stages| && stages[i].status == status
  }

  lemma {:induction false} CountSnoc(stages: seq<StageResult>, r: StageResult, status: StageStatus)
    ensures CountStatus(stages + [r], status) == CountStatus(stages, status) + if r.status == status then 1 else 0
  {
    if stages == [] {
      assert (stages + [r])[1..] == [];
    } else {
      CountSnoc(stages[1..], r, status);
      assert (stages + [r])[1..] == stages[1..] + [r];
    }
  }

  lemma InWith(stages: seq<StageResult>, r: StageResult, status: StageStatus, i: nat)
    ensures i in With(stages + [r], status) <==>
            i in With(stages, status) || (i == |stages| && r.status == status)
    ensures |stages| !in With(stages, status)
  {
    if i < |stages| { assert (stages + [r])[i] == stages[i]; }
  }

  lemma WithSnoc(stages: seq<StageResult>, r: StageResult, status: StageStatus)
    ensures |With(stages + [r], status)| == |With(stages, status)| + if r.status == status then 1 else 0
  {
    hide With;
    var before, after := With(stages, status), With(stages + [r], status);
    forall i: nat ensures i in after <==> i in before || (i == |stages| && r.status == status) {
      InWith(stages, r, status, i);
    }
    InWith(stages, r, status, 0);
    if r.status == status { assert after == before + {|stages|}; } else { assert after == before; }
  }

  lemma {:induction false} CountIsSize(stages: seq<StageResult>, status: StageStatus)
    ensures CountStatus(stages, status) == |With(stages, status)|
  {
    if stages == [] {
      assert With(stages, status) == {};
    } else {
      CountLast(stages, status);
      CountIsSize(stages[..|stages| - 1], status);
    }
  }

  lemma CountLast(stages: seq<StageResult>, status: StageStatus)
    requires stages != []
    ensures CountStatus(stages, status) - CountStatus(stages[..|stages| - 1], status) ==
            |With(stages, status)| - |With(stages[..|stages| - 1], status)|
  {
    hide With;
    var n := |stages| - 1;
    assert stages == stages[..n] + [stages[n]];
    CountSnoc(stages[..n], stages[n], status);
    WithSnoc(stages[..n], stages[n], status);
  }

  /** The counts of the report are the numbers of stages with each status. */
  lemma CountsAreExact(r: RunResult)
    ensures var n, c := Normalize(r.stages), ReportOf(r).counts;
      && c.total == 7 && c.completed == |With(n, Completed)| && c.withWarnings == |With(n, CompletedWithWarnings)|
      && c.skipped == |With(n, Skipped)| && c.blocked == |With(n, Blocked)| && c.failed == |With(n, Failed)|
  {
    hide Normalize, StageMatrix, TerminalState, SummarizeEvidence, CheckConsistency, ConsistencyWarnings, With;
    var n := Normalize(r.stages);
    NormalizeIsCanonical(r.stages);
    CountIsSize(n, Completed);
    CountIsSize(n, CompletedWithWarnings);
    CountIsSize(n, Skipped);
    CountIsSize(n, Blocked);
    CountIsSize(n, Failed);
  }

  /** The evidence summary of a run is that of its evidence stage, which either ran or was skipped. */
  lemma EvidenceSummaryIsExact(f: Facts, flags: Flags)
    requires !AdapterStops(f, flags)
    ensures var r := RunOf(f, flags);
            var stage, e := Normalize(r.stages)[5], ReportOf(r).evidence;
      && (e.ran <==> stage.Ran()) && (e.skipped <==> stage.status.Skipped?) && (e.blocked <==> stage.status.Blocked?)
      && e.skipReason == (if stage.status.Skipped? then Some(SkipCauseOf(f, flags)) else None)
  {
    hide Final, EndsAt, StageMatrix, TerminalState, CheckConsistency, ConsistencyWarnings, StageCounts, NormalAt;
    hide SkipCauseOf, AdapterStops;
    var r := RunOf(f, flags);
    var n := Normalize(r.stages);
    EvidenceFlagNeedsSkip(f, flags);
    RunHasShape(f, flags);
    NormalizeIsCanonical(r.stages);
    SkipsAreExact(f, flags);
    assert n[5] == Normalize(n)[5] == NormalAt(n, EvidenceBundle);
  }

  /** The reason a row of the stage matrix shows. */
  function ShownReason(s: StageResult, skip: Cause, stop: string): Option<Cause> {
    if s.status.Skipped? then Some(skip)
    else if s.Stopped() then Some(Cause(stop))
    else if s.warnings != [] then Some(Cause(s.warnings[0])) else None
  }

  lemma MatrixRows(r: RunResult, k: nat)
    requires k < 7
    ensures var m := ReportOf(r).matrix; STAGES[k] in m && m[STAGES[k]] == RowOf(Normalize(r.stages)[k])
  {
    hide TerminalState, CheckConsistency, ConsistencyWarnings, StageCounts, NormalAt, RowOf, SummarizeEvidence;
    NormalizeIsCanonical(r.stages);
    var n := Normalize(r.stages);
    assert n[k] == Normalize(n)[k] == NormalAt(n, STAGES[k]);
    forall i, j | 0 <= i < j < 7 ensures STAGES[i] != STAGES[j] { StagesDistinct(i, j); }
  }

  lemma StoppedReason(stages: seq<StageResult>, warnings: seq<string>, reason: string, e: Ending)
    requires |stages| == 7 && Canonical(stages) && Shape(stages, e) && e.stopped
    requires Booked(stages[..6], warnings, [reason])
    ensures var s := Normalize(stages)[e.done];
      && (s.status.Blocked? ==> s.blockReason == Some(Cause(reason)))
      && (s.status.Failed? ==> s.failureReason == Some(Cause(reason)))
  {
    var inner := stages[..6];
    assert inner[e.done] in inner;
    forall i | 0 <= i < |inner| && i != e.done ensures OwnBlocks()(inner[i]) == [] {}
    OnlyOneAdds(OwnBlocks(), inner, e.done);
    assert Causes([reason]) == [Cause(reason)];
    CanonicalNormalizes(stages);
  }

  lemma StoppedReasonOnInput(f: Facts, flags: Flags)
    requires f.inputError.Some? || f.loadError.Some?
    ensures var s := Normalize(RunOf(f, flags).stages)[0];
            s.status.Failed? && s.failureReason == Some(Cause(StopReason(f, Ending(0, true))))
  {
    var stages := Final(f, flags).log.stages;
    assert |stages| == 1 && stages[0].name == InputLoad && stages[0].status == Failed;
    assert stages[0].failureReason == Some(Cause(StopReason(f, Ending(0, true))));
    CanonicalNormalizes(stages);
    assert Normalize(stages)[0] == FillReasons(stages[0]);
  }

  lemma StoppedReasonOnRaise(f: Facts, flags: Flags)
    requires f.inputError.None? && f.loadError.None? && f.dryRunError.Some?
    ensures var s := Normalize(RunOf(f, flags).stages)[1];
            s.status.Failed? && s.failureReason == Some(Cause(f.dryRunError.value))
  {
    var stages := Final(f, flags).log.stages;
    assert |stages| == 3 && stages[1].name == RuntimeDryRun && stages[1].status == Failed;
    assert stages[1].failureReason == Some(Cause(f.dryRunError.value));
    assert stages[2].name == ReportStage;
    StagesDistinct(1, 6);
    LastNamedAtUnique(stages, 1, 3);
    assert stages[..3] == stages;
    assert Normalize(stages)[1] == NormalAt(stages, STAGES[1]) == FillReasons(stages[1]);
  }

  lemma StopIsSaid(f: Facts, flags: Flags)
    requires !AdapterStops(f, flags) && EndsAt(f, flags).stopped
    ensures var e := EndsAt(f, flags);
      && e.done < 7
      && var s := Normalize(RunOf(f, flags).stages)[e.done];
         && (s.status.Blocked? ==> s.blockReason == Some(Cause(StopReason(f, e))))
         && (s.status.Failed? ==> s.failureReason == Some(Cause(StopReason(f, e))))
  {
    hide Final, Booked, Shape, EndsAt, AdapterStops;
    EndsAtZeroOnlyOnInput(f, flags);
    var p, e := Final(f, flags), EndsAt(f, flags);
    if f.inputError.Some? || f.loadError.Some? {
      EndsAtInput(f, flags);
      StoppedReasonOnInput(f, flags);
    } else if f.dryRunError.Some? {
      EndsAtRaised(f, flags);
      StoppedReasonOnRaise(f, flags);
    } else {
      RunEndsAsExpected(f, flags);
      RunIsConcluded(f, flags);
      FinalLists(f, flags);
      ShapeBounds(p.log.stages, e);
      StoppedReason(p.log.stages, p.log.warnings, StopReason(f, e), e);
    }
  }

  /** The stage matrix of a run: every stage with its status, whether it ran, and why it was skipped, stopped or
      warned. */
  lemma MatrixIsExact(f: Facts, flags: Flags)
    requires !AdapterStops(f, flags)
    ensures var r := RunOf(f, flags);
            var n, m := Normalize(r.stages), ReportOf(r).matrix;
            forall k :: 0 <= k < 7 ==>
              && STAGES[k] in m && m[STAGES[k]].status == n[k].status && m[STAGES[k]].ran == !n[k].status.Skipped?
              && m[STAGES[k]].reason ==
                 ShownReason(n[k], SkipCauseOf(f, flags), StopReason(f, EndsAt(f, flags)))
  {
    hide Final, EndsAt, SkipCauseOf, AdapterStops, StopReason, NormalAt, BuildReport, Shape;
    var r, e := RunOf(f, flags), EndsAt(f, flags);
    var n := Normalize(r.stages);
    SkipsAreExact(f, flags);
    RunHasShape(f, flags);
    if e.stopped { StopIsSaid(f, flags); }
    forall k | 0 <= k < 7
      ensures var m := ReportOf(r).matrix;
        && STAGES[k] in m && m[STAGES[k]].status == n[k].status && m[STAGES[k]].ran == !n[k].status.Skipped?
        && m[STAGES[k]].reason == ShownReason(n[k], SkipCauseOf(f, flags), StopReason(f, e))
    {
      MatrixRows(r, k);
      OneStopped(n, e, k);
    }
  }

  lemma OneStopped(n: seq<StageResult>, e: Ending, k: nat)
    requires Shape(n, e) && k < 7
    ensures n[k].Stopped() ==> e.stopped && k == e.done
  {
  }

  /** A reason that a stage gives is kept; a missing one is the first text it gives, or the default of its status. */
  lemma MissingReasonIsFirstText(s: StageResult)
    ensures var n := FillReasons(s);
      && (s.skipReason.Some? ==> n.skipReason == s.skipReason)
      && (s.blockReason.Some? ==> n.blockReason == s.blockReason)
      && (s.failureReason.Some? ==> n.failureReason == s.failureReason)
      && (s.status.Skipped? && s.skipReason.None? ==>
            n.skipReason == Some(if s.blocking != [] && s.blocking[0] != Cause("") then s.blocking[0]
                                 else if s.warnings != [] && s.warnings[0] != "" then Cause(s.warnings[0])
                                 else NotReached))
      && (s.status.Blocked? && s.blockReason.None? ==>
            n.blockReason ==
              Some(if s.blocking != [] && s.blocking[0] != Cause("") then s.blocking[0] else StageBlocked))
      && (s.status.Failed? && s.failureReason.None? ==>
            n.failureReason ==
              Some(if s.blocking != [] && s.blocking[0] != Cause("") then s.blocking[0] else StageFailure))
      && n.name == s.name && n.status == s.status && n.warnings == s.warnings && n.blocking == s.blocking
  {
  }

  /** The skipped-evidence flag of a run: raised by the option, by a blocked policy stage, and by one whose warnings end
      the run. */
  lemma EvidenceFlagIsExact(f: Facts, flags: Flags)
    requires !AdapterStops(f, flags)
    ensures RunOf(f, flags).evidenceSkipped <==>
            || flags.noEvidence || EndsAt(f, flags) == Ending(4, true)
            || (EndsAt(f, flags) == Ending(5, false) && WarningStops(f, flags, EndsAt(f, flags)))
  {
    var p1 := AfterInput(f, flags);
    assert p1.log.evidenceSkipped == flags.noEvidence;
    if p1.Running? {
      var p2 := AfterRuntime(f, flags, p1.log);
      assert p2.log.evidenceSkipped == flags.noEvidence;
      if p2.Running? {
        var p3 := AfterAdapter(f, flags, p2.log);
        assert p3.log.evidenceSkipped == flags.noEvidence;
        if p3.Running? {
          var p4 := AfterFailure(f, p3.log);
          assert p4.log.evidenceSkipped == flags.noEvidence;
        }
      }
    }
  }

  /** The terminal state of a run that failed or got invalid input names the first failed stage, if there is one. */
  lemma FailedTerminalNamesStage(status: PipelineStatus, results: seq<StageResult>, k: nat)
    requires status == PipelineFailed || status == PipelineInvalidInput
    requires k < 7 && Normalize(results)[k].status.Failed?
    requires forall i :: 0 <= i < k ==> !Normalize(results)[i].status.Failed?
    ensures var t := TerminalState(status, results);
      && t.stage == STAGES[k] && t.blockingStage == Some(STAGES[k])
      && t.category == (if status == PipelineFailed then InternalFailure else InvalidInput)
      && (forall text :: text != "" && Normalize(results)[k].failureReason == Some(Cause(text)) ==>
            t.exitReason == Cause(text))
  {
    NormalizeIsCanonical(results);
    FirstWithFinds(Normalize(results), Failed, k);
  }
}
