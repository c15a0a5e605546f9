/** The report of a run: exit code, terminal stage and consistency checks. */
module RunReportTheorems {
  import opened Base
  import opened PipelineReport
  import opened PipelineRunner
  import opened RunTheorems

  lemma {:induction false} FirstWithFinds(results: seq<StageResult>, status: StageStatus, k: nat)
    requires k < |results| && results[k].status == status
    requires forall i :: 0 <= i < k ==> results[i].status != status
    ensures FirstWith(results, status) == Some(results[k])
  {
    if k > 0 { FirstWithFinds(results[1..], status, k - 1); }
  }

  lemma {:induction false} FirstWithNone(results: seq<StageResult>, status: StageStatus)
    requires forall i :: 0 <= i < |results| ==> results[i].status != status
    ensures FirstWith(results, status) == None
  {
    if results != [] { FirstWithNone(results[1..], status); }
  }

  lemma FinalStatusAndExit(f: Facts, flags: Flags)
    requires !AdapterStops(f, flags)
    ensures var r, e := RunOf(f, flags), EndsAt(f, flags);
      && (r.exitCode == EXIT_OK <==> !e.stopped) && (r.exitCode == EXIT_OK || r.exitCode == EXIT_INVALID)
      && (e.stopped ==> r.status == if e.done == 0 then PipelineInvalidInput else PipelineBlocked)
      && (!e.stopped ==> r.status == PipelineCompleted || r.status == PipelineCompletedWithWarnings)
  {
    if f.inputError.None? && f.loadError.None? && f.dryRunError.None? {
      RunEndsAsExpected(f, flags);
      EndsAtZeroOnlyOnInput(f, flags);
    }
  }

  lemma EndsAtZeroOnlyOnInput(f: Facts, flags: Flags)
    ensures EndsAt(f, flags).done == 0 <==> f.inputError.Some? || f.loadError.Some?
  {
  }

  /** A failed (rather than blocked) stage comes only from input errors and a raising dry run. */
  lemma WhichStagesFail(f: Facts, flags: Flags)
    requires !AdapterStops(f, flags)
    ensures var n, e := Normalize(RunOf(f, flags).stages), EndsAt(f, flags);
      e.stopped ==> n[e.done].status == if e.done == 0 || (e.done == 1 && f.dryRunError.Some?) then Failed else Blocked
  {
    RunHasShape(f, flags);
    if f.inputError.Some? || f.loadError.Some? {
      InputStageFails(f, flags);
    } else if f.dryRunError.Some? {
      DryRunErrorShape(f, flags);
    } else {
      RunEndsAsExpected(f, flags);
      NeverFails(f, flags);
    }
  }

  lemma InputStageFails(f: Facts, flags: Flags)
    requires f.inputError.Some? || f.loadError.Some?
    ensures Normalize(RunOf(f, flags).stages)[0].status == Failed
  {
    var stages := Final(f, flags).log.stages;
    assert |stages| == 1 && stages[0].name == InputLoad && stages[0].status == Failed;
    CanonicalNormalizes(stages);
    assert Normalize(stages)[0] == FillReasons(stages[0]);
  }

  ghost predicate NoneFailed(stages: seq<StageResult>) {
    forall i :: 0 <= i < |stages| ==> !stages[i].status.Failed?
  }

  lemma RuntimeNeverFails(f: Facts, flags: Flags, log: Log)
    requires NoneFailed(log.stages) && f.dryRunError.None?
    ensures NoneFailed(AfterRuntime(f, flags, log).log.stages)
  {
  }

  lemma AdapterNeverFails(f: Facts, flags: Flags, log: Log)
    requires NoneFailed(log.stages)
    ensures NoneFailed(AfterAdapter(f, flags, log).log.stages)
  {
  }

  lemma FailureNeverFails(f: Facts, log: Log)
    requires NoneFailed(log.stages)
    ensures NoneFailed(AfterFailure(f, log).log.stages)
  {
  }

  lemma PolicyNeverFails(f: Facts, flags: Flags, log: Log)
    requires NoneFailed(log.stages)
    ensures NoneFailed(AfterPolicy(f, flags, log).log.stages)
  {
  }

  lemma EvidenceNeverFails(f: Facts, flags: Flags, log: Log)
    requires NoneFailed(log.stages)
    ensures NoneFailed(AfterEvidence(f, flags, log).log.stages)
    ensures NoneFailed(AtEnd(log).log.stages)
  {
  }

  lemma NeverFails(f: Facts, flags: Flags)
    requires f.inputError.None? && f.loadError.None? && f.dryRunError.None? && !AdapterStops(f, flags)
    ensures var n, e := Normalize(RunOf(f, flags).stages), EndsAt(f, flags); e.stopped ==> n[e.done].status.Blocked?
  {
    var p1 := AfterInput(f, flags);
    var p2 := AfterRuntime(f, flags, p1.log);
    RuntimeNeverFails(f, flags, p1.log);
    var p3 := AfterAdapter(f, flags, p2.log);
    AdapterNeverFails(f, flags, p2.log);
    var p4 := AfterFailure(f, p3.log);
    FailureNeverFails(f, p3.log);
    var p5 := AfterPolicy(f, flags, p4.log);
    PolicyNeverFails(f, flags, p4.log);
    var p6 := AfterEvidence(f, flags, p5.log);
    EvidenceNeverFails(f, flags, p5.log);
    EvidenceNeverFails(f, flags, p6.log);
    RunEndsAsExpected(f, flags);
    StoppedNotFailedIsBlocked(Final(f, flags).log.stages, EndsAt(f, flags));
  }

  lemma StoppedNotFailedIsBlocked(stages: seq<StageResult>, e: Ending)
    requires Canonical(stages) && |stages| == 7 && Shape(stages, e) && NoneFailed(stages)
    ensures e.stopped ==> Normalize(stages)[e.done].status.Blocked?
  {
    CanonicalNormalizes(stages);
  }

  lemma TerminalOfShape(status: PipelineStatus, stages: seq<StageResult>, e: Ending, failed: bool)
    requires var n := Normalize(stages);
      Shape(n, e) && (e.stopped ==> n[e.done].status == if failed then Failed else Blocked)
    requires e.stopped ==> status == PipelineBlocked || (status == PipelineInvalidInput && failed)
    requires !e.stopped ==> status == PipelineCompleted || status == PipelineCompletedWithWarnings
    ensures var t := TerminalState(status, stages);
      && (t.blockingStage.None? <==> !e.stopped)
      && t.stage == (if !e.stopped || (failed && status == PipelineBlocked) then ReportStage else STAGES[e.done])
      && (e.stopped ==> t.blockingStage == Some(t.stage))
  {
    NormalizeIsCanonical(stages);
    var n := Normalize(stages);
    if e.stopped {
      if failed {
        FirstWithFinds(n, Failed, e.done);
        FirstWithNone(n, Blocked);
      } else {
        FirstWithFinds(n, Blocked, e.done);
      }
    }
  }

  lemma ReportTerminal(r: RunResult)
    ensures ReportOf(r).terminal == TerminalState(r.status, Normalize(r.stages))
  {
  }

  /** Exit 0 if and only if no stage stopped if and only if no blocking stage is named; otherwise exactly one stage
      stopped, and the terminal stage names it, or the report itself when the dry run raised. */
  ghost predicate FaithfulTerminal(exitCode: int, n: seq<StageResult>, t: Terminal, at: nat, raised: bool) {
    && (exitCode == EXIT_OK <==> forall i :: 0 <= i < |n| ==> !n[i].Stopped())
    && (exitCode == EXIT_OK <==> t.blockingStage.None?)
    && (exitCode == EXIT_OK || exitCode == EXIT_INVALID)
    && (exitCode != EXIT_OK ==>
         && at < |n| && n[at].Stopped() && (forall i :: 0 <= i < |n| && i != at ==> !n[i].Stopped())
         && t.stage == if raised then ReportStage else n[at].name)
  }

  lemma ShapeIsFaithful(exitCode: int, n: seq<StageResult>, t: Terminal, e: Ending, raised: bool)
    requires Shape(n, e) && forall i :: 0 <= i < 7 ==> n[i].name == STAGES[i]
    requires (exitCode == EXIT_OK <==> !e.stopped) && (exitCode == EXIT_OK || exitCode == EXIT_INVALID)
    requires t.blockingStage.None? <==> !e.stopped
    requires e.stopped ==> t.stage == if raised then ReportStage else STAGES[e.done]
    ensures FaithfulTerminal(exitCode, n, t, e.done, raised)
  {
  }

  /** Terminal state is faithful on every run whose adapter stage does not stop. */
  lemma TerminalStateIsFaithful(f: Facts, flags: Flags)
    requires !AdapterStops(f, flags)
    ensures var r, e := RunOf(f, flags), EndsAt(f, flags);
      FaithfulTerminal(r.exitCode, Normalize(r.stages), ReportOf(r).terminal, e.done,
                       e.done == 1 && f.dryRunError.Some?)
  {
    var r, e := RunOf(f, flags), EndsAt(f, flags);
    var n, raised := Normalize(r.stages), e.done == 1 && f.dryRunError.Some?;
    RunHasShape(f, flags);
    FinalStatusAndExit(f, flags);
    WhichStagesFail(f, flags);
    NormalizeIsCanonical(r.stages);
    TerminalOfShape(r.status, n, e, e.done == 0 || raised);
    ReportTerminal(r);
    ShapeIsFaithful(r.exitCode, n, ReportOf(r).terminal, e, raised);
  }

  // ---- consistency checks ----

  lemma EvidenceFlagNeedsSkip(f: Facts, flags: Flags)
    requires !AdapterStops(f, flags)
    ensures RunOf(f, flags).evidenceSkipped ==> EndsAt(f, flags).done <= (if EndsAt(f, flags).stopped then 4 else 5)
  {
    if f.inputError.None? && f.loadError.None? && f.dryRunError.None? {
      FlagFollowsNoEvidence(f, flags);
    }
  }

  /** The skipped-evidence flag is raised only by the no-evidence option, a blocked policy or a stopped policy. */
  lemma FlagFollowsNoEvidence(f: Facts, flags: Flags)
    requires f.inputError.None? && f.loadError.None? && f.dryRunError.None? && !AdapterStops(f, flags)
    ensures RunOf(f, flags).evidenceSkipped ==> EndsAt(f, flags).done <= (if EndsAt(f, flags).stopped then 4 else 5)
  {
    var p1 := AfterInput(f, flags);
    assert p1.log.evidenceSkipped == flags.noEvidence;
    var p2 := AfterRuntime(f, flags, p1.log);
    assert p2.log.evidenceSkipped == flags.noEvidence;
    if p2.Running? {
      var p3 := AfterAdapter(f, flags, p2.log);
      assert p3.log.evidenceSkipped == flags.noEvidence;
      if p3.Running? {
        var p4 := AfterFailure(f, p3.log);
        assert p4.log.evidenceSkipped == flags.noEvidence;
        if p4.Running? {
          var p5 := AfterPolicy(f, flags, p4.log);
          if p5.Running? {
            assert p5.log.evidenceSkipped == flags.noEvidence;
          }
        }
      }
    }
  }

  /** On every run whose adapter stage does not stop, the status counts sum to seven and every consistency check of
      the report is true. */
  lemma RunReportIsConsistent(f: Facts, flags: Flags)
    requires !AdapterStops(f, flags)
    ensures var c := ReportOf(RunOf(f, flags)).counts;
      c.completed + c.withWarnings + c.skipped + c.blocked + c.failed == 7 == c.total
    ensures ReportOf(RunOf(f, flags)).consistency.AllTrue()
  {
    var r := RunOf(f, flags);
    ReportIsConsistent(r.status, r.exitCode, r.stages, r.warnings, Causes(r.blocking), r.evidenceSkipped);
    RunHasShape(f, flags);
    EvidenceFlagNeedsSkip(f, flags);
    assert Normalize(r.stages)[5] == NormalAt(r.stages, EvidenceBundle);
  }
}
