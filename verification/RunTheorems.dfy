/** What every run keeps, over all facts and flags: stage shape, dependencies, terminal state and trace brackets. */
module RunTheorems {
  import opened Base
  import opened PipelineReport
  import opened PipelineRunner

  /** Stage results that follow the registry from its first stage on. */
  ghost predicate Canonical(stages: seq<StageResult>) {
    && |stages| <= |STAGES|
    && forall i :: 0 <= i < |stages| ==> stages[i].name == STAGES[i]
  }

  lemma CanonicalNormalizes(stages: seq<StageResult>)
    requires Canonical(stages)
    ensures forall i :: 0 <= i < |stages| ==> NormalAt(stages, STAGES[i]) == FillReasons(stages[i])
    ensures forall i :: |stages| <= i < |STAGES| ==> NormalAt(stages, STAGES[i]).status.Skipped?
  {
    forall i | 0 <= i < |stages| ensures NormalAt(stages, STAGES[i]) == FillReasons(stages[i]) {
      forall j | i < j < |stages| ensures stages[j].name != stages[i].name { StagesDistinct(i, j); }
      LastNamedAtUnique(stages, i, |stages|);
      assert stages[..|stages|] == stages;
    }
    forall i | |stages| <= i < |STAGES| ensures LastNamed(stages, STAGES[i]).None? {
      LastNamedHasName(stages, STAGES[i]);
      forall j | 0 <= j < |stages| ensures stages[j].name != STAGES[i] { StagesDistinct(j, i); }
    }
  }

  /** Skipping what remains after a warning skips exactly the registry positions from the current one up to the
      report. */
  lemma {:induction false} RemainingAfter(stages: seq<StageResult>, n: nat)
    requires Canonical(stages) && 1 <= |stages| <= 6 && n <= |STAGES|
    ensures Remaining(stages, n) ==
            if n <= |stages| then [] else if n == 7 then STAGES[|stages|..6] else STAGES[|stages|..n]
  {
    hide LastNamed, Canonical;
    if n > 0 {
      RemainingAfter(stages, n - 1);
      CanonicalNames(stages, n - 1);
    }
  }

  lemma CanonicalNames(stages: seq<StageResult>, i: nat)
    requires Canonical(stages) && i < |STAGES|
    ensures LastNamed(stages, STAGES[i]).Some? <==> i < |stages|
  {
    LastNamedHasName(stages, STAGES[i]);
    if i < |stages| {
      assert stages[i] in stages;
    } else {
      forall j | 0 <= j < |stages| ensures stages[j].name != STAGES[i] { StagesDistinct(j, i); }
    }
  }

  /** How far a run gets: the number of leading stages done, and whether the next one blocked or failed. */
  datatype Ending = Ending(done: nat, stopped: bool)

  /** Where a run must end, read off the facts stage by stage. */
  function EndsAt(f: Facts, flags: Flags): Ending {
    if f.inputError.Some? || f.loadError.Some? then Ending(0, true)
    else if f.dryRunError.Some? || f.runtimeBlock.Some? then Ending(1, true)
    else if flags.stopOnWarning && f.runtimeWarnings != [] then Ending(2, false)
    else if f.adapterBlock.Some? then Ending(2, true)
    else if flags.stopOnWarning && f.adapterWarnings != [] then Ending(3, false)
    else if f.failureBlock.Some? then Ending(3, true)
    else if f.policyBlock.Some? then Ending(4, true)
    else if flags.stopOnWarning && f.policyWarnings != [] then Ending(5, false)
    else if flags.noEvidence then Ending(5, false)
    else if f.evidence.EvidenceBlocked? then Ending(5, true)
    else Ending(6, false)
  }

  /** The adapter stage is reached and blocks. */
  predicate AdapterStops(f: Facts, flags: Flags) {
    EndsAt(f, flags) == Ending(2, true)
  }

  /** The stages of a normalised run: done up to a point, possibly one stopped, the rest skipped, then the report. */
  ghost predicate Shape(n: seq<StageResult>, e: Ending) {
    && |n| == 7 && e.done <= 6 && (e.stopped ==> e.done < 6)
    && (forall i :: 0 <= i < e.done ==> n[i].Done())
    && (e.stopped ==> n[e.done].Stopped())
    && (forall i :: (if e.stopped then e.done + 1 else e.done) <= i < 6 ==> n[i].status.Skipped?)
    && (if e.done == 0 then n[6].status.Skipped? else n[6].Done())
  }

  ghost predicate OnTrack(p: Progress, k: nat) {
    p.Running? && Canonical(p.log.stages) && |p.log.stages| == k && p.log.blocking == []
    && forall i :: 0 <= i < k ==> p.log.stages[i].Done()
  }

  /** A run that has ended with a canonical list of the given shape. */
  ghost predicate EndedAs(p: Progress, e: Ending) {
    && p.Ended? && Canonical(p.log.stages) && |p.log.stages| == 7
    && Shape(p.log.stages, e)
    && (p.exitCode == EXIT_OK <==> !e.stopped)
    && (p.exitCode == EXIT_OK || p.exitCode == EXIT_INVALID)
    && (p.status == PipelineBlocked <==> e.stopped)
    && !p.status.PipelineInvalidInput? && !p.status.PipelineFailed?
  }

  lemma MakeStageStatus(name: StageName, status: StageStatus, warnings: seq<string>, blocking: seq<Cause>,
                        skip: Option<Cause>)
    ensures MakeStage(name, status, warnings, blocking, skip).name == name
    ensures MakeStage(name, status, warnings, blocking, skip).status == status
  {
  }

  lemma WarnSkippedAre(names: seq<StageName>)
    ensures |WarnSkipped(names)| == |names|
    ensures forall i :: 0 <= i < |names| ==>
            WarnSkipped(names)[i].name == names[i] && WarnSkipped(names)[i].status.Skipped?
  {
  }

  lemma StopRemainingShape(log: Log)
    requires Canonical(log.stages) && 2 <= |log.stages| <= 5
    requires forall i :: 0 <= i < |log.stages| ==> log.stages[i].Done()
    ensures EndedAs(WarnedAfter(StopRemaining(log)), Ending(|log.stages|, false))
  {
    hide WarnSkipped, MakeStage, Remaining, SkipEvents;
    RemainingAfter(log.stages, 7);
    WarnSkippedAre(STAGES[|log.stages|..6]);
    MakeStageStatus(ReportStage, CompletedWithWarnings, log.warnings, [], None);
  }

  lemma InputStep(f: Facts, flags: Flags)
    requires f.inputError.None? && f.loadError.None?
    ensures OnTrack(AfterInput(f, flags), 1)
  {
  }

  lemma RuntimeBlockedStep(f: Facts, flags: Flags, p: Progress)
    requires OnTrack(p, 1) && f.dryRunError.None? && f.runtimeBlock.Some?
    ensures EndedAs(AfterRuntime(f, flags, p.log), Ending(1, true))
  {
    hide MakeStage;
    MakeStageStatus(RuntimeDryRun, Blocked, f.runtimeWarnings, [Cause(f.runtimeBlock.value)], None);
    MakeStageStatus(ReportStage, Completed, [], [], None);
    var cause := AfterBlocked(RuntimeDryRun);
    MakeStageStatus(AdapterSimulation, Skipped, [], [cause], None);
    MakeStageStatus(FailureRollback, Skipped, [], [cause], None);
    MakeStageStatus(PolicySimulation, Skipped, [], [cause], None);
    MakeStageStatus(EvidenceBundle, Skipped, [], [cause], None);
  }

  lemma RuntimeStep(f: Facts, flags: Flags, p: Progress)
    requires OnTrack(p, 1) && f.dryRunError.None?
    ensures var q := AfterRuntime(f, flags, p.log);
      if f.runtimeBlock.Some? then EndedAs(q, Ending(1, true))
      else if flags.stopOnWarning && f.runtimeWarnings != [] then EndedAs(q, Ending(2, false))
      else OnTrack(q, 2)
  {
    hide MakeStage, EndedAs, StopRemaining, BlockedAfter, FailedLog, SkipAll;
    MakeStageStatus(RuntimeDryRun, if f.runtimeWarnings != [] then CompletedWithWarnings else Completed,
                    f.runtimeWarnings, [], None);
    if f.runtimeBlock.Some? {
      RuntimeBlockedStep(f, flags, p);
    } else if flags.stopOnWarning && f.runtimeWarnings != [] {
      StopRemainingShape(DoneLog(Begin(p.log, RuntimeDryRun), RuntimeDryRun, f.runtimeWarnings));
    }
  }

  lemma AdapterStep(f: Facts, flags: Flags, p: Progress)
    requires OnTrack(p, 2) && f.adapterBlock.None?
    ensures var q := AfterAdapter(f, flags, p.log);
      if flags.stopOnWarning && f.adapterWarnings != [] then EndedAs(q, Ending(3, false)) else OnTrack(q, 3)
  {
    if flags.stopOnWarning && f.adapterWarnings != [] {
      StopRemainingShape(DoneLog(Begin(p.log, AdapterSimulation), AdapterSimulation, f.adapterWarnings));
    }
  }

  lemma FailureStep(f: Facts, p: Progress)
    requires OnTrack(p, 3)
    ensures var q := AfterFailure(f, p.log);
      if f.failureBlock.Some? then EndedAs(q, Ending(3, true)) else OnTrack(q, 4)
  {
    hide MakeStage;
    MakeStageStatus(FailureRollback, Completed, [], [], None);
    if f.failureBlock.Some? {
      var cause := AfterBlocked(FailureRollback);
      MakeStageStatus(FailureRollback, Blocked, [], [Cause(f.failureBlock.value)], None);
      MakeStageStatus(PolicySimulation, Skipped, [], [cause], None);
      MakeStageStatus(EvidenceBundle, Skipped, [], [cause], None);
      MakeStageStatus(ReportStage, Completed, [], [], None);
    }
  }

  lemma PolicyStep(f: Facts, flags: Flags, p: Progress)
    requires OnTrack(p, 4)
    ensures var q := AfterPolicy(f, flags, p.log);
      if f.policyBlock.Some? then EndedAs(q, Ending(4, true))
      else if flags.stopOnWarning && f.policyWarnings != [] then EndedAs(q, Ending(5, false))
      else OnTrack(q, 5)
  {
    hide MakeStage, EndedAs, OnTrack;
    if f.policyBlock.Some? {
      PolicyBlockedStep(f, flags, p);
    } else if flags.stopOnWarning && f.policyWarnings != [] {
      PolicyWarnedStep(f, flags, p);
    } else {
      PolicyDoneStep(f, flags, p);
    }
  }

  lemma PolicyBlockedStep(f: Facts, flags: Flags, p: Progress)
    requires OnTrack(p, 4) && f.policyBlock.Some?
    ensures EndedAs(AfterPolicy(f, flags, p.log), Ending(4, true))
  {
    hide MakeStage;
    MakeStageStatus(PolicySimulation, Blocked, [], [Cause(f.policyBlock.value)], None);
    MakeStageStatus(EvidenceBundle, Skipped, [], [AfterBlocked(PolicySimulation)], None);
    MakeStageStatus(ReportStage, Completed, [], [], None);
  }

  lemma PolicyWarnedStep(f: Facts, flags: Flags, p: Progress)
    requires OnTrack(p, 4) && f.policyBlock.None? && flags.stopOnWarning && f.policyWarnings != []
    ensures EndedAs(AfterPolicy(f, flags, p.log), Ending(5, false))
  {
    hide MakeStage;
    MakeStageStatus(PolicySimulation, CompletedWithWarnings, f.policyWarnings, [], None);
    MakeStageStatus(EvidenceBundle, Skipped, [], [StopOnWarning], None);
    MakeStageStatus(ReportStage, CompletedWithWarnings, p.log.warnings + f.policyWarnings, [], None);
  }

  lemma PolicyDoneStep(f: Facts, flags: Flags, p: Progress)
    requires OnTrack(p, 4) && f.policyBlock.None? && !(flags.stopOnWarning && f.policyWarnings != [])
    ensures OnTrack(AfterPolicy(f, flags, p.log), 5)
  {
    hide MakeStage;
    MakeStageStatus(PolicySimulation, if f.policyWarnings != [] then CompletedWithWarnings else Completed,
                    f.policyWarnings, [], None);
  }

  lemma EvidenceStep(f: Facts, flags: Flags, p: Progress)
    requires OnTrack(p, 5)
    ensures var q := AfterEvidence(f, flags, p.log);
      if flags.noEvidence then q.Running? && EndedAs(AtEnd(q.log), Ending(5, false))
      else if f.evidence.EvidenceBlocked? then EndedAs(q, Ending(5, true))
      else q.Running? && EndedAs(AtEnd(q.log), Ending(6, false))
  {
  }

  /** Apart from input errors and a raising dry run, a run whose adapter stage does not stop ends exactly where the
      facts say, in the stage shape that goes with it. */
  lemma RunEndsAsExpected(f: Facts, flags: Flags)
    requires f.inputError.None? && f.loadError.None? && f.dryRunError.None? && !AdapterStops(f, flags)
    ensures EndedAs(Final(f, flags), EndsAt(f, flags))
  {
    InputStep(f, flags);
    var p1 := AfterInput(f, flags);
    RuntimeStep(f, flags, p1);
    var p2 := AfterRuntime(f, flags, p1.log);
    if p2.Running? {
      AdapterStep(f, flags, p2);
      var p3 := AfterAdapter(f, flags, p2.log);
      if p3.Running? {
        FailureStep(f, p3);
        var p4 := AfterFailure(f, p3.log);
        if p4.Running? {
          PolicyStep(f, flags, p4);
          var p5 := AfterPolicy(f, flags, p4.log);
          if p5.Running? {
            EvidenceStep(f, flags, p5);
          }
        }
      }
    }
  }

  // ---- dependencies ----

  /** Every stage that ran has all its declared dependencies done, at most one stage stopped, and every later stage
      except the report is skipped. */
  ghost predicate DependencySafe(n: seq<StageResult>)
    requires |n| == |STAGES|
  {
    && (forall i, j :: 0 <= i < 7 && 0 <= j < 7 && n[i].Ran() && STAGES[j] in DependenciesOf(STAGES[i]) ==> n[j].Done())
    && (forall i, j :: 0 <= i < 7 && 0 <= j < 7 && n[i].Stopped() && n[j].Stopped() ==> i == j)
    && (forall i, j :: 0 <= i < j < 6 && n[i].Stopped() ==> n[j].status.Skipped?)
  }

  /** Dependencies point backwards, and the report has none. */
  lemma DependenciesPointBack(i: nat, j: nat)
    requires i < 7 && j < 7 && STAGES[j] in DependenciesOf(STAGES[i])
    ensures j < i < 6
  {
  }

  /** Every stage between the first and the report depends on the one before it, and on nothing after: through the chain
      it needs them all. */
  lemma EachNeedsThePrevious(i: nat)
    requires 1 <= i <= 5
    ensures STAGES[i - 1] in DependenciesOf(STAGES[i])
    ensures forall s :: s in DependenciesOf(STAGES[i]) ==> exists j :: 0 <= j < i && s == STAGES[j]
    ensures i > 1 ==> STAGES[1] in DependenciesOf(STAGES[i])
    ensures 2 < i < 5 ==> STAGES[2] in DependenciesOf(STAGES[i])
  {
    assert STAGES[0] == InputLoad && STAGES[1] == RuntimeDryRun && STAGES[2] == AdapterSimulation;
    assert STAGES[3] == FailureRollback && STAGES[4] == PolicySimulation && STAGES[5] == EvidenceBundle;
  }

  lemma ShapeIsSafe(n: seq<StageResult>, e: Ending)
    requires Shape(n, e)
    ensures DependencySafe(n)
  {
    forall i, j | 0 <= i < 7 && 0 <= j < 7 && n[i].Ran() && STAGES[j] in DependenciesOf(STAGES[i])
      ensures n[j].Done()
    {
      DependenciesPointBack(i, j);
    }
  }

  lemma FilledShape(stages: seq<StageResult>, e: Ending)
    requires Canonical(stages) && |stages| == 7 && Shape(stages, e)
    ensures Shape(Normalize(stages), e)
  {
    CanonicalNormalizes(stages);
    forall i | 0 <= i < 7 ensures Normalize(stages)[i].status == stages[i].status {}
  }

  lemma InputErrorShape(f: Facts, flags: Flags)
    requires f.inputError.Some? || f.loadError.Some?
    ensures Shape(Normalize(Final(f, flags).log.stages), Ending(0, true))
  {
    var stages := Final(f, flags).log.stages;
    assert |stages| == 1 && stages[0].name == InputLoad && stages[0].status == Failed;
    CanonicalNormalizes(stages);
    assert Normalize(stages)[0] == FillReasons(stages[0]);
    forall i | 1 <= i < 7 ensures Normalize(stages)[i].status.Skipped? {}
  }

  /** A raising dry run leaves three results; normalisation fills in the skipped stages. */
  lemma DryRunErrorShape(f: Facts, flags: Flags)
    requires f.inputError.None? && f.loadError.None? && f.dryRunError.Some?
    ensures Shape(Normalize(Final(f, flags).log.stages), Ending(1, true))
    ensures Normalize(Final(f, flags).log.stages)[1].status == Failed
  {
    var stages := Final(f, flags).log.stages;
    var first := stages[..2];
    assert |stages| == 3 && Canonical(first) && stages == first + [stages[2]] && stages[2].name == ReportStage;
    assert stages[0].status == Completed && stages[1].status == Failed && stages[2].status == Completed;
    CanonicalNormalizes(first);
    assert stages[..2] == first;
    forall i | 0 <= i < 6 ensures LastNamed(stages, STAGES[i]) == LastNamed(first, STAGES[i]) {
      StagesDistinct(i, 6);
      assert stages[..|stages| - 1] == first;
    }
    LastNamedAtUnique(stages, 2, 3);
    assert stages[..3] == stages;
    forall i | 0 <= i < 7 ensures Normalize(stages)[i] == NormalAt(stages, STAGES[i]) {}
    forall i | 0 <= i < 6 ensures NormalAt(stages, STAGES[i]).status == NormalAt(first, STAGES[i]).status {}
  }

  /** On every returning path where the adapter stage does not stop, the normalised stages have the expected shape. */
  lemma RunHasShape(f: Facts, flags: Flags)
    requires !AdapterStops(f, flags)
    ensures Shape(Normalize(RunOf(f, flags).stages), EndsAt(f, flags))
  {
    if f.inputError.Some? || f.loadError.Some? {
      InputErrorShape(f, flags);
    } else if f.dryRunError.Some? {
      DryRunErrorShape(f, flags);
    } else {
      RunEndsAsExpected(f, flags);
      FilledShape(Final(f, flags).log.stages, EndsAt(f, flags));
    }
  }

  /** Later steps only append to a canonical list, one registry stage at a time. */
  ghost predicate Extends(before: seq<StageResult>, p: Progress) {
    && Canonical(p.log.stages) && before <= p.log.stages
    && (p.Ended? ==> |p.log.stages| == 7)
    && (p.Running? ==> |p.log.stages| == |before| + 1)
  }

  lemma FailureExtends(f: Facts, log: Log)
    requires Canonical(log.stages) && |log.stages| == 3
    ensures Extends(log.stages, AfterFailure(f, log)) && AfterFailure(f, log).log.stages[3].Ran()
  {
  }

  lemma PolicyExtends(f: Facts, flags: Flags, log: Log)
    requires Canonical(log.stages) && |log.stages| == 4
    ensures Extends(log.stages, AfterPolicy(f, flags, log))
  {
  }

  lemma EvidenceExtends(f: Facts, flags: Flags, log: Log)
    requires Canonical(log.stages) && |log.stages| == 5
    ensures Extends(log.stages, AfterEvidence(f, flags, log))
  {
  }

  lemma EndExtends(log: Log)
    requires Canonical(log.stages) && |log.stages| == 6
    ensures Extends(log.stages, AtEnd(log))
  {
  }

  lemma TailExtends(f: Facts, flags: Flags, log: Log)
    requires Canonical(log.stages) && |log.stages| == 3
    ensures Extends(log.stages, FromFailure(f, flags, log)) && FromFailure(f, flags, log).log.stages[3].Ran()
  {
    FailureExtends(f, log);
    var p4 := AfterFailure(f, log);
    if p4.Running? {
      PolicyExtends(f, flags, p4.log);
      var p5 := AfterPolicy(f, flags, p4.log);
      if p5.Running? {
        EvidenceExtends(f, flags, p5.log);
        var p6 := AfterEvidence(f, flags, p5.log);
        if p6.Running? {
          EndExtends(p6.log);
        }
      }
    }
  }

  lemma AdapterStepBlocked(f: Facts, flags: Flags, p: Progress)
    requires OnTrack(p, 2) && f.adapterBlock.Some?
    ensures var q := AfterAdapter(f, flags, p.log);
      q.Running? && Canonical(q.log.stages) && |q.log.stages| == 3 && q.log.stages[2].status == Blocked
  {
  }

  lemma BlockedThenRanIsUnsafe(stages: seq<StageResult>)
    requires Canonical(stages) && |stages| == 7 && stages[2].status == Blocked && stages[3].Ran()
    ensures !DependencySafe(Normalize(stages))
  {
    CanonicalNormalizes(stages);
    var n := Normalize(stages);
    assert n[2].status == Blocked && n[3].Ran() && STAGES[2] in DependenciesOf(STAGES[3]);
  }

  /** A blocked adapter stage falls through: the failure stage runs although its dependency did not complete. */
  lemma BlockedAdapterFallsThrough(f: Facts, flags: Flags)
    requires AdapterStops(f, flags)
    ensures !DependencySafe(Normalize(RunOf(f, flags).stages))
  {
    InputStep(f, flags);
    var p1 := AfterInput(f, flags);
    RuntimeStep(f, flags, p1);
    var p2 := AfterRuntime(f, flags, p1.log);
    AdapterStepBlocked(f, flags, p2);
    var log := AfterAdapter(f, flags, p2.log).log;
    TailExtends(f, flags, log);
    var stages := FromFailure(f, flags, log).log.stages;
    assert stages[2] == log.stages[2];
    BlockedThenRanIsUnsafe(stages);
  }

  /** Dependency safety, exactly: a run respects the declared dependency graph if and only if its adapter stage is not
      reached and blocked. */
  lemma DependenciesRespectedExactly(f: Facts, flags: Flags)
    ensures DependencySafe(Normalize(RunOf(f, flags).stages)) <==> !AdapterStops(f, flags)
  {
    if AdapterStops(f, flags) {
      BlockedAdapterFallsThrough(f, flags);
    } else {
      RunHasShape(f, flags);
      ShapeIsSafe(Normalize(RunOf(f, flags).stages), EndsAt(f, flags));
    }
  }
}
