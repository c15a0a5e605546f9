/** Runs with and without `stop_on_warning`, compared on the same facts. */
module StopOnWarningTheorem {
  import opened Base
  import opened PipelineReport
  import opened PipelineRunner
  import opened RunTheorems

  /** The first of the runtime, adapter and policy stages that completed with warnings, by position. */
  function FirstWarned(stages: seq<StageResult>): Option<nat> {
    if |stages| < 7 then None
    else if stages[1].status.CompletedWithWarnings? then Some(1)
    else if stages[2].status.CompletedWithWarnings? then Some(2)
    else if stages[4].status.CompletedWithWarnings? then Some(4)
    else None
  }

  ghost predicate StoppedAfter(stopped: RunResult, plain: RunResult, w: nat) {
    && |stopped.stages| == |plain.stages| == 7 && w < 6
    && stopped.stages[..w + 1] == plain.stages[..w + 1]
    && (forall i :: w < i < 6 ==>
        stopped.stages[i].status.Skipped? && stopped.stages[i].skipReason == Some(StopOnWarning))
    && stopped.stages[6].status.CompletedWithWarnings?
    && stopped.exitCode == EXIT_OK
  }

  /** The stop of a warned log: everything up to the report is skipped for `stop_on_warning`. */
  lemma StopSkipsRest(log: Log)
    requires Canonical(log.stages) && 2 <= |log.stages| <= 5
    ensures var s, k := WarnedAfter(StopRemaining(log)).log.stages, |log.stages|;
      && |s| == 7 && s[..k] == log.stages && s[6].status.CompletedWithWarnings?
      && forall i :: k <= i < 6 ==> s[i].status.Skipped? && s[i].skipReason == Some(StopOnWarning)
  {
    RemainingAfter(log.stages, 7);
  }

  lemma PolicyStopSkipsEvidence(log: Log)
    requires Canonical(log.stages) && |log.stages| == 5
    ensures var s := WarnedAfter(SkipAll(log, [EvidenceBundle], StopOnWarning).(evidenceSkipped := true)).log.stages;
      && |s| == 7 && s[..5] == log.stages && s[6].status.CompletedWithWarnings?
      && s[5].status.Skipped? && s[5].skipReason == Some(StopOnWarning)
  {
  }

  lemma DoneLogCanonical(log: Log, stage: StageName, warnings: seq<string>)
    requires Canonical(log.stages) && |log.stages| < 7 && stage == STAGES[|log.stages|]
    ensures var d := DoneLog(Begin(log, stage), stage, warnings);
      && Canonical(d.stages) && |d.stages| == |log.stages| + 1 && d.stages[..|log.stages|] == log.stages
      && d.stages[|log.stages|].status == if warnings != [] then CompletedWithWarnings else Completed
  {
  }

  lemma EvidenceIgnoresStop(f: Facts, plain: Flags, stop: Flags, log: Log)
    requires plain.noEvidence == stop.noEvidence
    ensures AfterEvidence(f, plain, log) == AfterEvidence(f, stop, log)
  {
  }

  /** From the failure stage on: the flag matters only if the policy stage completes with warnings. */
  lemma TailRelation(f: Facts, noEvidence: bool, log: Log)
    requires Canonical(log.stages) && |log.stages| == 3
    ensures var u, s := FromFailure(f, Flags(false, noEvidence), log), FromFailure(f, Flags(true, noEvidence), log);
      && |u.log.stages| == 7 && log.stages <= u.log.stages
      && (if u.log.stages[4].status.CompletedWithWarnings? then
            && s.exitCode == EXIT_OK && |s.log.stages| == 7 && s.log.stages[..5] == u.log.stages[..5]
            && s.log.stages[5].status.Skipped? && s.log.stages[5].skipReason == Some(StopOnWarning)
            && s.log.stages[6].status.CompletedWithWarnings?
          else s == u)
  {
    var plain, stop := Flags(false, noEvidence), Flags(true, noEvidence);
    TailExtends(f, plain, log);
    FailureExtends(f, log);
    var p4 := AfterFailure(f, log);
    if p4.Running? {
      PolicyExtends(f, plain, p4.log);
      if f.policyBlock.None? {
        DoneLogCanonical(p4.log, PolicySimulation, f.policyWarnings);
        var done := DoneLog(Begin(p4.log, PolicySimulation), PolicySimulation, f.policyWarnings);
        assert AfterPolicy(f, plain, p4.log) == Running(done);
        EvidenceIgnoresStop(f, plain, stop, done);
        EvidenceKeepsPrefix(f, plain, done);
        if f.policyWarnings != [] {
          PolicyStopSkipsEvidence(done);
        }
      }
    } else {
      BlockedFailureSkipsPolicy(f, log);
    }
  }

  lemma EvidenceKeepsPrefix(f: Facts, flags: Flags, log: Log)
    requires Canonical(log.stages) && |log.stages| == 5
    ensures var p6 := AfterEvidence(f, flags, log);
      var u := if p6.Ended? then p6 else AtEnd(p6.log);
      |u.log.stages| == 7 && u.log.stages[..5] == log.stages
  {
  }

  lemma BlockedFailureSkipsPolicy(f: Facts, log: Log)
    requires Canonical(log.stages) && |log.stages| == 3 && f.failureBlock.Some?
    ensures AfterFailure(f, log).Ended? && |AfterFailure(f, log).log.stages| == 7
    ensures AfterFailure(f, log).log.stages[4].status.Skipped?
  {
  }

  /** Without the flag the adapter stage never ends a run, even when it blocks. */
  lemma PlainAdapterContinues(f: Facts, noEvidence: bool, log: Log)
    requires Canonical(log.stages) && |log.stages| == 2
    ensures var q := AfterAdapter(f, Flags(false, noEvidence), log);
      && q.Running? && Canonical(q.log.stages) && |q.log.stages| == 3 && q.log.stages[..2] == log.stages
      && (q.log.stages[2].status.CompletedWithWarnings? <==> f.adapterBlock.None? && f.adapterWarnings != [])
      && AfterAdapter(f, Flags(true, noEvidence), log) ==
           if q.log.stages[2].status.CompletedWithWarnings? then WarnedAfter(StopRemaining(q.log)) else q
  {
  }

  /** After the runtime stage completed: the two runs agree unless a later stage completes with warnings. */
  lemma AdapterRelation(f: Facts, noEvidence: bool, log: Log, u: Progress, s: Progress)
    requires Canonical(log.stages) && |log.stages| == 2
    requires log.stages[1].status == Completed
    requires var q := AfterAdapter(f, Flags(false, noEvidence), log);
      q.Running? && u == FromFailure(f, Flags(false, noEvidence), q.log)
    requires var q := AfterAdapter(f, Flags(true, noEvidence), log);
      s == if q.Ended? then q else FromFailure(f, Flags(true, noEvidence), q.log)
    ensures s.Ended? && u.Ended? && Related(Finalize(s), Finalize(u))
  {
    PlainAdapterContinues(f, noEvidence, log);
    var done := AfterAdapter(f, Flags(false, noEvidence), log).log;
    TailRelation(f, noEvidence, done);
    assert u.log.stages[1] == done.stages[1] == log.stages[1] && u.log.stages[2] == done.stages[2];
    if done.stages[2].status.CompletedWithWarnings? {
      StopSkipsRest(done);
      assert StoppedAfter(Finalize(s), Finalize(u), 2);
    } else if u.log.stages[4].status.CompletedWithWarnings? {
      assert StoppedAfter(Finalize(s), Finalize(u), 4);
    }
  }

  /** Equal runs, or the flagged one stopped after the first warned stage of the plain one. */
  ghost predicate Related(stopped: RunResult, plain: RunResult) {
    match FirstWarned(plain.stages)
    case None => stopped == plain
    case Some(w) => StoppedAfter(stopped, plain, w)
  }

  lemma ErrorsIgnoreStop(f: Facts, noEvidence: bool)
    requires f.inputError.Some? || f.loadError.Some? || f.dryRunError.Some?
    ensures Final(f, Flags(true, noEvidence)) == Final(f, Flags(false, noEvidence))
    ensures |Final(f, Flags(false, noEvidence)).log.stages| < 7
  {
  }

  lemma BlockedRuntimeIgnoresStop(f: Facts, noEvidence: bool)
    requires f.inputError.None? && f.loadError.None? && f.dryRunError.None? && f.runtimeBlock.Some?
    ensures Final(f, Flags(true, noEvidence)) == Final(f, Flags(false, noEvidence))
    ensures FirstWarned(Final(f, Flags(false, noEvidence)).log.stages) == None
  {
    var p1 := AfterInput(f, Flags(false, noEvidence));
    InputStep(f, Flags(false, noEvidence));
    RuntimeStep(f, Flags(false, noEvidence), p1);
  }

  lemma RuntimeCompletes(f: Facts, noEvidence: bool, log: Log)
    requires Canonical(log.stages) && |log.stages| == 1 && f.dryRunError.None? && f.runtimeBlock.None?
    ensures var done := DoneLog(Begin(log, RuntimeDryRun), RuntimeDryRun, f.runtimeWarnings);
      && AfterRuntime(f, Flags(false, noEvidence), log) == Running(done)
      && AfterRuntime(f, Flags(true, noEvidence), log) ==
           if f.runtimeWarnings != [] then WarnedAfter(StopRemaining(done)) else Running(done)
  {
  }

  /** `stop_on_warning` as a relation between two runs on the same facts: with w the first of the runtime, adapter and
      policy stages that completes with warnings in the plain run, the flagged run has the same results up to w, skips
      everything after it except the report for `stop_on_warning`, and exits 0; without such a stage they are equal. */
  lemma StopOnWarningRelation(f: Facts, noEvidence: bool)
    ensures Related(RunOf(f, Flags(true, noEvidence)), RunOf(f, Flags(false, noEvidence)))
  {
    var plain, stop := Flags(false, noEvidence), Flags(true, noEvidence);
    if f.inputError.Some? || f.loadError.Some? || f.dryRunError.Some? {
      ErrorsIgnoreStop(f, noEvidence);
    } else if f.runtimeBlock.Some? {
      BlockedRuntimeIgnoresStop(f, noEvidence);
    } else {
      var p1 := AfterInput(f, plain);
      InputStep(f, plain);
      assert AfterInput(f, stop) == p1;
      RuntimeCompletes(f, noEvidence, p1.log);
      DoneLogCanonical(p1.log, RuntimeDryRun, f.runtimeWarnings);
      var done := DoneLog(Begin(p1.log, RuntimeDryRun), RuntimeDryRun, f.runtimeWarnings);
      if f.runtimeWarnings == [] {
        PlainAdapterContinues(f, noEvidence, done);
        AdapterRelation(f, noEvidence, done, Final(f, plain), Final(f, stop));
      } else {
        RuntimeStopRelation(f, noEvidence, done);
      }
    }
  }

  lemma RuntimeStopRelation(f: Facts, noEvidence: bool, done: Log)
    requires f.inputError.None? && f.loadError.None? && f.dryRunError.None? && f.runtimeBlock.None?
    requires f.runtimeWarnings != [] && Canonical(done.stages) && |done.stages| == 2
    requires done.stages[1].status.CompletedWithWarnings?
    requires AfterRuntime(f, Flags(false, noEvidence), AfterInput(f, Flags(false, noEvidence)).log) == Running(done)
    requires AfterRuntime(f, Flags(true, noEvidence), AfterInput(f, Flags(true, noEvidence)).log) ==
             WarnedAfter(StopRemaining(done))
    ensures Related(RunOf(f, Flags(true, noEvidence)), RunOf(f, Flags(false, noEvidence)))
  {
    hide MakeStage, DoneLog, AfterRuntime, FailedLog, AfterFailure, AfterPolicy, AfterEvidence, TerminalState;
    var plain := Flags(false, noEvidence);
    PlainAdapterContinues(f, noEvidence, done);
    TailExtends(f, plain, AfterAdapter(f, plain, done).log);
    StopSkipsRest(done);
    assert RunOf(f, plain).stages[..2] == done.stages;
    assert StoppedAfter(RunOf(f, Flags(true, noEvidence)), RunOf(f, plain), 1);
  }
}
