/** Stage results, their normalisation, and the report derived from them. */
module PipelineReport {
  import opened Base

  datatype StageName =
    | InputLoad | RuntimeDryRun | AdapterSimulation | FailureRollback | PolicySimulation | EvidenceBundle | ReportStage
    | OtherStage(text: string)

  const STAGES: seq<StageName> := [
    InputLoad, RuntimeDryRun, AdapterSimulation, FailureRollback, PolicySimulation, EvidenceBundle, ReportStage]

  /** `PIPELINE_DEPENDENCY_GRAPH` */
  function DependenciesOf(s: StageName): set<StageName> {
    match s
    case RuntimeDryRun => {InputLoad}
    case AdapterSimulation => {RuntimeDryRun}
    case FailureRollback => {RuntimeDryRun, AdapterSimulation}
    case PolicySimulation => {RuntimeDryRun, AdapterSimulation, FailureRollback}
    case EvidenceBundle => {RuntimeDryRun, PolicySimulation}
    case _ => {}
  }

  datatype StageStatus = Completed | CompletedWithWarnings | Blocked | Failed | Skipped

  /** Why a stage was skipped, blocked or failed: a text, or one of the fixed texts `not_reached`, `stop_on_warning`,
      `evidence_disabled`, `stage_blocked`, `stage_failed`, `pipeline_blocked`, `pipeline_failed_safely` and
      `<stage>_blocked`. */
  datatype Cause =
    | Cause(text: string) | NotReached | StopOnWarning | EvidenceDisabled | StageBlocked | StageFailure | RunBlocked
    | RunFailedSafely | AfterBlocked(stage: StageName)

  datatype StageResult = StageResult(
    name: StageName, status: StageStatus, warnings: seq<string>, blocking: seq<Cause>,
    skipReason: Option<Cause>, blockReason: Option<Cause>, failureReason: Option<Cause>)
  {
    predicate Ran() { !status.Skipped? }
    predicate Done() { status.Completed? || status.CompletedWithWarnings? }
    predicate Stopped() { status.Blocked? || status.Failed? }
  }

  /** `causes[0]`, else `warnings[0]`, else the default; normalisation also passes over an empty first text. */
  function FirstCause(causes: seq<Cause>, warnings: seq<string>, default: Cause, keepEmpty: bool): Cause {
    if causes != [] && (keepEmpty || causes[0] != Cause("")) then causes[0]
    else if warnings != [] && (keepEmpty || warnings[0] != "") then Cause(warnings[0])
    else default
  }

  /** Fill in the reason that the status calls for, when it is missing. */
  function Fill(r: StageResult, keepEmpty: bool): StageResult {
    r.(skipReason := if r.status.Skipped? && r.skipReason.None?
                     then Some(FirstCause(r.blocking, r.warnings, NotReached, keepEmpty)) else r.skipReason,
       blockReason := if r.status.Blocked? && r.blockReason.None?
                      then Some(FirstCause(r.blocking, [], StageBlocked, keepEmpty)) else r.blockReason,
       failureReason := if r.status.Failed? && r.failureReason.None?
                        then Some(FirstCause(r.blocking, [], StageFailure, keepEmpty)) else r.failureReason)
  }

  /** `_normalize_stage_result` */
  function FillReasons(r: StageResult): StageResult {
    Fill(r, false)
  }

  /** `_stage` */
  function MakeStage(name: StageName, status: StageStatus, warnings: seq<string>, blocking: seq<Cause>,
                     skipReason: Option<Cause>): StageResult
  {
    Fill(StageResult(name, status, warnings, blocking, skipReason, None, None), true)
  }

  function LastNamed(results: seq<StageResult>, name: StageName): Option<StageResult> {
    if results == [] then None
    else if results[|results| - 1].name == name then Some(results[|results| - 1])
    else LastNamed(results[..|results| - 1], name)
  }

  function FirstStopped(results: seq<StageResult>): Option<StageResult> {
    if results == [] then None
    else if results[0].Stopped() then Some(results[0])
    else FirstStopped(results[1..])
  }

  function MissingCause(results: seq<StageResult>): Cause {
    var stopped := FirstStopped(results);
    if stopped.Some? then AfterBlocked(stopped.value.name) else NotReached
  }

  function NormalAt(results: seq<StageResult>, name: StageName): StageResult {
    var found, missing := LastNamed(results, name), MissingCause(results);
    FillReasons(if found.Some? then found.value
                else StageResult(name, Skipped, [], [missing], Some(missing), None, None))
  }

  /** `normalize_stage_results`: one result per stage of the registry, in registry order. */
  function Normalize(results: seq<StageResult>): (r: seq<StageResult>)
    ensures |r| == |STAGES|
  {
    seq(|STAGES|, i requires 0 <= i < |STAGES| => NormalAt(results, STAGES[i]))
  }

  method IndexByName(results: seq<StageResult>) returns (index: map<StageName, StageResult>)
    ensures forall n :: (if n in index then Some(index[n]) else None) == LastNamed(results, n)
  {
    index := map[];
    for i := 0 to |results|
      invariant forall n :: (if n in index then Some(index[n]) else None) == LastNamed(results[..i], n)
    {
      assert results[..i + 1][..i] == results[..i];
      index := index[results[i].name := results[i]];
    }
    assert results[..|results|] == results;
  }

  method FindFirstStopped(results: seq<StageResult>) returns (stopped: Option<StageResult>)
    ensures stopped == FirstStopped(results)
  {
    for i := 0 to |results|
      invariant FirstStopped(results) == FirstStopped(results[i..])
    {
      assert results[i..][1..] == results[i + 1..];
      if results[i].Stopped() {
        return Some(results[i]);
      }
    }
    return None;
  }

  method NormalizeStageResults(results: seq<StageResult>) returns (normalized: seq<StageResult>)
    ensures normalized == Normalize(results)
  {
    var byName := IndexByName(results);
    var stopped := FindFirstStopped(results);
    var missing := if stopped.Some? then AfterBlocked(stopped.value.name) else NotReached;
    normalized := [];
    for i := 0 to |STAGES|
      invariant normalized == Normalize(results)[..i]
    {
      var name := STAGES[i];
      var found := if name in byName then byName[name]
                   else StageResult(name, Skipped, [], [missing], Some(missing), None, None);
      assert (if name in byName then Some(byName[name]) else None) == LastNamed(results, name);
      assert FillReasons(found) == NormalAt(results, name);
      normalized := normalized + [FillReasons(found)];
    }
  }

  // ---- what normalisation guarantees ----

  lemma {:induction false} LastNamedHasName(results: seq<StageResult>, name: StageName)
    ensures LastNamed(results, name).Some? ==>
      LastNamed(results, name).value.name == name && LastNamed(results, name).value in results
    ensures LastNamed(results, name).None? <==> forall r :: r in results ==> r.name != name
  {
    if results != [] && results[|results| - 1].name != name {
      LastNamedHasName(results[..|results| - 1], name);
      assert results == results[..|results| - 1] + [results[|results| - 1]];
    }
  }

  lemma NormalAtNamed(results: seq<StageResult>, name: StageName)
    ensures NormalAt(results, name).name == name
    ensures FillReasons(NormalAt(results, name)) == NormalAt(results, name)
    ensures NormalAt(results, name).status.Skipped? ==> NormalAt(results, name).skipReason.Some?
  {
    LastNamedHasName(results, name);
  }

  lemma StagesDistinct(i: nat, j: nat)
    requires i < j < |STAGES|
    ensures STAGES[i] != STAGES[j]
  {
  }

  lemma {:induction false} LastNamedAtUnique(results: seq<StageResult>, i: nat, n: nat)
    requires i < n <= |results|
    requires forall j :: i < j < n ==> results[j].name != results[i].name
    ensures LastNamed(results[..n], results[i].name) == Some(results[i])
  {
    assert results[..n][..n - 1] == results[..n - 1];
    if i < n - 1 {
      LastNamedAtUnique(results, i, n - 1);
    }
  }

  /** Normalisation is total, canonical and idempotent: whatever list of results it gets, it returns the seven stages
      in registry order, each with the reason its status calls for, and a second pass changes nothing. */
  lemma NormalizeIsCanonical(results: seq<StageResult>)
    ensures forall i :: 0 <= i < |STAGES| ==> Normalize(results)[i].name == STAGES[i]
    ensures forall r :: r in Normalize(results) && r.status.Skipped? ==> r.skipReason.Some?
    ensures Normalize(Normalize(results)) == Normalize(results)
  {
    var n := Normalize(results);
    forall i | 0 <= i < |STAGES|
      ensures n[i].name == STAGES[i] && (n[i].status.Skipped? ==> n[i].skipReason.Some?) && Normalize(n)[i] == n[i]
    {
      forall k | 0 <= k < |STAGES| ensures n[k].name == STAGES[k] { NormalAtNamed(results, STAGES[k]); }
      NormalAtNamed(results, STAGES[i]);
      forall j | i < j < |n| ensures n[j].name != n[i].name { StagesDistinct(i, j); }
      LastNamedAtUnique(n, i, |n|);
      assert n[..|n|] == n;
    }
  }

  // ---- the report ----

  datatype PipelineStatus = PipelineCompleted | PipelineCompletedWithWarnings | PipelineBlocked | PipelineFailed
    | PipelineInvalidInput

  datatype Category = NoFailureCategory | InvalidInput | RuntimeSafety | BundleValidation | AdapterSafety
    | ScenarioSafety | PolicySafety | EvidenceValidation | InternalFailure | WarningsOnly

  datatype Terminal = Terminal(stage: StageName, exitReason: Cause, blockingStage: Option<StageName>,
                               category: Category)

  function FirstWith(results: seq<StageResult>, status: StageStatus): Option<StageResult> {
    if results == [] then None
    else if results[0].status == status then Some(results[0])
    else FirstWith(results[1..], status)
  }

  const GATE_BLOCK := "blocked_by_safety_gate"
  const BUNDLE_BLOCK := "blocked_by_bundle_validation"

  function BlockCategory(stage: StageName, reason: Cause): Category {
    match stage
    case RuntimeDryRun =>
      if reason == Cause(GATE_BLOCK) then RuntimeSafety
      else if reason == Cause(BUNDLE_BLOCK) then BundleValidation else InternalFailure
    case AdapterSimulation => AdapterSafety
    case FailureRollback => ScenarioSafety
    case PolicySimulation => PolicySafety
    case EvidenceBundle => EvidenceValidation
    case _ => InternalFailure
  }

  /** `reason or default`: an empty text counts as no reason. */
  function OrElse(o: Option<Cause>, default: Cause): Cause {
    match o case Some(cause) => (if cause == Cause("") then default else cause) case None => default
  }

  /** `pipeline_terminal_state` */
  function TerminalState(status: PipelineStatus, results: seq<StageResult>): Terminal {
    var normalized := Normalize(results);
    var blocked, failed := FirstWith(normalized, Blocked), FirstWith(normalized, Failed);
    match status
    case PipelineInvalidInput =>
      var stage := if failed.Some? then failed.value.name else InputLoad;
      Terminal(stage, if failed.Some? then OrElse(failed.value.failureReason, Cause("pipeline_invalid_input"))
                      else Cause("pipeline_invalid_input"), Some(stage), InvalidInput)
    case PipelineFailed =>
      var stage := if failed.Some? then failed.value.name else ReportStage;
      Terminal(stage, if failed.Some? then OrElse(failed.value.failureReason, RunFailedSafely) else RunFailedSafely,
               Some(stage), InternalFailure)
    case PipelineBlocked =>
      var stage := if blocked.Some? then blocked.value.name else ReportStage;
      var reason := if blocked.Some? then OrElse(blocked.value.blockReason, RunBlocked) else RunBlocked;
      Terminal(stage, if stage == EvidenceBundle then Cause("evidence_validation_blocked") else reason, Some(stage),
               BlockCategory(stage, reason))
    case PipelineCompletedWithWarnings =>
      Terminal(ReportStage, Cause("pipeline_completed_with_warnings"), None, WarningsOnly)
    case PipelineCompleted =>
      Terminal(ReportStage, Cause("pipeline_completed_simulation_only"), None, NoFailureCategory)
  }

  datatype Counts = Counts(total: nat, completed: nat, withWarnings: nat, skipped: nat, blocked: nat, failed: nat)

  function CountStatus(results: seq<StageResult>, status: StageStatus): nat {
    if results == [] then 0
    else CountStatus(results[1..], status) + if results[0].status == status then 1 else 0
  }

  function StageCounts(results: seq<StageResult>): Counts {
    var n := Normalize(results);
    Counts(|STAGES|, CountStatus(n, Completed), CountStatus(n, CompletedWithWarnings), CountStatus(n, Skipped),
           CountStatus(n, Blocked), CountStatus(n, Failed))
  }

  datatype MatrixRow = MatrixRow(status: StageStatus, ran: bool, reason: Option<Cause>)

  function RowOf(r: StageResult): MatrixRow {
    MatrixRow(r.status, r.Ran(),
              match r.status
              case Skipped => r.skipReason
              case Blocked => r.blockReason
              case Failed => r.failureReason
              case _ => if r.warnings != [] then Some(Cause(r.warnings[0])) else None)
  }

  function StageMatrix(results: seq<StageResult>): map<StageName, MatrixRow> {
    map i | 0 <= i < |STAGES| :: STAGES[i] := RowOf(NormalAt(results, STAGES[i]))
  }

  datatype EvidenceSummary = EvidenceSummary(ran: bool, skipped: bool, blocked: bool, skipReason: Option<Cause>)

  function SummarizeEvidence(results: seq<StageResult>, skippedFlag: bool): EvidenceSummary {
    var stage := NormalAt(results, EvidenceBundle);
    var skipped := stage.status.Skipped? || skippedFlag;
    EvidenceSummary(stage.Ran() && !skipped, skipped, stage.status.Blocked?, if skipped then stage.skipReason else None)
  }

  datatype Consistency = Consistency(
    matrixMatches: bool, countsMatch: bool, skipsHaveReasons: bool, blockedHasStage: bool, evidenceMatches: bool)
  {
    predicate AllTrue() { matrixMatches && countsMatch && skipsHaveReasons && blockedHasStage && evidenceMatches }
  }

  function CheckConsistency(results: seq<StageResult>, matrix: map<StageName, MatrixRow>, counts: Counts,
                            status: PipelineStatus, terminal: Terminal, evidence: EvidenceSummary): Consistency
  {
    var n := Normalize(results);
    var stage := NormalAt(n, EvidenceBundle);
    Consistency(matrix == StageMatrix(n), counts == StageCounts(n),
                forall i :: 0 <= i < |n| ==> (n[i].status.Skipped? ==> n[i].skipReason.Some?),
                status != PipelineBlocked || terminal.blockingStage.Some?,
                evidence.skipped == stage.status.Skipped? && evidence.blocked == stage.status.Blocked?)
  }

  /** One warning for each check that does not hold. */
  function ConsistencyWarnings(c: Consistency): seq<string> {
    (if c.matrixMatches then [] else ["pipeline_consistency_warning:stage_results_match_matrix"])
    + (if c.countsMatch then [] else ["pipeline_consistency_warning:stage_counts_match_results"])
    + (if c.skipsHaveReasons then [] else ["pipeline_consistency_warning:skipped_stages_have_reasons"])
    + (if c.blockedHasStage then [] else ["pipeline_consistency_warning:blocked_pipeline_has_blocking_stage"])
    + (if c.evidenceMatches then [] else ["pipeline_consistency_warning:evidence_summary_matches_stage_result"])
  }

  datatype Report = Report(
    status: PipelineStatus, exitCode: int, stages: seq<StageResult>, matrix: map<StageName, MatrixRow>, counts: Counts,
    terminal: Terminal, evidence: EvidenceSummary, consistency: Consistency, warnings: seq<string>,
    blocking: seq<Cause>)

  /** `build_pipeline_report`: everything is derived from the normalised stage results. */
  function BuildReport(status: PipelineStatus, exitCode: int, results: seq<StageResult>, warnings: seq<string>,
                       blocking: seq<Cause>, evidenceSkipped: bool): Report
  {
    var n := Normalize(results);
    var matrix, counts, terminal := StageMatrix(n), StageCounts(n), TerminalState(status, n);
    var evidence := SummarizeEvidence(n, evidenceSkipped);
    var consistency := CheckConsistency(n, matrix, counts, status, terminal, evidence);
    Report(status, exitCode, n, matrix, counts, terminal, evidence, consistency,
           Dedup(warnings + ConsistencyWarnings(consistency)), Dedup(blocking))
  }

  lemma {:induction false} CountsCover(results: seq<StageResult>)
    ensures CountStatus(results, Completed) + CountStatus(results, CompletedWithWarnings)
            + CountStatus(results, Skipped)
          + CountStatus(results, Blocked) + CountStatus(results, Failed) == |results|
  {
    if results != [] { CountsCover(results[1..]); }
  }

  lemma BlockedHasStage(status: PipelineStatus, results: seq<StageResult>)
    ensures status == PipelineBlocked ==> TerminalState(status, results).blockingStage.Some?
  {
    hide Normalize;
  }

  lemma ConsistentMeansNoWarning(c: Consistency)
    requires c.AllTrue()
    ensures ConsistencyWarnings(c) == []
  {
  }

  /** For any results at all, the counts of the report sum to seven; its checks are all true exactly when the
      skipped-evidence flag agrees with the evidence stage, and then they add no warning. */
  lemma ReportIsConsistent(status: PipelineStatus, exitCode: int, results: seq<StageResult>, warnings: seq<string>,
                           blocking: seq<Cause>, evidenceSkipped: bool)
    ensures var r := BuildReport(status, exitCode, results, warnings, blocking, evidenceSkipped);
      && r.counts.completed + r.counts.withWarnings + r.counts.skipped + r.counts.blocked + r.counts.failed
         == 7 == r.counts.total
      && (r.consistency.AllTrue() <==> (evidenceSkipped ==> NormalAt(results, EvidenceBundle).status.Skipped?))
      && (r.consistency.AllTrue() ==> r.warnings == Dedup(warnings))
  {
    hide ConsistencyWarnings, TerminalState, StageMatrix, CountStatus, NormalAt, Dedup;
    var n, r := Normalize(results), BuildReport(status, exitCode, results, warnings, blocking, evidenceSkipped);
    NormalizeIsCanonical(results);
    CountsCover(Normalize(n));
    BlockedHasStage(status, n);
    assert n[5] == NormalAt(results, EvidenceBundle) && Normalize(n)[5] == NormalAt(n, EvidenceBundle);
    forall i | 0 <= i < |n| ensures n[i].status.Skipped? ==> n[i].skipReason.Some? { assert n[i] in n; }
    if r.consistency.AllTrue() {
      ConsistentMeansNoWarning(r.consistency);
      assert warnings + [] == warnings;
    }
  }
}
