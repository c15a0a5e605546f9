/** The validation matrix, its priority order, and the check of the collected source artifacts. */
module EvidenceCheck {
  import opened Base
  import opened JsonValues
  import opened EvidenceSource

  // ---- statuses in priority order ----

  datatype Status =
    | BlockedSafety | BadJson | MissingArtifacts | MissingEntries | MissingCopies | HashesDiffer
    | ProfilesDiffer | DecisionsDiffer | RuntimeInconsistent | ValidWithWarnings | Valid

  function StatusText(s: Status): string {
    match s
    case BlockedSafety => "blocked_safety_boundary"
    case BadJson => "invalid_artifact_json"
    case MissingArtifacts => "invalid_missing_required_artifacts"
    case MissingEntries => "invalid_missing_manifest_entries"
    case MissingCopies => "invalid_missing_copied_artifacts"
    case HashesDiffer => "invalid_hash_mismatch"
    case ProfilesDiffer => "invalid_profile_id_mismatch"
    case DecisionsDiffer => "invalid_policy_decision_mismatch"
    case RuntimeInconsistent => "invalid_policy_runtime_inconsistency"
    case ValidWithWarnings => "valid_with_warnings"
    case Valid => "valid_evidence_bundle"
  }

  /** Enough of a status text to tell it apart: its length, and its characters at 8 and 16. */
  function Mark(s: Status): (nat, char, char) {
    match s
    case BlockedSafety => (23, 's', 'o')
    case BadJson => (21, 'a', '_')
    case MissingArtifacts => (34, 'm', 'r')
    case MissingEntries => (32, 'm', 'm')
    case MissingCopies => (32, 'm', 'c')
    case HashesDiffer => (21, 'h', 'm')
    case ProfilesDiffer => (27, 'p', 'i')
    case DecisionsDiffer => (32, 'p', 'e')
    case RuntimeInconsistent => (36, 'p', 'u')
    case ValidWithWarnings => (19, 't', 'n')
    case Valid => (21, 'i', 'u')
  }

  lemma MarkIsInText(s: Status)
    ensures var t := StatusText(s); |t| > 16 && (|t|, t[8], t[16]) == Mark(s)
  {
    match s {
      case BlockedSafety => case BadJson => case MissingArtifacts => case MissingEntries =>
      case MissingCopies => case HashesDiffer => case ProfilesDiffer => case DecisionsDiffer =>
      case RuntimeInconsistent => case ValidWithWarnings => case Valid =>
    }
  }

  lemma StatusTextInjective(a: Status, b: Status)
    requires StatusText(a) == StatusText(b)
    ensures a == b
  {
    hide StatusText;
    MarkIsInText(a);
    MarkIsInText(b);
  }

  predicate Passing(s: Status) {
    s.ValidWithWarnings? || s.Valid?
  }

  /** `status_by_matrix`: every failing status and the order in which they win. */
  const PRIORITY: seq<Status> := [BlockedSafety, BadJson, MissingArtifacts, MissingEntries, MissingCopies, HashesDiffer,
                                  ProfilesDiffer, DecisionsDiffer, RuntimeInconsistent]

  /** The rows of the validation matrix other than its warnings row. */
  datatype Rows<R> = Rows(safety: seq<R>, json: seq<R>, required: seq<R>, manifest: seq<R>, copied: seq<R>,
                          hashes: seq<R>,
                          profile: seq<R>, policy: seq<R>, runtimePolicy: seq<R>)

  /** The matrix row a failing status stands for. */
  function RowOf<R>(rows: Rows<R>, s: Status): seq<R> {
    match s
    case BlockedSafety => rows.safety
    case BadJson => rows.json
    case MissingArtifacts => rows.required
    case MissingEntries => rows.manifest
    case MissingCopies => rows.copied
    case HashesDiffer => rows.hashes
    case ProfilesDiffer => rows.profile
    case DecisionsDiffer => rows.policy
    case RuntimeInconsistent => rows.runtimePolicy
    case _ => []
  }

  /** The first failing row from position `k` of the priority order on. */
  function FirstFailing<R>(rows: Rows<R>, warned: bool, k: nat): Status
    requires k <= |PRIORITY|
    decreases |PRIORITY| - k
  {
    if k == |PRIORITY| then (if warned then ValidWithWarnings else Valid)
    else if RowOf(rows, PRIORITY[k]) != [] then PRIORITY[k]
    else FirstFailing(rows, warned, k + 1)
  }

  function Verdict<R>(rows: Rows<R>, warned: bool): Status {
    FirstFailing(rows, warned, 0)
  }

  /** The status named by the matrix: its row failed and no row before it did. */
  ghost predicate WinsAt<R>(rows: Rows<R>, s: Status, k: nat) {
    && k < |PRIORITY| && s == PRIORITY[k] && RowOf(rows, s) != []
    && forall j :: 0 <= j < k ==> RowOf(rows, PRIORITY[j]) == []
  }

  ghost predicate NoRowFailed<R>(rows: Rows<R>) {
    forall j :: 0 <= j < |PRIORITY| ==> RowOf(rows, PRIORITY[j]) == []
  }

  lemma {:induction false} FirstFailingWins<R>(rows: Rows<R>, warned: bool, k: nat) returns (i: nat)
    requires k <= |PRIORITY|
    requires forall j :: 0 <= j < k ==> RowOf(rows, PRIORITY[j]) == []
    ensures NoRowFailed(rows) ==> FirstFailing(rows, warned, k) == if warned then ValidWithWarnings else Valid
    ensures !NoRowFailed(rows) ==> i < |PRIORITY| && WinsAt(rows, FirstFailing(rows, warned, k), i)
    decreases |PRIORITY| - k
  {
    i := k;
    if k < |PRIORITY| && RowOf(rows, PRIORITY[k]) == [] {
      i := FirstFailingWins(rows, warned, k + 1);
    }
  }

  /** The status is the highest-priority failing row, and passing exactly when no row but the warnings row failed. */
  lemma VerdictIsHighestFailingRow<R>(rows: Rows<R>, warned: bool)
    ensures var s := Verdict(rows, warned);
            && (Passing(s) <==> NoRowFailed(rows))
            && (Passing(s) ==> s == (if warned then ValidWithWarnings else Valid))
            && (!Passing(s) ==> exists k :: 0 <= k < |PRIORITY| && WinsAt(rows, s, k))
  {
    var k := FirstFailingWins(rows, warned, 0);
    if !NoRowFailed(rows) {
      assert WinsAt(rows, Verdict(rows, warned), k);
      assert !Passing(PRIORITY[k]);
    }
  }

  lemma VerdictUnrolled<R>(rows: Rows<R>, warned: bool)
    ensures Verdict(rows, warned) ==
            if rows.safety != [] then BlockedSafety
            else if rows.json != [] then BadJson
            else if rows.required != [] then MissingArtifacts
            else if rows.manifest != [] then MissingEntries
            else if rows.copied != [] then MissingCopies
            else if rows.hashes != [] then HashesDiffer
            else if rows.profile != [] then ProfilesDiffer
            else if rows.policy != [] then DecisionsDiffer
            else if rows.runtimePolicy != [] then RuntimeInconsistent
            else if warned then ValidWithWarnings else Valid
  {
    assert FirstFailing(rows, warned, 9) == if warned then ValidWithWarnings else Valid;
    assert FirstFailing(rows, warned, 7) == if rows.policy != [] then DecisionsDiffer
      else if rows.runtimePolicy != [] then RuntimeInconsistent else FirstFailing(rows, warned, 9);
    assert FirstFailing(rows, warned, 5) == if rows.hashes != [] then HashesDiffer
      else if rows.profile != [] then ProfilesDiffer else FirstFailing(rows, warned, 7);
    assert FirstFailing(rows, warned, 3) == if rows.manifest != [] then MissingEntries
      else if rows.copied != [] then MissingCopies else FirstFailing(rows, warned, 5);
    assert FirstFailing(rows, warned, 1) == if rows.json != [] then BadJson
      else if rows.required != [] then MissingArtifacts else FirstFailing(rows, warned, 3);
  }

  /** One row of `build_validation_matrix`. */
  datatype MatrixRow<R> = MatrixRow(passed: bool, warnings: bool, reasons: seq<R>)

  function RowAt<R>(rows: Rows<R>, s: Status): MatrixRow<R> {
    MatrixRow(RowOf(rows, s) == [], false, RowOf(rows, s))
  }

  function FailureRows<R>(rows: Rows<R>): seq<MatrixRow<R>> {
    seq(|PRIORITY|, k requires 0 <= k < |PRIORITY| => RowAt(rows, PRIORITY[k]))
  }

  /** The nine failure rows in priority order, the warnings row last; only that one never fails. */
  function Matrix<R>(rows: Rows<R>, warnings: seq<R>): seq<MatrixRow<R>> {
    FailureRows(rows) + [MatrixRow(true, warnings != [], warnings)]
  }

  method BuildValidationMatrix<R(==)>(rows: Rows<R>, warnings: seq<R>) returns (matrix: seq<MatrixRow<R>>)
    ensures matrix == Matrix(rows, warnings)
  {
    hide RowOf;
    matrix := [];
    for k := 0 to |PRIORITY|
      invariant matrix == FailureRows(rows)[..k]
    {
      var reasons := RowOf(rows, PRIORITY[k]);
      matrix := matrix + [MatrixRow(reasons == [], false, reasons)];
    }
    matrix := matrix + [MatrixRow(true, warnings != [], warnings)];
  }

  /** The verdict passes exactly when every row of the matrix does, and warns exactly when its warnings row does. */
  lemma VerdictFollowsMatrix<R>(rows: Rows<R>, warnings: seq<R>)
    ensures var m, s := Matrix(rows, warnings), Verdict(rows, warnings != []);
            && (Passing(s) <==> forall k :: 0 <= k < |m| ==> m[k].passed)
            && (s.ValidWithWarnings? <==> Passing(s) && m[|m| - 1].warnings)
  {
    hide RowOf, Verdict;
    var m := Matrix(rows, warnings);
    VerdictIsHighestFailingRow(rows, warnings != []);
    forall k | 0 <= k < |PRIORITY| ensures m[k].passed <==> RowOf(rows, PRIORITY[k]) == [] {}
    if !NoRowFailed(rows) {
      var k :| 0 <= k < |PRIORITY| && RowOf(rows, PRIORITY[k]) != [];
      assert !m[k].passed;
    }
  }

  // ---- the source check ----

  datatype Fault =
    | MissingRequired(name: string) | InvalidJson(name: string) | Breached(violation: Violation)
    | ProfileDiffers(name: string) | PolicyDiffers | BlockedPlanAllowed

  const SAFETY_PREFIX := "safety_boundary_violation:"

  function FaultText(f: Fault): string {
    match f
    case MissingRequired(name) => "missing_required_artifact:" + name
    case InvalidJson(name) => "invalid_json:" + name
    case Breached(v) => SAFETY_PREFIX + ViolationText(v)
    case ProfileDiffers(name) => "profile_id_mismatch:" + name
    case PolicyDiffers => "policy_decision_mismatch:selected_policy"
    case BlockedPlanAllowed => "policy_runtime_inconsistency:blocked_plan_allowed"
  }

  /** Which optional artifacts the presence of others calls for. */
  const EXPECTATIONS: seq<(string, seq<string>)> :=
    [(RUNTIME_REPORT_FILE, ["runtime_events.jsonl"]), ("adapter_report.json", ["adapter_trace.jsonl"]),
     ("rollback_report.json", ["rollback_plan.json", "failure_trace.jsonl"]),
     (POLICY_REPORT_FILE, ["policy_trace.jsonl"])]

  function AbsentOf(present: set<string>): string -> seq<string> {
    name => if name in present then [] else [name]
  }

  function Expected(present: set<string>): ((string, seq<string>)) -> seq<string> {
    (e: (string, seq<string>)) => if e.0 in present then e.1 else []
  }

  /** `expected_optional_artifacts` */
  function MissingOptional(present: set<string>): seq<string> {
    FlatMap(AbsentOf(present), FlatMap(Expected(present), EXPECTATIONS))
  }

  method ExpectedOptionalArtifacts(present: set<string>) returns (missing: seq<string>)
    ensures missing == MissingOptional(present)
  {
    var expected: seq<string> := [];
    for i := 0 to |EXPECTATIONS|
      invariant expected == FlatMap(Expected(present), EXPECTATIONS[..i])
    {
      FlatMapSnoc(Expected(present), EXPECTATIONS, i);
      if EXPECTATIONS[i].0 in present {
        expected := expected + EXPECTATIONS[i].1;
      }
    }
    assert EXPECTATIONS[..|EXPECTATIONS|] == EXPECTATIONS;
    missing := [];
    for i := 0 to |expected|
      invariant missing == FlatMap(AbsentOf(present), expected[..i])
    {
      FlatMapSnoc(AbsentOf(present), expected, i);
      if expected[i] !in present {
        missing := missing + [expected[i]];
      }
    }
    assert expected[..|expected|] == expected;
  }

  /** A constructor applied to every element. */
  function Each<A, B>(f: A -> B, s: seq<A>): seq<B> {
    seq(|s|, i requires 0 <= i < |s| => f(s[i]))
  }

  /** What the source check reports. */
  datatype Check = Check(status: Status, parsed: Payloads, rows: Rows<Fault>, violations: seq<Violation>,
                         warnings: seq<Warning>)

  function SourceRows(parsed: Payloads, missing: seq<string>, invalid: seq<string>): Rows<Fault> {
    Rows(Each(v => Breached(v), Violations(parsed)), Each(n => InvalidJson(n), invalid),
         Each(n => MissingRequired(n), missing),
         [], [], [], Each(n => ProfileDiffers(n), ProfileMismatches(ProfileEntries(parsed))),
         if PolicyMismatch(parsed) then [PolicyDiffers] else [],
         if RuntimeInconsistency(parsed) then [BlockedPlanAllowed] else [])
  }

  function InvalidOf(w: World, c: Collection, schema: Schema): seq<string> {
    FlatMap(InvalidRequired(w, c.files, schema), Sorted(c.files.Keys))
  }

  function WarningsOf(w: World, c: Collection, schema: Schema): seq<Warning> {
    c.warnings + FlatMap(ReadWarnings(w, c.files, schema), Sorted(c.files.Keys))
    + Each(n => OptionalMissing(n), MissingOptional(c.files.Keys))
  }

  /** `validate_collected_evidence`, as the highest-priority failing row */
  function CheckOf(w: World, c: Collection, schema: Schema): Check {
    var parsed := Parsed(w, c.files);
    var rows := SourceRows(parsed, c.missing, InvalidOf(w, c, schema));
    var warnings := WarningsOf(w, c, schema);
    Check(Verdict(rows, warnings != []), parsed, rows, Dedup(Violations(parsed)), Dedup(warnings))
  }

  /** The case ladder of the source check, in its own order. */
  function Ladder(rows: Rows<Fault>, warned: bool): Status {
    if rows.safety != [] then BlockedSafety
    else if rows.json != [] then BadJson
    else if rows.required != [] then MissingArtifacts
    else if rows.profile != [] then ProfilesDiffer
    else if rows.policy != [] then DecisionsDiffer
    else if rows.runtimePolicy != [] then RuntimeInconsistent
    else if warned then ValidWithWarnings
    else Valid
  }

  /** The source check's ladder skips the three rows it never fills, and otherwise picks as the priority table does. */
  lemma LadderIsVerdict(rows: Rows<Fault>, warned: bool)
    requires rows.manifest == [] && rows.copied == [] && rows.hashes == []
    ensures Ladder(rows, warned) == Verdict(rows, warned)
  {
    VerdictUnrolled(rows, warned);
  }

  /** `validate_collected_evidence` */
  method ValidateCollected(w: World, c: Collection, schema: Schema) returns (check: Check)
    ensures check == CheckOf(w, c, schema)
  {
    var parsed, invalid, readWarnings := ParseArtifacts(w, c.files, schema);
    var violations := SourceSafetyViolations(parsed);
    var entries := CollectProfileIds(parsed, Sorted(parsed.Keys));
    var missingOptional := ExpectedOptionalArtifacts(c.files.Keys);
    var warnings := c.warnings + readWarnings + Each(n => OptionalMissing(n), missingOptional);
    var rows := SourceRows(parsed, c.missing, invalid);
    LadderIsVerdict(rows, warnings != []);
    check := Check(Ladder(rows, warnings != []), parsed, rows, Dedup(violations), Dedup(warnings));
  }

  /** `evidence_validation_reasons` of the source check */
  function CheckReasons(check: Check): seq<string> {
    match check.status
    case ValidWithWarnings => ["evidence_bundle_valid_with_warnings"]
    case Valid => ["evidence_bundle_valid"]
    case _ => Each(f => FaultText(f), RowOf(check.rows, check.status))
  }

  // ---- when the source check passes ----

  /** Report and decision both say something, and select different policies. */
  ghost predicate SelectionsDiffer(parsed: Payloads) {
    exists report, decision ::
      && Holds(parsed, POLICY_REPORT_FILE, report) && Holds(parsed, POLICY_DECISION_FILE, decision)
      && !PyEq(Get(report, SelectedPolicy), Get(decision, SelectedPolicy))
  }

  /** The file was parsed and says something. */
  ghost predicate Holds(parsed: Payloads, name: string, p: Object) {
    name in parsed && parsed[name] == p && p != map[]
  }

  lemma SelectionsDifferExactly(parsed: Payloads)
    ensures SelectionsDiffer(parsed) <==> PolicyMismatch(parsed)
  {
    hide PyEq, POLICY_REPORT_FILE, POLICY_DECISION_FILE;
    if PolicyMismatch(parsed) {
      assert Holds(parsed, POLICY_REPORT_FILE, parsed[POLICY_REPORT_FILE]);
      assert Holds(parsed, POLICY_DECISION_FILE, parsed[POLICY_DECISION_FILE]);
    }
  }

  predicate BeginsBlocked(j: Json) {
    j.Str? && |j.s| >= 8 && j.s[..8] == "blocked_"
  }

  predicate Allows(j: Json) {
    j == Str("dry_run_allowed") || j == Str("dry_run_allowed_with_warnings")
  }

  /** The plan is blocked and the decision allows a dry run. */
  ghost predicate BlockedYetAllowed(parsed: Payloads) {
    exists plan, decision ::
      && Holds(parsed, PLAN_FILE, plan) && Holds(parsed, POLICY_DECISION_FILE, decision)
      && BeginsBlocked(Get(plan, PlanStatus)) && Allows(Get(decision, SelectedPolicy))
  }

  lemma BlockedTextLength()
    ensures |"blocked_"| == 8
  {
  }

  lemma BlockedYetAllowedExactly(parsed: Payloads)
    ensures BlockedYetAllowed(parsed) <==> RuntimeInconsistency(parsed)
  {
    hide PLAN_FILE, POLICY_DECISION_FILE;
    BlockedTextLength();
    if RuntimeInconsistency(parsed) {
      assert Holds(parsed, PLAN_FILE, parsed[PLAN_FILE]);
      assert Holds(parsed, POLICY_DECISION_FILE, parsed[POLICY_DECISION_FILE]);
    }
  }

  /** What the artifacts must satisfy for the source check to pass. */
  ghost predicate Consistent(w: World, c: Collection, schema: Schema) {
    var parsed := Parsed(w, c.files);
    && SourceSafe(parsed)
    && InvalidOf(w, c, schema) == [] && c.missing == []
    && SameProfile(ProfileEntries(parsed)) && !SelectionsDiffer(parsed) && !BlockedYetAllowed(parsed)
  }

  lemma NoRowFailedExactly<R>(rows: Rows<R>)
    ensures NoRowFailed(rows) <==>
            rows.safety == [] && rows.json == [] && rows.required == [] && rows.manifest == [] && rows.copied == []
            && rows.hashes == [] && rows.profile == [] && rows.policy == [] && rows.runtimePolicy == []
  {
    assert RowOf(rows, PRIORITY[0]) == rows.safety && RowOf(rows, PRIORITY[1]) == rows.json;
    assert RowOf(rows, PRIORITY[2]) == rows.required && RowOf(rows, PRIORITY[3]) == rows.manifest;
    assert RowOf(rows, PRIORITY[4]) == rows.copied && RowOf(rows, PRIORITY[5]) == rows.hashes;
    assert RowOf(rows, PRIORITY[6]) == rows.profile && RowOf(rows, PRIORITY[7]) == rows.policy;
    assert RowOf(rows, PRIORITY[8]) == rows.runtimePolicy;
  }

  ghost predicate AllClear<R>(rows: Rows<R>) {
    && rows.safety == [] && rows.json == [] && rows.required == [] && rows.manifest == [] && rows.copied == []
    && rows.hashes == [] && rows.profile == [] && rows.policy == [] && rows.runtimePolicy == []
  }

  lemma PassesExactlyWhenClear<R>(rows: Rows<R>, warned: bool)
    ensures Passing(Verdict(rows, warned)) <==> AllClear(rows)
  {
    hide Verdict, Passing;
    VerdictIsHighestFailingRow(rows, warned);
    NoRowFailedExactly(rows);
  }

  lemma SourceRowsClearExactly(parsed: Payloads, missing: seq<string>, invalid: seq<string>)
    ensures AllClear(SourceRows(parsed, missing, invalid)) <==>
            SourceSafe(parsed) && invalid == [] && missing == [] && SameProfile(ProfileEntries(parsed))
            && !SelectionsDiffer(parsed) && !BlockedYetAllowed(parsed)
  {
    hide SourceSafe, SameProfile, PolicyMismatch, RuntimeInconsistency, Violations, ProfileMismatches;
    hide SelectionsDiffer, BlockedYetAllowed;
    SelectionsDifferExactly(parsed);
    BlockedYetAllowedExactly(parsed);
    NoViolationExactlySafe(parsed);
    MismatchesExactlyWhenDifferent(ProfileEntries(parsed));
  }

  /** The source check passes exactly on consistent artifacts. */
  lemma SourcePassesExactlyWhenConsistent(w: World, c: Collection, schema: Schema)
    ensures Passing(CheckOf(w, c, schema).status) <==> Consistent(w, c, schema)
  {
    hide SourceSafe, SameProfile, SelectionsDiffer, BlockedYetAllowed, Verdict, Passing, AllClear, InvalidOf;
    hide SourceRows, WarningsOf;
    var rows := SourceRows(Parsed(w, c.files), c.missing, InvalidOf(w, c, schema));
    PassesExactlyWhenClear(rows, WarningsOf(w, c, schema) != []);
    SourceRowsClearExactly(Parsed(w, c.files), c.missing, InvalidOf(w, c, schema));
  }
}
