/** Evidence collection and what the source check looks for in the collected payloads. */
module EvidenceSource {
  import opened Base
  import opened JsonValues

  type Bytes = seq<bv8>

  /** The outside world: an uninterpreted digest, and JSON reading and writing. */
  datatype World = World(hash: Bytes -> string, parse: Bytes -> Option<Json>, encode: Json -> Bytes)

  /** Reading back this written object gives it again. */
  ghost predicate ReadsBack(w: World, o: Object) {
    w.parse(w.encode(Obj(o))) == Some(Obj(o))
  }

  /** A directory of flat file names. */
  type Directory = map<string, Bytes>

  const PLAN_FILE := "runtime_plan.json"
  const RUNTIME_REPORT_FILE := "runtime_report.json"
  const POLICY_REPORT_FILE := "policy_report.json"
  const POLICY_DECISION_FILE := "policy_decision.json"

  /** Which artifact names are recognised and required, and the size limit. */
  datatype Schema = Schema(recognised: set<string>, required: seq<string>, maxSize: nat)

  const STANDARD: Schema := Schema(
    {"recovery_profile.json", "functional_passport.json", PLAN_FILE, RUNTIME_REPORT_FILE, "runtime_events.jsonl",
     "bundle_validation_report.json", "solver_report.json", "artifact_validation_report.json",
     "comparison_report.json", "adapter_report.json", "adapter_trace.jsonl", "adapter_registry.json",
     "failure_trace.jsonl", "rollback_plan.json", "rollback_report.json", "failure_modes.json", POLICY_DECISION_FILE,
     POLICY_REPORT_FILE, "policy_trace.jsonl", "policy_modes.json"},
    [PLAN_FILE, RUNTIME_REPORT_FILE, POLICY_REPORT_FILE, POLICY_DECISION_FILE], 5 * 1024 * 1024)

  predicate IsJsonName(name: string) {
    |name| >= 5 && name[|name| - 5..] == ".json"
  }

  predicate Hidden(name: string) {
    name != "" && name[0] == '.'
  }

  // ---- what can be wrong ----

  datatype Breach = WrongClaim | HardwareEnabled | RealExecution | HardwareAllowed | RetryPermitted | BadSelection

  /** One payload crossing the simulation-only boundary. */
  datatype Violation = Violation(file: string, breach: Breach)

  function BreachText(b: Breach): string {
    match b
    case WrongClaim => ".claim_boundary"
    case HardwareEnabled => ".hardware_control_enabled"
    case RealExecution => ".real_execution_allowed_true"
    case HardwareAllowed => ".hardware_control_allowed_true"
    case RetryPermitted => ".retry_allowed_true"
    case BadSelection => ".selected_policy"
  }

  function ViolationText(v: Violation): string {
    v.file + BreachText(v.breach)
  }

  datatype Warning = TooLarge(name: string) | InvalidOptional(name: string) | WrongVersion(name: string)
    | OptionalMissing(name: string)

  function WarningText(w: Warning): string {
    match w
    case TooLarge(name) => "artifact_too_large:" + name
    case InvalidOptional(name) => "optional_artifact_invalid_json:" + name
    case WrongVersion(name) => "version_mismatch:" + name
    case OptionalMissing(name) => "missing_optional_artifact:" + name
  }

  /** A listing of exactly these names. */
  ghost predicate Lists(names: seq<string>, keys: set<string>) {
    (forall k :: 0 <= k < |names| ==> names[k] in keys) && (forall x :: x in keys ==> x in names)
  }

  lemma SeenAll(names: seq<string>, keys: set<string>, seen: set<string>)
    requires Lists(names, keys) && seen <= keys
    requires forall k :: 0 <= k < |names| ==> names[k] in seen
    ensures seen == keys
  {
  }

  // ---- collection ----

  datatype Collection = Collection(files: Directory, missing: seq<string>, unsupported: seq<string>,
                                   warnings: seq<Warning>)

  predicate Collectable(source: Directory, schema: Schema, name: string) {
    name in source && !Hidden(name) && name in schema.recognised && |source[name]| <= schema.maxSize
  }

  function CollectedFiles(source: Directory, schema: Schema): Directory {
    map name | name in source && Collectable(source, schema, name) :: source[name]
  }

  function MissingFrom(files: Directory): string -> seq<string> {
    name => if name in files then [] else [name]
  }

  function UnsupportedIn(schema: Schema): string -> seq<string> {
    name => if !Hidden(name) && name !in schema.recognised then [name] else []
  }

  function TooLargeIn(source: Directory, schema: Schema): string -> seq<Warning> {
    name => if name in source && !Hidden(name) && name in schema.recognised && |source[name]| > schema.maxSize
            then [TooLarge(name)] else []
  }

  /** `collect_evidence` */
  function Collect(source: Directory, schema: Schema): Collection {
    var files, names := CollectedFiles(source, schema), Sorted(source.Keys);
    Collection(files, FlatMap(MissingFrom(files), schema.required), FlatMap(UnsupportedIn(schema), names),
               FlatMap(TooLargeIn(source, schema), names))
  }

  function CollectedAmong(source: Directory, schema: Schema, seen: set<string>): Directory {
    map name | name in seen && Collectable(source, schema, name) :: source[name]
  }

  lemma NothingCollected(source: Directory, schema: Schema)
    ensures CollectedAmong(source, schema, {}) == map[]
  {
  }

  lemma AllCollected(source: Directory, schema: Schema)
    ensures CollectedAmong(source, schema, source.Keys) == CollectedFiles(source, schema)
  {
  }

  lemma CollectedStep(source: Directory, schema: Schema, seen: set<string>, name: string)
    requires name in source
    ensures CollectedAmong(source, schema, seen + {name}) ==
            if Collectable(source, schema, name) then CollectedAmong(source, schema, seen)[name := source[name]]
            else CollectedAmong(source, schema, seen)
  {
  }

  /** One pass over a directory listing. */
  method ScanDirectory(source: Directory, schema: Schema, names: seq<string>)
    returns (files: Directory, unsupported: seq<string>, warnings: seq<Warning>)
    requires Lists(names, source.Keys)
    ensures files == CollectedFiles(source, schema)
    ensures unsupported == FlatMap(UnsupportedIn(schema), names)
    ensures warnings == FlatMap(TooLargeIn(source, schema), names)
  {
    hide Hidden, CollectedAmong;
    assert CollectedAmong(source, schema, {}) == map[] by { NothingCollected(source, schema); }
    files, unsupported, warnings := map[], [], [];
    ghost var seen: set<string> := {};
    for i := 0 to |names|
      invariant forall k :: 0 <= k < i ==> names[k] in seen
      invariant seen <= source.Keys
      invariant unsupported == FlatMap(UnsupportedIn(schema), names[..i])
      invariant warnings == FlatMap(TooLargeIn(source, schema), names[..i])
      invariant files == CollectedAmong(source, schema, seen)
    {
      FlatMapSnoc(UnsupportedIn(schema), names, i);
      FlatMapSnoc(TooLargeIn(source, schema), names, i);
      CollectedStep(source, schema, seen, names[i]);
      var name := names[i];
      seen := seen + {name};
      if Hidden(name) {
      } else if name !in schema.recognised {
        unsupported := unsupported + [name];
      } else if |source[name]| > schema.maxSize {
        warnings := warnings + [TooLarge(name)];
      } else {
        files := files[name := source[name]];
      }
    }
    SeenAll(names, source.Keys, seen);
    AllCollected(source, schema);
    assert names[..|names|] == names;
  }

  method FindMissing(files: Directory, required: seq<string>) returns (missing: seq<string>)
    ensures missing == FlatMap(MissingFrom(files), required)
  {
    missing := [];
    for i := 0 to |required|
      invariant missing == FlatMap(MissingFrom(files), required[..i])
    {
      FlatMapSnoc(MissingFrom(files), required, i);
      if required[i] !in files {
        missing := missing + [required[i]];
      }
    }
    assert required[..|required|] == required;
  }

  method CollectEvidence(source: Directory, schema: Schema) returns (c: Collection)
    ensures c == Collect(source, schema)
  {
    var files, unsupported, warnings := ScanDirectory(source, schema, Sorted(source.Keys));
    var missing := FindMissing(files, schema.required);
    c := Collection(files, missing, unsupported, warnings);
  }

  // ---- payloads ----

  /** What reading one artifact as JSON gives. */
  datatype Reading = NotJson | Unreadable | Payload(fields: Object)

  function Read(w: World, name: string, bytes: Bytes): Reading {
    if !IsJsonName(name) then NotJson
    else
      var payload := w.parse(bytes);
      if payload.None? || !payload.value.Obj? then Unreadable else Payload(payload.value.fields)
  }

  type Payloads = map<string, Object>

  function Parsed(w: World, files: Directory): Payloads {
    map name | name in files && Read(w, name, files[name]).Payload? :: Read(w, name, files[name]).fields
  }

  function InvalidNote(r: Reading, name: string, required: bool): seq<string> {
    if r.Unreadable? && required then [name] else []
  }

  function InvalidRequired(w: World, files: Directory, schema: Schema): string -> seq<string> {
    name => if name in files then InvalidNote(Read(w, name, files[name]), name, name in schema.required) else []
  }

  predicate VersionDiffers(p: Object) {
    RuntimeVersion in p && p[RuntimeVersion] != Str(RUNTIME_VERSION)
  }

  function ReadWarning(r: Reading, name: string, required: bool): seq<Warning> {
    match r
    case NotJson => []
    case Unreadable => if required then [] else [InvalidOptional(name)]
    case Payload(p) => if VersionDiffers(p) then [WrongVersion(name)] else []
  }

  function ReadWarnings(w: World, files: Directory, schema: Schema): string -> seq<Warning> {
    name => if name in files then ReadWarning(Read(w, name, files[name]), name, name in schema.required) else []
  }

  method NoteReading(r: Reading, name: string, required: bool, invalid: seq<string>, warnings: seq<Warning>)
    returns (i: seq<string>, ws: seq<Warning>)
    ensures i == invalid + InvalidNote(r, name, required)
    ensures ws == warnings + ReadWarning(r, name, required)
  {
    i, ws := invalid, warnings;
    if r.Unreadable? {
      if required {
        i := i + [name];
      } else {
        ws := ws + [InvalidOptional(name)];
      }
    } else if r.Payload? && VersionDiffers(r.fields) {
      ws := ws + [WrongVersion(name)];
    }
  }

  lemma ReadStep(w: World, files: Directory, schema: Schema, names: seq<string>, i: nat)
    requires i < |names| && names[i] in files
    ensures FlatMap(InvalidRequired(w, files, schema), names[..i + 1]) ==
            FlatMap(InvalidRequired(w, files, schema), names[..i])
            + InvalidNote(Read(w, names[i], files[names[i]]), names[i], names[i] in schema.required)
    ensures FlatMap(ReadWarnings(w, files, schema), names[..i + 1]) ==
            FlatMap(ReadWarnings(w, files, schema), names[..i])
            + ReadWarning(Read(w, names[i], files[names[i]]), names[i], names[i] in schema.required)
  {
    FlatMapSnoc(InvalidRequired(w, files, schema), names, i);
    FlatMapSnoc(ReadWarnings(w, files, schema), names, i);
  }

  function ParsedAmong(w: World, files: Directory, seen: set<string>): Payloads {
    map name | name in seen && name in files && Read(w, name, files[name]).Payload? :: Read(w, name, files[name]).fields
  }

  lemma ParsedStep(w: World, files: Directory, seen: set<string>, name: string)
    requires name in files
    ensures ParsedAmong(w, files, seen + {name}) ==
            var reading := Read(w, name, files[name]);
            if reading.Payload? then ParsedAmong(w, files, seen)[name := reading.fields]
            else ParsedAmong(w, files, seen)
  {
  }

  /** Reads every JSON artifact in listing order. */
  method ParseListed(w: World, files: Directory, schema: Schema, names: seq<string>)
    returns (parsed: Payloads, invalid: seq<string>, warnings: seq<Warning>, ghost seen: set<string>)
    requires forall k :: 0 <= k < |names| ==> names[k] in files
    ensures forall k :: 0 <= k < |names| ==> names[k] in seen
    ensures seen <= files.Keys
    ensures parsed == ParsedAmong(w, files, seen)
    ensures invalid == FlatMap(InvalidRequired(w, files, schema), names)
    ensures warnings == FlatMap(ReadWarnings(w, files, schema), names)
  {
    parsed, invalid, warnings, seen := map[], [], [], {};
    for i := 0 to |names|
      invariant forall k :: 0 <= k < i ==> names[k] in seen
      invariant seen <= files.Keys
      invariant invalid == FlatMap(InvalidRequired(w, files, schema), names[..i])
      invariant warnings == FlatMap(ReadWarnings(w, files, schema), names[..i])
      invariant parsed == ParsedAmong(w, files, seen)
    {
      ReadStep(w, files, schema, names, i);
      ParsedStep(w, files, seen, names[i]);
      var reading := Read(w, names[i], files[names[i]]);
      invalid, warnings := NoteReading(reading, names[i], names[i] in schema.required, invalid, warnings);
      if reading.Payload? {
        parsed := parsed[names[i] := reading.fields];
      }
      seen := seen + {names[i]};
    }
    assert names[..|names|] == names;
  }

  method ParseArtifacts(w: World, files: Directory, schema: Schema)
    returns (parsed: Payloads, invalid: seq<string>, warnings: seq<Warning>)
    ensures parsed == Parsed(w, files)
    ensures invalid == FlatMap(InvalidRequired(w, files, schema), Sorted(files.Keys))
    ensures warnings == FlatMap(ReadWarnings(w, files, schema), Sorted(files.Keys))
  {
    ghost var seen;
    parsed, invalid, warnings, seen := ParseListed(w, files, schema, Sorted(files.Keys));
    SeenAll(Sorted(files.Keys), files.Keys, seen);
  }

  // ---- safety boundary ----

  const FORBIDDEN: seq<string> := ["hardware_execute", "real_execute", "apply_to_device", "firmware_update",
                                   "voltage_adjust", "timing_adjust", "driver_apply"]

  predicate TextAt(s: string, part: string, i: nat) {
    i + |part| <= |s| && s[i..i + |part|] == part
  }

  predicate ContainsText(s: string, part: string) {
    exists i :: 0 <= i <= |s| && TextAt(s, part, i)
  }

  predicate ForbiddenPolicy(s: string) {
    exists k :: 0 <= k < |FORBIDDEN| && ContainsText(s, FORBIDDEN[k])
  }

  function ClaimViolations(p: Object, name: string): seq<Violation> {
    (if ClaimBoundary in p && p[ClaimBoundary] != Str(CLAIM_BOUNDARY) then [Violation(name, WrongClaim)] else [])
    + (if HardwareControlEnabled in p && p[HardwareControlEnabled] != Bool(false)
       then [Violation(name, HardwareEnabled)] else [])
  }

  function BoundaryViolations(parsed: Payloads): string -> seq<Violation> {
    name => if name in parsed then ClaimViolations(parsed[name], name) else []
  }

  method CheckClaims(p: Object, name: string) returns (violations: seq<Violation>)
    ensures violations == ClaimViolations(p, name)
  {
    violations := [];
    if ClaimBoundary in p && p[ClaimBoundary] != Str(CLAIM_BOUNDARY) {
      violations := violations + [Violation(name, WrongClaim)];
    }
    if HardwareControlEnabled in p && p[HardwareControlEnabled] != Bool(false) {
      violations := violations + [Violation(name, HardwareEnabled)];
    }
  }

  predicate SelectsAcceptably(p: Object) {
    Get(p, SelectedPolicy).Str? && !ForbiddenPolicy(p[SelectedPolicy].s)
  }

  const DENIALS: seq<(Field, Breach)> :=
    [(RealExecutionAllowed, RealExecution), (HardwareControlAllowed, HardwareAllowed), (RetryAllowed, RetryPermitted)]

  function NotDenied(p: Object, name: string): ((Field, Breach)) -> seq<Violation> {
    (denial: (Field, Breach)) => if Get(p, denial.0) != Bool(false) then [Violation(name, denial.1)] else []
  }

  function PolicyViolations(parsed: Payloads): string -> seq<Violation> {
    name =>
      if name !in parsed || parsed[name] == map[] then []
      else FlatMap(NotDenied(parsed[name], name), DENIALS)
           + (if !SelectsAcceptably(parsed[name]) then [Violation(name, BadSelection)] else [])
  }

  const POLICY_FILES: seq<string> := [POLICY_REPORT_FILE, POLICY_DECISION_FILE]

  /** `_source_safety_violations` */
  function Violations(parsed: Payloads): seq<Violation> {
    FlatMap(BoundaryViolations(parsed), Sorted(parsed.Keys)) + FlatMap(PolicyViolations(parsed), POLICY_FILES)
  }

  method CollectBoundaryViolations(parsed: Payloads, names: seq<string>) returns (violations: seq<Violation>)
    requires Lists(names, parsed.Keys)
    ensures violations == FlatMap(BoundaryViolations(parsed), names)
  {
    hide ClaimViolations;
    violations := [];
    for i := 0 to |names|
      invariant violations == FlatMap(BoundaryViolations(parsed), names[..i])
    {
      FlatMapSnoc(BoundaryViolations(parsed), names, i);
      var found := CheckClaims(parsed[names[i]], names[i]);
      violations := violations + found;
    }
    assert names[..|names|] == names;
  }

  method CheckPolicyPayload(p: Object, name: string) returns (violations: seq<Violation>)
    ensures violations == FlatMap(NotDenied(p, name), DENIALS)
                          + (if !SelectsAcceptably(p) then [Violation(name, BadSelection)] else [])
  {
    violations := [];
    for i := 0 to |DENIALS|
      invariant violations == FlatMap(NotDenied(p, name), DENIALS[..i])
    {
      FlatMapSnoc(NotDenied(p, name), DENIALS, i);
      if Get(p, DENIALS[i].0) != Bool(false) {
        violations := violations + [Violation(name, DENIALS[i].1)];
      }
    }
    assert DENIALS[..|DENIALS|] == DENIALS;
    if !SelectsAcceptably(p) {
      violations := violations + [Violation(name, BadSelection)];
    }
  }

  method CollectPolicyViolations(parsed: Payloads, names: seq<string>) returns (violations: seq<Violation>)
    ensures violations == FlatMap(PolicyViolations(parsed), names)
  {
    violations := [];
    for i := 0 to |names|
      invariant violations == FlatMap(PolicyViolations(parsed), names[..i])
    {
      FlatMapSnoc(PolicyViolations(parsed), names, i);
      if names[i] in parsed && parsed[names[i]] != map[] {
        var found := CheckPolicyPayload(parsed[names[i]], names[i]);
        violations := violations + found;
      }
    }
    assert names[..|names|] == names;
  }

  method SourceSafetyViolations(parsed: Payloads) returns (violations: seq<Violation>)
    ensures violations == Violations(parsed)
  {
    var boundary := CollectBoundaryViolations(parsed, Sorted(parsed.Keys));
    var policy := CollectPolicyViolations(parsed, POLICY_FILES);
    violations := boundary + policy;
  }

  /** A payload within the boundary: whatever it claims is exact. */
  ghost predicate WithinClaims(p: Object) {
    && (ClaimBoundary in p ==> p[ClaimBoundary] == Str(CLAIM_BOUNDARY))
    && (HardwareControlEnabled in p ==> p[HardwareControlEnabled] == Bool(false))
  }

  ghost predicate PolicyPayloadSafe(p: Object) {
    p == map[] || (Get(p, RealExecutionAllowed) == Bool(false) && Get(p, HardwareControlAllowed) == Bool(false)
                   && Get(p, RetryAllowed) == Bool(false) && SelectsAcceptably(p))
  }

  ghost predicate SourceSafe(parsed: Payloads) {
    && (forall name :: name in parsed ==> WithinClaims(parsed[name]))
    && (POLICY_REPORT_FILE in parsed ==> PolicyPayloadSafe(parsed[POLICY_REPORT_FILE]))
    && (POLICY_DECISION_FILE in parsed ==> PolicyPayloadSafe(parsed[POLICY_DECISION_FILE]))
  }

  lemma NothingUndenied(p: Object, name: string)
    ensures FlatMap(NotDenied(p, name), DENIALS) == [] <==>
            Get(p, RealExecutionAllowed) == Bool(false) && Get(p, HardwareControlAllowed) == Bool(false)
            && Get(p, RetryAllowed) == Bool(false)
  {
    FlatMapEmptyExactly(NotDenied(p, name), DENIALS);
    assert DENIALS[0] in DENIALS && DENIALS[1] in DENIALS && DENIALS[2] in DENIALS;
  }

  lemma NoPolicyViolation(parsed: Payloads, name: string)
    ensures PolicyViolations(parsed)(name) == [] <==> (name in parsed ==> PolicyPayloadSafe(parsed[name]))
  {
    if name in parsed {
      NothingUndenied(parsed[name], name);
    }
  }

  lemma NoBoundaryViolation(parsed: Payloads, names: seq<string>)
    requires Lists(names, parsed.Keys)
    ensures FlatMap(BoundaryViolations(parsed), names) == [] <==>
            forall name :: name in parsed ==> WithinClaims(parsed[name])
  {
    FlatMapEmptyExactly(BoundaryViolations(parsed), names);
    forall name | name in parsed
      ensures BoundaryViolations(parsed)(name) == [] <==> WithinClaims(parsed[name]) {}
  }

  /** The violation list is empty exactly when every payload keeps to the simulation-only boundary. */
  lemma NoViolationExactlySafe(parsed: Payloads)
    ensures Violations(parsed) == [] <==> SourceSafe(parsed)
  {
    NoBoundaryViolation(parsed, Sorted(parsed.Keys));
    FlatMapPair(PolicyViolations(parsed), POLICY_REPORT_FILE, POLICY_DECISION_FILE);
    NoPolicyViolation(parsed, POLICY_REPORT_FILE);
    NoPolicyViolation(parsed, POLICY_DECISION_FILE);
  }

  // ---- profile and policy consistency ----

  /** The first non-empty profile id a payload states, its own or its source plan's. */
  function ProfileIdOf(p: Object): Option<string> {
    var own := Get(p, ProfileId);
    var summary := Get(p, SourcePlanSummary);
    if own.Str? && own.s != "" then Some(own.s)
    else if summary.Obj? && Get(summary.fields, ProfileId).Str? && Get(summary.fields, ProfileId).s != ""
    then Some(Get(summary.fields, ProfileId).s)
    else None
  }

  function ProfileEntries(parsed: Payloads): map<string, string> {
    map name | name in parsed && ProfileIdOf(parsed[name]).Some? :: ProfileIdOf(parsed[name]).value
  }

  /** The first usable candidate of one payload. */
  method FirstProfileId(p: Object) returns (id: Option<string>)
    ensures id == ProfileIdOf(p)
  {
    var candidates := [Get(p, ProfileId)];
    if Get(p, SourcePlanSummary).Obj? {
      candidates := candidates + [Get(p[SourcePlanSummary].fields, ProfileId)];
    }
    assert candidates[0] == Get(p, ProfileId);
    assert |candidates| == 2 ==> candidates[1] == Get(p[SourcePlanSummary].fields, ProfileId);
    id := None;
    for k := 0 to |candidates|
      invariant id == None
      invariant forall m :: 0 <= m < k ==> !(candidates[m].Str? && candidates[m].s != "")
    {
      if candidates[k].Str? && candidates[k].s != "" {
        assert k == 0 || k == 1;
        id := Some(candidates[k].s);
        break;
      }
    }
  }

  /** `_profile_id_entries` */
  method CollectProfileIds(parsed: Payloads, names: seq<string>) returns (values: map<string, string>)
    requires Lists(names, parsed.Keys)
    ensures values == ProfileEntries(parsed)
  {
    values := map[];
    ghost var seen: set<string> := {};
    for i := 0 to |names|
      invariant forall k :: 0 <= k < i ==> names[k] in seen
      invariant seen <= parsed.Keys
      invariant values == map n | n in seen && ProfileIdOf(parsed[n]).Some? :: ProfileIdOf(parsed[n]).value
    {
      seen := seen + {names[i]};
      var id := FirstProfileId(parsed[names[i]]);
      if id.Some? {
        values := values[names[i] := id.value];
      }
    }
    SeenAll(names, parsed.Keys, seen);
  }

  lemma SortedNonempty(entries: map<string, string>)
    requires entries != map[]
    ensures Sorted(entries.Keys) != [] && Sorted(entries.Keys)[0] in entries
  {
    var k :| k in entries;
    assert k in Sorted(entries.Keys);
    assert Sorted(entries.Keys)[0] in Sorted(entries.Keys);
  }

  /** The plan's id if it states one, otherwise the first stated. */
  function Baseline(entries: map<string, string>): string
    requires entries != map[]
  {
    if PLAN_FILE in entries then entries[PLAN_FILE]
    else
      SortedNonempty(entries);
      entries[Sorted(entries.Keys)[0]]
  }

  function DiffersFrom(entries: map<string, string>, baseline: string): string -> seq<string> {
    name => if name in entries && entries[name] != baseline then [name] else []
  }

  /** `_profile_mismatch_reasons`, naming the files */
  function ProfileMismatches(entries: map<string, string>): seq<string> {
    if |entries.Values| <= 1 then [] else FlatMap(DiffersFrom(entries, Baseline(entries)), Sorted(entries.Keys))
  }

  ghost predicate SameProfile(entries: map<string, string>) {
    forall a, b :: a in entries && b in entries ==> entries[a] == entries[b]
  }

  lemma {:induction false} SubsetSize<T>(a: set<T>, b: set<T>)
    requires a <= b
    ensures |a| <= |b|
  {
    if a != {} {
      var x :| x in a;
      SubsetSize(a - {x}, b - {x});
    }
  }

  lemma OneValueExactly(entries: map<string, string>)
    ensures |entries.Values| <= 1 <==> SameProfile(entries)
  {
    if SameProfile(entries) {
      if entries != map[] {
        var k :| k in entries;
        assert entries.Values <= {entries[k]};
        SubsetSize(entries.Values, {entries[k]});
      } else {
        assert entries.Values == {};
      }
    } else {
      var a, b :| a in entries && b in entries && entries[a] != entries[b];
      assert a in entries.Keys && b in entries.Keys;
      SubsetSize({entries[a], entries[b]}, entries.Values);
    }
  }

  /** No mismatch is reported exactly when all stated profile ids agree. */
  lemma MismatchesExactlyWhenDifferent(entries: map<string, string>)
    ensures ProfileMismatches(entries) == [] <==> SameProfile(entries)
  {
    OneValueExactly(entries);
    if !SameProfile(entries) {
      var a, b :| a in entries && b in entries && entries[a] != entries[b];
      var base := Baseline(entries);
      FlatMapEmptyExactly(DiffersFrom(entries, base), Sorted(entries.Keys));
      assert a in Sorted(entries.Keys) && b in Sorted(entries.Keys);
      assert DiffersFrom(entries, base)(a) != [] || DiffersFrom(entries, base)(b) != [];
    }
  }

  predicate PolicyMismatch(parsed: Payloads) {
    && POLICY_REPORT_FILE in parsed && parsed[POLICY_REPORT_FILE] != map[]
    && POLICY_DECISION_FILE in parsed && parsed[POLICY_DECISION_FILE] != map[]
    && !PyEq(Get(parsed[POLICY_REPORT_FILE], SelectedPolicy), Get(parsed[POLICY_DECISION_FILE], SelectedPolicy))
  }

  predicate RuntimeInconsistency(parsed: Payloads) {
    && PLAN_FILE in parsed && parsed[PLAN_FILE] != map[]
    && POLICY_DECISION_FILE in parsed && parsed[POLICY_DECISION_FILE] != map[]
    && var status, selected := Get(parsed[PLAN_FILE], PlanStatus), Get(parsed[POLICY_DECISION_FILE], SelectedPolicy);
       && status.Str? && "blocked_" <= status.s
       && (selected == Str("dry_run_allowed") || selected == Str("dry_run_allowed_with_warnings"))
  }
}
