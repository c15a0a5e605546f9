/** The check of a built bundle: written independently of the source check, over the output directory alone. */
module EvidenceBuilt {
  import opened Base
  import opened JsonValues
  import opened EvidenceSource
  import opened EvidenceCheck
  import opened EvidenceBundle

  type Loaded = map<Doc, Object>

  // ---- loading ----

  predicate Loads(w: World, out: Output, d: Doc) {
    d in out.docs && w.parse(out.docs[d]).Some? && w.parse(out.docs[d]).value.Obj?
  }

  function LoadedOf(w: World, out: Output): Loaded {
    map d | d in out.docs && Loads(w, out, d) :: w.parse(out.docs[d]).value.fields
  }

  function Unloaded(w: World, out: Output): Doc -> seq<Doc> {
    d => if Loads(w, out, d) then [] else [d]
  }

  function LoadedAmong(w: World, out: Output, seen: set<Doc>): Loaded {
    map d | d in seen && Loads(w, out, d) :: w.parse(out.docs[d]).value.fields
  }

  lemma NothingLoaded(w: World, out: Output)
    ensures LoadedAmong(w, out, {}) == map[]
  {
  }

  lemma LoadedStep(w: World, out: Output, seen: set<Doc>, d: Doc)
    ensures LoadedAmong(w, out, seen + {d}) ==
            if Loads(w, out, d) then LoadedAmong(w, out, seen)[d := w.parse(out.docs[d]).value.fields]
            else LoadedAmong(w, out, seen)
  {
  }

  lemma AllDocsSeen(w: World, out: Output, seen: set<Doc>)
    requires forall k :: 0 <= k < |DOCS| ==> DOCS[k] in seen
    ensures LoadedAmong(w, out, seen) == LoadedOf(w, out)
  {
    assert DOCS[0] in seen && DOCS[1] in seen && DOCS[2] in seen;
    forall d: Doc ensures d in seen { match d { case ManifestDoc => case SummaryDoc => case ReportDoc => } }
  }

  method LoadDocuments(w: World, out: Output) returns (loaded: Loaded, invalid: seq<Doc>)
    ensures loaded == LoadedOf(w, out)
    ensures invalid == FlatMap(Unloaded(w, out), DOCS)
  {
    hide LoadedOf, LoadedAmong;
    assert LoadedAmong(w, out, {}) == map[] by { NothingLoaded(w, out); }
    loaded, invalid := map[], [];
    ghost var seen: set<Doc> := {};
    for i := 0 to |DOCS|
      invariant forall k :: 0 <= k < i ==> DOCS[k] in seen
      invariant loaded == LoadedAmong(w, out, seen)
      invariant invalid == FlatMap(Unloaded(w, out), DOCS[..i])
    {
      FlatMapSnoc(Unloaded(w, out), DOCS, i);
      LoadedStep(w, out, seen, DOCS[i]);
      seen := seen + {DOCS[i]};
      if DOCS[i] !in out.docs {
        invalid := invalid + [DOCS[i]];
        continue;
      }
      var payload := w.parse(out.docs[DOCS[i]]);
      if payload.None? || !payload.value.Obj? {
        invalid := invalid + [DOCS[i]];
        continue;
      }
      loaded := loaded[DOCS[i] := payload.value.fields];
    }
    assert DOCS[..|DOCS|] == DOCS;
    AllDocsSeen(w, out, seen);
  }

  /** `loaded.get(name, {})` */
  function DocOf(loaded: Loaded, d: Doc): Object {
    if d in loaded then loaded[d] else map[]
  }

  // ---- manifest entries ----

  /** An entry of the manifest list that names an artifact. */
  predicate IsEntry(j: Json) {
    j.Obj? && Get(j.fields, ArtifactName).Str?
  }

  /** `entry_map`: the last entry for a name wins, names keep the place of their first entry. */
  function EntryMap(entries: seq<Json>): map<string, Object> {
    if entries == [] then map[]
    else
      var front, last := EntryMap(entries[..|entries| - 1]), entries[|entries| - 1];
      if IsEntry(last) then front[last.fields[ArtifactName].s := last.fields] else front
  }

  function EntryNames(entries: seq<Json>): (names: seq<string>)
    ensures forall name :: name in names <==> name in EntryMap(entries)
  {
    if entries == [] then []
    else
      var front, last := EntryNames(entries[..|entries| - 1]), entries[|entries| - 1];
      if IsEntry(last) && last.fields[ArtifactName].s !in front then front + [last.fields[ArtifactName].s] else front
  }

  method IndexEntries(entries: seq<Json>) returns (names: seq<string>, entryMap: map<string, Object>)
    ensures names == EntryNames(entries) && entryMap == EntryMap(entries)
  {
    names, entryMap := [], map[];
    for i := 0 to |entries|
      invariant names == EntryNames(entries[..i]) && entryMap == EntryMap(entries[..i])
    {
      assert entries[..i + 1][..i] == entries[..i];
      if IsEntry(entries[i]) {
        var name := entries[i].fields[ArtifactName].s;
        if name !in entryMap {
          names := names + [name];
        }
        entryMap := entryMap[name := entries[i].fields];
      }
    }
    assert entries[..|entries|] == entries;
  }

  function ManifestEntries(loaded: Loaded): seq<Json> {
    var entries := Get(DocOf(loaded, ManifestDoc), Artifacts);
    if entries.List? then entries.items else []
  }

  /** The entry states exactly this file's digest and size. */
  predicate Describes(w: World, entry: Object, bytes: Bytes) {
    Get(entry, Sha256) == Str(w.hash(bytes)) && Get(entry, SizeBytes) == Int(|bytes|)
  }

  function UnlistedIn(entryMap: map<string, Object>): string -> seq<string> {
    name => if name in entryMap then [] else [name]
  }

  function NotCopied(artifacts: Directory): string -> seq<string> {
    name => if name in artifacts then [] else [name]
  }

  function NotMatching(w: World, entryMap: map<string, Object>, artifacts: Directory): string -> seq<string> {
    name =>
      if name in artifacts && name in entryMap && !Describes(w, entryMap[name], artifacts[name]) then [name] else []
  }

  method FindUnlisted(entryMap: map<string, Object>, listing: seq<string>) returns (unlisted: seq<string>)
    ensures unlisted == FlatMap(UnlistedIn(entryMap), listing)
  {
    unlisted := [];
    for i := 0 to |listing|
      invariant unlisted == FlatMap(UnlistedIn(entryMap), listing[..i])
    {
      FlatMapSnoc(UnlistedIn(entryMap), listing, i);
      if listing[i] !in entryMap {
        unlisted := unlisted + [listing[i]];
      }
    }
    assert listing[..|listing|] == listing;
  }

  method CheckEntries(w: World, entryMap: map<string, Object>, names: seq<string>, artifacts: Directory)
    returns (missing: seq<string>, mismatches: seq<string>)
    requires forall k :: 0 <= k < |names| ==> names[k] in entryMap
    ensures missing == FlatMap(NotCopied(artifacts), names)
    ensures mismatches == FlatMap(NotMatching(w, entryMap, artifacts), names)
  {
    missing, mismatches := [], [];
    for i := 0 to |names|
      invariant missing == FlatMap(NotCopied(artifacts), names[..i])
      invariant mismatches == FlatMap(NotMatching(w, entryMap, artifacts), names[..i])
    {
      FlatMapSnoc(NotCopied(artifacts), names, i);
      FlatMapSnoc(NotMatching(w, entryMap, artifacts), names, i);
      if names[i] !in artifacts {
        missing := missing + [names[i]];
        continue;
      }
      var entry, bytes := entryMap[names[i]], artifacts[names[i]];
      var digest, size := Get(entry, Sha256), Get(entry, SizeBytes);
      if !digest.Str? || w.hash(bytes) != digest.s || !size.Int? || |bytes| != size.i {
        mismatches := mismatches + [names[i]];
      }
    }
    assert names[..|names|] == names;
  }

  // ---- boundary, identity and warnings ----

  datatype Finding = DocBreach(doc: Doc, field: Field) | SummaryBreach(field: Field) | NoSafetySummary

  function BoundaryFieldName(f: Field): string {
    match f
    case SimulationOnly => ".simulation_only"
    case HardwareControlEnabled => ".hardware_control_enabled"
    case HardwareControlEnabledAnywhere => ".hardware_control_enabled_anywhere"
    case RealExecutionAllowedAnywhere => ".real_execution_allowed_anywhere"
    case PolicyAllowsHardwareControl => ".policy_allows_hardware_control"
    case ClaimBoundaryConsistent => ".claim_boundary_consistent"
    case _ => ".claim_boundary"
  }

  function FindingText(f: Finding): string {
    match f
    case DocBreach(d, field) => DocName(d) + BoundaryFieldName(field)
    case SummaryBreach(field) => DocName(SummaryDoc) + ".safety_summary" + BoundaryFieldName(field)
    case NoSafetySummary => DocName(SummaryDoc) + ".safety_summary"
  }

  /** What each document must state, in the order it is looked at. */
  const STATED: seq<(Field, Json)> :=
    [(SimulationOnly, Bool(true)), (HardwareControlEnabled, Bool(false)), (ClaimBoundary, Str(CLAIM_BOUNDARY))]

  /** What the safety summary must state. */
  const SUMMARISED: seq<(Field, Json)> :=
    [(HardwareControlEnabledAnywhere, Bool(false)), (RealExecutionAllowedAnywhere, Bool(false)),
     (PolicyAllowsHardwareControl, Bool(false)), (ClaimBoundaryConsistent, Bool(true))]

  function Unstated(p: Object, finding: Field -> Finding): ((Field, Json)) -> seq<Finding> {
    (e: (Field, Json)) => if Get(p, e.0) != e.1 then [finding(e.0)] else []
  }

  method CheckStated(p: Object, finding: Field -> Finding, expected: seq<(Field, Json)>) returns (found: seq<Finding>)
    ensures found == FlatMap(Unstated(p, finding), expected)
  {
    found := [];
    for i := 0 to |expected|
      invariant found == FlatMap(Unstated(p, finding), expected[..i])
    {
      FlatMapSnoc(Unstated(p, finding), expected, i);
      if Get(p, expected[i].0) != expected[i].1 {
        found := found + [finding(expected[i].0)];
      }
    }
    assert expected[..|expected|] == expected;
  }

  function DocFindings(loaded: Loaded): Doc -> seq<Finding> {
    d => if d in loaded then FlatMap(Unstated(loaded[d], f => DocBreach(d, f)), STATED) else []
  }

  function SummaryFindings(loaded: Loaded): seq<Finding> {
    var summary := Get(DocOf(loaded, SummaryDoc), SafetySummary);
    if summary.Obj? then FlatMap(Unstated(summary.fields, f => SummaryBreach(f)), SUMMARISED) else [NoSafetySummary]
  }

  datatype Notice = VersionNotice(doc: Doc) | EvidenceVersionNotice(doc: Doc)

  function NoticeText(n: Notice): string {
    match n
    case VersionNotice(d) => "version_mismatch:" + DocName(d)
    case EvidenceVersionNotice(d) => "evidence_version_mismatch:" + DocName(d)
  }

  function DocNotices(loaded: Loaded): Doc -> seq<Notice> {
    d => if d in loaded then NoticesOn(loaded[d], d) else []
  }

  function NoticesOn(p: Object, d: Doc): seq<Notice> {
    (if VersionDiffers(p) then [VersionNotice(d)] else [])
    + (if Get(p, EvidenceBundleVersion) != Str(RUNTIME_VERSION) then [EvidenceVersionNotice(d)] else [])
  }

  method CheckDocument(p: Object, d: Doc) returns (findings: seq<Finding>, notices: seq<Notice>)
    ensures findings == FlatMap(Unstated(p, f => DocBreach(d, f)), STATED)
    ensures notices == NoticesOn(p, d)
  {
    hide Unstated, VersionDiffers;
    findings := CheckStated(p, f => DocBreach(d, f), STATED);
    notices := [];
    if VersionDiffers(p) {
      notices := notices + [VersionNotice(d)];
    }
    if Get(p, EvidenceBundleVersion) != Str(RUNTIME_VERSION) {
      notices := notices + [EvidenceVersionNotice(d)];
    }
  }

  method CheckDocuments(loaded: Loaded) returns (findings: seq<Finding>, notices: seq<Notice>)
    ensures findings == FlatMap(DocFindings(loaded), DOCS)
    ensures notices == FlatMap(DocNotices(loaded), DOCS)
  {
    hide NoticesOn, Unstated;
    findings, notices := [], [];
    for i := 0 to |DOCS|
      invariant findings == FlatMap(DocFindings(loaded), DOCS[..i])
      invariant notices == FlatMap(DocNotices(loaded), DOCS[..i])
    {
      FlatMapSnoc(DocFindings(loaded), DOCS, i);
      FlatMapSnoc(DocNotices(loaded), DOCS, i);
      var d := DOCS[i];
      if d in loaded {
        var breaches, versions := CheckDocument(loaded[d], d);
        findings, notices := findings + breaches, notices + versions;
      }
    }
    assert DOCS[..|DOCS|] == DOCS;
  }

  datatype Gap = NoArtifactList | Unlisted(name: string) | NoBundleId(doc: Doc) | CountDiffers

  function GapText(g: Gap): string {
    match g
    case NoArtifactList => DocName(ManifestDoc) + ".artifacts"
    case Unlisted(name) => name
    case NoBundleId(d) => DocName(d) + ".bundle_id"
    case CountDiffers => DocName(ManifestDoc) + ".artifact_count"
  }

  const IDENTIFIED: seq<Doc> := [ManifestDoc, SummaryDoc]

  function Unidentified(loaded: Loaded): Doc -> seq<Gap> {
    d => if Get(DocOf(loaded, d), BundleId).Str? then [] else [NoBundleId(d)]
  }

  predicate Listed(loaded: Loaded) {
    Get(DocOf(loaded, ManifestDoc), Artifacts).List?
  }

  predicate CountWrong(loaded: Loaded) {
    Listed(loaded) && !PyEq(Get(DocOf(loaded, ManifestDoc), ArtifactCount), Int(|ManifestEntries(loaded)|))
  }

  function Gaps(loaded: Loaded, artifacts: Directory): seq<Gap> {
    (if Listed(loaded) then [] else [NoArtifactList])
    + Each(n => Unlisted(n), FlatMap(UnlistedIn(EntryMap(ManifestEntries(loaded))), Sorted(artifacts.Keys)))
    + FlatMap(Unidentified(loaded), IDENTIFIED)
    + (if CountWrong(loaded) then [CountDiffers] else [])
  }

  // ---- what the report carries over ----

  /** The reasons the report gives, if its status is `s`. */
  function Carried(report: Object, s: Status): seq<string> {
    if Get(report, EvidenceValidationStatus) != Str(StatusText(s)) then []
    else
      var reasons := GetOr(report, EvidenceValidationReasons, List([]));
      if reasons.List? then StringItems(reasons.items) else []
  }

  function Stripped(prefix: string): string -> seq<string> {
    reason => if prefix <= reason then [reason[|prefix|..]] else []
  }

  /** The report's warnings, or nothing when iterating them raises. */
  function ReportWarnings(report: Object): Option<seq<string>> {
    var own, other := Get(report, EvidenceWarningReasons), GetOr(report, ConsistencyWarnings, List([]));
    if own.List? then Some(StringItems(own.items))
    else match other
      case List(items) => Some(StringItems(items))
      case Str(s) => Some(seq(|s|, i requires 0 <= i < |s| => [s[i]]))
      case Obj(fields) => Some(seq(|fields|, i requires 0 <= i < |fields| => "<key>"))
      case _ => None
  }

  // ---- the verdict ----

  datatype Built = Built(status: Status, rows: Rows<string>, warnings: seq<string>, complete: bool,
                         hashesVerified: bool)

  /** The matrix rows, from the loaded documents, the artifact files and the documents that did not load. */
  function RowsOn(w: World, loaded: Loaded, artifacts: Directory, invalid: seq<Doc>): Rows<string> {
    var report, entries := DocOf(loaded, ReportDoc), ManifestEntries(loaded);
    Rows(SafetyRow(FlatMap(DocFindings(loaded), DOCS) + SummaryFindings(loaded), Carried(report, BlockedSafety)),
         JsonRow(invalid, Carried(report, BadJson)), Carried(report, MissingArtifacts), GapRow(Gaps(loaded, artifacts)),
         CopyRow(FlatMap(NotCopied(artifacts), EntryNames(entries))),
         HashRow(FlatMap(NotMatching(w, EntryMap(entries), artifacts), EntryNames(entries))),
         Carried(report, ProfilesDiffer), Carried(report, DecisionsDiffer), Carried(report, RuntimeInconsistent))
  }

  function BuiltRows(w: World, out: Output): Rows<string> {
    RowsOn(w, LoadedOf(w, out), Existing(out.artifacts), FlatMap(Unloaded(w, out), DOCS))
  }

  function SafetyRow(findings: seq<Finding>, carried: seq<string>): seq<string> {
    Each(v => SAFETY_PREFIX + v, Dedup(Each(f => FindingText(f), findings) + FlatMap(Stripped(SAFETY_PREFIX), carried)))
  }

  function JsonRow(invalid: seq<Doc>, carried: seq<string>): seq<string> {
    Dedup(Each(d => "invalid_json:" + DocName(d), invalid) + carried)
  }

  function GapRow(gaps: seq<Gap>): seq<string> {
    Each(n => "missing_manifest_entry:" + n, Dedup(Each(g => GapText(g), gaps)))
  }

  function CopyRow(missing: seq<string>): seq<string> {
    Each(n => "missing_copied_artifact:" + n, Dedup(missing))
  }

  function HashRow(mismatches: seq<string>): seq<string> {
    Each(n => "hash_mismatch:" + n, Dedup(mismatches))
  }

  function BuiltWarnings(w: World, out: Output): Option<seq<string>> {
    var loaded := LoadedOf(w, out);
    var reported := ReportWarnings(DocOf(loaded, ReportDoc));
    if reported.None? then None
    else Some(Each(n => NoticeText(n), FlatMap(DocNotices(loaded), DOCS)) + reported.value)
  }

  /** `validate_built_evidence`; nothing when the report's warnings cannot be iterated. */
  function BuiltOf(w: World, out: Output): Option<Built> {
    var rows, warnings := BuiltRows(w, out), BuiltWarnings(w, out);
    if warnings.None? then None
    else
      Some(Built(Verdict(rows, warnings.value != []), rows, Dedup(warnings.value), |LoadedOf(w, out)| == |DOCS|,
                 EntryMap(ManifestEntries(LoadedOf(w, out))) != map[]
                 && rows.hashes == [] && rows.manifest == [] && rows.copied == []))
  }

  method DetermineStatus(rows: Rows<string>, warned: bool) returns (status: Status)
    ensures status == Verdict(rows, warned)
  {
    status := if warned then ValidWithWarnings else Valid;
    var k := 0;
    while k < |PRIORITY|
      invariant 0 <= k <= |PRIORITY|
      invariant Verdict(rows, warned) == FirstFailing(rows, warned, k)
      invariant status == if warned then ValidWithWarnings else Valid
    {
      if RowOf(rows, PRIORITY[k]) != [] {
        status := PRIORITY[k];
        break;
      }
      k := k + 1;
    }
  }

  /** The reasons carried over from the report, each in the row of the status it reports. */
  datatype CarriedRows = CarriedRows(safety: seq<string>, json: seq<string>, required: seq<string>,
                                     profile: seq<string>,
                                     policy: seq<string>, runtimePolicy: seq<string>)

  function CarriedOver(report: Object): CarriedRows {
    CarriedRows(Carried(report, BlockedSafety), Carried(report, BadJson), Carried(report, MissingArtifacts),
                Carried(report, ProfilesDiffer), Carried(report, DecisionsDiffer), Carried(report, RuntimeInconsistent))
  }

  /** At most one status is carried over. */
  lemma CarriedOnce(report: Object, a: Status, b: Status)
    requires Get(report, EvidenceValidationStatus) == Str(StatusText(a)) && a != b
    ensures Carried(report, b) == []
  {
    if Get(report, EvidenceValidationStatus) == Str(StatusText(b)) {
      StatusTextInjective(a, b);
    }
  }

  lemma CarriedExactly(report: Object, a: Status)
    requires Get(report, EvidenceValidationStatus) == Str(StatusText(a))
    ensures forall b :: b != a ==> Carried(report, b) == []
  {
    forall b | b != a ensures Carried(report, b) == [] {
      CarriedOnce(report, a, b);
    }
  }

  method CarryOver(report: Object) returns (c: CarriedRows)
    ensures c == CarriedOver(report)
  {
    var reasons: seq<string> := [];
    var original := GetOr(report, EvidenceValidationReasons, List([]));
    if original.List? {
      reasons := StringItems(original.items);
    }
    var status := Get(report, EvidenceValidationStatus);
    c := CarriedRows([], [], [], [], [], []);
    if status == Str(StatusText(BadJson)) {
      CarriedExactly(report, BadJson);
      c := c.(json := reasons);
    } else if status == Str(StatusText(MissingArtifacts)) {
      CarriedExactly(report, MissingArtifacts);
      c := c.(required := reasons);
    } else if status == Str(StatusText(ProfilesDiffer)) {
      CarriedExactly(report, ProfilesDiffer);
      c := c.(profile := reasons);
    } else if status == Str(StatusText(DecisionsDiffer)) {
      CarriedExactly(report, DecisionsDiffer);
      c := c.(policy := reasons);
    } else if status == Str(StatusText(RuntimeInconsistent)) {
      CarriedExactly(report, RuntimeInconsistent);
      c := c.(runtimePolicy := reasons);
    }
    if status == Str(StatusText(BlockedSafety)) {
      CarriedExactly(report, BlockedSafety);
      c := c.(safety := reasons);
    }
  }

  method FindGaps(loaded: Loaded, entryMap: map<string, Object>, artifacts: Directory) returns (gaps: seq<Gap>)
    requires entryMap == EntryMap(ManifestEntries(loaded))
    ensures gaps == Gaps(loaded, artifacts)
  {
    gaps := [];
    if !Listed(loaded) {
      gaps := [NoArtifactList];
    }
    var unlisted := FindUnlisted(entryMap, Sorted(artifacts.Keys));
    gaps := gaps + Each(n => Unlisted(n), unlisted);
    ghost var before := gaps;
    for i := 0 to |IDENTIFIED|
      invariant gaps == before + FlatMap(Unidentified(loaded), IDENTIFIED[..i])
    {
      FlatMapSnoc(Unidentified(loaded), IDENTIFIED, i);
      if !Get(DocOf(loaded, IDENTIFIED[i]), BundleId).Str? {
        gaps := gaps + [NoBundleId(IDENTIFIED[i])];
      }
    }
    assert IDENTIFIED[..|IDENTIFIED|] == IDENTIFIED;
    if CountWrong(loaded) {
      gaps := gaps + [CountDiffers];
    }
  }

  method CheckSummary(loaded: Loaded) returns (findings: seq<Finding>)
    ensures findings == SummaryFindings(loaded)
  {
    var summary := Get(DocOf(loaded, SummaryDoc), SafetySummary);
    if summary.Obj? {
      findings := CheckStated(summary.fields, f => SummaryBreach(f), SUMMARISED);
    } else {
      findings := [NoSafetySummary];
    }
  }

  method CollectRows(w: World, loaded: Loaded, artifacts: Directory, invalid: seq<Doc>, findings: seq<Finding>)
    returns (rows: Rows<string>)
    requires findings == FlatMap(DocFindings(loaded), DOCS) + SummaryFindings(loaded)
    ensures rows == RowsOn(w, loaded, artifacts, invalid)
  {
    var names, entryMap := IndexEntries(ManifestEntries(loaded));
    var gaps := FindGaps(loaded, entryMap, artifacts);
    var missing, mismatches := CheckEntries(w, entryMap, names, artifacts);
    var carried := CarryOver(DocOf(loaded, ReportDoc));
    rows := Rows(SafetyRow(findings, carried.safety), JsonRow(invalid, carried.json), carried.required, GapRow(gaps),
                 CopyRow(missing), HashRow(mismatches), carried.profile, carried.policy, carried.runtimePolicy);
  }

  /** `validate_built_evidence` */
  method ValidateBuilt(w: World, out: Output) returns (built: Option<Built>)
    ensures built == BuiltOf(w, out)
  {
    var loaded, invalid := LoadDocuments(w, out);
    var findings, notices := CheckDocuments(loaded);
    var summaryFindings := CheckSummary(loaded);
    var reported := ReportWarnings(DocOf(loaded, ReportDoc));
    if reported.None? {
      return None;
    }
    var warnings := Each(n => NoticeText(n), notices) + reported.value;
    var rows := CollectRows(w, loaded, Existing(out.artifacts), invalid, findings + summaryFindings);
    var status := DetermineStatus(rows, warnings != []);
    built := Some(Built(status, rows, Dedup(warnings), |loaded| == |DOCS|,
                        EntryMap(ManifestEntries(loaded)) != map[] && rows.hashes == [] && rows.manifest == []
                        && rows.copied == []));
  }
}
