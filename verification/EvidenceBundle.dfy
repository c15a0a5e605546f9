/** The evidence bundle: its three documents, the copied artifacts, and how a build fills them. */
module EvidenceBundle {
  import opened Base
  import opened JsonValues
  import opened EvidenceSource
  import opened EvidenceCheck

  datatype Doc = ManifestDoc | SummaryDoc | ReportDoc

  const DOCS: seq<Doc> := [ManifestDoc, SummaryDoc, ReportDoc]

  function DocName(d: Doc): string {
    match d
    case ManifestDoc => "evidence_manifest.json"
    case SummaryDoc => "evidence_bundle.json"
    case ReportDoc => "evidence_report.json"
  }

  /** The output directory: its documents, and its `artifacts` directory if there is one. */
  datatype Output = Output(docs: map<Doc, Bytes>, artifacts: Option<Directory>)

  const BUNDLE_ID := "EVIDENCE_BUNDLE_001"

  // ---- documents ----

  function EntryOf(w: World, files: Directory, name: string): Object
    requires name in files
  {
    map[ArtifactName := Str(name), Sha256 := Str(w.hash(files[name])), SizeBytes := Int(|files[name]|)]
  }

  function EntriesOf(w: World, files: Directory, names: seq<string>): seq<Json>
    requires forall k :: 0 <= k < |names| ==> names[k] in files
  {
    seq(|names|, k requires 0 <= k < |names| => Obj(EntryOf(w, files, names[k])))
  }

  /** The fields every document states. */
  const STAMP: Object := map[RuntimeVersion := Str(RUNTIME_VERSION), EvidenceBundleVersion := Str(RUNTIME_VERSION),
                             SimulationOnly := Bool(true), HardwareControlEnabled := Bool(false),
                             ClaimBoundary := Str(CLAIM_BOUNDARY)]

  function ManifestWith(entries: seq<Json>): Object {
    STAMP[BundleId := Str(BUNDLE_ID)][ArtifactCount := Int(|entries|)][Artifacts := List(entries)]
  }

  /** `build_manifest` */
  function Manifest(w: World, c: Collection): Object {
    ManifestWith(EntriesOf(w, c.files, Sorted(c.files.Keys)))
  }

  predicate StatesTrue(p: Object, f: Field) {
    Get(p, f) == Bool(true)
  }

  predicate Anywhere(parsed: Payloads, f: Field) {
    exists name :: name in parsed && StatesTrue(parsed[name], f)
  }

  predicate PolicyAllowsHardware(parsed: Payloads) {
    || (POLICY_REPORT_FILE in parsed && StatesTrue(parsed[POLICY_REPORT_FILE], HardwareControlAllowed))
    || (POLICY_DECISION_FILE in parsed && StatesTrue(parsed[POLICY_DECISION_FILE], HardwareControlAllowed))
  }

  predicate EndsWith(s: string, suffix: string) {
    |suffix| <= |s| && s[|s| - |suffix|..] == suffix
  }

  /** No reported violation's text ends in `.claim_boundary`. */
  predicate ClaimsConsistent(violations: seq<Violation>) {
    forall k :: 0 <= k < |violations| ==> !EndsWith(ViolationText(violations[k]), ".claim_boundary")
  }

  function SafetySummaryOf(check: Check): Object {
    map[HardwareControlEnabledAnywhere := Bool(Anywhere(check.parsed, HardwareControlEnabled)),
        RealExecutionAllowedAnywhere := Bool(Anywhere(check.parsed, RealExecutionAllowed)),
        PolicyAllowsHardwareControl := Bool(PolicyAllowsHardware(check.parsed)),
        ClaimBoundaryConsistent := Bool(ClaimsConsistent(check.violations))]
  }

  function SummaryWith(safety: Object): Object {
    STAMP[BundleId := Str(BUNDLE_ID)][SafetySummary := Obj(safety)]
  }

  /** `build_bundle` */
  function Summary(check: Check): Object {
    SummaryWith(SafetySummaryOf(check))
  }

  function ReportWith(status: Status, reasons: Json, warnings: Json): Object {
    STAMP[EvidenceValidationPassed := Bool(Passing(status))][EvidenceValidationStatus := Str(StatusText(status))]
    [EvidenceValidationReasons := reasons][EvidenceWarningReasons := warnings][ConsistencyWarnings := warnings]
  }

  /** `build_report` */
  function Report(check: Check): Object {
    ReportWith(check.status, StrList(CheckReasons(check)), StrList(Each(x => WarningText(x), check.warnings)))
  }

  function Encoded(w: World, manifest: Object, summary: Object, report: Object): map<Doc, Bytes> {
    map[ManifestDoc := w.encode(Obj(manifest)), SummaryDoc := w.encode(Obj(summary)),
        ReportDoc := w.encode(Obj(report))]
  }

  function Documents(w: World, c: Collection, check: Check): map<Doc, Bytes> {
    Encoded(w, Manifest(w, c), Summary(check), Report(check))
  }

  function Existing(artifacts: Option<Directory>): Directory {
    if artifacts.Some? then artifacts.value else map[]
  }

  /** Documents replaced, artifacts copied over whatever was there. */
  function Stored(out: Output, files: Directory, documents: map<Doc, Bytes>): Output {
    Output(out.docs + documents, Some(Existing(out.artifacts) + files))
  }

  /** The output after a build. */
  function BuiltOn(out: Output, w: World, source: Directory, schema: Schema): Output {
    var c := Collect(source, schema);
    Stored(out, c.files, Documents(w, c, CheckOf(w, c, schema)))
  }

  /** An output directory on disk. */
  class EvidenceOutput {
    var docs: map<Doc, Bytes>
    var artifacts: Option<Directory>

    function State(): Output
      reads this
    {
      Output(docs, artifacts)
    }

    constructor ()
      ensures State() == Output(map[], None)
    {
      docs, artifacts := map[], None;
    }

    /** Copies the listed files, keeping what is already in the artifact directory. */
    method CopyArtifacts(files: Directory, names: seq<string>)
      requires Lists(names, files.Keys)
      modifies this`artifacts
      ensures artifacts == Some(Existing(old(artifacts)) + files)
    {
      var copied := Existing(artifacts);
      ghost var before, seen: set<string> := copied, {};
      for i := 0 to |names|
        invariant forall k :: 0 <= k < i ==> names[k] in seen
        invariant seen <= files.Keys
        invariant copied == before + (map n | n in seen :: files[n])
      {
        copied := copied[names[i] := files[names[i]]];
        seen := seen + {names[i]};
      }
      SeenAll(names, files.Keys, seen);
      assert (map n | n in seen :: files[n]) == files;
      artifacts := Some(copied);
    }

    method Store(files: Directory, documents: map<Doc, Bytes>)
      modifies this
      ensures State() == Stored(old(State()), files, documents)
    {
      CopyArtifacts(files, Sorted(files.Keys));
      docs := docs + documents;
    }

    /** `build_evidence_bundle` */
    method Build(w: World, source: Directory, schema: Schema) returns (check: Check)
      modifies this
      ensures State() == BuiltOn(old(State()), w, source, schema)
      ensures check == CheckOf(w, Collect(source, schema), schema)
    {
      var c := CollectEvidence(source, schema);
      check := ValidateCollected(w, c, schema);
      Store(c.files, Documents(w, c, check));
    }
  }

  // ---- the summary flags and the source violations ----

  lemma SharedEnding(text: string, suffix: string, k: nat)
    requires k < |suffix| && EndsWith(text, suffix)
    ensures text[|text| - 1 - k] == suffix[|suffix| - 1 - k]
  {
    assert text[|text| - |suffix|..][|suffix| - 1 - k] == text[|text| - 1 - k];
  }

  /** Only a wrong claim makes the summary inconsistent. */
  lemma ClaimTextEnds(v: Violation)
    ensures EndsWith(ViolationText(v), ".claim_boundary") <==> v.breach.WrongClaim?
  {
    var text, tail := ViolationText(v), BreachText(v.breach);
    if v.breach.WrongClaim? {
      assert text[|text| - 15..] == tail;
    } else if EndsWith(text, ".claim_boundary") {
      SharedEnding(text, ".claim_boundary", if v.breach.BadSelection? then 4 else 0);
    }
  }
}
