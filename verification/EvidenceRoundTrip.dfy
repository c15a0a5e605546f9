/** Building a bundle and then checking it, against the source check made while building. */
module EvidenceRoundTrip {
  import opened Base
  import opened JsonValues
  import opened EvidenceSource
  import opened EvidenceCheck
  import opened EvidenceBundle
  import opened EvidenceBuilt
  import opened EvidenceTheorems

  function WrittenDocs(w: World, c: Collection, check: Check): Loaded {
    map[ManifestDoc := Manifest(w, c), SummaryDoc := Summary(check), ReportDoc := Report(check)]
  }

  /** The three documents of a build read back as they were written. */
  ghost predicate BuildReadsBack(w: World, c: Collection, check: Check) {
    ReadsBack(w, Manifest(w, c)) && ReadsBack(w, Summary(check)) && ReadsBack(w, Report(check))
  }

  lemma WrittenDocsLoad(w: World, docs: map<Doc, Bytes>, artifacts: Option<Directory>,
                        manifest: Object, summary: Object, report: Object)
    requires ReadsBack(w, manifest) && ReadsBack(w, summary) && ReadsBack(w, report)
    requires ManifestDoc in docs && docs[ManifestDoc] == w.encode(Obj(manifest))
    requires SummaryDoc in docs && docs[SummaryDoc] == w.encode(Obj(summary))
    requires ReportDoc in docs && docs[ReportDoc] == w.encode(Obj(report))
    ensures LoadedOf(w, Output(docs, artifacts)) ==
            map[ManifestDoc := manifest, SummaryDoc := summary, ReportDoc := report]
    ensures AllLoaded(w, Output(docs, artifacts))
  {
    forall d: Doc
      ensures Loads(w, Output(docs, artifacts), d) && (d == ManifestDoc || d == SummaryDoc || d == ReportDoc) {
      match d { case ManifestDoc => case SummaryDoc => case ReportDoc => }
    }
  }

  lemma EncodedLoads(w: World, out: Output, files: Directory, manifest: Object, summary: Object, report: Object)
    requires ReadsBack(w, manifest) && ReadsBack(w, summary) && ReadsBack(w, report)
    ensures LoadedOf(w, Stored(out, files, Encoded(w, manifest, summary, report))) ==
            map[ManifestDoc := manifest, SummaryDoc := summary, ReportDoc := report]
    ensures AllLoaded(w, Stored(out, files, Encoded(w, manifest, summary, report)))
  {
    WrittenDocsLoad(w, out.docs + Encoded(w, manifest, summary, report), Some(Existing(out.artifacts) + files),
                    manifest, summary, report);
  }

  // ---- the manifest ----

  lemma {:induction false} EntriesIndexThemselves(w: World, files: Directory, names: seq<string>)
    requires forall k :: 0 <= k < |names| ==> names[k] in files
    ensures EntryMap(EntriesOf(w, files, names)) == map name | name in names && name in files :: EntryOf(w, files, name)
  {
    if names != [] {
      var n := |names| - 1;
      EntriesIndexThemselves(w, files, names[..n]);
      assert EntriesOf(w, files, names)[..n] == EntriesOf(w, files, names[..n]);
      assert forall name :: name in names <==> name in names[..n] || name == names[n];
    }
  }

  /** A copied directory without leftovers is in bijection with the manifest. */
  lemma CopiesAreBijective(w: World, files: Directory, names: seq<string>)
    requires Lists(names, files.Keys)
    ensures Bijective(w, EntryMap(EntriesOf(w, files, names)), files)
  {
    EntriesIndexThemselves(w, files, names);
  }

  // ---- the safety summary ----

  lemma UnblockedSummary(check: Check)
    requires check.violations == [] && SourceSafe(check.parsed)
    ensures States(SafetySummaryOf(check), SUMMARISED) <==> !Anywhere(check.parsed, RealExecutionAllowed)
  {
    var s := SafetySummaryOf(check);
    assert !Anywhere(check.parsed, HardwareControlEnabled);
    assert !PolicyAllowsHardware(check.parsed);
    assert Get(s, SUMMARISED[1].0) == Bool(Anywhere(check.parsed, RealExecutionAllowed));
  }

  // ---- the report ----

  lemma ReasonsRead(check: Check, report: Object, s: Status)
    requires Get(report, EvidenceValidationStatus) == Str(StatusText(check.status))
    requires EvidenceValidationReasons in report && report[EvidenceValidationReasons] == StrList(CheckReasons(check))
    ensures Carried(report, s) == if s == check.status then CheckReasons(check) else []
  {
    StringItemsOfStrList(CheckReasons(check));
    if s != check.status {
      CarriedOnce(report, check.status, s);
    }
  }

  lemma {:induction false} SafetyReasonsStrip(violations: seq<Violation>)
    requires violations != []
    ensures FlatMap(Stripped(SAFETY_PREFIX), Each(f => FaultText(f), Each(v => Breached(v), violations))) != []
  {
    var texts := Each(f => FaultText(f), Each(v => Breached(v), violations));
    assert texts[0] == SAFETY_PREFIX + ViolationText(violations[0]);
    FlatMapMember(Stripped(SAFETY_PREFIX), texts, 0);
  }

  lemma WarningsRead(check: Check, report: Object)
    requires EvidenceWarningReasons in report
    requires report[EvidenceWarningReasons] == StrList(Each(x => WarningText(x), check.warnings))
    ensures ReportWarnings(report) == Some(Each(x => WarningText(x), check.warnings))
  {
    StringItemsOfStrList(Each(x => WarningText(x), check.warnings));
  }

  // ---- every document carries the stamp ----

  ghost predicate Stamped(p: Object) {
    forall f :: f in STAMP ==> f in p && p[f] == STAMP[f]
  }

  lemma StampedStates(p: Object)
    requires Stamped(p)
    ensures States(p, STATED) && !VersionDiffers(p) && Get(p, EvidenceBundleVersion) == Str(RUNTIME_VERSION)
  {
    assert SimulationOnly in STAMP && HardwareControlEnabled in STAMP && ClaimBoundary in STAMP;
    assert RuntimeVersion in STAMP && EvidenceBundleVersion in STAMP;
  }

  lemma ManifestStamped(entries: seq<Json>)
    ensures Stamped(ManifestWith(entries))
  {
  }

  lemma SummaryStamped(safety: Object)
    ensures Stamped(SummaryWith(safety))
  {
  }

  lemma ReportStamped(status: Status, reasons: Json, warnings: Json)
    ensures Stamped(ReportWith(status, reasons, warnings))
  {
  }

  lemma StampedDocuments(loaded: Loaded)
    requires forall d :: d in loaded ==> Stamped(loaded[d])
    ensures forall d :: d in loaded ==> States(loaded[d], STATED)
    ensures FlatMap(DocNotices(loaded), DOCS) == []
  {
    forall d | d in loaded ensures States(loaded[d], STATED) && DocNotices(loaded)(d) == [] {
      StampedStates(loaded[d]);
    }
    FlatMapEmptyExactly(DocNotices(loaded), DOCS);
  }

  // ---- the verdict after a build ----

  predicate StatesLive(check: Check) {
    Anywhere(check.parsed, RealExecutionAllowed)
  }

  /** What checking the built bundle gives, from the source status, a real-execution flag anywhere and leftover
      files. */
  function Revalidated(s: Status, live: bool, stale: bool): Status {
    if live then BlockedSafety
    else if stale && !s.BlockedSafety? && !s.BadJson? && !s.MissingArtifacts? then MissingEntries
    else s
  }

  predicate SourceStatus(s: Status) {
    !s.MissingEntries? && !s.MissingCopies? && !s.HashesDiffer?
  }

  lemma VerdictAfterBuild(rows: Rows<string>, warned: bool, s: Status, live: bool, stale: bool)
    requires SourceStatus(s)
    requires rows.safety != [] <==> live || s.BlockedSafety?
    requires rows.json != [] <==> s.BadJson?
    requires rows.required != [] <==> s.MissingArtifacts?
    requires rows.manifest != [] <==> stale
    requires rows.copied == [] && rows.hashes == []
    requires rows.profile != [] <==> s.ProfilesDiffer?
    requires rows.policy != [] <==> s.DecisionsDiffer?
    requires rows.runtimePolicy != [] <==> s.RuntimeInconsistent?
    requires Passing(s) ==> (warned <==> s.ValidWithWarnings?)
    ensures Verdict(rows, warned) == Revalidated(s, live, stale)
  {
    VerdictUnrolled(rows, warned);
  }

  lemma BlockedStaysBlocked(findings: seq<Finding>, check: Check)
    requires check.status.BlockedSafety? && Violations(check.parsed) != []
    requires check.rows.safety == Each(v => Breached(v), Violations(check.parsed))
    ensures SafetyRow(findings, CheckReasons(check)) != []
  {
    SafetyReasonsStrip(Violations(check.parsed));
  }

  /** With the documents stamped and nothing carried over, the safety row is clear exactly when the summary is. */
  lemma SafetyRowIsSummary(loaded: Loaded, safety: Object)
    requires forall d :: d in loaded ==> States(loaded[d], STATED)
    requires Get(DocOf(loaded, SummaryDoc), SafetySummary) == Obj(safety)
    ensures SafetyRow(FlatMap(DocFindings(loaded), DOCS) + SummaryFindings(loaded), []) == [] <==>
            States(safety, SUMMARISED)
  {
    SafetyRowExactly(loaded, []);
  }

  /** Every entry is copied and matches; only leftovers from an earlier build are unlisted. */
  lemma CopiesMatch(w: World, entryMap: map<string, Object>, files: Directory, before: Directory, names: seq<string>)
    requires Bijective(w, entryMap, files) && Lists(names, entryMap.Keys)
    ensures FlatMap(NotCopied(before + files), names) == []
    ensures FlatMap(NotMatching(w, entryMap, before + files), names) == []
    ensures FlatMap(UnlistedIn(entryMap), Sorted((before + files).Keys)) == [] <==> before.Keys <= files.Keys
  {
    UncopiedExactly(entryMap, before + files, names);
    UnmatchedExactly(w, entryMap, before + files, names);
    SortedLists((before + files).Keys);
    UnlistedExactly(entryMap, before + files, Sorted((before + files).Keys));
  }

  lemma ManifestIsComplete(loaded: Loaded, entries: seq<Json>)
    requires DocOf(loaded, ManifestDoc) == ManifestWith(entries)
    requires Get(DocOf(loaded, SummaryDoc), BundleId).Str?
    ensures ManifestComplete(loaded) && ManifestEntries(loaded) == entries
  {
  }

  /** The file checks after a build. */
  lemma FilesAfterBuild(w: World, loaded: Loaded, entries: seq<Json>, files: Directory, before: Directory)
    requires ManifestComplete(loaded) && ManifestEntries(loaded) == entries
    requires Bijective(w, EntryMap(entries), files)
    ensures FlatMap(NotCopied(before + files), EntryNames(entries)) == []
    ensures FlatMap(NotMatching(w, EntryMap(entries), before + files), EntryNames(entries)) == []
    ensures Gaps(loaded, before + files) == [] <==> before.Keys <= files.Keys
  {
    NamesListEntries(entries);
    CopiesMatch(w, EntryMap(entries), files, before, EntryNames(entries));
    NoGapExactly(loaded, before + files);
  }

  // ---- the round trip ----

  /** The report as the later check reads it: one status, its reasons and some warnings. */
  ghost predicate Reports(report: Object, status: Status, reasons: seq<string>) {
    forall s :: Carried(report, s) == if s == status then reasons else []
  }

  lemma ReportReports(check: Check, report: Object)
    requires report == Report(check)
    ensures Reports(report, check.status, CheckReasons(check))
  {
    forall s ensures Carried(report, s) == if s == check.status then CheckReasons(check) else [] {
      ReasonsRead(check, report, s);
    }
  }

  /** Each carried row is filled exactly when its own status is the reported one. */
  lemma CarriedRowsFollow(report: Object, status: Status, reasons: seq<string>)
    requires Reports(report, status, reasons) && (!Passing(status) ==> reasons != [])
    ensures JsonRow([], Carried(report, BadJson)) != [] <==> status.BadJson?
    ensures Carried(report, MissingArtifacts) != [] <==> status.MissingArtifacts?
    ensures Carried(report, ProfilesDiffer) != [] <==> status.ProfilesDiffer?
    ensures Carried(report, DecisionsDiffer) != [] <==> status.DecisionsDiffer?
    ensures Carried(report, RuntimeInconsistent) != [] <==> status.RuntimeInconsistent?
  {
    assert Carried(report, BadJson) == if BadJson == status then reasons else [];
  }

  /** The file rows after a build are clear but for leftovers. */
  lemma FileRowsFollow(w: World, loaded: Loaded, files: Directory, before: Directory)
    requires ManifestComplete(loaded) && Bijective(w, EntryMap(ManifestEntries(loaded)), files)
    ensures var entries := ManifestEntries(loaded);
            && CopyRow(FlatMap(NotCopied(before + files), EntryNames(entries))) == []
            && HashRow(FlatMap(NotMatching(w, EntryMap(entries), before + files), EntryNames(entries))) == []
            && (GapRow(Gaps(loaded, before + files)) == [] <==> before.Keys <= files.Keys)
  {
    FilesAfterBuild(w, loaded, ManifestEntries(loaded), files, before);
  }

  predicate SafetyFilled(loaded: Loaded) {
    SafetyRow(FlatMap(DocFindings(loaded), DOCS) + SummaryFindings(loaded),
              Carried(DocOf(loaded, ReportDoc), BlockedSafety)) != []
  }

  lemma RecordedVerdict(w: World, loaded: Loaded, files: Directory, before: Directory, warned: bool,
                        status: Status, reasons: seq<string>, live: bool)
    requires ManifestComplete(loaded) && Bijective(w, EntryMap(ManifestEntries(loaded)), files)
    requires Reports(DocOf(loaded, ReportDoc), status, reasons) && (!Passing(status) ==> reasons != [])
    requires SafetyFilled(loaded) <==> live || status.BlockedSafety?
    requires SourceStatus(status) && (Passing(status) ==> (warned <==> status.ValidWithWarnings?))
    ensures Verdict(RowsOn(w, loaded, before + files, []), warned) ==
            Revalidated(status, live, !(before.Keys <= files.Keys))
  {
    FileRowsFollow(w, loaded, files, before);
    CarriedRowsFollow(DocOf(loaded, ReportDoc), status, reasons);
    VerdictAfterBuild(RowsOn(w, loaded, before + files, []), warned, status, live, !(before.Keys <= files.Keys));
  }

  /** The safety row after a build. */
  lemma SafetyAfterBuild(loaded: Loaded, check: Check)
    requires forall d :: d in loaded ==> States(loaded[d], STATED)
    requires Get(DocOf(loaded, SummaryDoc), SafetySummary) == Obj(SafetySummaryOf(check))
    requires Carried(DocOf(loaded, ReportDoc), BlockedSafety) ==
             if check.status.BlockedSafety? then CheckReasons(check) else []
    requires check.status.BlockedSafety? <==> Violations(check.parsed) != []
    requires check.violations == Dedup(Violations(check.parsed))
    requires check.rows.safety == Each(v => Breached(v), Violations(check.parsed))
    ensures SafetyFilled(loaded) <==> StatesLive(check) || check.status.BlockedSafety?
  {
    if check.status.BlockedSafety? {
      BlockedStaysBlocked(FlatMap(DocFindings(loaded), DOCS) + SummaryFindings(loaded), check);
    } else {
      NoViolationExactlySafe(check.parsed);
      UnblockedSummary(check);
      SafetyRowIsSummary(loaded, SafetySummaryOf(check));
    }
  }

  lemma WrittenStamped(w: World, c: Collection, check: Check)
    ensures forall d :: d in WrittenDocs(w, c, check) ==> Stamped(WrittenDocs(w, c, check)[d])
  {
    ManifestStamped(EntriesOf(w, c.files, Sorted(c.files.Keys)));
    SummaryStamped(SafetySummaryOf(check));
    ReportStamped(check.status, StrList(CheckReasons(check)), StrList(Each(x => WarningText(x), check.warnings)));
  }

  lemma WrittenManifest(w: World, loaded: Loaded, c: Collection)
    requires DocOf(loaded, ManifestDoc) == Manifest(w, c) && Get(DocOf(loaded, SummaryDoc), BundleId).Str?
    ensures ManifestComplete(loaded) && Bijective(w, EntryMap(ManifestEntries(loaded)), c.files)
  {
    var names := Sorted(c.files.Keys);
    SortedLists(c.files.Keys);
    ManifestIsComplete(loaded, EntriesOf(w, c.files, names));
    CopiesAreBijective(w, c.files, names);
  }

  /** What the later check relies on about a source check. */
  ghost predicate Sound(check: Check) {
    && SourceStatus(check.status)
    && (check.status.BlockedSafety? <==> Violations(check.parsed) != [])
    && check.violations == Dedup(Violations(check.parsed))
    && check.rows.safety == Each(v => Breached(v), Violations(check.parsed))
    && (!Passing(check.status) ==> CheckReasons(check) != [])
    && (Passing(check.status) ==> (check.status.ValidWithWarnings? <==> check.warnings != []))
  }

  lemma FailingGivesReasons(check: Check)
    requires !Passing(check.status) ==> RowOf(check.rows, check.status) != []
    ensures !Passing(check.status) ==> CheckReasons(check) != []
  {
  }

  /** The verdict of the source check, whose file rows are never filled. */
  lemma SourceVerdict(rows: Rows<Fault>, warned: bool)
    requires rows.manifest == [] && rows.copied == [] && rows.hashes == []
    ensures var s := Verdict(rows, warned);
            && SourceStatus(s)
            && (s.BlockedSafety? <==> rows.safety != [])
            && (if Passing(s) then s.ValidWithWarnings? <==> warned else RowOf(rows, s) != [])
  {
    hide Verdict;
    VerdictUnrolled(rows, warned);
  }

  lemma SoundFrom(check: Check, rows: Rows<Fault>, warnings: seq<Warning>)
    requires check ==
             Check(Verdict(rows, warnings != []), check.parsed, rows, Dedup(Violations(check.parsed)), Dedup(warnings))
    requires rows.safety == Each(v => Breached(v), Violations(check.parsed))
    requires rows.manifest == [] && rows.copied == [] && rows.hashes == []
    ensures Sound(check)
  {
    hide Violations, Verdict, CheckReasons;
    SourceVerdict(rows, warnings != []);
    FailingGivesReasons(check);
  }

  lemma SourceIsSound(w: World, c: Collection, schema: Schema)
    ensures Sound(CheckOf(w, c, schema))
  {
    var check := CheckOf(w, c, schema);
    SoundFrom(check, check.rows, WarningsOf(w, c, schema));
  }

  /** What a build leaves in the documents, as the later check reads it. */
  ghost predicate Recorded(w: World, loaded: Loaded, files: Directory, check: Check) {
    && (forall d :: d in loaded ==> States(loaded[d], STATED)) && FlatMap(DocNotices(loaded), DOCS) == []
    && ManifestComplete(loaded) && Bijective(w, EntryMap(ManifestEntries(loaded)), files)
    && Get(DocOf(loaded, SummaryDoc), SafetySummary) == Obj(SafetySummaryOf(check))
    && Reports(DocOf(loaded, ReportDoc), check.status, CheckReasons(check))
    && ReportWarnings(DocOf(loaded, ReportDoc)) == Some(Each(x => WarningText(x), check.warnings))
  }

  lemma WrittenAreRecorded(w: World, loaded: Loaded, c: Collection, check: Check)
    requires loaded == WrittenDocs(w, c, check)
    ensures Recorded(w, loaded, c.files, check)
  {
    hide Manifest, ManifestComplete, Bijective, CheckReasons, SafetySummaryOf, ManifestEntries, States, DocNotices;
    hide Stamped;
    WrittenStamped(w, c, check);
    StampedDocuments(loaded);
    WrittenManifest(w, loaded, c);
    ReportReports(check, DocOf(loaded, ReportDoc));
    WarningsRead(check, DocOf(loaded, ReportDoc));
  }

  /** The verdict on recorded documents. */
  lemma RecordedCheck(w: World, loaded: Loaded, files: Directory, check: Check, before: Directory)
    requires Recorded(w, loaded, files, check) && Sound(check)
    ensures Verdict(RowsOn(w, loaded, before + files, []), check.warnings != []) ==
            Revalidated(check.status, StatesLive(check), !(before.Keys <= files.Keys))
  {
    hide ManifestComplete, Bijective, CheckReasons, SafetySummaryOf, States, DocNotices, RowsOn, SafetyFilled;
    hide StatesLive, Violations;
    hide Verdict, Passing;
    SafetyAfterBuild(loaded, check);
    RecordedVerdict(w, loaded, files, before, check.warnings != [], check.status, CheckReasons(check),
                    StatesLive(check));
  }

  lemma BuiltStatusIsVerdict(w: World, after: Output, loaded: Loaded, warnings: seq<string>)
    requires LoadedOf(w, after) == loaded && AllLoaded(w, after)
    requires FlatMap(DocNotices(loaded), DOCS) == []
    requires ReportWarnings(DocOf(loaded, ReportDoc)) == Some(warnings)
    ensures BuiltOf(w, after).Some?
    ensures BuiltOf(w, after).value.status == Verdict(RowsOn(w, loaded, Existing(after.artifacts), []), warnings != [])
  {
    AllLoadedExactly(w, after);
  }

  lemma RecordedThenCheck(w: World, after: Output, loaded: Loaded, files: Directory, check: Check, before: Directory)
    requires LoadedOf(w, after) == loaded && AllLoaded(w, after) && Existing(after.artifacts) == before + files
    requires Recorded(w, loaded, files, check) && Sound(check)
    ensures BuiltOf(w, after).Some?
    ensures BuiltOf(w, after).value.status == Revalidated(check.status, StatesLive(check), !(before.Keys <= files.Keys))
  {
    var warnings := Each(x => WarningText(x), check.warnings);
    BuiltStatusIsVerdict(w, after, loaded, warnings);
    RecordedCheck(w, loaded, files, check, before);
  }

  lemma WrittenThenCheck(w: World, after: Output, loaded: Loaded, c: Collection, check: Check, before: Directory)
    requires LoadedOf(w, after) == loaded && AllLoaded(w, after) && Existing(after.artifacts) == before + c.files
    requires loaded == WrittenDocs(w, c, check) && Sound(check)
    ensures BuiltOf(w, after).Some?
    ensures BuiltOf(w, after).value.status ==
            Revalidated(check.status, StatesLive(check), !(before.Keys <= c.files.Keys))
  {
    WrittenAreRecorded(w, loaded, c, check);
    RecordedThenCheck(w, after, loaded, c.files, check, before);
  }

  lemma EncodedThenCheck(w: World, out: Output, c: Collection, check: Check,
                         manifest: Object, summary: Object, report: Object)
    requires Sound(check) && ReadsBack(w, manifest) && ReadsBack(w, summary) && ReadsBack(w, report)
    requires manifest == Manifest(w, c) && summary == Summary(check) && report == Report(check)
    ensures var built := BuiltOf(w, Stored(out, c.files, Encoded(w, manifest, summary, report)));
            && built.Some?
            && built.value.status ==
              Revalidated(check.status, StatesLive(check), !(Existing(out.artifacts).Keys <= c.files.Keys))
  {
    hide Manifest, Summary, Report, Sound, BuiltOf, LoadedOf, AllLoaded, Encoded, StatesLive;
    var after := Stored(out, c.files, Encoded(w, manifest, summary, report));
    EncodedLoads(w, out, c.files, manifest, summary, report);
    WrittenThenCheck(w, after, LoadedOf(w, after), c, check, Existing(out.artifacts));
  }

  /** Checking the documents a check wrote, whatever the output directory held before. */
  lemma StoreThenCheck(w: World, out: Output, c: Collection, check: Check)
    requires BuildReadsBack(w, c, check) && Sound(check)
    ensures var built := BuiltOf(w, Stored(out, c.files, Documents(w, c, check)));
            && built.Some?
            && built.value.status ==
              Revalidated(check.status, StatesLive(check), !(Existing(out.artifacts).Keys <= c.files.Keys))
  {
    EncodedThenCheck(w, out, c, check, Manifest(w, c), Summary(check), Report(check));
  }

  /** The source payloads a build looks at. */
  function SourcePayloads(w: World, source: Directory, schema: Schema): Payloads {
    Parsed(w, CollectedFiles(source, schema))
  }

  /** The documents that building from this directory writes read back. */
  ghost predicate SourceReadsBack(w: World, source: Directory, schema: Schema) {
    var c := Collect(source, schema);
    BuildReadsBack(w, c, CheckOf(w, c, schema))
  }

  /** Checking what a build wrote: the source status, overruled by a real-execution flag anywhere or by leftover
      files. */
  lemma BuildThenCheck(w: World, out: Output, source: Directory, schema: Schema)
    requires SourceReadsBack(w, source, schema)
    ensures var c := Collect(source, schema);
            var check, built := CheckOf(w, c, schema), BuiltOf(w, BuiltOn(out, w, source, schema));
            && built.Some?
            && built.value.status ==
               Revalidated(check.status, StatesLive(check), !(Existing(out.artifacts).Keys <= c.files.Keys))
  {
    hide CheckOf, Sound, BuildReadsBack, BuiltOf;
    var c := Collect(source, schema);
    SourceIsSound(w, c, schema);
    StoreThenCheck(w, out, c, CheckOf(w, c, schema));
  }

  /** How severe a status is: failing statuses by priority, then the two passing ones. */
  function Severity(s: Status): nat {
    match s
    case Valid => 0
    case ValidWithWarnings => 1
    case RuntimeInconsistent => 2
    case DecisionsDiffer => 3
    case ProfilesDiffer => 4
    case HashesDiffer => 5
    case MissingCopies => 6
    case MissingEntries => 7
    case MissingArtifacts => 8
    case BadJson => 9
    case BlockedSafety => 10
  }

  lemma RevalidationIsNotMoreLenient(s: Status, live: bool, stale: bool)
    requires SourceStatus(s)
    ensures Severity(s) <= Severity(Revalidated(s, live, stale))
  {
  }

  /** The source check blocks exactly on payloads that cross the boundary. */
  lemma SourceBlocksExactly(w: World, c: Collection, schema: Schema)
    ensures CheckOf(w, c, schema).status.BlockedSafety? <==> !SourceSafe(Parsed(w, c.files))
  {
    hide Violations, SourceSafe, InvalidOf, WarningsOf;
    SourceIsSound(w, c, schema);
    NoViolationExactlySafe(Parsed(w, c.files));
  }

  /** In a fresh directory the two checks agree exactly when the payloads cross the boundary already at the source or
      none states `real_execution_allowed` true; otherwise the later check blocks. It is never more lenient. */
  lemma FreshRoundTrip(w: World, source: Directory, schema: Schema)
    requires SourceReadsBack(w, source, schema)
    ensures var check := CheckOf(w, Collect(source, schema), schema);
            var built := BuiltOf(w, BuiltOn(Output(map[], None), w, source, schema));
            var parsed := SourcePayloads(w, source, schema);
            && built.Some?
            && (built.value.status == check.status <==> !SourceSafe(parsed) || !Anywhere(parsed, RealExecutionAllowed))
            && (built.value.status != check.status ==> built.value.status.BlockedSafety?)
  {
    hide SourceSafe, SourceReadsBack, BuiltOf, BuiltOn;
    SourceBlocksExactly(w, Collect(source, schema), schema);
    BuildThenCheck(w, Output(map[], None), source, schema);
  }

  lemma StoredNotMoreLenient(w: World, out: Output, c: Collection, check: Check)
    requires BuildReadsBack(w, c, check) && Sound(check)
    ensures var built := BuiltOf(w, Stored(out, c.files, Documents(w, c, check)));
            built.Some? && Severity(check.status) <= Severity(built.value.status)
  {
    StoreThenCheck(w, out, c, check);
    RevalidationIsNotMoreLenient(check.status, StatesLive(check), !(Existing(out.artifacts).Keys <= c.files.Keys));
  }

  /** Whatever the output directory held before, the later check is never more lenient than the source check. */
  lemma NeverMoreLenient(w: World, out: Output, source: Directory, schema: Schema)
    requires SourceReadsBack(w, source, schema)
    ensures var c := Collect(source, schema);
            var check, built := CheckOf(w, c, schema), BuiltOf(w, BuiltOn(out, w, source, schema));
            built.Some? && Severity(check.status) <= Severity(built.value.status)
  {
    var c := Collect(source, schema);
    SourceIsSound(w, c, schema);
    StoredNotMoreLenient(w, out, c, CheckOf(w, c, schema));
  }

  /** Unless the source was blocked, a real-execution flag can only stand outside the two policy files. */
  lemma LiveOutsidePolicyFiles(parsed: Payloads)
    requires SourceSafe(parsed)
    ensures Anywhere(parsed, RealExecutionAllowed) <==>
            exists name :: name in parsed && name != POLICY_REPORT_FILE && name != POLICY_DECISION_FILE
                           && StatesTrue(parsed[name], RealExecutionAllowed)
  {
    if Anywhere(parsed, RealExecutionAllowed) {
      var name :| name in parsed && StatesTrue(parsed[name], RealExecutionAllowed);
      assert name != POLICY_REPORT_FILE && name != POLICY_DECISION_FILE;
    }
  }

  // ---- an input on which the two checks differ ----

  const LIVE: Object := map[RealExecutionAllowed := Bool(true)]

  /** The four required payloads, empty but for a runtime report that states `real_execution_allowed` true. */
  const LIVE_PAYLOADS: Payloads :=
    map[PLAN_FILE := map[], RUNTIME_REPORT_FILE := LIVE, POLICY_REPORT_FILE := map[], POLICY_DECISION_FILE := map[]]

  function Encodings(w: World, payloads: Payloads): Directory {
    map name | name in payloads :: w.encode(Obj(payloads[name]))
  }

  lemma RequiredNamesDiffer()
    ensures |PLAN_FILE| == 17 && |RUNTIME_REPORT_FILE| == 19 && |POLICY_REPORT_FILE| == 18
            && |POLICY_DECISION_FILE| == 20
  {
  }

  lemma RequiredNamesAreJson(name: string)
    requires name in LIVE_PAYLOADS
    ensures IsJsonName(name) && !Hidden(name) && name in STANDARD.recognised
  {
  }

  lemma RequiredNamesArePresent(name: string)
    requires name in STANDARD.required
    ensures name in LIVE_PAYLOADS
  {
  }

  /** The encoded payloads are all collected and read. */
  lemma EncodingsRead(w: World, payloads: Payloads, schema: Schema)
    requires forall name :: name in payloads ==> IsJsonName(name) && !Hidden(name) && name in schema.recognised
    requires forall name :: name in payloads ==> ReadsBack(w, payloads[name])
    requires forall name :: name in payloads ==> |w.encode(Obj(payloads[name]))| <= schema.maxSize
    ensures CollectedFiles(Encodings(w, payloads), schema) == Encodings(w, payloads)
    ensures SourcePayloads(w, Encodings(w, payloads), schema) == payloads
    ensures InvalidOf(w, Collect(Encodings(w, payloads), schema), schema) == []
  {
    hide IsJsonName, Hidden;
    var files := Encodings(w, payloads);
    assert CollectedFiles(files, schema) == files;
    forall name | name in files ensures Read(w, name, files[name]) == Payload(payloads[name]) {}
    FlatMapEmptyExactly(InvalidRequired(w, files, schema), Sorted(files.Keys));
  }

  lemma LivePayloadsAreConsistent()
    ensures SourceSafe(LIVE_PAYLOADS) && Anywhere(LIVE_PAYLOADS, RealExecutionAllowed)
    ensures SameProfile(ProfileEntries(LIVE_PAYLOADS))
    ensures !PolicyMismatch(LIVE_PAYLOADS) && !RuntimeInconsistency(LIVE_PAYLOADS)
  {
    hide PLAN_FILE, RUNTIME_REPORT_FILE, POLICY_REPORT_FILE, POLICY_DECISION_FILE, ForbiddenPolicy;
    RequiredNamesDiffer();
    assert StatesTrue(LIVE_PAYLOADS[RUNTIME_REPORT_FILE], RealExecutionAllowed);
    forall name | name in LIVE_PAYLOADS
      ensures WithinClaims(LIVE_PAYLOADS[name]) && ProfileIdOf(LIVE_PAYLOADS[name]) == None {}
  }

  lemma EveryPayloadIsOneOf(name: string)
    requires name in LIVE_PAYLOADS
    ensures LIVE_PAYLOADS[name] == LIVE || LIVE_PAYLOADS[name] == map[]
  {
    hide PLAN_FILE, RUNTIME_REPORT_FILE, POLICY_REPORT_FILE, POLICY_DECISION_FILE;
  }

  lemma NothingMissing(files: Directory)
    requires LIVE_PAYLOADS.Keys <= files.Keys
    ensures FlatMap(MissingFrom(files), STANDARD.required) == []
  {
    hide STANDARD, LIVE_PAYLOADS;
    FlatMapEmptyExactly(MissingFrom(files), STANDARD.required);
    forall name | name in STANDARD.required ensures name in files {
      RequiredNamesArePresent(name);
    }
  }

  /** An input on which the two checks differ: all that is required is present, readable and consistent, and a runtime
      report states `real_execution_allowed` true. The source check passes, the check of the bundle built from it
      blocks. */
  lemma ChecksCanDiffer(w: World, source: Directory)
    requires source == Encodings(w, LIVE_PAYLOADS) && SourceReadsBack(w, source, STANDARD)
    requires ReadsBack(w, LIVE) && ReadsBack(w, map[])
    requires |w.encode(Obj(LIVE))| <= STANDARD.maxSize && |w.encode(Obj(map[]))| <= STANDARD.maxSize
    ensures var check := CheckOf(w, Collect(source, STANDARD), STANDARD);
            var built := BuiltOf(w, BuiltOn(Output(map[], None), w, source, STANDARD));
            built.Some? && Passing(check.status) && built.value.status.BlockedSafety?
  {
    hide STANDARD, LIVE_PAYLOADS, SourceSafe, SourceReadsBack, BuiltOf, BuiltOn, CheckOf, IsJsonName, Hidden, Anywhere;
    hide SameProfile, ProfileEntries, PolicyMismatch, RuntimeInconsistency, SelectionsDiffer, BlockedYetAllowed;
    forall name | name in LIVE_PAYLOADS ensures IsJsonName(name) && !Hidden(name) && name in STANDARD.recognised {
      RequiredNamesAreJson(name);
    }
    forall name | name in LIVE_PAYLOADS ensures LIVE_PAYLOADS[name] == LIVE || LIVE_PAYLOADS[name] == map[] {
      EveryPayloadIsOneOf(name);
    }
    EncodingsRead(w, LIVE_PAYLOADS, STANDARD);
    LivePayloadsAreConsistent();
    SelectionsDifferExactly(LIVE_PAYLOADS);
    BlockedYetAllowedExactly(LIVE_PAYLOADS);
    var c := Collect(source, STANDARD);
    NothingMissing(c.files);
    SourcePassesExactlyWhenConsistent(w, c, STANDARD);
    FreshRoundTrip(w, source, STANDARD);
  }

  // ---- what the documents of a build say ----

  /** The report gives its warnings twice: without the first field the second one reads the same. */
  lemma WarningsAreGivenTwice(check: Check)
    ensures var texts := Each(x => WarningText(x), check.warnings);
      && ReportWarnings(Report(check)) == Some(texts)
      && ReportWarnings(Report(check) - {EvidenceWarningReasons}) == Some(texts)
  {
    hide StatusText, CheckReasons, WarningText;
    var texts := Each(x => WarningText(x), check.warnings);
    StringItemsOfStrList(texts);
  }

  /** The report says it passed exactly when its status is one of the two passing ones. */
  lemma ReportSaysPassed(check: Check)
    ensures Get(Report(check), EvidenceValidationPassed) == Bool(true) <==>
            check.status == Valid || check.status == ValidWithWarnings
    ensures Get(Report(check), EvidenceValidationPassed).Bool?
    ensures Get(Report(check), EvidenceValidationStatus) == Str(StatusText(check.status))
  {
    hide StatusText, CheckReasons, WarningText;
  }

  /** The flags of the safety summary: some payload enables hardware control, some payload allows real execution, a
      policy
      file allows hardware control; and no reported violation is about the claim. */
  lemma SummaryIsExact(check: Check)
    ensures var s := SafetySummaryOf(check);
      && (Get(s, HardwareControlEnabledAnywhere) == Bool(true) <==>
          exists name :: name in check.parsed && Get(check.parsed[name], HardwareControlEnabled) == Bool(true))
      && (Get(s, RealExecutionAllowedAnywhere) == Bool(true) <==>
          exists name :: name in check.parsed && Get(check.parsed[name], RealExecutionAllowed) == Bool(true))
      && (Get(s, PolicyAllowsHardwareControl) == Bool(true) <==>
          exists name :: name in check.parsed && (name == POLICY_REPORT_FILE || name == POLICY_DECISION_FILE)
                         && Get(check.parsed[name], HardwareControlAllowed) == Bool(true))
      && (Get(s, ClaimBoundaryConsistent) == Bool(true) <==>
          forall v :: v in check.violations ==> !v.breach.WrongClaim?)
  {
    hide POLICY_REPORT_FILE, POLICY_DECISION_FILE, ViolationText, EndsWith;
    forall v ensures EndsWith(ViolationText(v), ".claim_boundary") <==> v.breach.WrongClaim? { ClaimTextEnds(v); }
    if forall v :: v in check.violations ==> !v.breach.WrongClaim? {
      forall k | 0 <= k < |check.violations| ensures !EndsWith(ViolationText(check.violations[k]), ".claim_boundary") {
        assert check.violations[k] in check.violations;
      }
    }
  }
}
