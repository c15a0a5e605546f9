/** What the check of a built bundle says, over the bytes of its documents and its artifact files: the status, the
    reasons
    and the warnings. */
module BuiltStatusTheorems {
  import opened Base
  import opened JsonValues
  import opened EvidenceSource
  import opened EvidenceCheck
  import opened EvidenceBundle
  import opened EvidenceBuilt
  import opened EvidenceTheorems

  // ---- documents ----

  /** The document is there and its bytes decode to this object. */
  ghost predicate Reads(w: World, out: Output, d: Doc, p: Object) {
    d in out.docs && w.parse(out.docs[d]) == Some(Obj(p))
  }

  ghost predicate IsRead(w: World, out: Output, d: Doc) {
    exists p :: Reads(w, out, d, p)
  }

  lemma ReadsExactly(w: World, out: Output, d: Doc)
    ensures forall p :: Reads(w, out, d, p) <==> d in LoadedOf(w, out) && LoadedOf(w, out)[d] == p
    ensures IsRead(w, out, d) <==> d in LoadedOf(w, out)
    ensures IsRead(w, out, d) <==> Loads(w, out, d)
  {
    if Loads(w, out, d) {
      assert Reads(w, out, d, LoadedOf(w, out)[d]);
    }
  }

  /** Simulation only, no hardware control, and the agreed claim. */
  ghost predicate ClaimsRight(p: Object) {
    && Get(p, SimulationOnly) == Bool(true) && Get(p, HardwareControlEnabled) == Bool(false)
    && Get(p, ClaimBoundary) == Str("simulation_only_not_certified")
  }

  ghost predicate SummaryRight(s: Object) {
    && Get(s, HardwareControlEnabledAnywhere) == Bool(false) && Get(s, RealExecutionAllowedAnywhere) == Bool(false)
    && Get(s, PolicyAllowsHardwareControl) == Bool(false) && Get(s, ClaimBoundaryConsistent) == Bool(true)
  }

  /** A document that is read claims something else, or no summary document states a right safety summary. */
  ghost predicate ClaimsWrong(w: World, out: Output) {
    || (exists d, p :: Reads(w, out, d, p) && !ClaimsRight(p))
    || !SummaryHolds(w, out)
  }

  lemma StatedExactly(p: Object)
    ensures States(p, STATED) <==> ClaimsRight(p)
  {
    assert STATED[0] == (SimulationOnly, Bool(true)) && STATED[1] == (HardwareControlEnabled, Bool(false));
    assert STATED[2] == (ClaimBoundary, Str(CLAIM_BOUNDARY)) && |STATED| == 3;
  }

  lemma SummarisedExactly(s: Object)
    ensures States(s, SUMMARISED) <==> SummaryRight(s)
  {
    assert SUMMARISED[0] == (HardwareControlEnabledAnywhere, Bool(false)) && |SUMMARISED| == 4;
    assert SUMMARISED[1] == (RealExecutionAllowedAnywhere, Bool(false));
    assert SUMMARISED[2] == (PolicyAllowsHardwareControl, Bool(false));
    assert SUMMARISED[3] == (ClaimBoundaryConsistent, Bool(true));
  }

  /** The summary document states a right safety summary. */
  ghost predicate SummaryHolds(w: World, out: Output) {
    exists p, s :: (Reads(w, out, SummaryDoc, p) && Get(p, SafetySummary) == Obj(s) && SummaryRight(s))
  }

  lemma SummaryHoldsExactly(w: World, out: Output)
    ensures SummaryClean(LoadedOf(w, out)) <==> SummaryHolds(w, out)
  {
    hide States, SUMMARISED, SummaryRight, LoadedOf, Reads, IsRead, Loads;
    var loaded := LoadedOf(w, out);
    ReadsExactly(w, out, SummaryDoc);
    var summary := Get(DocOf(loaded, SummaryDoc), SafetySummary);
    if summary.Obj? {
      SummarisedExactly(summary.fields);
      assert SummaryDoc in loaded && Reads(w, out, SummaryDoc, loaded[SummaryDoc]);
    }
  }

  lemma EveryClaimRight(w: World, out: Output)
    ensures (forall d :: d in LoadedOf(w, out) ==> States(LoadedOf(w, out)[d], STATED)) <==>
            forall d, p :: Reads(w, out, d, p) ==> ClaimsRight(p)
  {
    hide States, STATED, ClaimsRight, LoadedOf, Reads, IsRead, Loads;
    var loaded := LoadedOf(w, out);
    forall d, p ensures Reads(w, out, d, p) <==> d in loaded && loaded[d] == p { ReadsExactly(w, out, d); }
    forall d | d in loaded
      ensures Reads(w, out, d, loaded[d]) && (States(loaded[d], STATED) <==> ClaimsRight(loaded[d])) {
      StatedExactly(loaded[d]);
    }
    if forall d, p :: Reads(w, out, d, p) ==> ClaimsRight(p) {
      forall d | d in loaded ensures States(loaded[d], STATED) { assert Reads(w, out, d, loaded[d]); }
    } else {
      var d, p :| Reads(w, out, d, p) && !ClaimsRight(p);
      assert d in loaded && !States(loaded[d], STATED);
    }
  }

  lemma ClaimsExactly(w: World, out: Output)
    ensures ClaimsExact(LoadedOf(w, out)) <==> !ClaimsWrong(w, out)
  {
    hide States, STATED, SummaryClean, SummaryHolds, ClaimsRight, LoadedOf, Reads, IsRead, Loads;
    EveryClaimRight(w, out);
    SummaryHoldsExactly(w, out);
  }

  // ---- what the report says ----

  /** The report gives this reason under this status. */
  ghost predicate Reported(w: World, out: Output, status: string, reason: string) {
    exists report, reasons :: (Reads(w, out, ReportDoc, report) && Get(report, EvidenceValidationStatus) == Str(status)
                               && Get(report, EvidenceValidationReasons) == List(reasons) && Str(reason) in reasons)
  }

  ghost predicate SomethingReported(w: World, out: Output, status: string) {
    exists reason :: Reported(w, out, status, reason)
  }

  lemma CarriedIsReported(w: World, out: Output, s: Status)
    ensures forall reason :: reason in Carried(DocOf(LoadedOf(w, out), ReportDoc), s)
                             <==> Reported(w, out, StatusText(s), reason)
    ensures Carried(DocOf(LoadedOf(w, out), ReportDoc), s) != [] <==> SomethingReported(w, out, StatusText(s))
  {
    hide StatusText, LoadedOf, Reads, IsRead, Loads;
    var loaded := LoadedOf(w, out);
    ReadsExactly(w, out, ReportDoc);
    var report := DocOf(loaded, ReportDoc);
    var reasons := GetOr(report, EvidenceValidationReasons, List([]));
    if reasons.List? { StringItemsExactly(reasons.items); }
    forall reason ensures reason in Carried(report, s) <==> Reported(w, out, StatusText(s), reason) {
      if reason in Carried(report, s) {
        assert ReportDoc in loaded;
        assert Reads(w, out, ReportDoc, loaded[ReportDoc]);
      }
    }
    if Carried(report, s) != [] { assert Reported(w, out, StatusText(s), Carried(report, s)[0]); }
  }

  /** A safety violation is carried over: a reason under the blocked status that names one. */
  ghost predicate SafetyReported(w: World, out: Output) {
    exists reason :: (Reported(w, out, "blocked_safety_boundary", reason) && "safety_boundary_violation:" <= reason)
  }

  lemma SafetyReportedExactly(w: World, out: Output)
    ensures FlatMap(Stripped(SAFETY_PREFIX), Carried(DocOf(LoadedOf(w, out), ReportDoc), BlockedSafety)) != []
            <==> SafetyReported(w, out)
  {
    hide LoadedOf, Reported, Carried, DocOf;
    var carried := Carried(DocOf(LoadedOf(w, out), ReportDoc), BlockedSafety);
    CarriedIsReported(w, out, BlockedSafety);
    FlatMapEmptyExactly(Stripped(SAFETY_PREFIX), carried);
    forall reason ensures Stripped(SAFETY_PREFIX)(reason) != [] <==> "safety_boundary_violation:" <= reason {}
  }

  // ---- manifest entries and files ----

  predicate Names(j: Json, name: string) {
    j.Obj? && Get(j.fields, ArtifactName) == Str(name)
  }

  /** The last item that names the artifact. */
  ghost predicate LastNaming(items: seq<Json>, name: string, e: Object) {
    exists i :: (0 <= i < |items| && items[i] == Obj(e) && Names(items[i], name)
                 && forall j :: i < j < |items| ==> !Names(items[j], name))
  }

  lemma {:induction false} LastNamingExactly(items: seq<Json>, name: string, e: Object)
    ensures LastNaming(items, name, e) <==> name in EntryMap(items) && EntryMap(items)[name] == e
  {
    if items != [] {
      var n := |items| - 1;
      LastNamingExactly(items[..n], name, e);
      if Names(items[n], name) {
        assert LastNaming(items, name, e) <==> items[n] == Obj(e);
      } else {
        LastNamingBefore(items, name, e);
      }
    }
  }

  lemma LastNamingBefore(items: seq<Json>, name: string, e: Object)
    requires items != [] && !Names(items[|items| - 1], name)
    ensures LastNaming(items, name, e) <==> LastNaming(items[..|items| - 1], name, e)
  {
    var front := items[..|items| - 1];
    if LastNaming(items, name, e) {
      var i :| 0 <= i < |items| && items[i] == Obj(e) && Names(items[i], name)
               && forall j :: i < j < |items| ==> !Names(items[j], name);
      assert front[i] == Obj(e) && forall j :: i < j < |front| ==> !Names(front[j], name);
    }
    if LastNaming(front, name, e) {
      var i :| 0 <= i < |front| && front[i] == Obj(e) && Names(front[i], name)
               && forall j :: i < j < |front| ==> !Names(front[j], name);
      assert items[i] == Obj(e) && forall j :: i < j < |items| ==> !Names(items[j], name);
    }
  }

  /** The manifest lists these items. */
  ghost predicate ItemsAre(w: World, out: Output, items: seq<Json>) {
    exists p :: (Reads(w, out, ManifestDoc, p) && Get(p, Artifacts) == List(items))
  }

  ghost predicate Entry(w: World, out: Output, name: string, e: Object) {
    exists items :: (ItemsAre(w, out, items) && LastNaming(items, name, e))
  }

  ghost predicate HasEntry(w: World, out: Output, name: string) {
    exists e :: Entry(w, out, name, e)
  }

  predicate HasFile(out: Output, name: string) {
    out.artifacts.Some? && name in out.artifacts.value
  }

  lemma ItemsExactly(w: World, out: Output, items: seq<Json>)
    ensures var loaded := LoadedOf(w, out);
            ItemsAre(w, out, items) <==> Listed(loaded) && ManifestEntries(loaded) == items
  {
    hide LoadedOf, Reads, IsRead, Loads;
    var loaded := LoadedOf(w, out);
    ReadsExactly(w, out, ManifestDoc);
    if Listed(loaded) {
      assert ManifestDoc in loaded && Reads(w, out, ManifestDoc, loaded[ManifestDoc]);
    }
  }

  lemma EntryExactly(w: World, out: Output, name: string, e: Object)
    ensures var entries := EntryMap(ManifestEntries(LoadedOf(w, out)));
            Entry(w, out, name, e) <==> name in entries && entries[name] == e
  {
    hide LoadedOf, ItemsAre, LastNaming;
    var items := ManifestEntries(LoadedOf(w, out));
    forall x ensures ItemsAre(w, out, x) <==> Listed(LoadedOf(w, out)) && items == x { ItemsExactly(w, out, x); }
    LastNamingExactly(items, name, e);
  }

  lemma HasEntryExactly(w: World, out: Output, name: string)
    ensures HasEntry(w, out, name) <==> name in EntryMap(ManifestEntries(LoadedOf(w, out)))
  {
    hide LoadedOf, Entry, EntryMap, ManifestEntries;
    var entries := EntryMap(ManifestEntries(LoadedOf(w, out)));
    forall e ensures Entry(w, out, name, e) <==>
      name in entries && entries[name] == e { EntryExactly(w, out, name, e); }
    if name in entries { assert Entry(w, out, name, entries[name]); }
  }

  /** A file no entry names. */
  ghost predicate IsUnlisted(w: World, out: Output, name: string) {
    HasFile(out, name) && !HasEntry(w, out, name)
  }

  /** An entry whose file is not there. */
  ghost predicate IsUncopied(w: World, out: Output, name: string) {
    HasEntry(w, out, name) && !HasFile(out, name)
  }

  /** An entry whose file is there with another digest or size. */
  ghost predicate IsAltered(w: World, out: Output, name: string) {
    && HasFile(out, name)
    && exists e :: (Entry(w, out, name, e)
                    && (Get(e, Sha256) != Str(w.hash(out.artifacts.value[name]))
                        || Get(e, SizeBytes) != Int(|out.artifacts.value[name]|)))
  }

  lemma UnlistedAre(entries: map<string, Object>, files: Directory, name: string)
    ensures name in FlatMap(UnlistedIn(entries), Sorted(files.Keys)) <==> name in files && name !in entries
  {
    FlatMapContains(UnlistedIn(entries), Sorted(files.Keys));
    if name in files && name !in entries {
      assert name in Sorted(files.Keys) && name in UnlistedIn(entries)(name);
    }
  }

  lemma UncopiedAre(names: seq<string>, files: Directory, name: string)
    ensures name in FlatMap(NotCopied(files), names) <==> name in names && name !in files
  {
    FlatMapContains(NotCopied(files), names);
    if name in names && name !in files { assert name in NotCopied(files)(name); }
  }

  lemma UnmatchedAre(w: World, entries: map<string, Object>, names: seq<string>, files: Directory, name: string)
    ensures name in FlatMap(NotMatching(w, entries, files), names) <==>
            name in names && name in files && name in entries && !Describes(w, entries[name], files[name])
  {
    hide Describes;
    FlatMapContains(NotMatching(w, entries, files), names);
    if name in names && name in files && name in entries && !Describes(w, entries[name], files[name]) {
      assert name in NotMatching(w, entries, files)(name);
    }
  }

  function EntriesOn(w: World, out: Output): map<string, Object> {
    EntryMap(ManifestEntries(LoadedOf(w, out)))
  }

  function NamesOn(w: World, out: Output): seq<string> {
    EntryNames(ManifestEntries(LoadedOf(w, out)))
  }

  lemma UnlistedFilesExactly(w: World, out: Output, name: string)
    ensures name in FlatMap(UnlistedIn(EntriesOn(w, out)), Sorted(Existing(out.artifacts).Keys))
            <==> IsUnlisted(w, out, name)
  {
    hide LoadedOf, EntryMap, ManifestEntries, HasEntry, FlatMap;
    HasEntryExactly(w, out, name);
    UnlistedAre(EntriesOn(w, out), Existing(out.artifacts), name);
  }

  lemma UncopiedExactlyAre(w: World, out: Output, name: string)
    ensures name in FlatMap(NotCopied(Existing(out.artifacts)), NamesOn(w, out)) <==> IsUncopied(w, out, name)
  {
    hide LoadedOf, EntryMap, ManifestEntries, HasEntry, FlatMap;
    HasEntryExactly(w, out, name);
    UncopiedAre(NamesOn(w, out), Existing(out.artifacts), name);
  }

  lemma AlteredExactly(w: World, out: Output, name: string)
    ensures name in FlatMap(NotMatching(w, EntriesOn(w, out), Existing(out.artifacts)), NamesOn(w, out))
            <==> IsAltered(w, out, name)
  {
    hide LoadedOf, EntryMap, ManifestEntries, FlatMap, Entry;
    var entries := EntriesOn(w, out);
    UnmatchedAre(w, entries, NamesOn(w, out), Existing(out.artifacts), name);
    forall e ensures Entry(w, out, name, e) <==>
      name in entries && entries[name] == e { EntryExactly(w, out, name, e); }
    if name in entries { assert Entry(w, out, name, entries[name]); }
  }

  // ---- the manifest row ----

  /** The document states a bundle id. */
  ghost predicate HasBundleId(w: World, out: Output, d: Doc) {
    exists p, id :: (Reads(w, out, d, p) && Get(p, BundleId) == Str(id))
  }

  /** The manifest lists its items and counts them wrong. */
  ghost predicate Miscounted(w: World, out: Output) {
    exists p, items :: (Reads(w, out, ManifestDoc, p) && Get(p, Artifacts) == List(items)
                        && !PyEq(Get(p, ArtifactCount), Int(|items|)))
  }

  lemma CountOfIntegers(a: int, n: nat)
    ensures PyEq(Int(a), Int(n)) <==> a == n
  {
  }

  lemma HasBundleIdExactly(w: World, out: Output, d: Doc)
    ensures HasBundleId(w, out, d) <==> Get(DocOf(LoadedOf(w, out), d), BundleId).Str?
  {
    hide LoadedOf, Reads, IsRead, Loads;
    var loaded := LoadedOf(w, out);
    ReadsExactly(w, out, d);
    if Get(DocOf(loaded, d), BundleId).Str? {
      assert d in loaded && Reads(w, out, d, loaded[d]);
      assert Get(loaded[d], BundleId) == Str(Get(loaded[d], BundleId).s);
    }
  }

  lemma MiscountedExactly(w: World, out: Output)
    ensures Miscounted(w, out) <==> CountWrong(LoadedOf(w, out))
  {
    hide LoadedOf, Reads, IsRead, Loads, PyEq;
    var loaded := LoadedOf(w, out);
    ReadsExactly(w, out, ManifestDoc);
    if Listed(loaded) {
      assert ManifestDoc in loaded && Reads(w, out, ManifestDoc, loaded[ManifestDoc]);
    }
  }

  lemma EachContains<A(!new), B>(f: A -> B, s: seq<A>)
    ensures forall y :: y in Each(f, s) <==> exists x :: x in s && y == f(x)
  {
    forall y ensures y in Each(f, s) <==> exists x :: x in s && y == f(x) {
      if x :| x in s && y == f(x) {
        var i :| 0 <= i < |s| && s[i] == x;
        assert Each(f, s)[i] == y;
      }
    }
  }

  /** The manifest gives no list of items. */
  ghost predicate NoItems(w: World, out: Output) {
    !exists items :: ItemsAre(w, out, items)
  }

  lemma NoItemsExactly(w: World, out: Output)
    ensures NoItems(w, out) <==> !Listed(LoadedOf(w, out))
  {
    hide LoadedOf, ItemsAre;
    var loaded := LoadedOf(w, out);
    ItemsExactly(w, out, ManifestEntries(loaded));
    forall items ensures ItemsAre(w, out, items) ==> Listed(loaded) { ItemsExactly(w, out, items); }
  }

  /** The gap stands for something wrong with the manifest. */
  ghost predicate GapHolds(w: World, out: Output, g: Gap) {
    match g
    case NoArtifactList => NoItems(w, out)
    case Unlisted(name) => IsUnlisted(w, out, name)
    case NoBundleId(d) => (d.ManifestDoc? || d.SummaryDoc?) && !HasBundleId(w, out, d)
    case CountDiffers => Miscounted(w, out)
  }

  lemma UnidentifiedExactly(w: World, out: Output, g: Gap)
    ensures g in FlatMap(Unidentified(LoadedOf(w, out)), IDENTIFIED) <==> g.NoBundleId? && GapHolds(w, out, g)
  {
    hide LoadedOf, HasBundleId, DocOf;
    FlatMapPair(Unidentified(LoadedOf(w, out)), ManifestDoc, SummaryDoc);
    assert IDENTIFIED == [ManifestDoc, SummaryDoc];
    HasBundleIdExactly(w, out, ManifestDoc);
    HasBundleIdExactly(w, out, SummaryDoc);
  }

  lemma GapsHold(w: World, out: Output, g: Gap)
    ensures g in Gaps(LoadedOf(w, out), Existing(out.artifacts)) <==> GapHolds(w, out, g)
  {
    hide LoadedOf, EntryMap, ManifestEntries, FlatMap, IsUnlisted, HasBundleId, Miscounted, CountWrong, NoItems, Listed;
    hide Each, UnlistedIn, Unidentified, IDENTIFIED;
    var loaded, files := LoadedOf(w, out), Existing(out.artifacts);
    var unlisted := FlatMap(UnlistedIn(EntriesOn(w, out)), Sorted(files.Keys));
    var named := Each(n => Unlisted(n), unlisted);
    EachContains(n => Unlisted(n), unlisted);
    NoItemsExactly(w, out);
    MiscountedExactly(w, out);
    UnidentifiedExactly(w, out, g);
    if g.Unlisted? { UnlistedFilesExactly(w, out, g.name); }
    var other := Each(n => Unlisted(n), FlatMap(UnlistedIn(EntryMap(ManifestEntries(loaded))), Sorted(files.Keys)));
    assert g in Gaps(loaded, files) <==>
           (g.NoArtifactList? && !Listed(loaded)) || g in other || g in FlatMap(Unidentified(loaded), IDENTIFIED)
           || (g.CountDiffers? && CountWrong(loaded));
  }

  /** What the manifest row blames, by its text. */
  ghost predicate IsGap(w: World, out: Output, text: string) {
    exists g :: GapText(g) == text && GapHolds(w, out, g)
  }

  lemma ListTextsAre()
    ensures GapText(NoArtifactList) == "evidence_manifest.json.artifacts"
    ensures GapText(CountDiffers) == "evidence_manifest.json.artifact_count"
    ensures forall name :: GapText(Unlisted(name)) == name
  {
  }

  lemma IdTextsAre()
    ensures GapText(NoBundleId(ManifestDoc)) == "evidence_manifest.json.bundle_id"
    ensures GapText(NoBundleId(SummaryDoc)) == "evidence_bundle.json.bundle_id"
  {
  }

  lemma IsGapByText(w: World, out: Output, text: string)
    ensures IsGap(w, out, text) <==>
            || IsUnlisted(w, out, text)
            || (text == "evidence_manifest.json.artifacts" && NoItems(w, out))
            || (text == "evidence_manifest.json.bundle_id" && !HasBundleId(w, out, ManifestDoc))
            || (text == "evidence_bundle.json.bundle_id" && !HasBundleId(w, out, SummaryDoc))
            || (text == "evidence_manifest.json.artifact_count" && Miscounted(w, out))
  {
    hide GapText, IsUnlisted, NoItems, HasBundleId, Miscounted;
    ListTextsAre();
    IdTextsAre();
    assert GapText(Unlisted(text)) == text;
    if g: Gap :| GapText(g) == text && GapHolds(w, out, g) {
      match g {
        case NoArtifactList => case Unlisted(name) => case NoBundleId(d) => assert d.ManifestDoc? || d.SummaryDoc?;
        case CountDiffers =>
      }
    }
  }

  /** Something is wrong with the manifest. */
  ghost predicate ManifestWrong(w: World, out: Output) {
    || NoItems(w, out) || !HasBundleId(w, out, ManifestDoc) || !HasBundleId(w, out, SummaryDoc) || Miscounted(w, out)
    || exists name :: IsUnlisted(w, out, name)
  }

  lemma NonEmptyExactly<T(!new)>(s: seq<T>)
    ensures s != [] <==> exists x :: x in s
  {
    if s != [] { assert s[0] in s; }
  }

  lemma PrefixedRow(prefix: string, row: seq<string>, texts: seq<string>)
    requires |row| == |texts| && forall i :: 0 <= i < |row| ==> row[i] == prefix + texts[i]
    ensures row != [] <==> exists text :: text in texts
    ensures forall r :: r in row <==> exists text :: text in texts && r == prefix + text
  {
    NonEmptyExactly(texts);
    forall r ensures r in row <==> exists text :: text in texts && r == prefix + text {
      if text :| text in texts && r == prefix + text {
        var i :| 0 <= i < |texts| && texts[i] == text;
        assert row[i] == r;
      }
    }
  }

  lemma SomeGapExactly(w: World, out: Output)
    ensures ManifestWrong(w, out) <==> exists text :: IsGap(w, out, text)
  {
    hide IsUnlisted, NoItems, HasBundleId, Miscounted, IsGap;
    IsGapByText(w, out, "evidence_manifest.json.artifacts");
    IsGapByText(w, out, "evidence_manifest.json.bundle_id");
    IsGapByText(w, out, "evidence_bundle.json.bundle_id");
    IsGapByText(w, out, "evidence_manifest.json.artifact_count");
    forall text ensures (IsUnlisted(w, out, text) ==> IsGap(w, out, text))
                        && (IsGap(w, out, text) ==> ManifestWrong(w, out)) { IsGapByText(w, out, text); }
  }

  lemma GapTextsExactly(w: World, out: Output, text: string)
    ensures text in Dedup(Each(g => GapText(g), Gaps(LoadedOf(w, out), Existing(out.artifacts))))
            <==> IsGap(w, out, text)
  {
    hide LoadedOf, Gaps, GapHolds, Each, GapText;
    var gaps := Gaps(LoadedOf(w, out), Existing(out.artifacts));
    forall g ensures g in gaps <==> GapHolds(w, out, g) { GapsHold(w, out, g); }
    EachContains(g => GapText(g), gaps);
  }

  /** The manifest row fails exactly when something is wrong with the manifest, and names what. */
  lemma ManifestRowIsExact(w: World, out: Output)
    ensures var row := BuiltRows(w, out).manifest;
      && (row != [] <==> ManifestWrong(w, out))
      && forall r :: r in row <==> exists text :: IsGap(w, out, text) && r == "missing_manifest_entry:" + text
  {
    hide LoadedOf, Gaps, IsGap, ManifestWrong, GapText, Carried, SafetyRow, JsonRow, CopyRow, HashRow;
    var texts := Dedup(Each(g => GapText(g), Gaps(LoadedOf(w, out), Existing(out.artifacts))));
    forall text ensures text in texts <==> IsGap(w, out, text) { GapTextsExactly(w, out, text); }
    PrefixedRow("missing_manifest_entry:", BuiltRows(w, out).manifest, texts);
    SomeGapExactly(w, out);
  }

  ghost predicate SomethingUncopied(w: World, out: Output) {
    exists name :: IsUncopied(w, out, name)
  }

  ghost predicate SomethingAltered(w: World, out: Output) {
    exists name :: IsAltered(w, out, name)
  }

  /** The copy row fails exactly when some entry has no file, and the hash row exactly when some file differs from its
      entry in digest or size; both name them. */
  lemma FileRowsAreExact(w: World, out: Output)
    ensures var rows := BuiltRows(w, out);
      && (rows.copied != [] <==> SomethingUncopied(w, out))
      && (forall r :: r in rows.copied <==>
                      exists name :: IsUncopied(w, out, name) && r == "missing_copied_artifact:" + name)
      && (rows.hashes != [] <==> SomethingAltered(w, out))
      && (forall r :: r in rows.hashes <==> exists name :: IsAltered(w, out, name) && r == "hash_mismatch:" + name)
  {
    hide LoadedOf, Gaps, IsUncopied, IsAltered, Carried, SafetyRow, JsonRow, GapRow, NotCopied, NotMatching;
    hide EntryNames, EntryMap, FlatMap;
    var files := Existing(out.artifacts);
    var missing, altered := FlatMap(NotCopied(files), NamesOn(w, out)),
                            FlatMap(NotMatching(w, EntriesOn(w, out), files), NamesOn(w, out));
    forall name ensures name in Dedup(missing) <==> IsUncopied(w, out, name) { UncopiedExactlyAre(w, out, name); }
    forall name ensures name in Dedup(altered) <==> IsAltered(w, out, name) { AlteredExactly(w, out, name); }
    PrefixedRow("missing_copied_artifact:", BuiltRows(w, out).copied, Dedup(missing));
    PrefixedRow("hash_mismatch:", BuiltRows(w, out).hashes, Dedup(altered));
  }

  ghost predicate SomethingUnread(w: World, out: Output) {
    exists d: Doc :: !IsRead(w, out, d)
  }

  lemma DocNamesAre()
    ensures DocName(ManifestDoc) == "evidence_manifest.json" && DocName(SummaryDoc) == "evidence_bundle.json"
    ensures DocName(ReportDoc) == "evidence_report.json"
  {
  }

  lemma UnreadExactly(w: World, out: Output)
    ensures forall d :: d in FlatMap(Unloaded(w, out), DOCS) <==> !IsRead(w, out, d)
  {
    hide Loads, IsRead;
    FlatMapContains(Unloaded(w, out), DOCS);
    forall d ensures d in FlatMap(Unloaded(w, out), DOCS) <==> !IsRead(w, out, d) {
      ReadsExactly(w, out, d);
      EveryDocListed(d);
      if !IsRead(w, out, d) { assert d in Unloaded(w, out)(d); }
    }
  }

  /** The JSON row names the documents that are not read, and what the report blames on bad JSON. */
  lemma JsonRowIsExact(w: World, out: Output)
    ensures var row := BuiltRows(w, out).json;
      && (row != [] <==> SomethingUnread(w, out) || SomethingReported(w, out, "invalid_artifact_json"))
      && forall r :: r in row <==> Reported(w, out, "invalid_artifact_json", r)
                                   || exists d :: !IsRead(w, out, d) && r == "invalid_json:" + DocName(d)
  {
    hide LoadedOf, Gaps, IsRead, Reported, Carried, SafetyRow, CopyRow, HashRow, GapRow, FlatMap, DocName;
    var unread := FlatMap(Unloaded(w, out), DOCS);
    var row, names := BuiltRows(w, out).json, Each(d => "invalid_json:" + DocName(d), unread);
    var carried := Carried(DocOf(LoadedOf(w, out), ReportDoc), BadJson);
    UnreadExactly(w, out);
    CarriedIsReported(w, out, BadJson);
    assert row == JsonRow(unread, carried);
    EachContains(d => "invalid_json:" + DocName(d), unread);
    assert forall r :: r in row <==> r in names || r in carried;
    NonEmptyExactly(unread);
  }

  lemma ReportedTextsAre()
    ensures StatusText(MissingArtifacts) == "invalid_missing_required_artifacts"
    ensures StatusText(ProfilesDiffer) == "invalid_profile_id_mismatch"
  {
  }

  lemma ComparedTextsAre()
    ensures StatusText(DecisionsDiffer) == "invalid_policy_decision_mismatch"
    ensures StatusText(RuntimeInconsistent) == "invalid_policy_runtime_inconsistency"
  {
  }

  /** The row holds exactly the reasons the report gives under this status. */
  ghost predicate RowIsReported(w: World, out: Output, row: seq<string>, status: string) {
    && (row != [] <==> SomethingReported(w, out, status))
    && forall r :: r in row <==> Reported(w, out, status, r)
  }

  lemma CarriedRow(w: World, out: Output, s: Status, status: string)
    requires StatusText(s) == status
    ensures RowIsReported(w, out, Carried(DocOf(LoadedOf(w, out), ReportDoc), s), status)
  {
    hide LoadedOf, Reported, Carried, SomethingReported, StatusText;
    CarriedIsReported(w, out, s);
  }

  /** The rows filled from the report alone. */
  lemma ReportedRowsAreExact(w: World, out: Output)
    ensures var rows := BuiltRows(w, out);
      && RowIsReported(w, out, rows.required, "invalid_missing_required_artifacts")
      && RowIsReported(w, out, rows.profile, "invalid_profile_id_mismatch")
      && RowIsReported(w, out, rows.policy, "invalid_policy_decision_mismatch")
      && RowIsReported(w, out, rows.runtimePolicy, "invalid_policy_runtime_inconsistency")
  {
    hide LoadedOf, Gaps, RowIsReported, Carried, SafetyRow, CopyRow, HashRow, GapRow, JsonRow, FlatMap, StatusText;
    ReportedTextsAre();
    ComparedTextsAre();
    CarriedRow(w, out, MissingArtifacts, "invalid_missing_required_artifacts");
    CarriedRow(w, out, ProfilesDiffer, "invalid_profile_id_mismatch");
    CarriedRow(w, out, DecisionsDiffer, "invalid_policy_decision_mismatch");
    CarriedRow(w, out, RuntimeInconsistent, "invalid_policy_runtime_inconsistency");
  }

  // ---- the safety row ----

  /** What a document or the safety summary must say in this field. */
  function Required(f: Field): Json {
    match f
    case SimulationOnly => Bool(true)
    case ClaimBoundaryConsistent => Bool(true)
    case ClaimBoundary => Str("simulation_only_not_certified")
    case _ => Bool(false)
  }

  /** The finding is true of the documents. */
  ghost predicate FindingHolds(w: World, out: Output, f: Finding) {
    match f
    case DocBreach(d, field) =>
      && IsClaim(field)
      && exists p :: Reads(w, out, d, p) && Get(p, field) != Required(field)
    case SummaryBreach(field) =>
      && IsSummary(field)
      && exists p, s :: (Reads(w, out, SummaryDoc, p) && Get(p, SafetySummary) == Obj(s)
                         && Get(s, field) != Required(field))
    case NoSafetySummary => !exists p, s :: Reads(w, out, SummaryDoc, p) && Get(p, SafetySummary) == Obj(s)
  }

  predicate IsClaim(field: Field) {
    field.SimulationOnly? || field.HardwareControlEnabled? || field.ClaimBoundary?
  }

  predicate IsSummary(field: Field) {
    || field.HardwareControlEnabledAnywhere? || field.RealExecutionAllowedAnywhere?
    || field.PolicyAllowsHardwareControl? || field.ClaimBoundaryConsistent?
  }

  lemma StatedAre(e: (Field, Json))
    ensures e in STATED <==> IsClaim(e.0) && e.1 == Required(e.0)
  {
    assert STATED[0] == (SimulationOnly, Required(SimulationOnly));
    assert STATED[1] == (HardwareControlEnabled, Required(HardwareControlEnabled));
    assert STATED[2] == (ClaimBoundary, Required(ClaimBoundary)) && |STATED| == 3;
    assert e in STATED <==> e == STATED[0] || e == STATED[1] || e == STATED[2];
  }

  lemma SummarisedAre(e: (Field, Json))
    ensures e in SUMMARISED <==> IsSummary(e.0) && e.1 == Required(e.0)
  {
    var t := SUMMARISED;
    assert t[0] == (HardwareControlEnabledAnywhere, Required(HardwareControlEnabledAnywhere)) && |t| == 4;
    assert t[1] == (RealExecutionAllowedAnywhere, Required(RealExecutionAllowedAnywhere));
    assert t[2] == (PolicyAllowsHardwareControl, Required(PolicyAllowsHardwareControl));
    assert t[3] == (ClaimBoundaryConsistent, Required(ClaimBoundaryConsistent));
    assert e in t <==> e == t[0] || e == t[1] || e == t[2] || e == t[3];
  }

  lemma StatedBreaches(p: Object, d: Doc, f: Finding)
    ensures f in FlatMap(Unstated(p, x => DocBreach(d, x)), STATED) <==>
            f.DocBreach? && f.doc == d && IsClaim(f.field) && Get(p, f.field) != Required(f.field)
  {
    hide STATED, Required, FlatMap;
    FlatMapContains(Unstated(p, x => DocBreach(d, x)), STATED);
    forall e ensures e in STATED <==> IsClaim(e.0) && e.1 == Required(e.0) { StatedAre(e); }
    if f.DocBreach? && f.doc == d && IsClaim(f.field) && Get(p, f.field) != Required(f.field) {
      assert (f.field, Required(f.field)) in STATED;
    }
  }

  lemma SummaryBreaches(p: Object, f: Finding)
    ensures f in FlatMap(Unstated(p, x => SummaryBreach(x)), SUMMARISED) <==>
            f.SummaryBreach? && IsSummary(f.field) && Get(p, f.field) != Required(f.field)
  {
    hide SUMMARISED, Required, FlatMap;
    FlatMapContains(Unstated(p, x => SummaryBreach(x)), SUMMARISED);
    forall e ensures e in SUMMARISED <==> IsSummary(e.0) && e.1 == Required(e.0) { SummarisedAre(e); }
    if f.SummaryBreach? && IsSummary(f.field) && Get(p, f.field) != Required(f.field) {
      assert (f.field, Required(f.field)) in SUMMARISED;
    }
  }

  lemma FindingInDoc(loaded: Loaded, d: Doc, f: Finding)
    ensures f in DocFindings(loaded)(d) <==>
            f.DocBreach? && f.doc == d && d in loaded && IsClaim(f.field)
            && Get(loaded[d], f.field) != Required(f.field)
  {
    hide STATED, Required, FlatMap, Unstated;
    if d in loaded {
      StatedBreaches(loaded[d], d, f);
      assert DocFindings(loaded)(d) == FlatMap(Unstated(loaded[d], x => DocBreach(d, x)), STATED);
    }
  }

  lemma DocFindingsExactly(w: World, out: Output, f: Finding)
    ensures f in FlatMap(DocFindings(LoadedOf(w, out)), DOCS) <==> f.DocBreach? && FindingHolds(w, out, f)
  {
    hide LoadedOf, Reads, STATED, IsRead, Loads, DocFindings, Required, IsClaim, Unstated;
    var loaded := LoadedOf(w, out);
    FlatMapContains(DocFindings(loaded), DOCS);
    forall d ensures d in DOCS && (f in DocFindings(loaded)(d) <==>
      f.DocBreach? && f.doc == d && d in loaded && IsClaim(f.field) && Get(loaded[d], f.field) != Required(f.field)) {
      FindingInDoc(loaded, d, f);
      EveryDocListed(d);
    }
    if f.DocBreach? {
      ReadsExactly(w, out, f.doc);
      if f.doc in loaded { assert Reads(w, out, f.doc, loaded[f.doc]); }
    }
  }

  lemma SummaryFindingsExactly(w: World, out: Output, f: Finding)
    ensures f in SummaryFindings(LoadedOf(w, out)) <==> !f.DocBreach? && FindingHolds(w, out, f)
  {
    hide LoadedOf, Reads, SUMMARISED, IsRead, Loads, Required, IsSummary, Unstated, FlatMap;
    var loaded := LoadedOf(w, out);
    ReadsExactly(w, out, SummaryDoc);
    var summary := Get(DocOf(loaded, SummaryDoc), SafetySummary);
    if summary.Obj? {
      SummaryBreaches(summary.fields, f);
      assert SummaryDoc in loaded && Reads(w, out, SummaryDoc, loaded[SummaryDoc]);
    }
  }

  lemma FindingTextsAre(d: Doc)
    ensures FindingText(DocBreach(d, SimulationOnly)) == DocName(d) + ".simulation_only"
    ensures FindingText(DocBreach(d, HardwareControlEnabled)) == DocName(d) + ".hardware_control_enabled"
    ensures FindingText(DocBreach(d, ClaimBoundary)) == DocName(d) + ".claim_boundary"
  {
  }

  lemma SummaryTextsAre()
    ensures forall f :: FindingText(SummaryBreach(f)) == FindingText(NoSafetySummary) + BoundaryFieldName(f)
    ensures FindingText(NoSafetySummary) == DocName(SummaryDoc) + ".safety_summary"
  {
    hide DocName, BoundaryFieldName;
  }

  lemma StrippedExactly(t: string, reason: string)
    ensures t in Stripped(SAFETY_PREFIX)(reason) <==> reason == "safety_boundary_violation:" + t
  {
    var prefix := "safety_boundary_violation:";
    if prefix <= reason { assert reason == prefix + reason[|prefix|..]; }
    assert reason == prefix + t ==> reason[|prefix|..] == t;
  }

  lemma TailsExactly(w: World, out: Output, t: string)
    ensures t in FlatMap(Stripped(SAFETY_PREFIX), Carried(DocOf(LoadedOf(w, out), ReportDoc), BlockedSafety))
            <==> Reported(w, out, "blocked_safety_boundary", "safety_boundary_violation:" + t)
  {
    hide LoadedOf, Reported, Carried, DocOf, Stripped, SAFETY_PREFIX;
    var carried := Carried(DocOf(LoadedOf(w, out), ReportDoc), BlockedSafety);
    CarriedIsReported(w, out, BlockedSafety);
    FlatMapContains(Stripped(SAFETY_PREFIX), carried);
    forall reason ensures t in Stripped(SAFETY_PREFIX)(reason) <==> reason == "safety_boundary_violation:" + t {
      StrippedExactly(t, reason);
    }
  }

  lemma FindingsExactly(w: World, out: Output, f: Finding)
    ensures f in FlatMap(DocFindings(LoadedOf(w, out)), DOCS) + SummaryFindings(LoadedOf(w, out)) <==>
            FindingHolds(w, out, f)
  {
    hide LoadedOf, FindingHolds, DocFindings, SummaryFindings, FlatMap;
    DocFindingsExactly(w, out, f);
    SummaryFindingsExactly(w, out, f);
  }

  /** A text of the safety row: a finding about the documents, or a reported reason without its prefix. */
  ghost predicate IsUnsafe(w: World, out: Output, text: string) {
    || (exists f :: FindingText(f) == text && FindingHolds(w, out, f))
    || Reported(w, out, "blocked_safety_boundary", "safety_boundary_violation:" + text)
  }

  /** The safety row names what the documents claim wrongly, and the violations the report gives as reasons. */
  lemma SafetyRowIsExact(w: World, out: Output)
    ensures var row := BuiltRows(w, out).safety;
      && (row != [] <==> ClaimsWrong(w, out) || SafetyReported(w, out))
      && forall r :: r in row <==> exists text :: IsUnsafe(w, out, text) && r == "safety_boundary_violation:" + text
  {
    hide LoadedOf, FindingHolds, FindingText, Gaps, Reported, Carried, CopyRow, HashRow, GapRow, JsonRow;
    hide DocFindings, SummaryFindings, ClaimsExact, ClaimsWrong, SafetyReported, Stripped;
    var loaded := LoadedOf(w, out);
    var carried := Carried(DocOf(loaded, ReportDoc), BlockedSafety);
    var findings, tails := FlatMap(DocFindings(loaded), DOCS) + SummaryFindings(loaded),
      FlatMap(Stripped(SAFETY_PREFIX), carried);
    var row, texts := BuiltRows(w, out).safety, Dedup(Each(f => FindingText(f), findings) + tails);
    SafetyRowExactly(loaded, carried);
    ClaimsExactly(w, out);
    SafetyReportedExactly(w, out);
    assert row == SafetyRow(findings, carried);
    PrefixedRow("safety_boundary_violation:", row, texts);
    EachContains(f => FindingText(f), findings);
    forall f ensures f in findings <==> FindingHolds(w, out, f) { FindingsExactly(w, out, f); }
    forall text ensures text in texts <==> IsUnsafe(w, out, text) { TailsExactly(w, out, text); }
  }

  // ---- warnings ----

  /** The document is of another version, or of another bundle version. */
  ghost predicate IsNotice(w: World, out: Output, n: Notice) {
    match n
    case VersionNotice(d) =>
      exists p :: Reads(w, out, d, p) && RuntimeVersion in p && p[RuntimeVersion] != Str("1.0.0")
    case EvidenceVersionNotice(d) => exists p :: Reads(w, out, d, p) && Get(p, EvidenceBundleVersion) != Str("1.0.0")
  }

  /** The report's own warnings, from the first of its two fields that can be iterated. */
  ghost predicate IsReportedWarning(w: World, out: Output, text: string) {
    exists p :: (Reads(w, out, ReportDoc, p)
                 && match Get(p, EvidenceWarningReasons)
                    case List(items) => Str(text) in items
                    case _ =>
                      match Get(p, ConsistencyWarnings)
                      case List(items) => Str(text) in items
                      case Str(s) => |text| == 1 && text[0] in s
                      case Obj(fields) => fields != map[] && text == "<key>"
                      case _ => false)
  }

  /** The report gives its warnings in a form that cannot be iterated. */
  ghost predicate Uniterable(w: World, out: Output) {
    exists p: Object ::
      (Reads(w, out, ReportDoc, p) && !Get(p, EvidenceWarningReasons).List? && ConsistencyWarnings in p
                 && (p[ConsistencyWarnings].Null? || IsNumber(p[ConsistencyWarnings])))
  }

  lemma NoticesOnDocument(loaded: Loaded, d: Doc, n: Notice)
    ensures n in DocNotices(loaded)(d) <==>
            n.doc == d && d in loaded
            && (if n.VersionNotice? then RuntimeVersion in loaded[d] && loaded[d][RuntimeVersion] != Str("1.0.0")
                else Get(loaded[d], EvidenceBundleVersion) != Str("1.0.0"))
  {
  }

  lemma NoticesExactly(w: World, out: Output, n: Notice)
    ensures n in FlatMap(DocNotices(LoadedOf(w, out)), DOCS) <==> IsNotice(w, out, n)
  {
    hide LoadedOf, Reads, IsRead, Loads, FlatMap, DocNotices, DOCS;
    var loaded := LoadedOf(w, out);
    FlatMapContains(DocNotices(loaded), DOCS);
    forall d ensures d in DOCS && (n in DocNotices(loaded)(d) ==> n.doc == d) {
      NoticesOnDocument(loaded, d, n);
      EveryDocListed(d);
    }
    NoticesOnDocument(loaded, n.doc, n);
    ReadsExactly(w, out, n.doc);
    if n.doc in loaded { assert Reads(w, out, n.doc, loaded[n.doc]); }
  }

  lemma ReportWarningsExactly(report: Object)
    ensures ReportWarnings(report).None? <==>
            !Get(report, EvidenceWarningReasons).List? && ConsistencyWarnings in report
            && (report[ConsistencyWarnings].Null? || IsNumber(report[ConsistencyWarnings]))
    ensures ReportWarnings(report).Some? ==> forall text :: text in ReportWarnings(report).value <==>
              match Get(report, EvidenceWarningReasons)
              case List(items) => Str(text) in items
              case _ =>
                match Get(report, ConsistencyWarnings)
                case List(items) => Str(text) in items
                case Str(s) => |text| == 1 && text[0] in s
                case Obj(fields) => fields != map[] && text == "<key>"
                case _ => false
  {
    var own, other := Get(report, EvidenceWarningReasons), GetOr(report, ConsistencyWarnings, List([]));
    if own.List? {
      StringItemsExactly(own.items);
    } else if other.List? {
      StringItemsExactly(other.items);
    } else if other.Str? {
      var chars := ReportWarnings(report).value;
      forall text | |text| == 1 && text[0] in other.s ensures text in chars {
        var i :| 0 <= i < |other.s| && other.s[i] == text[0];
        assert chars[i] == text;
      }
    } else if other.Obj? && other.fields != map[] {
      var k :| k in other.fields;
      assert |other.fields| > 0;
      assert ReportWarnings(report).value[0] == "<key>";
    }
  }

  lemma ReportedWarningsExactly(w: World, out: Output)
    ensures var reported := ReportWarnings(DocOf(LoadedOf(w, out), ReportDoc));
      && (reported.None? <==> Uniterable(w, out))
      && (reported.Some? ==> forall text :: text in reported.value <==> IsReportedWarning(w, out, text))
  {
    hide LoadedOf, Reads, IsRead, Loads, ReportWarnings;
    var loaded := LoadedOf(w, out);
    ReadsExactly(w, out, ReportDoc);
    ReportWarningsExactly(DocOf(loaded, ReportDoc));
    if ReportDoc in loaded { assert Reads(w, out, ReportDoc, loaded[ReportDoc]); }
  }

  /** What the check warns of. */
  ghost predicate IsWarning(w: World, out: Output, text: string) {
    || IsReportedWarning(w, out, text)
    || (exists d :: text == "version_mismatch:" + DocName(d) && IsNotice(w, out, VersionNotice(d)))
    || (exists d :: text == "evidence_version_mismatch:" + DocName(d) && IsNotice(w, out, EvidenceVersionNotice(d)))
  }

  lemma NoticeTextsExactly(w: World, out: Output, text: string)
    ensures (exists n :: NoticeText(n) == text && IsNotice(w, out, n)) <==>
            || (exists d :: text == "version_mismatch:" + DocName(d) && IsNotice(w, out, VersionNotice(d)))
            || (exists d :: (text == "evidence_version_mismatch:" + DocName(d)
                             && IsNotice(w, out, EvidenceVersionNotice(d))))
  {
    hide IsNotice, DocName;
    forall d ensures NoticeText(VersionNotice(d)) == "version_mismatch:" + DocName(d) {}
    forall d ensures NoticeText(EvidenceVersionNotice(d)) == "evidence_version_mismatch:" + DocName(d) {}
  }

  /** The check gives no result exactly when the report's warnings cannot be iterated, and otherwise warns of exactly
      the
      versions that differ and of what the report warns of. */
  lemma BuiltWarningsAreExact(w: World, out: Output)
    ensures BuiltOf(w, out).None? <==> Uniterable(w, out)
    ensures var built := BuiltOf(w, out);
            built.Some? ==> forall text :: text in built.value.warnings <==> IsWarning(w, out, text)
  {
    hide LoadedOf, ReportWarnings, BuiltRows, Verdict, IsNotice, IsReportedWarning, Uniterable, FlatMap, NoticeText;
    hide DocNotices, EntryMap, ManifestEntries;
    var notices := FlatMap(DocNotices(LoadedOf(w, out)), DOCS);
    ReportedWarningsExactly(w, out);
    EachContains(n => NoticeText(n), notices);
    forall n ensures n in notices <==> IsNotice(w, out, n) { NoticesExactly(w, out, n); }
    forall text ensures (exists n :: NoticeText(n) == text && IsNotice(w, out, n)) || IsReportedWarning(w, out, text)
                        <==> IsWarning(w, out, text) { NoticeTextsExactly(w, out, text); }
  }

  // ---- the status ----

  ghost predicate SomethingWarned(w: World, out: Output) {
    exists text :: IsWarning(w, out, text)
  }

  lemma WarnedExactly(w: World, out: Output)
    ensures BuiltWarnings(w, out).Some? ==> (BuiltWarnings(w, out).value != [] <==> SomethingWarned(w, out))
  {
    hide LoadedOf, ReportWarnings, BuiltRows, Verdict, IsWarning, FlatMap, BuiltWarnings, EntryMap, ManifestEntries;
    BuiltWarningsAreExact(w, out);
    if BuiltWarnings(w, out).Some? {
      NonEmptyExactly(BuiltWarnings(w, out).value);
      assert forall text :: text in BuiltOf(w, out).value.warnings <==> text in BuiltWarnings(w, out).value;
    }
  }

  /** The status of a built bundle, read off its documents and files: the first thing wrong, in this order, and with
      nothing wrong whether there is something to warn of. */
  lemma BuiltStatusIsExact(w: World, out: Output)
    ensures var built := BuiltOf(w, out);
            built.Some? ==>
              built.value.status ==
                if ClaimsWrong(w, out) || SafetyReported(w, out) then BlockedSafety
                else if SomethingUnread(w, out) || SomethingReported(w, out, "invalid_artifact_json") then BadJson
                else if SomethingReported(w, out, "invalid_missing_required_artifacts") then MissingArtifacts
                else if ManifestWrong(w, out) then MissingEntries
                else if SomethingUncopied(w, out) then MissingCopies
                else if SomethingAltered(w, out) then HashesDiffer
                else if SomethingReported(w, out, "invalid_profile_id_mismatch") then ProfilesDiffer
                else if SomethingReported(w, out, "invalid_policy_decision_mismatch") then DecisionsDiffer
                else if SomethingReported(w, out, "invalid_policy_runtime_inconsistency") then RuntimeInconsistent
                else if SomethingWarned(w, out) then ValidWithWarnings else Valid
  {
    hide ClaimsWrong, SafetyReported, SomethingUnread, SomethingReported, ManifestWrong, SomethingUncopied;
    hide SomethingAltered, SomethingWarned, BuiltRows, BuiltWarnings, Verdict, LoadedOf, EntryMap, ManifestEntries;
    hide IsUnsafe, Reported, IsGap, IsUncopied, IsAltered, IsRead, DocName;
    if BuiltOf(w, out).Some? {
      VerdictUnrolled(BuiltRows(w, out), BuiltWarnings(w, out).value != []);
      SafetyRowIsExact(w, out);
      JsonRowIsExact(w, out);
      ReportedRowsAreExact(w, out);
      ManifestRowIsExact(w, out);
      FileRowsAreExact(w, out);
      WarnedExactly(w, out);
    }
  }

  /** The bundle counts as loaded exactly when all three documents are read, and its hashes as verified exactly when
      there
      is an entry and manifest and files agree. */
  lemma BuiltFlagsAreExact(w: World, out: Output)
    ensures var built := BuiltOf(w, out);
            built.Some? ==>
              && (built.value.complete <==> !SomethingUnread(w, out))
              && (built.value.hashesVerified <==>
                  (exists name :: HasEntry(w, out, name))
                  && !ManifestWrong(w, out) && !SomethingUncopied(w, out) && !SomethingAltered(w, out))
  {
    hide ManifestWrong, SomethingUncopied, SomethingAltered, BuiltRows, BuiltWarnings, Verdict, LoadedOf, EntryMap;
    hide ManifestEntries, IsGap, IsUncopied, IsAltered, HasEntry, IsRead;
    var loaded, entries := LoadedOf(w, out), EntryMap(ManifestEntries(LoadedOf(w, out)));
    ManifestRowIsExact(w, out);
    FileRowsAreExact(w, out);
    forall name ensures HasEntry(w, out, name) <==> name in entries { HasEntryExactly(w, out, name); }
    forall d ensures IsRead(w, out, d) <==> d in loaded { ReadsExactly(w, out, d); }
    AllThree(loaded);
    if entries != map[] { var name :| name in entries; assert HasEntry(w, out, name); }
  }

  lemma AllThree(loaded: Loaded)
    ensures |loaded| == |DOCS| <==> forall d: Doc :: d in loaded
  {
    var all := {ManifestDoc, SummaryDoc, ReportDoc};
    forall d: Doc ensures d in all { match d { case ManifestDoc => case SummaryDoc => case ReportDoc => } }
    assert |loaded| == |loaded.Keys| && loaded.Keys <= all && |all| == 3;
    if |loaded| == 3 {
      SmallerSubset(loaded.Keys, all);
    }
    if forall d: Doc :: d in loaded { assert loaded.Keys == all; }
  }

  lemma SmallerSubset<T>(a: set<T>, b: set<T>)
    requires a <= b && |a| == |b|
    ensures a == b
  {
    if x :| x in b && x !in a { SubsetSize(a, b - {x}); }
  }
}
