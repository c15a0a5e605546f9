/** When the two evidence checks pass, and how far they agree. */
module EvidenceTheorems {
  import opened Base
  import opened JsonValues
  import opened EvidenceSource
  import opened EvidenceCheck
  import opened EvidenceBundle
  import opened EvidenceBuilt

  // ---- what a passing bundle is ----

  /** Manifest names and artifact files are the same, each entry stating its own file's digest and size. */
  ghost predicate Bijective(w: World, entryMap: map<string, Object>, artifacts: Directory) {
    && entryMap.Keys == artifacts.Keys
    && forall name :: name in entryMap && name in artifacts ==> Describes(w, entryMap[name], artifacts[name])
  }

  lemma UnlistedExactly(entryMap: map<string, Object>, artifacts: Directory, listing: seq<string>)
    requires Lists(listing, artifacts.Keys)
    ensures FlatMap(UnlistedIn(entryMap), listing) == [] <==> artifacts.Keys <= entryMap.Keys
  {
    FlatMapEmptyExactly(UnlistedIn(entryMap), listing);
    if artifacts.Keys <= entryMap.Keys {
      assert forall k :: 0 <= k < |listing| ==> listing[k] in entryMap;
    } else {
      var name :| name in artifacts && name !in entryMap;
      assert name in listing && UnlistedIn(entryMap)(name) != [];
    }
  }

  lemma UncopiedExactly(entryMap: map<string, Object>, artifacts: Directory, names: seq<string>)
    requires Lists(names, entryMap.Keys)
    ensures FlatMap(NotCopied(artifacts), names) == [] <==> entryMap.Keys <= artifacts.Keys
  {
    FlatMapEmptyExactly(NotCopied(artifacts), names);
    if entryMap.Keys <= artifacts.Keys {
      assert forall k :: 0 <= k < |names| ==> names[k] in artifacts;
    } else {
      var name :| name in entryMap && name !in artifacts;
      assert name in names && NotCopied(artifacts)(name) != [];
    }
  }

  lemma UnmatchedExactly(w: World, entryMap: map<string, Object>, artifacts: Directory, names: seq<string>)
    requires Lists(names, entryMap.Keys)
    ensures FlatMap(NotMatching(w, entryMap, artifacts), names) == [] <==>
            forall name :: name in entryMap && name in artifacts ==> Describes(w, entryMap[name], artifacts[name])
  {
    FlatMapEmptyExactly(NotMatching(w, entryMap, artifacts), names);
    forall name | name in entryMap && name in artifacts
      ensures NotMatching(w, entryMap, artifacts)(name) == [] <==> Describes(w, entryMap[name], artifacts[name]) {}
  }

  lemma NamesListEntries(entries: seq<Json>)
    ensures Lists(EntryNames(entries), EntryMap(entries).Keys)
  {
  }

  lemma SortedLists(keys: set<string>)
    ensures Lists(Sorted(keys), keys)
  {
  }

  /** The manifest, copy and hash rows are clear exactly on a bijection. */
  lemma BijectiveExactly(w: World, entries: seq<Json>, artifacts: Directory)
    ensures FlatMap(UnlistedIn(EntryMap(entries)), Sorted(artifacts.Keys)) == []
            && FlatMap(NotCopied(artifacts), EntryNames(entries)) == []
            && FlatMap(NotMatching(w, EntryMap(entries), artifacts), EntryNames(entries)) == []
            <==> Bijective(w, EntryMap(entries), artifacts)
  {
    hide FlatMap, EntryMap, EntryNames, Describes, NotMatching, NotCopied, UnlistedIn;
    NamesListEntries(entries);
    SortedLists(artifacts.Keys);
    UnlistedExactly(EntryMap(entries), artifacts, Sorted(artifacts.Keys));
    UncopiedExactly(EntryMap(entries), artifacts, EntryNames(entries));
    UnmatchedExactly(w, EntryMap(entries), artifacts, EntryNames(entries));
  }

  ghost predicate States(p: Object, expected: seq<(Field, Json)>) {
    forall k :: 0 <= k < |expected| ==> Get(p, expected[k].0) == expected[k].1
  }

  lemma StatesExactly(p: Object, finding: Field -> Finding, expected: seq<(Field, Json)>)
    ensures FlatMap(Unstated(p, finding), expected) == [] <==> States(p, expected)
  {
    FlatMapEmptyExactly(Unstated(p, finding), expected);
    if !States(p, expected) {
      var k :| 0 <= k < |expected| && Get(p, expected[k].0) != expected[k].1;
      assert expected[k] in expected && Unstated(p, finding)(expected[k]) != [];
    }
  }

  lemma DocumentsStateExactly(loaded: Loaded)
    ensures FlatMap(DocFindings(loaded), DOCS) == [] <==> forall d :: d in loaded ==> States(loaded[d], STATED)
  {
    FlatMapEmptyExactly(DocFindings(loaded), DOCS);
    forall d | d in loaded ensures d in DOCS && (DocFindings(loaded)(d) == [] <==> States(loaded[d], STATED)) {
      StatesExactly(loaded[d], f => DocBreach(d, f), STATED);
      EveryDocListed(d);
    }
  }

  lemma EveryDocListed(d: Doc)
    ensures d in DOCS
  {
    assert DOCS[0] in DOCS && DOCS[1] in DOCS && DOCS[2] in DOCS;
  }

  ghost predicate SummaryClean(loaded: Loaded) {
    var summary := Get(DocOf(loaded, SummaryDoc), SafetySummary);
    summary.Obj? && States(summary.fields, SUMMARISED)
  }

  lemma SummaryCleanExactly(loaded: Loaded)
    ensures SummaryFindings(loaded) == [] <==> SummaryClean(loaded)
  {
    var summary := Get(DocOf(loaded, SummaryDoc), SafetySummary);
    if summary.Obj? {
      StatesExactly(summary.fields, f => SummaryBreach(f), SUMMARISED);
    }
  }

  ghost predicate AllLoaded(w: World, out: Output) {
    forall d: Doc :: Loads(w, out, d)
  }

  lemma AllLoadedExactly(w: World, out: Output)
    ensures FlatMap(Unloaded(w, out), DOCS) == [] <==> AllLoaded(w, out)
  {
    FlatMapEmptyExactly(Unloaded(w, out), DOCS);
    forall d: Doc ensures d in DOCS && (Unloaded(w, out)(d) == [] <==> Loads(w, out, d)) { EveryDocListed(d); }
  }

  /** Both identified documents have a bundle id and the count is the length of the entry list. */
  ghost predicate ManifestComplete(loaded: Loaded) {
    && Listed(loaded)
    && Get(DocOf(loaded, ManifestDoc), BundleId).Str? && Get(DocOf(loaded, SummaryDoc), BundleId).Str?
    && PyEq(Get(DocOf(loaded, ManifestDoc), ArtifactCount), Int(|ManifestEntries(loaded)|))
  }

  lemma NoGapExactly(loaded: Loaded, artifacts: Directory)
    ensures Gaps(loaded, artifacts) == [] <==>
            ManifestComplete(loaded)
            && FlatMap(UnlistedIn(EntryMap(ManifestEntries(loaded))), Sorted(artifacts.Keys)) == []
  {
    FlatMapPair(Unidentified(loaded), ManifestDoc, SummaryDoc);
    assert IDENTIFIED == [ManifestDoc, SummaryDoc];
  }

  /** The report carries no failing status over. */
  ghost predicate NothingCarried(report: Object) {
    && FlatMap(Stripped(SAFETY_PREFIX), Carried(report, BlockedSafety)) == []
    && Carried(report, BadJson) == [] && Carried(report, MissingArtifacts) == []
    && Carried(report, ProfilesDiffer) == []
    && Carried(report, DecisionsDiffer) == [] && Carried(report, RuntimeInconsistent) == []
  }

  ghost predicate ClaimsExact(loaded: Loaded) {
    (forall d :: d in loaded ==> States(loaded[d], STATED)) && SummaryClean(loaded)
  }

  /** What a bundle must be to pass: loaded, exact in its claims, complete, a bijection, and reported as passing. */
  ghost predicate Intact(w: World, loaded: Loaded, artifacts: Directory) {
    && ClaimsExact(loaded) && ManifestComplete(loaded)
    && Bijective(w, EntryMap(ManifestEntries(loaded)), artifacts)
    && NothingCarried(DocOf(loaded, ReportDoc))
  }

  lemma SafetyRowExactly(loaded: Loaded, carried: seq<string>)
    ensures SafetyRow(FlatMap(DocFindings(loaded), DOCS) + SummaryFindings(loaded), carried) == [] <==>
            ClaimsExact(loaded) && FlatMap(Stripped(SAFETY_PREFIX), carried) == []
  {
    DocumentsStateExactly(loaded);
    SummaryCleanExactly(loaded);
  }

  lemma FileRowsExactly(w: World, loaded: Loaded, artifacts: Directory, rows: Rows<string>)
    requires rows == RowsOn(w, loaded, artifacts, [])
    ensures rows.manifest == [] && rows.copied == [] && rows.hashes == [] <==>
            ManifestComplete(loaded) && Bijective(w, EntryMap(ManifestEntries(loaded)), artifacts)
  {
    NoGapExactly(loaded, artifacts);
    BijectiveExactly(w, ManifestEntries(loaded), artifacts);
  }

  lemma NoRowFailedExactlyIntact(w: World, loaded: Loaded, artifacts: Directory, invalid: seq<Doc>)
    ensures NoRowFailed(RowsOn(w, loaded, artifacts, invalid)) <==> invalid == [] && Intact(w, loaded, artifacts)
  {
    var rows := RowsOn(w, loaded, artifacts, invalid);
    NoRowFailedExactly(rows);
    SafetyRowExactly(loaded, Carried(DocOf(loaded, ReportDoc), BlockedSafety));
    FileRowsExactly(w, loaded, artifacts, rows.(json := RowsOn(w, loaded, artifacts, []).json));
  }

  /** A built bundle passes exactly when all three documents load and it is intact. */
  lemma PassesExactlyWhenIntact(w: World, out: Output)
    ensures var built := BuiltOf(w, out);
            built.Some? ==> (Passing(built.value.status) <==>
                             AllLoaded(w, out) && Intact(w, LoadedOf(w, out), Existing(out.artifacts)))
  {
    hide Intact, AllLoaded, LoadedOf, Verdict, NoRowFailed, RowsOn, Unloaded;
    if BuiltWarnings(w, out).Some? {
      VerdictIsHighestFailingRow(BuiltRows(w, out), BuiltWarnings(w, out).value != []);
      NoRowFailedExactlyIntact(w, LoadedOf(w, out), Existing(out.artifacts), FlatMap(Unloaded(w, out), DOCS));
      AllLoadedExactly(w, out);
    }
  }

  /** The check passes. */
  ghost predicate Passes(w: World, out: Output) {
    BuiltOf(w, out).Some? && Passing(BuiltOf(w, out).value.status)
  }

  /** Passing means a bijection between manifest names and artifact files, with equal digest and size. */
  lemma PassingMeansBijection(w: World, out: Output)
    ensures var entryMap, artifacts := EntryMap(ManifestEntries(LoadedOf(w, out))), Existing(out.artifacts);
            Passes(w, out) ==>
              && entryMap.Keys == artifacts.Keys
              && forall name :: name in entryMap ==>
                   && name in artifacts
                   && Get(entryMap[name], Sha256) == Str(w.hash(artifacts[name]))
                   && Get(entryMap[name], SizeBytes) == Int(|artifacts[name]|)
  {
    hide BuiltOf, LoadedOf, ClaimsExact, ManifestComplete, NothingCarried, EntryMap, ManifestEntries;
    PassesExactlyWhenIntact(w, out);
  }

  lemma SameDigestsSameFiles(w: World, entryMap: map<string, Object>, a: Directory, b: Directory)
    requires Bijective(w, entryMap, a) && Bijective(w, entryMap, b)
    requires forall x, y :: w.hash(x) == w.hash(y) ==> x == y
    ensures a == b
  {
    forall name | name in entryMap ensures name in a && name in b && a[name] == b[name] {
      assert Describes(w, entryMap[name], a[name]) && Describes(w, entryMap[name], b[name]);
      assert w.hash(a[name]) == w.hash(b[name]);
    }
  }

  /** With a digest free of collisions, the documents of a passing bundle pin every artifact's bytes. */
  lemma PassingPinsContents(w: World, a: Output, b: Output)
    requires a.docs == b.docs
    requires forall x, y :: w.hash(x) == w.hash(y) ==> x == y
    ensures Passes(w, a) && Passes(w, b) ==> Existing(a.artifacts) == Existing(b.artifacts)
  {
    hide BuiltOf, LoadedOf, ClaimsExact, ManifestComplete, NothingCarried, EntryMap, ManifestEntries, Bijective;
    PassesExactlyWhenIntact(w, a);
    PassesExactlyWhenIntact(w, b);
    SameDocumentsLoad(w, a, b);
    if Passes(w, a) && Passes(w, b) {
      SameDigestsSameFiles(w, EntryMap(ManifestEntries(LoadedOf(w, a))), Existing(a.artifacts), Existing(b.artifacts));
    }
  }

  lemma SameDocumentsLoad(w: World, a: Output, b: Output)
    requires a.docs == b.docs
    ensures LoadedOf(w, a) == LoadedOf(w, b)
  {
  }
}
