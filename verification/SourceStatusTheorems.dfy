/** What the source check says of a directory, over its files and their payload fields: the status, the reasons and the
    warnings. */
module SourceStatusTheorems {
  import opened Base
  import opened JsonValues
  import opened EvidenceSource
  import opened EvidenceCheck

  // ---- the boundary, field by field ----

  predicate IsPolicyFile(name: string) {
    name == POLICY_REPORT_FILE || name == POLICY_DECISION_FILE
  }

  predicate NonEmptyText(j: Json) {
    j.Str? && j.s != ""
  }

  /** The payload of a file crosses the boundary in this way. A policy file must also deny execution, control and retry,
      and select a policy without a forbidden word. */
  ghost predicate Crosses(p: Object, name: string, b: Breach) {
    match b
    case WrongClaim => ClaimBoundary in p && p[ClaimBoundary] != Str("simulation_only_not_certified")
    case HardwareEnabled => HardwareControlEnabled in p && p[HardwareControlEnabled] != Bool(false)
    case RealExecution => IsPolicyFile(name) && p != map[] && Get(p, RealExecutionAllowed) != Bool(false)
    case HardwareAllowed => IsPolicyFile(name) && p != map[] && Get(p, HardwareControlAllowed) != Bool(false)
    case RetryPermitted => IsPolicyFile(name) && p != map[] && Get(p, RetryAllowed) != Bool(false)
    case BadSelection =>
      IsPolicyFile(name) && p != map[]
      && match Get(p, SelectedPolicy) case Str(text) => ForbiddenPolicy(text) case _ => true
  }

  lemma ClaimsCross(p: Object, name: string)
    ensures forall v :: v in ClaimViolations(p, name) <==>
                        v.file == name && (v.breach == WrongClaim || v.breach == HardwareEnabled)
                        && Crosses(p, name, v.breach)
  {
  }

  lemma DenialsCross(p: Object, name: string)
    requires IsPolicyFile(name) && p != map[]
    ensures forall v :: v in FlatMap(NotDenied(p, name), DENIALS) <==>
              && v.file == name
              && (v.breach == RealExecution || v.breach == HardwareAllowed || v.breach == RetryPermitted)
              && Crosses(p, name, v.breach)
  {
    FlatMapContains(NotDenied(p, name), DENIALS);
    assert DENIALS[0] in DENIALS && DENIALS[1] in DENIALS && DENIALS[2] in DENIALS;
  }

  lemma PolicyCrosses(parsed: Payloads, name: string)
    requires IsPolicyFile(name) && name in parsed
    ensures forall v :: v in PolicyViolations(parsed)(name) <==>
              v.file == name && v.breach != WrongClaim && v.breach != HardwareEnabled
              && Crosses(parsed[name], name, v.breach)
  {
    hide FlatMap, ForbiddenPolicy;
    if parsed[name] != map[] {
      DenialsCross(parsed[name], name);
    }
  }

  predicate IsClaim(b: Breach) {
    b == WrongClaim || b == HardwareEnabled
  }

  lemma BoundaryPart(parsed: Payloads, v: Violation)
    ensures v in FlatMap(BoundaryViolations(parsed), Sorted(parsed.Keys)) <==>
            v.file in parsed && IsClaim(v.breach) && Crosses(parsed[v.file], v.file, v.breach)
  {
    hide Crosses, ClaimViolations, FlatMap;
    FlatMapContains(BoundaryViolations(parsed), Sorted(parsed.Keys));
    forall name | name in parsed
      ensures v in BoundaryViolations(parsed)(name) <==>
              v.file == name && IsClaim(v.breach) && Crosses(parsed[name], name, v.breach)
    {
      ClaimsCross(parsed[name], name);
    }
  }

  lemma PolicyPart(parsed: Payloads, v: Violation)
    ensures v in FlatMap(PolicyViolations(parsed), POLICY_FILES) <==>
            v.file in parsed && IsPolicyFile(v.file) && !IsClaim(v.breach) && Crosses(parsed[v.file], v.file, v.breach)
  {
    hide Crosses, POLICY_REPORT_FILE, POLICY_DECISION_FILE, PolicyViolations;
    FlatMapPair(PolicyViolations(parsed), POLICY_REPORT_FILE, POLICY_DECISION_FILE);
    forall name | IsPolicyFile(name)
      ensures v in PolicyViolations(parsed)(name) <==>
              name in parsed && v.file == name && !IsClaim(v.breach) && Crosses(parsed[name], name, v.breach)
    {
      if name in parsed { PolicyCrosses(parsed, name); } else { NoPolicyFile(parsed, name); }
    }
  }

  lemma NoPolicyFile(parsed: Payloads, name: string)
    requires name !in parsed
    ensures PolicyViolations(parsed)(name) == []
  {
  }

  /** A violation is found exactly when a payload crosses the boundary in that way. */
  lemma ViolationsAreExact(parsed: Payloads)
    ensures forall v :: v in Violations(parsed) <==> v.file in parsed && Crosses(parsed[v.file], v.file, v.breach)
  {
    hide Crosses, FlatMap, POLICY_FILES, IsPolicyFile;
    forall v ensures v in Violations(parsed) <==> v.file in parsed && Crosses(parsed[v.file], v.file, v.breach) {
      BoundaryPart(parsed, v);
      PolicyPart(parsed, v);
      if v.file in parsed && !IsPolicyFile(v.file) && Crosses(parsed[v.file], v.file, v.breach) {
        OnlyClaimsOutside(parsed[v.file], v.file, v.breach);
      }
    }
  }

  lemma OnlyClaimsOutside(p: Object, name: string, b: Breach)
    requires !IsPolicyFile(name) && Crosses(p, name, b)
    ensures b == WrongClaim || b == HardwareEnabled
  {
  }

  // ---- profile, policy and plan ----

  /** The payload states this profile id, itself or, failing that, through its source plan. */
  ghost predicate StatesId(p: Object, id: string) {
    && id != ""
    && (|| Get(p, ProfileId) == Str(id)
        || (!NonEmptyText(Get(p, ProfileId))
            && match Get(p, SourcePlanSummary) case Obj(plan) => Get(plan, ProfileId) == Str(id) case _ => false))
  }

  lemma IdIsStated(p: Object, id: string)
    ensures ProfileIdOf(p) == Some(id) <==> StatesId(p, id)
  {
  }

  ghost predicate IdsDiffer(parsed: Payloads) {
    exists a, b, x, y :: a in parsed && b in parsed && StatesId(parsed[a], x) && StatesId(parsed[b], y) && x != y
  }

  lemma IdsDifferExactly(parsed: Payloads)
    ensures IdsDiffer(parsed) <==> !SameProfile(ProfileEntries(parsed))
  {
    hide StatesId, ProfileIdOf;
    var entries := ProfileEntries(parsed);
    forall name, id | name in parsed
      ensures StatesId(parsed[name], id) <==> name in entries && entries[name] == id { IdIsStated(parsed[name], id); }
    if !SameProfile(entries) {
      var a, b :| a in entries && b in entries && entries[a] != entries[b];
      assert StatesId(parsed[a], entries[a]) && StatesId(parsed[b], entries[b]);
    }
  }

  lemma PyEqOnTexts(a: string, b: string)
    ensures PyEq(Str(a), Str(b)) <==> a == b
  {
  }

  // ---- files ----

  /** A file the check looks at: visible, recognised and within the limit. */
  predicate Kept(source: Directory, schema: Schema, name: string) {
    name in source && !(name != "" && name[0] == '.') && name in schema.recognised && |source[name]| <= schema.maxSize
  }

  /** A kept JSON file that does not decode to an object. */
  ghost predicate Broken(w: World, source: Directory, schema: Schema, name: string) {
    && Kept(source, schema, name) && IsJsonName(name)
    && !exists fields :: w.parse(source[name]) == Some(Obj(fields))
  }

  lemma BrokenExactly(w: World, source: Directory, schema: Schema, name: string)
    requires name in CollectedFiles(source, schema)
    ensures Read(w, name, CollectedFiles(source, schema)[name]).Unreadable? <==> Broken(w, source, schema, name)
  {
  }

  lemma CollectedAreKept(source: Directory, schema: Schema, name: string)
    ensures name in CollectedFiles(source, schema) <==> Kept(source, schema, name)
    ensures Kept(source, schema, name) ==> CollectedFiles(source, schema)[name] == source[name]
  {
  }

  /** Which required files cannot be read. */
  lemma InvalidExactly(w: World, source: Directory, schema: Schema)
    ensures forall name :: name in InvalidOf(w, Collect(source, schema), schema) <==>
                           name in schema.required && Broken(w, source, schema, name)
  {
    hide Read, Broken, Kept, CollectedFiles;
    var files := CollectedFiles(source, schema);
    FlatMapContains(InvalidRequired(w, files, schema), Sorted(files.Keys));
    forall name ensures name in InvalidOf(w, Collect(source, schema), schema) <==>
                        name in schema.required && Broken(w, source, schema, name) {
      CollectedAreKept(source, schema, name);
      if name in files { BrokenExactly(w, source, schema, name); } else { BrokenIsKept(w, source, schema, name); }
    }
  }

  lemma BrokenIsKept(w: World, source: Directory, schema: Schema, name: string)
    ensures Broken(w, source, schema, name) ==> Kept(source, schema, name)
  {
  }

  lemma MissingExactly(source: Directory, schema: Schema)
    ensures forall name :: name in Collect(source, schema).missing <==>
            name in schema.required && !Kept(source, schema, name)
  {
    hide Kept, CollectedFiles;
    var files := CollectedFiles(source, schema);
    FlatMapContains(MissingFrom(files), schema.required);
    forall name
      ensures name in Collect(source, schema).missing <==> name in schema.required && !Kept(source, schema, name) {
      CollectedAreKept(source, schema, name);
    }
  }

  // ---- the warnings ----

  /** Which artifact calls for which other one beside it. */
  predicate CallsFor(name: string, other: string) {
    || (name == "runtime_report.json" && other == "runtime_events.jsonl")
    || (name == "adapter_report.json" && other == "adapter_trace.jsonl")
    || (name == "rollback_report.json" && (other == "rollback_plan.json" || other == "failure_trace.jsonl"))
    || (name == "policy_report.json" && other == "policy_trace.jsonl")
  }

  /** What the check warns of: files over the limit, optional files that cannot be read, another runtime version, and
      artifacts that a kept one calls for. */
  ghost predicate Warns(w: World, source: Directory, schema: Schema, warning: Warning) {
    match warning
    case TooLarge(name) =>
      name in source && !(name != "" && name[0] == '.') && name in schema.recognised && |source[name]| > schema.maxSize
    case InvalidOptional(name) => name !in schema.required && Broken(w, source, schema, name)
    case WrongVersion(name) =>
      exists fields :: Kept(source, schema, name) && IsJsonName(name) && w.parse(source[name]) == Some(Obj(fields))
                       && RuntimeVersion in fields && fields[RuntimeVersion] != Str("1.0.0")
    case OptionalMissing(name) =>
      !Kept(source, schema, name) && exists other :: Kept(source, schema, other) && CallsFor(other, name)
  }

  /** The unsupported files are the visible ones that are not recognised. */
  lemma UnsupportedExactly(source: Directory, schema: Schema)
    ensures forall name :: name in Collect(source, schema).unsupported <==>
              name in source && !(name != "" && name[0] == '.') && name !in schema.recognised
  {
    var names := Sorted(source.Keys);
    FlatMapContains(UnsupportedIn(schema), names);
    forall name | name in source && !(name != "" && name[0] == '.') && name !in schema.recognised
      ensures name in Collect(source,
                              schema).unsupported { assert name in names && name in UnsupportedIn(schema)(name); }
  }

  lemma LargeExactly(source: Directory, schema: Schema, warning: Warning)
    ensures warning in Collect(source, schema).warnings <==>
            warning.TooLarge? && warning.name in source && !(warning.name != "" && warning.name[0] == '.')
            && warning.name in schema.recognised && |source[warning.name]| > schema.maxSize
  {
    FlatMapContains(TooLargeIn(source, schema), Sorted(source.Keys));
  }

  lemma ReadWarningExactly(w: World, source: Directory, schema: Schema, name: string, warning: Warning)
    requires name in CollectedFiles(source, schema)
    ensures warning in ReadWarnings(w, CollectedFiles(source, schema), schema)(name) <==>
            (warning.InvalidOptional? || warning.WrongVersion?) && warning.name == name
            && Warns(w, source, schema, warning)
  {
    hide CollectedFiles, IsJsonName;
    CollectedAreKept(source, schema, name);
  }

  lemma ReadWarningsExactly(w: World, source: Directory, schema: Schema, warning: Warning)
    ensures var files := CollectedFiles(source, schema);
            warning in FlatMap(ReadWarnings(w, files, schema), Sorted(files.Keys)) <==>
            (warning.InvalidOptional? || warning.WrongVersion?) && Warns(w, source, schema, warning)
  {
    hide CollectedFiles, ReadWarnings, FlatMap, Warns;
    var files := CollectedFiles(source, schema);
    FlatMapContains(ReadWarnings(w, files, schema), Sorted(files.Keys));
    forall name | name in files
      ensures warning in ReadWarnings(w, files, schema)(name) <==>
              (warning.InvalidOptional? || warning.WrongVersion?) && warning.name == name
              && Warns(w, source, schema, warning)
    {
      ReadWarningExactly(w, source, schema, name, warning);
    }
    if (warning.InvalidOptional? || warning.WrongVersion?) && Warns(w, source, schema, warning) {
      WarnedIsKept(w, source, schema, warning);
      CollectedAreKept(source, schema, warning.name);
      assert warning.name in Sorted(files.Keys);
    }
  }

  lemma WarnedIsKept(w: World, source: Directory, schema: Schema, warning: Warning)
    requires (warning.InvalidOptional? || warning.WrongVersion?) && Warns(w, source, schema, warning)
    ensures Kept(source, schema, warning.name)
  {
  }

  lemma ExpectedExactly(present: set<string>, name: string)
    ensures name in FlatMap(Expected(present), EXPECTATIONS) <==>
            exists other :: other in present && CallsFor(other, name)
  {
    hide RUNTIME_REPORT_FILE, POLICY_REPORT_FILE, CallsFor;
    FlatMapContains(Expected(present), EXPECTATIONS);
    ExpectationsAre();
    forall other ensures CallsFor(other, name) <==> exists e :: e in EXPECTATIONS && e.0 == other && name in e.1 {
      CallsForExactly(other, name);
    }
    if other :| other in present && CallsFor(other, name) {
      var e :| e in EXPECTATIONS && e.0 == other && name in e.1;
      assert name in Expected(present)(e);
    }
    if name in FlatMap(Expected(present), EXPECTATIONS) {
      var e :| e in EXPECTATIONS && name in Expected(present)(e);
      assert CallsFor(e.0, name);
    }
  }

  lemma ExpectationsAre()
    ensures |EXPECTATIONS| == 4
    ensures EXPECTATIONS[0] == ("runtime_report.json", ["runtime_events.jsonl"])
    ensures EXPECTATIONS[1] == ("adapter_report.json", ["adapter_trace.jsonl"])
    ensures EXPECTATIONS[2] == ("rollback_report.json", ["rollback_plan.json", "failure_trace.jsonl"])
    ensures EXPECTATIONS[3] == ("policy_report.json", ["policy_trace.jsonl"])
  {
  }

  lemma CallsForExactly(other: string, name: string)
    ensures CallsFor(other, name) <==> exists e :: e in EXPECTATIONS && e.0 == other && name in e.1
  {
    ExpectationsAre();
    var t := EXPECTATIONS;
    assert t[0] in t && t[1] in t && t[2] in t && t[3] in t;
    assert t[0].1[0] in t[0].1 && t[1].1[0] in t[1].1 && t[2].1[0] in t[2].1 && t[2].1[1] in t[2].1
      && t[3].1[0] in t[3].1;
  }

  lemma OptionalExactly(present: set<string>, found: seq<Warning>, warning: Warning)
    requires |found| == |MissingOptional(present)|
    requires forall i :: 0 <= i < |found| ==> found[i] == OptionalMissing(MissingOptional(present)[i])
    ensures warning in found <==>
            warning.OptionalMissing? && warning.name !in present
            && exists other :: other in present && CallsFor(other, warning.name)
  {
    hide CallsFor, EXPECTATIONS, Expected;
    var expected := FlatMap(Expected(present), EXPECTATIONS);
    FlatMapContains(AbsentOf(present), expected);
    ExpectedExactly(present, warning.name);
    var missing := MissingOptional(present);
    if warning.OptionalMissing? && warning.name in missing {
      var i :| 0 <= i < |missing| && missing[i] == warning.name;
      assert found[i] == warning;
    }
  }

  /** The warnings of the source check are exactly these. */
  lemma WarningsAreExact(w: World, source: Directory, schema: Schema)
    ensures forall x :: x in CheckOf(w, Collect(source, schema), schema).warnings <==> Warns(w, source, schema, x)
  {
    hide Verdict, SourceRows, Violations, Kept, ReadWarnings, MissingOptional, FlatMap, CallsFor, IsJsonName;
    var c := Collect(source, schema);
    var found := Each(n => OptionalMissing(n), MissingOptional(c.files.Keys));
    assert WarningsOf(w, c, schema) ==
           c.warnings + FlatMap(ReadWarnings(w, c.files, schema), Sorted(c.files.Keys)) + found;
    forall x ensures x in CheckOf(w, c, schema).warnings <==> Warns(w, source, schema, x) {
      LargeExactly(source, schema, x);
      ReadWarningsExactly(w, source, schema, x);
      OptionalExactly(c.files.Keys, found, x);
      forall name ensures name in c.files <==> Kept(source, schema, name) { CollectedAreKept(source, schema, name); }
      assert x in WarningsOf(w, c, schema) <==> Warns(w, source, schema, x);
    }
  }

  // ---- the status ----

  /** What the check takes as a payload: a kept JSON file that decodes to an object. */
  lemma ParsedExactly(w: World, source: Directory, schema: Schema, name: string, fields: Object)
    ensures var parsed := Parsed(w, CollectedFiles(source, schema));
            name in parsed && parsed[name] == fields <==>
            Kept(source, schema, name) && IsJsonName(name) && w.parse(source[name]) == Some(Obj(fields))
  {
    hide CollectedFiles, IsJsonName, Kept;
    CollectedAreKept(source, schema, name);
  }

  ghost predicate SomethingCrosses(parsed: Payloads) {
    exists v: Violation :: v.file in parsed && Crosses(parsed[v.file], v.file, v.breach)
  }

  ghost predicate SomethingBroken(w: World, source: Directory, schema: Schema) {
    exists name :: name in schema.required && Broken(w, source, schema, name)
  }

  ghost predicate SomethingMissing(source: Directory, schema: Schema) {
    exists name :: name in schema.required && !Kept(source, schema, name)
  }

  ghost predicate SomethingWarned(w: World, source: Directory, schema: Schema) {
    exists x :: Warns(w, source, schema, x)
  }

  lemma NonEmpty<T(!new)>(s: seq<T>)
    ensures s != [] <==> exists x :: x in s
  {
    if s != [] { assert s[0] in s; }
  }

  lemma RowsFilledExactly(w: World, source: Directory, schema: Schema)
    ensures var check, parsed := CheckOf(w, Collect(source, schema), schema), Parsed(w, CollectedFiles(source, schema));
      && (check.rows.safety != [] <==> SomethingCrosses(parsed))
      && (check.rows.json != [] <==> SomethingBroken(w, source, schema))
      && (check.rows.required != [] <==> SomethingMissing(source, schema))
      && (check.rows.profile != [] <==> IdsDiffer(parsed))
      && (check.rows.policy != [] <==> SelectionsDiffer(parsed))
      && (check.rows.runtimePolicy != [] <==> BlockedYetAllowed(parsed))
      && check.rows.manifest == [] && check.rows.copied == [] && check.rows.hashes == []
      && (WarningsOf(w, Collect(source, schema), schema) != [] <==> SomethingWarned(w, source, schema))
  {
    hide Crosses, Broken, Kept, Warns, IdsDiffer, SelectionsDiffer, BlockedYetAllowed, Violations, InvalidOf;
    hide PolicyMismatch, RuntimeInconsistency, ProfileMismatches, WarningsOf, Parsed, CollectedFiles, SameProfile;
    var c, parsed := Collect(source, schema), Parsed(w, CollectedFiles(source, schema));
    ViolationsAreExact(parsed);
    NonEmpty(Violations(parsed));
    InvalidExactly(w, source, schema);
    NonEmpty(InvalidOf(w, c, schema));
    MissingExactly(source, schema);
    NonEmpty(c.missing);
    IdsDifferExactly(parsed);
    MismatchesExactlyWhenDifferent(ProfileEntries(parsed));
    SelectionsDifferExactly(parsed);
    BlockedYetAllowedExactly(parsed);
    WarningsAreExact(w, source, schema);
    NonEmpty(CheckOf(w, c, schema).warnings);
  }

  /** The status of the source check is the first thing wrong with the directory, in this order; with nothing wrong it
      tells whether there is something to warn of. */
  lemma SourceStatusIsExact(w: World, source: Directory, schema: Schema)
    ensures var parsed := Parsed(w, CollectedFiles(source, schema));
            CheckOf(w, Collect(source, schema), schema).status ==
            if SomethingCrosses(parsed) then BlockedSafety
            else if SomethingBroken(w, source, schema) then BadJson
            else if SomethingMissing(source, schema) then MissingArtifacts
            else if IdsDiffer(parsed) then ProfilesDiffer
            else if SelectionsDiffer(parsed) then DecisionsDiffer
            else if BlockedYetAllowed(parsed) then RuntimeInconsistent
            else if SomethingWarned(w, source, schema) then ValidWithWarnings else Valid
  {
    hide SomethingCrosses, SomethingBroken, SomethingMissing, SomethingWarned, IdsDiffer, SelectionsDiffer, Collect;
    hide BlockedYetAllowed, SourceRows, WarningsOf, Parsed, InvalidOf, Violations, Verdict;
    var c := Collect(source, schema);
    RowsFilledExactly(w, source, schema);
    VerdictUnrolled(CheckOf(w, c, schema).rows, WarningsOf(w, c, schema) != []);
  }

  /** Report and decision that select two different policies never pass; with nothing of higher priority wrong, that is
      the status. */
  lemma DifferingSelectionsNeverPass(w: World, source: Directory, schema: Schema, a: string, b: string)
    requires var parsed := Parsed(w, CollectedFiles(source, schema));
             && POLICY_REPORT_FILE in parsed && Get(parsed[POLICY_REPORT_FILE], SelectedPolicy) == Str(a)
             && POLICY_DECISION_FILE in parsed && Get(parsed[POLICY_DECISION_FILE], SelectedPolicy) == Str(b) && a != b
    ensures var s, parsed := CheckOf(w, Collect(source, schema), schema).status,
            Parsed(w, CollectedFiles(source, schema));
      && !Passing(s)
      && ((!SomethingCrosses(parsed) && !SomethingBroken(w, source, schema) && !SomethingMissing(source, schema)
           && !IdsDiffer(parsed)) ==> s == DecisionsDiffer)
  {
    hide SomethingCrosses, SomethingBroken, SomethingMissing, SomethingWarned, IdsDiffer, Collect, CheckOf, Parsed;
    hide BlockedYetAllowed, POLICY_REPORT_FILE, POLICY_DECISION_FILE, PyEq;
    var parsed := Parsed(w, CollectedFiles(source, schema));
    assert Holds(parsed, POLICY_REPORT_FILE, parsed[POLICY_REPORT_FILE]);
    assert Holds(parsed, POLICY_DECISION_FILE, parsed[POLICY_DECISION_FILE]);
    PyEqOnTexts(a, b);
    SourceStatusIsExact(w, source, schema);
  }

  /** A blocked plan beside a decision that allows a dry run never passes; with nothing of higher priority wrong, that
      is
      the status. */
  lemma BlockedPlanNeverPasses(w: World, source: Directory, schema: Schema)
    requires var parsed := Parsed(w, CollectedFiles(source, schema));
             && PLAN_FILE in parsed && BeginsBlocked(Get(parsed[PLAN_FILE], PlanStatus))
             && POLICY_DECISION_FILE in parsed && Allows(Get(parsed[POLICY_DECISION_FILE], SelectedPolicy))
    ensures var s, parsed := CheckOf(w, Collect(source, schema), schema).status,
            Parsed(w, CollectedFiles(source, schema));
      && !Passing(s)
      && ((!SomethingCrosses(parsed) && !SomethingBroken(w, source, schema) && !SomethingMissing(source, schema)
           && !IdsDiffer(parsed) && !SelectionsDiffer(parsed)) ==> s == RuntimeInconsistent)
  {
    hide SomethingCrosses, SomethingBroken, SomethingMissing, SomethingWarned, IdsDiffer, Collect, CheckOf, Parsed;
    hide SelectionsDiffer, PLAN_FILE, POLICY_DECISION_FILE;
    var parsed := Parsed(w, CollectedFiles(source, schema));
    assert Holds(parsed, PLAN_FILE, parsed[PLAN_FILE]);
    assert Holds(parsed, POLICY_DECISION_FILE, parsed[POLICY_DECISION_FILE]);
    SourceStatusIsExact(w, source, schema);
  }

  // ---- the reasons ----

  /** The id every other one is held against: the plan's, or that of the first file in order that states one. */
  ghost predicate IsBaseline(parsed: Payloads, id: string) {
    if exists x :: PLAN_FILE in parsed && StatesId(parsed[PLAN_FILE], x)
    then PLAN_FILE in parsed && StatesId(parsed[PLAN_FILE], id)
    else exists name :: name in parsed && StatesId(parsed[name], id)
                        && forall other, x :: other in parsed && StatesId(parsed[other], x) ==> TextLeq(name, other)
  }

  lemma BaselineIsBaseline(parsed: Payloads)
    requires ProfileEntries(parsed) != map[]
    ensures IsBaseline(parsed, Baseline(ProfileEntries(parsed)))
  {
    hide StatesId, ProfileIdOf, TextLeq, PLAN_FILE;
    var entries := ProfileEntries(parsed);
    forall name, id | name in parsed
      ensures StatesId(parsed[name], id) <==> name in entries && entries[name] == id { IdIsStated(parsed[name], id); }
    if PLAN_FILE !in entries {
      SortedNonempty(entries);
      var first := Sorted(entries.Keys)[0];
      SortedAscends(entries.Keys);
      SortedTotal(entries.Keys);
    }
  }

  /** The first of a sorted listing comes before every other. */
  lemma SortedTotal(s: set<string>)
    requires s != {}
    ensures Sorted(s) != [] && forall x :: x in s ==> TextLeq(Sorted(s)[0], x)
  {
    var y :| y in s;
    assert y in Sorted(s);
    SortedAscends(s);
    forall x | x in s ensures TextLeq(Sorted(s)[0], x) {
      assert x in Sorted(s);
      var i :| 0 <= i < |Sorted(s)| && Sorted(s)[i] == x;
      TextLeqTotal(x, x);
    }
  }

  lemma MismatchesExactly(entries: map<string, string>, name: string)
    requires entries != map[] && |entries.Values| > 1
    ensures name in ProfileMismatches(entries) <==> name in entries && entries[name] != Baseline(entries)
  {
    hide Baseline;
    var f, names := DiffersFrom(entries, Baseline(entries)), Sorted(entries.Keys);
    assert ProfileMismatches(entries) == FlatMap(f, names);
    FlatMapContains(f, names);
    if name in entries && entries[name] != Baseline(entries) {
      assert name in names && name in f(name);
    }
  }

  /** This file states another id than the baseline. */
  ghost predicate StatesAnother(parsed: Payloads, name: string, base: string) {
    name in parsed && exists x :: StatesId(parsed[name], x) && x != base
  }

  lemma StatesAnotherExactly(parsed: Payloads, name: string, base: string)
    ensures var entries := ProfileEntries(parsed);
            StatesAnother(parsed, name, base) <==> name in entries && entries[name] != base
  {
    hide StatesId, ProfileIdOf;
    if name in parsed {
      forall id ensures ProfileIdOf(parsed[name]) == Some(id) <==> StatesId(parsed[name], id) {
        IdIsStated(parsed[name], id);
      }
    }
  }

  /** Which files the check blames for differing ids: those that state another id than the baseline. */
  lemma BlamedExactly(parsed: Payloads)
    requires IdsDiffer(parsed)
    ensures exists id :: (IsBaseline(parsed, id)
                          && forall name :: name in ProfileMismatches(ProfileEntries(parsed)) <==>
                                            StatesAnother(parsed, name, id))
  {
    hide StatesAnother, IsBaseline, Baseline, ProfileMismatches, ProfileEntries, IdsDiffer;
    var entries := ProfileEntries(parsed);
    IdsDifferExactly(parsed);
    OneValueExactly(entries);
    SomeEntry(entries);
    var base := Baseline(entries);
    BaselineIsBaseline(parsed);
    forall name ensures name in ProfileMismatches(entries) <==> StatesAnother(parsed, name, base) {
      MismatchesExactly(entries, name);
      StatesAnotherExactly(parsed, name, base);
    }
  }

  lemma SomeEntry(entries: map<string, string>)
    requires !SameProfile(entries)
    ensures entries != map[]
  {
  }

  /** The reasons of a failing check name exactly what is wrong. */
  lemma SourceReasonsAreExact(w: World, source: Directory, schema: Schema)
    ensures var check, parsed := CheckOf(w, Collect(source, schema), schema), Parsed(w, CollectedFiles(source, schema));
      && (forall f :: f in check.rows.safety <==>
            f.Breached? && f.violation.file in parsed
            && Crosses(parsed[f.violation.file], f.violation.file, f.violation.breach))
      && (forall f :: f in check.rows.json <==>
            f.InvalidJson? && f.name in schema.required && Broken(w, source, schema, f.name))
      && (forall f :: f in check.rows.required <==>
            f.MissingRequired? && f.name in schema.required && !Kept(source, schema, f.name))
      && (forall f :: f in check.rows.profile <==>
            f.ProfileDiffers? && f.name in ProfileMismatches(ProfileEntries(parsed)))
      && (forall f :: f in check.rows.policy <==> f.PolicyDiffers? && SelectionsDiffer(parsed))
      && (forall f :: f in check.rows.runtimePolicy <==> f.BlockedPlanAllowed? && BlockedYetAllowed(parsed))
  {
    hide Crosses, Broken, Kept, Violations, InvalidOf, PolicyMismatch, RuntimeInconsistency, ProfileMismatches;
    hide SelectionsDiffer, BlockedYetAllowed, WarningsOf, Parsed, CollectedFiles, Verdict;
    var c, parsed := Collect(source, schema), Parsed(w, CollectedFiles(source, schema));
    var check := CheckOf(w, c, schema);
    ViolationsAreExact(parsed);
    InvalidExactly(w, source, schema);
    MissingExactly(source, schema);
    BreachedRow(check.rows.safety, Violations(parsed));
    NamedRow(check.rows.json, InvalidOf(w, c, schema), true);
    NamedRow(check.rows.required, c.missing, false);
    BlamedRow(check.rows.profile, ProfileMismatches(ProfileEntries(parsed)));
    SelectionsDifferExactly(parsed);
    BlockedYetAllowedExactly(parsed);
  }

  lemma BlamedRow(row: seq<Fault>, names: seq<string>)
    requires |row| == |names| && forall i :: 0 <= i < |row| ==> row[i] == ProfileDiffers(names[i])
    ensures forall f :: f in row <==> f.ProfileDiffers? && f.name in names
  {
    forall f ensures f in row <==> f.ProfileDiffers? && f.name in names {
      if f.ProfileDiffers? && f.name in names {
        var i :| 0 <= i < |names| && names[i] == f.name;
        assert row[i] == f;
      }
    }
  }

  lemma BreachedRow(row: seq<Fault>, violations: seq<Violation>)
    requires |row| == |violations| && forall i :: 0 <= i < |row| ==> row[i] == Breached(violations[i])
    ensures forall f :: f in row <==> f.Breached? && f.violation in violations
  {
    forall f ensures f in row <==> f.Breached? && f.violation in violations {
      if f.Breached? && f.violation in violations {
        var i :| 0 <= i < |violations| && violations[i] == f.violation;
        assert row[i] == f;
      }
    }
  }

  lemma NamedRow(row: seq<Fault>, names: seq<string>, json: bool)
    requires |row| == |names|
    requires forall i :: 0 <= i < |row| ==> row[i] == if json then InvalidJson(names[i]) else MissingRequired(names[i])
    ensures forall f :: f in row <==> (if json then f.InvalidJson? else f.MissingRequired?) && f.name in names
  {
    forall f ensures f in row <==> (if json then f.InvalidJson? else f.MissingRequired?) && f.name in names {
      if (if json then f.InvalidJson? else f.MissingRequired?) && f.name in names {
        var i :| 0 <= i < |names| && names[i] == f.name;
        assert row[i] == f;
      }
    }
  }

  // ---- the texts of the reasons ----

  lemma FaultTextsAre(row: seq<Fault>, texts: seq<string>)
    requires texts == Each(f => FaultText(f), row)
    ensures forall r :: r in texts <==> exists f :: f in row && FaultText(f) == r
  {
    hide FaultText;
    forall r ensures r in texts <==> exists f :: f in row && FaultText(f) == r {
      if f :| f in row && FaultText(f) == r {
        var i :| 0 <= i < |row| && row[i] == f;
        assert texts[i] == r;
      }
    }
  }

  lemma FailingReasons(check: Check, r: string)
    requires !Passing(check.status)
    ensures r in CheckReasons(check) <==> exists f :: f in RowOf(check.rows, check.status) && FaultText(f) == r
  {
    hide FaultText, RowOf;
    FaultTextsAre(RowOf(check.rows, check.status), CheckReasons(check));
  }

  /** What a failing check gives as reasons: the files or the comparison that make it fail. */
  ghost predicate IsReason(w: World, source: Directory, schema: Schema, status: Status, r: string) {
    var parsed := Parsed(w, CollectedFiles(source, schema));
    match status
    case BlockedSafety =>
      exists v: Violation :: (v.file in parsed && Crosses(parsed[v.file], v.file, v.breach)
                              && r == "safety_boundary_violation:" + ViolationText(v))
    case BadJson =>
      exists name :: (name in schema.required && Broken(w, source, schema, name) && r == "invalid_json:" + name)
    case MissingArtifacts =>
      exists name :: (name in schema.required && !Kept(source, schema, name)
                      && r == "missing_required_artifact:" + name)
    case ProfilesDiffer =>
      exists name :: name in ProfileMismatches(ProfileEntries(parsed)) && r == "profile_id_mismatch:" + name
    case DecisionsDiffer => r == "policy_decision_mismatch:selected_policy"
    case RuntimeInconsistent => r == "policy_runtime_inconsistency:blocked_plan_allowed"
    case ValidWithWarnings => r == "evidence_bundle_valid_with_warnings"
    case Valid => r == "evidence_bundle_valid"
    case _ => false
  }

  /** The reasons of the source check, as texts, are exactly these. */
  lemma ReasonTextsAreExact(w: World, source: Directory, schema: Schema, r: string)
    ensures var check := CheckOf(w, Collect(source, schema), schema);
            r in CheckReasons(check) <==> IsReason(w, source, schema, check.status, r)
  {
    hide Crosses, Broken, Kept, CheckOf, Collect, SelectionsDiffer, BlockedYetAllowed, Parsed, CollectedFiles;
    hide ProfileMismatches, ProfileEntries, SomethingCrosses, SomethingBroken, SomethingMissing, SomethingWarned;
    hide IdsDiffer, CheckReasons, ViolationText;
    var check := CheckOf(w, Collect(source, schema), schema);
    SourceStatusIsExact(w, source, schema);
    SourceReasonsAreExact(w, source, schema);
    if Passing(check.status) {
      PassingReason(check);
    } else {
      FailingReasons(check, r);
      if IsReason(w, source, schema, check.status, r) { ReasonHasFault(w, source, schema, check, r); }
    }
  }

  lemma PassingReason(check: Check)
    requires Passing(check.status)
    ensures CheckReasons(check) ==
            [if check.status == Valid then "evidence_bundle_valid" else "evidence_bundle_valid_with_warnings"]
  {
  }

  lemma ReasonHasFault(w: World, source: Directory, schema: Schema, check: Check, r: string)
    requires check == CheckOf(w, Collect(source, schema), schema) && !Passing(check.status)
    requires IsReason(w, source, schema, check.status, r)
    ensures exists f :: f in RowOf(check.rows, check.status) && FaultText(f) == r
  {
    hide Crosses, Broken, Kept, CheckOf, Collect, SelectionsDiffer, BlockedYetAllowed, Parsed, CollectedFiles;
    hide ProfileMismatches, ProfileEntries, ViolationText;
    hide SomethingCrosses, SomethingBroken, SomethingMissing, SomethingWarned, IdsDiffer;
    SourceStatusIsExact(w, source, schema);
    SourceReasonsAreExact(w, source, schema);
    var parsed := Parsed(w, CollectedFiles(source, schema));
    match check.status {
      case BlockedSafety =>
        var v: Violation :| (v.file in parsed && Crosses(parsed[v.file], v.file, v.breach)
                             && r == "safety_boundary_violation:" + ViolationText(v));
        assert Breached(v) in check.rows.safety && FaultText(Breached(v)) == r;
      case BadJson =>
        var name :| name in schema.required && Broken(w, source, schema, name) && r == "invalid_json:" + name;
        assert InvalidJson(name) in check.rows.json && FaultText(InvalidJson(name)) == r;
      case MissingArtifacts =>
        var name :| name in schema.required && !Kept(source, schema, name) && r == "missing_required_artifact:" + name;
        assert MissingRequired(name) in check.rows.required && FaultText(MissingRequired(name)) == r;
      case ProfilesDiffer =>
        var name :| name in ProfileMismatches(ProfileEntries(parsed)) && r == "profile_id_mismatch:" + name;
        assert ProfileDiffers(name) in check.rows.profile && FaultText(ProfileDiffers(name)) == r;
      case DecisionsDiffer => assert PolicyDiffers in check.rows.policy && FaultText(PolicyDiffers) == r;
      case RuntimeInconsistent =>
        assert BlockedPlanAllowed in check.rows.runtimePolicy && FaultText(BlockedPlanAllowed) == r;
      case _ =>
    }
  }
}
