/** The evidence stage of a run whose gate passed: which of the staged files it keeps, and exactly when it finds
    something wrong in them. */
module EvidenceStageTheorems {
  import opened Base
  import opened JsonValues
  import opened SafetyGate
  import opened PlanBuilder
  import opened RuntimePlan
  import opened RuntimeStage
  import opened PipelineInputs
  import opened EvidenceSource
  import opened EvidenceCheck
  import Adapters
  import RollbackPlanner
  import PolicyEvaluator
  import PolicySimulator
  import Chain

  // ---- names ----

  predicate IsTrace(s: Staged) {
    s.RuntimeEventsStaged? || s.AdapterTraceStaged? || s.FailureTraceStaged? || s.PolicyTraceStaged?
  }

  predicate IsRequired(s: Staged) {
    s.PlanStaged? || s.RuntimeReportStaged? || s.PolicyReportStaged? || s.PolicyDecisionStaged?
  }

  lemma NamesAreJsonOrTraces(s: Staged)
    ensures IsJsonName(StagedName(s)) <==> !IsTrace(s)
    ensures !Hidden(StagedName(s))
  {
  }

  lemma NamesAreRecognised(s: Staged)
    ensures StagedName(s) in STANDARD.recognised
  {
  }

  lemma RequiredNames(name: string)
    ensures name in STANDARD.required <==> exists s :: IsRequired(s) && StagedName(s) == name
  {
    var r := STANDARD.required;
    assert r[0] == StagedName(PlanStaged) && r[1] == StagedName(RuntimeReportStaged);
    assert r[2] == StagedName(PolicyReportStaged) && r[3] == StagedName(PolicyDecisionStaged);
    assert r[0] in r && r[1] in r && r[2] in r && r[3] in r;
  }

  // ---- the documents a run stages ----

  /** The object some bytes hold. */
  function Decoded(w: World, bytes: Option<Bytes>): Option<Object> {
    match bytes
    case None => None
    case Some(b) => match w.parse(b) { case Some(Obj(fields)) => Some(fields) case _ => None }
  }

  /** The document in a staged JSON file: copied from the input or written by the run. */
  function StagedDocument(w: World, i: Inputs, docs: Documents, s: Staged): Option<Object> {
    if FromInput(s) then Decoded(w, InputBytes(i, s)) else WrittenDocument(docs, s)
  }

  /** The documents a run writes read back. */
  ghost predicate WrittenReadBack(w: World, docs: Documents) {
    forall s :: match WrittenDocument(docs, s) case None => true case Some(o) => ReadsBack(w, o)
  }

  /** The input files that get staged hold objects, the profile file this one. */
  ghost predicate InputsDecode(w: World, i: Inputs, profile: Object) {
    && (forall s :: FromInput(s) && InputBytes(i, s).Some? ==> Decoded(w, InputBytes(i, s)).Some?)
    && (InputBytes(i, ProfileStaged).Some? ==> Decoded(w, InputBytes(i, ProfileStaged)) == Some(profile))
  }

  lemma PlanWithinClaims(d: DryRun, profile: Object)
    requires Conforms(profile) && d.plan == PlanOf(profile)
    ensures WithinClaims(PlanToJson(d.plan)) && WithinClaims(RuntimeReportToJson(d))
  {
    hide PlanOf, Gate, RecordsToJson;
    BuiltPlanStatus(profile);
  }

  lemma ReportsWithinClaims(a: Adapters.AdapterReport, r: RollbackPlanner.RollbackReport, d: PolicyEvaluator.Decision,
                            plan: Object)
    ensures WithinClaims(Adapters.AdapterReportToJson(a))
    ensures WithinClaims(RollbackPlanner.RollbackReportToJson(r)) && WithinClaims(RollbackPlanner.RollbackPlanToJson(r))
    ensures WithinClaims(PolicySimulator.DecisionToJson(d)) && WithinClaims(PolicySimulator.PolicyReportToJson(d, plan))
  {
  }

  // ---- no selectable policy contains a forbidden word ----

  /** A character of the k-th forbidden word that the policy text does not contain. */
  function Witness(p: PolicyEvaluator.Policy, k: nat): char {
    if k == 0 || k == 1 then 'x'
    else if k == 3 then if p.SelectHumanReview? then 'f' else 'w'
    else if k == 4 || k == 5 then 'j'
    else if p.SelectRollbackThenStop? || p.SelectRollback? || p.SelectSafeStop? then 'v' else 'p'
  }

  /** The text of a policy, and the four witness characters it lacks. */
  ghost predicate LacksWitnesses(p: PolicyEvaluator.Policy, text: string) {
    forall k :: 0 <= k < |text| ==>
      text[k] != 'x' && text[k] != 'j' && text[k] != Witness(p, 3) && text[k] != Witness(p, 2)
  }

  lemma NoActionLacks()
    ensures LacksWitnesses(PolicyEvaluator.SelectNoAction, "no_action_taken")
  {
  }

  lemma RollbackThenStopLacks()
    ensures LacksWitnesses(PolicyEvaluator.SelectRollbackThenStop, "rollback_then_safe_stop_simulation_only")
  {
  }

  lemma RollbackLacks()
    ensures LacksWitnesses(PolicyEvaluator.SelectRollback, "rollback_simulation_only")
  {
  }

  lemma SafeStopLacks()
    ensures LacksWitnesses(PolicyEvaluator.SelectSafeStop, "safe_stop_simulation_only")
  {
  }

  lemma HumanReviewLacks()
    ensures LacksWitnesses(PolicyEvaluator.SelectHumanReview, "human_review_required")
  {
  }

  lemma BlockedBoundaryLacks()
    ensures LacksWitnesses(PolicyEvaluator.SelectBlockedBoundary, "blocked_by_safety_boundary")
  {
  }

  lemma BlockedArtifactsLacks()
    ensures LacksWitnesses(PolicyEvaluator.SelectBlockedArtifacts, "blocked_invalid_artifacts")
  {
  }

  lemma EveryPolicyLacks(p: PolicyEvaluator.Policy)
    ensures LacksWitnesses(p, PolicyEvaluator.PolicyText(p))
  {
    hide LacksWitnesses;
    match p {
      case SelectNoAction => NoActionLacks();
      case SelectRollbackThenStop => RollbackThenStopLacks();
      case SelectRollback => RollbackLacks();
      case SelectSafeStop => SafeStopLacks();
      case SelectHumanReview => HumanReviewLacks();
      case SelectBlockedBoundary => BlockedBoundaryLacks();
      case SelectBlockedArtifacts => BlockedArtifactsLacks();
    }
  }

  lemma WitnessAbsent(p: PolicyEvaluator.Policy, k: nat)
    requires k < |FORBIDDEN|
    ensures Witness(p, k) !in PolicyEvaluator.PolicyText(p)
  {
    hide PolicyEvaluator.PolicyText;
    EveryPolicyLacks(p);
  }

  lemma WitnessPresent(p: PolicyEvaluator.Policy, k: nat)
    requires k < |FORBIDDEN|
    ensures Witness(p, k) in FORBIDDEN[k]
  {
    assert "hardware_execute"[10] == 'x' && "real_execute"[6] == 'x' && "voltage_adjust"[10] == 'j'
      && "timing_adjust"[9] == 'j';
    assert "apply_to_device"[1] == 'p' && "apply_to_device"[11] == 'v' && "firmware_update"[4] == 'w'
      && "firmware_update"[0] == 'f';
    assert "driver_apply"[3] == 'v' && "driver_apply"[8] == 'p';
  }

  lemma MissingCharacter(s: string, part: string, c: char)
    requires c in part && c !in s
    ensures !ContainsText(s, part)
  {
    var k :| 0 <= k < |part| && part[k] == c;
    forall i | 0 <= i <= |s| ensures !TextAt(s, part, i) {
      if i + |part| <= |s| {
        assert s[i..i + |part|][k] == s[i + k] && s[i + k] in s;
      }
    }
  }

  lemma NoPolicyIsForbidden(p: PolicyEvaluator.Policy)
    ensures !ForbiddenPolicy(PolicyEvaluator.PolicyText(p))
  {
    hide PolicyEvaluator.PolicyText, FORBIDDEN, Witness;
    forall k | 0 <= k < |FORBIDDEN| ensures !ContainsText(PolicyEvaluator.PolicyText(p), FORBIDDEN[k]) {
      WitnessAbsent(p, k);
      WitnessPresent(p, k);
      MissingCharacter(PolicyEvaluator.PolicyText(p), FORBIDDEN[k], Witness(p, k));
    }
  }

  /** Whatever the decision, its two documents deny execution, control and retry and select no forbidden policy. */
  lemma PolicyDocumentsSafe(d: PolicyEvaluator.Decision, plan: Object)
    ensures PolicyPayloadSafe(PolicySimulator.DecisionToJson(d))
            && PolicyPayloadSafe(PolicySimulator.PolicyReportToJson(d, plan))
  {
    hide PolicyEvaluator.PolicyText, ForbiddenPolicy, PolicyEvaluator.PolicyStateText;
    NoPolicyIsForbidden(d.selected);
  }

  lemma PoliciesAgree(d: PolicyEvaluator.Decision, plan: Object)
    ensures Get(PolicySimulator.DecisionToJson(d), SelectedPolicy) == Str(PolicyEvaluator.PolicyText(d.selected))
    ensures Get(PolicySimulator.PolicyReportToJson(d, plan), SelectedPolicy) ==
            Str(PolicyEvaluator.PolicyText(d.selected))
  {
    hide PolicyEvaluator.PolicyText, PolicyEvaluator.PolicyStateText;
  }

  lemma NeverDryRunAllowed(p: PolicyEvaluator.Policy)
    ensures PolicyEvaluator.PolicyText(p) != "dry_run_allowed"
            && PolicyEvaluator.PolicyText(p) != "dry_run_allowed_with_warnings"
  {
    assert PolicyEvaluator.PolicyText(p)[0] != 'd' && "dry_run_allowed"[0] == 'd'
      && "dry_run_allowed_with_warnings"[0] == 'd';
  }

  // ---- every stated profile id is the profile's ----

  /** The payload states no profile id but this one. */
  ghost predicate StatesOnly(p: Object, id: Json) {
    match ProfileIdOf(p) case None => true case Some(stated) => Str(stated) == id
  }

  lemma PlanStatesProfile(d: DryRun, profile: Object)
    requires HasProfileId(profile) && d.plan == PlanOf(profile)
    ensures Get(PlanToJson(d.plan), ProfileId) == Get(profile, ProfileId)
    ensures StatesOnly(PlanToJson(d.plan), Get(profile, ProfileId)) && StatesOnly(profile, Get(profile, ProfileId))
    ensures StatesOnly(RuntimeReportToJson(d), Get(profile, ProfileId))
  {
    hide PlanOf, Gate, RecordsToJson;
    BuiltPlanStatus(profile);
  }

  lemma ReportsStateProfile(a: Adapters.AdapterReport, r: RollbackPlanner.RollbackReport, d: PolicyEvaluator.Decision,
                            plan: Object)
    requires a.planProfile == r.planProfile == StringOrNone(Get(plan, ProfileId)) && Get(plan, ProfileId).Str?
    ensures StatesOnly(Adapters.AdapterReportToJson(a), Get(plan, ProfileId))
    ensures StatesOnly(RollbackPlanner.RollbackReportToJson(r), Get(plan, ProfileId))
    ensures StatesOnly(RollbackPlanner.RollbackPlanToJson(r), Get(plan, ProfileId))
    ensures StatesOnly(PolicySimulator.DecisionToJson(d), Get(plan, ProfileId))
    ensures StatesOnly(PolicySimulator.PolicyReportToJson(d, plan), Get(plan, ProfileId))
  {
  }

  lemma ReportsNameThePlansProfile(plan: Object, scenario: RollbackPlanner.ScenarioInput)
    ensures Adapters.SimulateReport(plan).planProfile == StringOrNone(Get(plan, ProfileId))
    ensures RollbackPlanner.FailureReport(plan, scenario).planProfile == StringOrNone(Get(plan, ProfileId))
  {
  }

  // ---- the staged files of a run ----

  lemma StagedReads(w: World, i: Inputs, docs: Documents, profile: Object, s: Staged)
    requires WrittenReadBack(w, docs) && InputsDecode(w, i, profile) && StagedBytes(w, i, docs, s).Some?
    ensures IsTrace(s) || StagedDocument(w, i, docs, s).Some?
    ensures Read(w, StagedName(s), StagedBytes(w, i, docs, s).value) ==
            if IsTrace(s) then NotJson else Payload(StagedDocument(w, i, docs, s).value)
  {
    hide StagedName, Adapters.AdapterReportToJson, RollbackPlanner.RollbackPlanToJson;
    hide RollbackPlanner.RollbackReportToJson, InputBytes;
    hide PolicySimulator.DecisionToJson, PolicySimulator.PolicyReportToJson, IsJsonName;
    NamesAreJsonOrTraces(s);
  }

  lemma StagingHolds(w: World, i: Inputs, docs: Documents, s: Staged)
    requires StagedBytes(w, i, docs, s).Some?
    ensures StagedName(s) in Staging(w, i, docs)
            && Staging(w, i, docs)[StagedName(s)] == StagedBytes(w, i, docs, s).value
  {
    hide StagedName, StagedBytes;
    CopiedHolds(s => StagedBytes(w, i, docs, s), |COPY_ORDER|);
    assert Turn(s) < |COPY_ORDER|;
  }

  lemma StagingIsStaged(w: World, i: Inputs, docs: Documents, name: string) returns (s: Staged)
    requires name in Staging(w, i, docs)
    ensures StagedName(s) == name && StagedBytes(w, i, docs, s) == Some(Staging(w, i, docs)[name])
  {
    hide StagedName, StagedBytes;
    CopiedHolds(s => StagedBytes(w, i, docs, s), |COPY_ORDER|);
    s :| StagedName(s) == name && StagedBytes(w, i, docs, s) == Some(Staging(w, i, docs)[name]);
  }

  function Kept(w: World, i: Inputs, docs: Documents): Directory {
    CollectedFiles(Staging(w, i, docs), STANDARD)
  }

  /** Every parsed payload of the evidence stage is one of the staged documents. */
  lemma ParsedAreDocuments(w: World, i: Inputs, docs: Documents, profile: Object, name: string) returns (s: Staged)
    requires WrittenReadBack(w, docs) && InputsDecode(w, i, profile) && name in Parsed(w, Kept(w, i, docs))
    ensures StagedName(s) == name && StagedBytes(w, i, docs, s).Some?
    ensures |StagedBytes(w, i, docs, s).value| <= STANDARD.maxSize
    ensures StagedDocument(w, i, docs, s) == Some(Parsed(w, Kept(w, i, docs))[name])
  {
    hide Staging, StagedName, StagedBytes, StagedDocument, STANDARD, WrittenReadBack, InputsDecode;
    assert name in Staging(w, i, docs) && Kept(w, i, docs)[name] == Staging(w, i, docs)[name];
    s := StagingIsStaged(w, i, docs, name);
    StagedReads(w, i, docs, profile, s);
  }

  /** Every staged file within the size limit is kept, and read if it is a document. */
  lemma DocumentsAreParsed(w: World, i: Inputs, docs: Documents, profile: Object, s: Staged)
    requires WrittenReadBack(w, docs) && InputsDecode(w, i, profile) && StagedBytes(w, i, docs, s).Some? && !IsTrace(s)
    requires |StagedBytes(w, i, docs, s).value| <= STANDARD.maxSize
    ensures StagedName(s) in Parsed(w, Kept(w, i, docs))
    ensures StagedDocument(w, i, docs, s) == Some(Parsed(w, Kept(w, i, docs))[StagedName(s)])
  {
    hide Staging, StagedName, StagedBytes, StagedDocument, STANDARD, WrittenReadBack, InputsDecode, Hidden;
    StagingHolds(w, i, docs, s);
    StagedReads(w, i, docs, profile, s);
    NamesAreJsonOrTraces(s);
    NamesAreRecognised(s);
  }

  function WrittenSize(w: World, docs: Documents, s: Staged): nat {
    match WrittenDocument(docs, s) case None => 0 case Some(o) => |w.encode(Obj(o))|
  }

  /** The four required documents fit the size limit. */
  ghost predicate RequiredFit(w: World, docs: Documents) {
    forall s :: IsRequired(s) ==> WrittenSize(w, docs, s) <= STANDARD.maxSize
  }

  lemma RequiredBytes(w: World, i: Inputs, docs: Documents, s: Staged)
    requires IsRequired(s)
    ensures StagedBytes(w, i, docs, s).Some? && |StagedBytes(w, i, docs, s).value| == WrittenSize(w, docs, s)
  {
    hide Adapters.AdapterReportToJson, PolicySimulator.DecisionToJson, PolicySimulator.PolicyReportToJson;
  }

  lemma RequiredKeptExactly(w: World, i: Inputs, docs: Documents, s: Staged)
    requires IsRequired(s)
    ensures StagedName(s) in Kept(w, i, docs) <==> WrittenSize(w, docs, s) <= STANDARD.maxSize
  {
    hide Staging, StagedName, StagedBytes, WrittenSize, Hidden;
    RequiredBytes(w, i, docs, s);
    StagingHolds(w, i, docs, s);
    NamesAreJsonOrTraces(s);
    NamesAreRecognised(s);
  }

  /** No required artifact is missing exactly when the four required documents fit. */
  lemma NothingMissingExactly(w: World, i: Inputs, docs: Documents)
    ensures FlatMap(MissingFrom(Kept(w, i, docs)), STANDARD.required) == [] <==> RequiredFit(w, docs)
  {
    hide Kept, StagedName, STANDARD, WrittenSize;
    var files := Kept(w, i, docs);
    FlatMapEmptyExactly(MissingFrom(files), STANDARD.required);
    forall s | IsRequired(s)
      ensures StagedName(s) in STANDARD.required
      ensures StagedName(s) in files <==> WrittenSize(w, docs, s) <= STANDARD.maxSize
    {
      RequiredNames(StagedName(s));
      RequiredKeptExactly(w, i, docs, s);
    }
    forall name | name in STANDARD.required ensures exists s :: IsRequired(s) && StagedName(s) == name {
      RequiredNames(name);
    }
  }

  /** No kept file is unreadable. */
  lemma NothingInvalid(w: World, i: Inputs, docs: Documents, profile: Object)
    requires WrittenReadBack(w, docs) && InputsDecode(w, i, profile)
    ensures FlatMap(InvalidRequired(w, Kept(w, i, docs), STANDARD), Sorted(Kept(w, i, docs).Keys)) == []
  {
    hide Staging, StagedName, StagedBytes, StagedDocument, STANDARD, Read, WrittenReadBack, InputsDecode;
    var files := Kept(w, i, docs);
    FlatMapEmptyExactly(InvalidRequired(w, files, STANDARD), Sorted(files.Keys));
    forall name | name in files ensures !Read(w, name, files[name]).Unreadable? {
      assert name in Staging(w, i, docs) && files[name] == Staging(w, i, docs)[name];
      var s := StagingIsStaged(w, i, docs, name);
      StagedReads(w, i, docs, profile, s);
    }
  }

  // ---- what can be wrong in the documents of a run ----

  /** The documents a passed gate gives, whatever the scenario and the policy configuration. */
  ghost predicate GatedDocuments(docs: Documents, d: DryRun, profile: Object) {
    && Conforms(profile) && d.plan == PlanOf(profile)
    && docs.plan == PlanToJson(d.plan) && docs.runtime == RuntimeReportToJson(d)
    && docs.adapter.planProfile == StringOrNone(Get(docs.plan, ProfileId))
    && docs.failure.planProfile == StringOrNone(Get(docs.plan, ProfileId))
  }

  lemma DocumentsAreGated(d: DryRun, profile: Object, scenario: RollbackPlanner.ScenarioInput,
                          config: PolicySimulator.ConfigInput)
    requires Gate(profile).passed && d.plan == PlanOf(profile)
    ensures GatedDocuments(DocumentsOf(d, scenario, config), d, profile)
  {
    hide Adapters.SimulateReport, RollbackPlanner.FailureReport, Chain.PolicyOf, PlanToJson, PlanOf;
    hide RuntimeReportToJson, Gate;
    GatePassesExactlyConforming(profile);
    ReportsNameThePlansProfile(PlanToJson(d.plan), scenario);
  }

  /** The payload keeps to the boundary and names no other profile. */
  ghost predicate Clean(p: Object, id: Json) {
    WithinClaims(p) && StatesOnly(p, id)
  }

  /** Everything a run writes is clean. */
  lemma WrittenAreClean(docs: Documents, d: DryRun, profile: Object, s: Staged)
    requires GatedDocuments(docs, d, profile) && WrittenDocument(docs, s).Some?
    ensures Clean(WrittenDocument(docs, s).value, Get(profile, ProfileId))
  {
    hide PlanToJson, PlanOf, RuntimeReportToJson, Adapters.AdapterReportToJson, RollbackPlanner.RollbackPlanToJson;
    hide RollbackPlanner.RollbackReportToJson, PolicySimulator.DecisionToJson, PolicySimulator.PolicyReportToJson;
    hide WithinClaims, StatesOnly;
    PlanWithinClaims(d, profile);
    ReportsWithinClaims(docs.adapter, docs.failure, docs.decision, docs.plan);
    PlanStatesProfile(d, profile);
    ReportsStateProfile(docs.adapter, docs.failure, docs.decision, docs.plan);
  }

  lemma ProfileIsClean(profile: Object)
    requires Conforms(profile)
    ensures Clean(profile, Get(profile, ProfileId))
  {
    PlanStatesProfile(SimulatedProfile(profile), profile);
  }

  predicate IsSupporting(s: Staged) {
    s.SolverStaged? || s.ValidationStaged? || s.ComparisonStaged? || s.PassportStaged?
  }

  ghost predicate CleanIfKept(w: World, bytes: Option<Bytes>, id: Json) {
    bytes.Some? && |bytes.value| <= STANDARD.maxSize ==>
      match Decoded(w, bytes) case None => true case Some(p) => Clean(p, id)
  }

  /** The supporting bundle artifacts within the size limit are clean. A profile run has none. */
  ghost predicate SupportClean(w: World, i: Inputs, id: Json) {
    forall s :: IsSupporting(s) ==> CleanIfKept(w, InputBytes(i, s), id)
  }

  lemma InputsAreCopied(w: World, i: Inputs, docs: Documents, s: Staged)
    requires FromInput(s)
    ensures StagedBytes(w, i, docs, s) == InputBytes(i, s)
  {
    hide InputBytes;
  }

  /** If the supporting artifacts are clean, every staged document within the size limit is. */
  lemma DocumentsAreClean(w: World, i: Inputs, docs: Documents, d: DryRun, profile: Object, s: Staged)
    requires GatedDocuments(docs, d, profile) && InputsDecode(w, i, profile)
    requires SupportClean(w, i, Get(profile, ProfileId))
    requires StagedBytes(w, i, docs, s).Some? && |StagedBytes(w, i, docs, s).value| <= STANDARD.maxSize
    requires StagedDocument(w, i, docs, s).Some?
    ensures Clean(StagedDocument(w, i, docs, s).value, Get(profile, ProfileId))
  {
    hide GatedDocuments, WrittenDocument, InputBytes, Clean, STANDARD;
    if s.ProfileStaged? {
      assert Conforms(profile) by { GatedConforms(docs, d, profile); }
      ProfileIsClean(profile);
    } else if IsSupporting(s) {
      InputsAreCopied(w, i, docs, s);
      assert CleanIfKept(w, InputBytes(i, s), Get(profile, ProfileId));
    } else {
      WrittenAreClean(docs, d, profile, s);
    }
  }

  lemma GatedConforms(docs: Documents, d: DryRun, profile: Object)
    requires GatedDocuments(docs, d, profile)
    ensures Conforms(profile)
  {
  }

  /** What the parsed payloads are like when nothing is wrong in them. */
  ghost predicate Harmless(parsed: Payloads, id: Json) {
    forall name :: name in parsed ==> Clean(parsed[name], id)
  }

  /** The policy files hold the two documents of one decision. */
  ghost predicate OneDecision(parsed: Payloads, d: PolicyEvaluator.Decision, plan: Object) {
    && (POLICY_REPORT_FILE in parsed ==> parsed[POLICY_REPORT_FILE] == PolicySimulator.PolicyReportToJson(d, plan))
    && (POLICY_DECISION_FILE in parsed ==> parsed[POLICY_DECISION_FILE] == PolicySimulator.DecisionToJson(d))
  }

  lemma ParsedDecision(w: World, i: Inputs, docs: Documents, profile: Object)
    requires WrittenReadBack(w, docs) && InputsDecode(w, i, profile)
    ensures OneDecision(Parsed(w, Kept(w, i, docs)), docs.decision, docs.plan)
  {
    hide Parsed, Kept, WrittenReadBack, InputsDecode, InputBytes, StagedBytes;
    hide PolicySimulator.DecisionToJson, PolicySimulator.PolicyReportToJson;
    var parsed := Parsed(w, Kept(w, i, docs));
    if POLICY_REPORT_FILE in parsed {
      var s := ParsedAreDocuments(w, i, docs, profile, POLICY_REPORT_FILE);
      StagedNamesDiffer(s, PolicyReportStaged);
    }
    if POLICY_DECISION_FILE in parsed {
      var s := ParsedAreDocuments(w, i, docs, profile, POLICY_DECISION_FILE);
      StagedNamesDiffer(s, PolicyDecisionStaged);
    }
  }

  lemma ParsedAreHarmless(w: World, i: Inputs, docs: Documents, d: DryRun, profile: Object)
    requires WrittenReadBack(w, docs) && InputsDecode(w, i, profile) && GatedDocuments(docs, d, profile)
    requires SupportClean(w, i, Get(profile, ProfileId))
    ensures Harmless(Parsed(w, Kept(w, i, docs)), Get(profile, ProfileId))
  {
    hide Parsed, Kept, WrittenReadBack, InputsDecode, GatedDocuments, SupportClean, StagedDocument, StagedBytes, Clean;
    hide StagedName, STANDARD;
    var parsed := Parsed(w, Kept(w, i, docs));
    forall name | name in parsed ensures Clean(parsed[name], Get(profile, ProfileId)) {
      var s := ParsedAreDocuments(w, i, docs, profile, name);
      DocumentsAreClean(w, i, docs, d, profile, s);
    }
  }

  lemma HarmlessIsConsistent(parsed: Payloads, id: Json, d: PolicyEvaluator.Decision, plan: Object)
    requires Harmless(parsed, id) && OneDecision(parsed, d, plan)
    ensures SourceSafe(parsed) && SameProfile(ProfileEntries(parsed))
  {
    hide PolicySimulator.DecisionToJson, PolicySimulator.PolicyReportToJson, WithinClaims, PolicyPayloadSafe;
    hide ProfileIdOf;
    PolicyDocumentsSafe(d, plan);
    forall a, b | a in ProfileEntries(parsed) && b in ProfileEntries(parsed)
      ensures ProfileEntries(parsed)[a] == ProfileEntries(parsed)[b] {
      assert StatesOnly(parsed[a], id) && StatesOnly(parsed[b], id);
    }
  }

  lemma DecisionIsConsistent(parsed: Payloads, d: PolicyEvaluator.Decision, plan: Object)
    requires OneDecision(parsed, d, plan)
    ensures !PolicyMismatch(parsed) && !RuntimeInconsistency(parsed)
  {
    hide PolicySimulator.DecisionToJson, PolicySimulator.PolicyReportToJson;
    PoliciesAgree(d, plan);
    NeverDryRunAllowed(d.selected);
  }

  /** One payload across the boundary, or naming another profile than the plan, makes the payloads inconsistent. */
  lemma UncleanIsInconsistent(parsed: Payloads, id: Json, name: string)
    requires name in parsed && !Clean(parsed[name], id)
    requires PLAN_FILE in parsed && ProfileIdOf(parsed[PLAN_FILE]).Some?
             && Str(ProfileIdOf(parsed[PLAN_FILE]).value) == id
    ensures !SourceSafe(parsed) || !SameProfile(ProfileEntries(parsed))
  {
    hide WithinClaims, ProfileIdOf, PLAN_FILE, PolicyPayloadSafe;
    if WithinClaims(parsed[name]) {
      var entries := ProfileEntries(parsed);
      assert name in entries && PLAN_FILE in entries && entries[name] != entries[PLAN_FILE];
    }
  }

  lemma PlanNamesProfile(d: DryRun, profile: Object)
    requires Conforms(profile) && d.plan == PlanOf(profile)
    ensures ProfileIdOf(PlanToJson(d.plan)).Some?
    ensures Str(ProfileIdOf(PlanToJson(d.plan)).value) == Get(profile, ProfileId)
  {
    hide PlanOf, Gate, RecordsToJson;
    PlanStatesProfile(d, profile);
  }

  lemma UncleanSupportIsInconsistent(w: World, i: Inputs, docs: Documents, d: DryRun, profile: Object)
    requires WrittenReadBack(w, docs) && InputsDecode(w, i, profile) && GatedDocuments(docs, d, profile)
    requires RequiredFit(w, docs) && !SupportClean(w, i, Get(profile, ProfileId))
    ensures var parsed := Parsed(w, Kept(w, i, docs)); !SourceSafe(parsed) || !SameProfile(ProfileEntries(parsed))
  {
    hide Parsed, Kept, WrittenReadBack, InputsDecode, STANDARD, Clean, SourceSafe, SameProfile, ProfileEntries;
    hide PlanToJson, PlanOf, RuntimeReportToJson, InputBytes, ProfileIdOf, Decoded, Conforms;
    var id := Get(profile, ProfileId);
    var s :| IsSupporting(s) && !CleanIfKept(w, InputBytes(i, s), id);
    RequiredBytes(w, i, docs, PlanStaged);
    DocumentsAreParsed(w, i, docs, profile, PlanStaged);
    DocumentsAreParsed(w, i, docs, profile, s);
    PlanNamesProfile(d, profile);
    UncleanIsInconsistent(Parsed(w, Kept(w, i, docs)), id, StagedName(s));
  }

  /** What the evidence stage needs of a run whose gate passed. */
  ghost predicate EvidenceHolds(w: World, i: Inputs, docs: Documents, id: Json) {
    RequiredFit(w, docs) && SupportClean(w, i, id)
  }

  /** After a passed gate the evidence stage passes exactly when the four required documents fit the size limit and the
      supporting bundle artifacts are clean: everything written upstream passes every check the evidence stage makes. */
  lemma EvidencePassesExactly(w: World, i: Inputs, docs: Documents, d: DryRun, profile: Object)
    requires WrittenReadBack(w, docs) && InputsDecode(w, i, profile) && GatedDocuments(docs, d, profile)
    ensures Passing(CheckOf(w, Collect(Staging(w, i, docs), STANDARD), STANDARD).status) <==>
            EvidenceHolds(w, i, docs, Get(profile, ProfileId))
  {
    hide CheckOf, Staging, WrittenReadBack, InputsDecode, GatedDocuments, RequiredFit, SupportClean, OneDecision;
    hide STANDARD, Harmless, SourceSafe, SameProfile, PolicyMismatch, ProfileEntries;
    hide RuntimeInconsistency, Parsed, SelectionsDiffer, BlockedYetAllowed;
    SourcePassesExactlyWhenConsistent(w, Collect(Staging(w, i, docs), STANDARD), STANDARD);
    NothingMissingExactly(w, i, docs);
    NothingInvalid(w, i, docs, profile);
    ParsedDecision(w, i, docs, profile);
    DecisionIsConsistent(Parsed(w, Kept(w, i, docs)), docs.decision, docs.plan);
    SelectionsDifferExactly(Parsed(w, Kept(w, i, docs)));
    BlockedYetAllowedExactly(Parsed(w, Kept(w, i, docs)));
    if SupportClean(w, i, Get(profile, ProfileId)) {
      ParsedAreHarmless(w, i, docs, d, profile);
      HarmlessIsConsistent(Parsed(w, Kept(w, i, docs)), Get(profile, ProfileId), docs.decision, docs.plan);
    } else if RequiredFit(w, docs) {
      UncleanSupportIsInconsistent(w, i, docs, d, profile);
    }
  }
}
