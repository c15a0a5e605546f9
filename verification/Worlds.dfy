/** There are worlds that read back everything they write, whatever the digest. */
module Worlds {
  import opened Base
  import opened JsonValues
  import opened EvidenceSource
  import opened EvidenceCheck
  import opened EvidenceBundle
  import opened EvidenceBuilt
  import opened EvidenceRoundTrip
  import PipelineInputs
  import PipelineTheorems

  type Code = seq<nat>

  /** Every field with a name of its own. */
  function Named(): set<Field> {
    {ProfileId, HardwareControlEnabled, HumanReviewRequired, ClaimBoundary, VoltagePolicy, RuntimeLoaderHint,
       AssignedWorkloads, UnassignedWorkloads, BlockedRoles, AllowedRoles}
    + {PreferredRoutes, RequestedActions, Actions, WorkloadId, ActionType, TargetTiles, Role, TargetRole,
       RouteStatus, RouteId}
    + {ActionId, ActionStatus, ActionReason, RuntimeVersion, ExecutionMode, BlockedActions, PlanStatus,
       PlanBlockReasons, DegradedBundleMode, SafetyGatePassed}
    + {DegradedModeReasons, BundleValidationPassed, BundleValidationWarnings, ArtifactValidationPassed,
       ValidationStatus, SolverStatus, ComparisonStatus, ComparisonWarnings, PassportStatus, DecisionReadiness}
    + {SimulationOnly, AdapterSimulationStatus, SimulatedActions, AdapterBlockReasons,
       AdapterSafetyFailureReasons, SourcePlanSummary, RollbackSimulationStatus, RollbackRequired,
       SafeStopRequired, NoActionTaken}
    + {RollbackStrategy, SimulatedRevertActionsPlanned, FailureReasons, ScenarioId, FailureMode,
       InjectionStage, TargetActionId, PolicyConfigId, PolicyMode, AllowRetry}
    + {AllowRealExecution, AllowHardwareControl, MaxAllowedBlockedActions, MaxAllowedDegradedFlags, Notes,
       SelectedPolicy, PolicyStatus, RealExecutionAllowed, HardwareControlAllowed, RetryAllowed}
    + {WarningReasons, PolicyWarningInputs, BundleId, Artifacts, ArtifactName, Sha256, SizeBytes,
       ArtifactCount, EvidenceBundleVersion, SafetySummary}
    + {HardwareControlEnabledAnywhere, RealExecutionAllowedAnywhere, PolicyAllowsHardwareControl,
       ClaimBoundaryConsistent, EvidenceValidationPassed, EvidenceValidationStatus, EvidenceValidationReasons,
       EvidenceWarningReasons, ConsistencyWarnings}
  }

  lemma NamedIsNamed(f: Field)
    requires !f.Other?
    ensures f in Named()
  {
    match f {
      case ProfileId => case HardwareControlEnabled => case HumanReviewRequired => case ClaimBoundary =>
      case VoltagePolicy => case RuntimeLoaderHint => case AssignedWorkloads => case UnassignedWorkloads =>
      case BlockedRoles => case AllowedRoles => case PreferredRoutes => case RequestedActions =>
      case Actions => case WorkloadId => case ActionType => case TargetTiles => case Role => case TargetRole =>
      case RouteStatus => case RouteId => case ActionId => case ActionStatus => case ActionReason =>
      case RuntimeVersion => case ExecutionMode => case BlockedActions => case PlanStatus =>
      case PlanBlockReasons => case DegradedBundleMode => case SafetyGatePassed => case DegradedModeReasons =>
      case BundleValidationPassed => case BundleValidationWarnings => case ArtifactValidationPassed =>
      case ValidationStatus => case SolverStatus => case ComparisonStatus => case ComparisonWarnings =>
      case PassportStatus => case DecisionReadiness => case SimulationOnly => case AdapterSimulationStatus =>
      case SimulatedActions => case AdapterBlockReasons => case AdapterSafetyFailureReasons =>
      case SourcePlanSummary => case RollbackSimulationStatus => case RollbackRequired =>
      case SafeStopRequired => case NoActionTaken => case RollbackStrategy =>
      case SimulatedRevertActionsPlanned => case FailureReasons => case ScenarioId => case FailureMode =>
      case InjectionStage => case TargetActionId => case PolicyConfigId => case PolicyMode =>
      case AllowRetry => case AllowRealExecution => case AllowHardwareControl =>
      case MaxAllowedBlockedActions => case MaxAllowedDegradedFlags => case Notes => case SelectedPolicy =>
      case PolicyStatus => case RealExecutionAllowed => case HardwareControlAllowed => case RetryAllowed =>
      case WarningReasons => case PolicyWarningInputs => case BundleId => case Artifacts =>
      case ArtifactName => case Sha256 => case SizeBytes => case ArtifactCount => case EvidenceBundleVersion =>
      case SafetySummary => case HardwareControlEnabledAnywhere => case RealExecutionAllowedAnywhere =>
      case PolicyAllowsHardwareControl => case ClaimBoundaryConsistent => case EvidenceValidationPassed =>
      case EvidenceValidationStatus => case EvidenceValidationReasons => case EvidenceWarningReasons =>
      case ConsistencyWarnings => case Other(_) =>
    }
  }

  lemma {:induction false} ListingExists(s: set<Field>) returns (names: seq<Field>)
    ensures forall f :: f in names <==> f in s
  {
    names := [];
    if s != {} {
      var f :| f in s;
      var others := ListingExists(s - {f});
      names := [f] + others;
    }
  }

  ghost predicate Numbers(names: seq<Field>, s: set<Field>) {
    forall f :: f in names <==> f in s
  }

  /** The fields of a set in some order. */
  ghost function Listing(s: set<Field>): (names: seq<Field>)
    ensures forall f :: f in names <==> f in s
  {
    assert exists names :: Numbers(names, s) by {
      var names := ListingExists(s);
      assert Numbers(names, s);
    }
    var names :| Numbers(names, s);
    names
  }

  ghost function Position(f: Field): (n: nat)
    requires !f.Other?
    ensures n < |Listing(Named())| && Listing(Named())[n] == f
  {
    NamedIsNamed(f);
    var n :| 0 <= n < |Listing(Named())| && Listing(Named())[n] == f;
    n
  }

  // ---- prefix-free codes ----

  function TextCode(s: string): Code {
    [|s|] + seq(|s|, i requires 0 <= i < |s| => s[i] as int)
  }

  lemma TextCodeUnique(s: string, t: string, x: Code, y: Code)
    requires TextCode(s) + x == TextCode(t) + y
    ensures s == t && x == y
  {
    var a, b := TextCode(s) + x, TextCode(t) + y;
    assert |s| == a[0] == b[0] == |t|;
    forall i | 0 <= i < |s| ensures s[i] == t[i] {
      assert a[i + 1] == s[i] as int && b[i + 1] == t[i] as int;
    }
    assert a[|s| + 1..] == x && b[|s| + 1..] == y;
  }

  ghost function FieldCode(f: Field): Code {
    if f.Other? then [0] + TextCode(f.name) else [1] + [Position(f)]
  }

  lemma FieldCodeUnique(f: Field, g: Field, x: Code, y: Code)
    requires FieldCode(f) + x == FieldCode(g) + y
    ensures f == g && x == y
  {
    hide FieldCode, Position, TextCode, Listing, Named;
    FieldCodeParts(f, x);
    FieldCodeParts(g, y);
    if f.Other? {
      TextCodeUnique(f.name, g.name, x, y);
    }
  }

  lemma FieldCodeParts(f: Field, x: Code)
    ensures var c := FieldCode(f) + x;
            |c| > 1 && if f.Other? then c[0] == 0 && c[1..] == TextCode(f.name) + x
                       else c[0] == 1 && c[1] == Position(f) && c[2..] == x
  {
    hide Position, Listing, Named, TextCode;
    if f.Other? {
      HeadAndRest(0, TextCode(f.name), x);
      assert |TextCode(f.name)| > 0 by { TextCodeIsSomething(f.name); }
    } else {
      HeadAndRest(1, [Position(f)], x);
      assert ([Position(f)] + x)[1..] == x;
    }
  }

  lemma HeadAndRest(n: nat, c: Code, x: Code)
    ensures ([n] + c + x)[0] == n && ([n] + c + x)[1..] == c + x
  {
  }

  lemma TextCodeIsSomething(s: string)
    ensures |TextCode(s)| > 0
  {
  }

  function IntCode(n: int): Code {
    if n < 0 then [1, -n] else [0, n]
  }

  ghost function CodeOf(j: Json): Code
    decreases j
  {
    match j
    case Null => [0]
    case Bool(b) => [1, if b then 1 else 0]
    case Int(i) => [2] + IntCode(i)
    case Float(num, den) => [3] + IntCode(num) + [den]
    case Str(s) => [4] + TextCode(s)
    case List(items) => [5, |items|] + ItemCodes(j, 0)
    case Obj(fields) => [6, |Listing(fields.Keys)|] + PairCodes(j, Listing(fields.Keys), 0)
  }

  ghost function ItemCodes(j: Json, k: nat): Code
    requires j.List? && k <= |j.items|
    decreases j, |j.items| - k
  {
    if k == |j.items| then [] else CodeOf(j.items[k]) + ItemCodes(j, k + 1)
  }

  ghost function PairCodes(j: Json, names: seq<Field>, k: nat): Code
    requires j.Obj? && k <= |names| && forall i :: 0 <= i < |names| ==> names[i] in j.fields
    decreases j, |names| - k
  {
    if k == |names| then [] else FieldCode(names[k]) + CodeOf(j.fields[names[k]]) + PairCodes(j, names, k + 1)
  }

  /** Which constructor made a value: the first number of its code. */
  function Tag(j: Json): nat {
    match j
    case Null => 0
    case Bool(_) => 1
    case Int(_) => 2
    case Float(_, _) => 3
    case Str(_) => 4
    case List(_) => 5
    case Obj(_) => 6
  }

  ghost function Body(j: Json): Code {
    match j
    case Null => []
    case Bool(b) => [if b then 1 else 0]
    case Int(i) => IntCode(i)
    case Float(num, den) => IntCode(num) + [den]
    case Str(s) => TextCode(s)
    case List(items) => [|items|] + ItemCodes(j, 0)
    case Obj(fields) => [|Listing(fields.Keys)|] + PairCodes(j, Listing(fields.Keys), 0)
  }

  lemma CodeIsTagAndBody(j: Json)
    ensures CodeOf(j) == [Tag(j)] + Body(j)
  {
    hide TextCode, IntCode, ItemCodes, PairCodes, Listing;
  }

  lemma SameTag(a: Json, b: Json, x: Code, y: Code)
    requires CodeOf(a) + x == CodeOf(b) + y
    ensures Tag(a) == Tag(b) && Body(a) + x == Body(b) + y
  {
    hide CodeOf, Tag, Body;
    CodeIsTagAndBody(a);
    CodeIsTagAndBody(b);
    assert (CodeOf(a) + x)[0] == Tag(a) && (CodeOf(b) + y)[0] == Tag(b);
    assert (CodeOf(a) + x)[1..] == Body(a) + x && (CodeOf(b) + y)[1..] == Body(b) + y;
  }

  lemma IntCodeUnique(m: int, n: int, x: Code, y: Code)
    requires IntCode(m) + x == IntCode(n) + y
    ensures m == n && x == y
  {
    var a, b := IntCode(m) + x, IntCode(n) + y;
    assert a[0] == b[0] && a[1] == b[1] && a[2..] == x && b[2..] == y;
  }

  lemma LeafUnique(a: Json, b: Json, x: Code, y: Code)
    requires !a.List? && !a.Obj? && Tag(a) == Tag(b) && Body(a) + x == Body(b) + y
    ensures a == b && x == y
  {
    hide IntCode, TextCode;
    var c, d := Body(a) + x, Body(b) + y;
    match a {
      case Null => assert c == x && d == y;
      case Bool(_) => assert c[0] == d[0] && c[1..] == x && d[1..] == y;
      case Int(i) => IntCodeUnique(i, b.i, x, y);
      case Float(num, den) =>
        assert c == IntCode(num) + ([den] + x) && d == IntCode(b.num) + ([b.den] + y);
        IntCodeUnique(num, b.num, [den] + x, [b.den] + y);
        assert ([den] + x)[0] == ([b.den] + y)[0] && ([den] + x)[1..] == x && ([b.den] + y)[1..] == y;
      case Str(s) => TextCodeUnique(s, b.s, x, y);
    }
  }

  /** A code determines its value, and where it ends. */
  lemma {:induction false} CodeUnique(a: Json, b: Json, x: Code, y: Code)
    requires CodeOf(a) + x == CodeOf(b) + y
    ensures a == b && x == y
    decreases a
  {
    hide CodeOf, ItemCodes, PairCodes;
    SameTag(a, b, x, y);
    if a.List? {
      ItemsUnique(a, b, x, y);
    } else if a.Obj? {
      PairsUnique(a, b, x, y);
    } else {
      LeafUnique(a, b, x, y);
    }
  }

  lemma {:induction false} ItemsUnique(a: Json, b: Json, x: Code, y: Code)
    requires a.List? && b.List? && Body(a) + x == Body(b) + y
    ensures a == b && x == y
    decreases a, 1
  {
    hide ItemCodes, Body;
    ListBody(a, x);
    ListBody(b, y);
    ItemsFrom(a, b, x, y, 0);
  }

  lemma {:induction false} ItemsFrom(a: Json, b: Json, x: Code, y: Code, k: nat)
    requires a.List? && b.List? && |a.items| == |b.items| && k <= |a.items|
    requires ItemCodes(a, k) + x == ItemCodes(b, k) + y
    ensures a.items[k..] == b.items[k..] && x == y
    decreases a, 0, |a.items| - k
  {
    hide CodeOf;
    if k < |a.items| {
      var c, d := ItemCodes(a, k + 1) + x, ItemCodes(b, k + 1) + y;
      assert CodeOf(a.items[k]) + c == ItemCodes(a, k) + x && CodeOf(b.items[k]) + d == ItemCodes(b, k) + y;
      CodeUnique(a.items[k], b.items[k], c, d);
      ItemsFrom(a, b, x, y, k + 1);
      assert a.items[k..] == [a.items[k]] + a.items[k + 1..] && b.items[k..] == [b.items[k]] + b.items[k + 1..];
    } else {
      assert ItemCodes(a, k) + x == x && ItemCodes(b, k) + y == y;
    }
  }

  lemma {:induction false} PairsUnique(a: Json, b: Json, x: Code, y: Code)
    requires a.Obj? && b.Obj? && Body(a) + x == Body(b) + y
    ensures a == b && x == y
    decreases a, 1
  {
    hide PairCodes, Body, Listing;
    var names, others := Listing(a.fields.Keys), Listing(b.fields.Keys);
    ObjectBody(a, x);
    ObjectBody(b, y);
    PairsFrom(a, b, names, others, x, y, 0);
    SameFields(a.fields, b.fields, names, others);
  }

  lemma ListBody(j: Json, x: Code)
    requires j.List?
    ensures |Body(j) + x| > 0 && (Body(j) + x)[0] == |j.items| && (Body(j) + x)[1..] == ItemCodes(j, 0) + x
  {
    hide PairCodes, ItemCodes, TextCode, IntCode;
  }

  lemma ObjectBody(j: Json, x: Code)
    requires j.Obj?
    ensures |Body(j) + x| > 0 && (Body(j) + x)[0] == |Listing(j.fields.Keys)|
    ensures (Body(j) + x)[1..] == PairCodes(j, Listing(j.fields.Keys), 0) + x
  {
    hide PairCodes, ItemCodes, TextCode, IntCode;
  }

  lemma SameFields(o: Object, p: Object, names: seq<Field>, others: seq<Field>)
    requires Numbers(names, o.Keys) && Numbers(others, p.Keys) && |names| == |others|
    requires forall i :: 0 <= i < |names| ==> names[i] == others[i] && o[names[i]] == p[names[i]]
    ensures o == p
  {
    assert names == others;
    assert forall f :: f in o <==> f in p;
    forall f | f in o ensures o[f] == p[f] {
      var i :| 0 <= i < |names| && names[i] == f;
    }
  }

  lemma PairCodesFrom(j: Json, names: seq<Field>, k: nat, x: Code)
    requires j.Obj? && k < |names| && forall i :: 0 <= i < |names| ==> names[i] in j.fields
    ensures PairCodes(j, names, k) + x ==
            FieldCode(names[k]) + (CodeOf(j.fields[names[k]]) + (PairCodes(j, names, k + 1) + x))
  {
    hide CodeOf, FieldCode;
  }

  lemma {:induction false} PairsFrom(a: Json, b: Json, names: seq<Field>, others: seq<Field>, x: Code, y: Code,
                                     k: nat)
    requires a.Obj? && b.Obj? && Numbers(names, a.fields.Keys) && Numbers(others, b.fields.Keys)
    requires |names| == |others| && k <= |names|
    requires PairCodes(a, names, k) + x == PairCodes(b, others, k) + y
    ensures x == y
    ensures forall i :: k <= i < |names| ==> names[i] == others[i] && a.fields[names[i]] == b.fields[names[i]]
    decreases a, 0, |names| - k
  {
    hide CodeOf, FieldCode, PairCodes;
    if k < |names| {
      PairCodesFrom(a, names, k, x);
      PairCodesFrom(b, others, k, y);
      var c, d := PairCodes(a, names, k + 1) + x, PairCodes(b, others, k + 1) + y;
      FieldCodeUnique(names[k], others[k], CodeOf(a.fields[names[k]]) + c, CodeOf(b.fields[others[k]]) + d);
      CodeUnique(a.fields[names[k]], b.fields[others[k]], c, d);
      PairsFrom(a, b, names, others, x, y, k + 1);
    } else {
      NoPairCodes(a, names, x);
      NoPairCodes(b, others, y);
    }
  }

  lemma NoPairCodes(j: Json, names: seq<Field>, x: Code)
    requires j.Obj? && forall i :: 0 <= i < |names| ==> names[i] in j.fields
    ensures PairCodes(j, names, |names|) + x == x
  {
  }

  // ---- bytes ----

  /** A number as that many ones and a zero. */
  function Unary(n: nat): (b: Bytes) {
    seq(n, _ => 1) + [0]
  }

  lemma UnaryUnique(m: nat, n: nat, x: Bytes, y: Bytes)
    requires Unary(m) + x == Unary(n) + y
    ensures m == n && x == y
  {
    var a, b := Unary(m) + x, Unary(n) + y;
    var k := if m < n then m else n;
    assert (a[k] == 0 <==> k == m) && (b[k] == 0 <==> k == n);
    assert a[m + 1..] == x && b[n + 1..] == y;
  }

  function BytesOf(c: Code): Bytes {
    if c == [] then [] else Unary(c[0]) + BytesOf(c[1..])
  }

  lemma {:induction false} BytesUnique(c: Code, d: Code)
    requires BytesOf(c) == BytesOf(d)
    ensures c == d
  {
    hide Unary;
    if c != [] && d != [] {
      UnaryUnique(c[0], d[0], BytesOf(c[1..]), BytesOf(d[1..]));
      BytesUnique(c[1..], d[1..]);
      assert c == [c[0]] + c[1..] && d == [d[0]] + d[1..];
    } else {
      UnaryIsSomething(if c != [] then c[0] else 0);
      UnaryIsSomething(if d != [] then d[0] else 0);
    }
  }

  lemma UnaryIsSomething(n: nat)
    ensures |Unary(n)| > 0
  {
  }

  lemma BytesStartUnary(c: Code)
    ensures c != [] ==> BytesOf(c) != [] && (BytesOf(c)[0] == 0 || BytesOf(c)[0] == 1)
  {
    if c != [] {
      assert BytesOf(c)[0] == Unary(c[0])[0];
    }
  }

  /** Every value in unary, but for two that get one byte each. */
  ghost function Encoding(a: Json, b: Json, j: Json): Bytes {
    if j == a then [2] else if j == b then [3] else BytesOf(CodeOf(j))
  }

  lemma EncodingInjective(a: Json, b: Json, j: Json, k: Json)
    requires Encoding(a, b, j) == Encoding(a, b, k)
    ensures j == k
  {
    hide CodeOf, BytesOf, Tag, Body;
    CodeIsTagAndBody(j);
    CodeIsTagAndBody(k);
    BytesStartUnary(CodeOf(j));
    BytesStartUnary(CodeOf(k));
    if j !in [a, b] && k !in [a, b] {
      BytesUnique(CodeOf(j), CodeOf(k));
      CodeUnique(j, k, [], []);
    }
  }

  ghost function Decoding(a: Json, b: Json, bytes: Bytes): Option<Json> {
    if exists j :: Encoding(a, b, j) == bytes then
      var j :| Encoding(a, b, j) == bytes;
      Some(j)
    else None
  }

  ghost predicate ReadsBackAll(w: World) {
    forall o :: ReadsBack(w, o)
  }

  /** Whatever the digest, some world reads back every object it writes, and writes these two values short. */
  lemma FaithfulWorldExists(hash: Bytes -> string, a: Json, b: Json) returns (w: World)
    ensures w.hash == hash && ReadsBackAll(w) && |w.encode(a)| == 1 && |w.encode(b)| == 1
  {
    w := World(hash, bytes => Decoding(a, b, bytes), j => Encoding(a, b, j));
    forall o ensures ReadsBack(w, o) {
      var bytes := Encoding(a, b, Obj(o));
      assert w.encode(Obj(o)) == bytes && w.parse(bytes) == Decoding(a, b, bytes);
      assert Decoding(a, b, bytes).Some?;
      EncodingInjective(a, b, Decoding(a, b, bytes).value, Obj(o));
    }
  }

  // ---- the hypotheses of the round trip and of exact blocking ----

  lemma BuildsReadBack(w: World, source: Directory, schema: Schema)
    requires ReadsBackAll(w)
    ensures SourceReadsBack(w, source, schema)
  {
    hide CheckOf, Collect, Manifest, Summary, Report, ReadsBack;
  }

  lemma RunsReadBack(w: World, i: PipelineInputs.Inputs)
    requires ReadsBackAll(w)
    ensures PipelineTheorems.RunReadsBack(w, i)
  {
    hide PipelineTheorems.Loads, PipelineInputs.DocumentsOn, PipelineInputs.WrittenDocument, ReadsBack;
  }

  /** The two evidence checks do differ: in some world, a source directory passes and the bundle built from it
      blocks. */
  lemma ChecksDiffer(hash: Bytes -> string) returns (w: World, source: Directory)
    ensures w.hash == hash
    ensures var check := CheckOf(w, Collect(source, STANDARD), STANDARD);
            var built := BuiltOf(w, BuiltOn(Output(map[], None), w, source, STANDARD));
            built.Some? && Passing(check.status) && built.value.status.BlockedSafety?
  {
    hide STANDARD, LIVE, CheckOf, Collect, BuiltOf, BuiltOn, ReadsBack, Encodings, LIVE_PAYLOADS, SourceReadsBack;
    w := FaithfulWorldExists(hash, Obj(LIVE), Obj(map[]));
    source := Encodings(w, LIVE_PAYLOADS);
    BuildsReadBack(w, source, STANDARD);
    SizeLimitIsPositive();
    ChecksCanDiffer(w, source);
  }

  lemma SizeLimitIsPositive()
    ensures STANDARD.maxSize > 0
  {
  }
}
