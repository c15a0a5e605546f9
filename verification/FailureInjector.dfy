/** Failure scenarios and their injection into mock-simulatable actions. */
module FailureInjector {
  import opened Base
  import opened JsonValues
  import opened Reasons
  import opened RuntimePlan
  import opened Adapters

  datatype Mode =
    | NoFailure | AdapterUnavailable | ActionTimeout | RouteUnavailable | UnsupportedRole | PartialPlanFailure
    | ForcedBoundary | UnknownMode(text: string)

  function ModeFromText(s: string): Mode {
    if s == "none" then NoFailure
    else if s == "adapter_unavailable" then AdapterUnavailable
    else if s == "action_timeout" then ActionTimeout
    else if s == "route_unavailable" then RouteUnavailable
    else if s == "unsupported_role_after_injection" then UnsupportedRole
    else if s == "partial_plan_failure" then PartialPlanFailure
    else if s == "forced_safety_boundary_failure" then ForcedBoundary
    else UnknownMode(s)
  }

  function ModeText(m: Mode): string {
    match m
    case NoFailure => "none"
    case AdapterUnavailable => "adapter_unavailable"
    case ActionTimeout => "action_timeout"
    case RouteUnavailable => "route_unavailable"
    case UnsupportedRole => "unsupported_role_after_injection"
    case PartialPlanFailure => "partial_plan_failure"
    case ForcedBoundary => "forced_safety_boundary_failure"
    case UnknownMode(s) => s
  }

  predicate SafeStopMode(m: Mode) {
    m.AdapterUnavailable? || m.ActionTimeout? || m.UnsupportedRole?
  }

  predicate RevertMode(m: Mode) {
    m.RouteUnavailable? || m.PartialPlanFailure?
  }

  predicate Injecting(m: Mode) {
    SafeStopMode(m) || RevertMode(m)
  }

  predicate ModeSupported(m: Mode) {
    !m.UnknownMode?
  }

  /** Modes and their texts match one to one; three texts stop, two revert. */
  lemma ModesByText(t: string, m: Mode)
    ensures ModeText(ModeFromText(t)) == t
    ensures ModeSupported(m) ==> ModeFromText(ModeText(m)) == m
    ensures SafeStopMode(ModeFromText(t)) <==>
            t in {"adapter_unavailable", "action_timeout", "unsupported_role_after_injection"}
    ensures RevertMode(ModeFromText(t)) <==> t in {"route_unavailable", "partial_plan_failure"}
    ensures ModeSupported(ModeFromText(t)) <==>
            SafeStopMode(ModeFromText(t)) || RevertMode(ModeFromText(t))
            || t in {"none", "forced_safety_boundary_failure"}
  {
    ModeTextsDiffer();
  }

  lemma ModeTextsDiffer()
    ensures |"none"| == 4 && |"adapter_unavailable"| == 19 && |"action_timeout"| == 14 && |"route_unavailable"| == 17
    ensures |"unsupported_role_after_injection"| == 32 && |"partial_plan_failure"| == 20
    ensures |"forced_safety_boundary_failure"| == 30
  {
  }

  datatype Scenario = Scenario(id: string, mode: Mode, target: Option<string>)

  function DefaultScenario(): Scenario {
    Scenario("SCN_NONE", NoFailure, None)
  }

  const REQUIRED_SCENARIO_FIELDS: seq<Field> := [
    ScenarioId, FailureMode, InjectionStage, SimulationOnly, HardwareControlEnabled, ClaimBoundary]

  predicate ModeIsSupported(mode: Json) {
    mode.Str? && ModeSupported(ModeFromText(mode.s))
  }

  /** `validate_failure_scenario`: the reasons a scenario is refused. */
  function ScenarioReasons(raw: Object): seq<Reason> {
    MissingFields(raw, REQUIRED_SCENARIO_FIELDS, |REQUIRED_SCENARIO_FIELDS|)
    + (if FailureMode in raw && !ModeIsSupported(raw[FailureMode])
       then [UnsupportedFailureMode(PyStr(raw[FailureMode]))] else [])
    + (if SimulationOnly in raw && raw[SimulationOnly] != Bool(true) then [MustBe(SimulationOnly, "true")] else [])
    + (if HardwareControlEnabled in raw && raw[HardwareControlEnabled] != Bool(false)
       then [MustBe(HardwareControlEnabled, "false")] else [])
    + (if ClaimBoundary in raw && raw[ClaimBoundary] != Str(CLAIM_BOUNDARY)
       then [MustBe(ClaimBoundary, CLAIM_BOUNDARY)] else [])
  }

  function ScenarioFromMapping(raw: Object): Scenario {
    Scenario(PyStr(Get(raw, ScenarioId)), ModeFromText(PyStr(Get(raw, FailureMode))),
             StringOrNone(Get(raw, TargetActionId)))
  }

  ghost predicate ScenarioAccepted(raw: Object) {
    && ScenarioId in raw && InjectionStage in raw
    && ModeIsSupported(Get(raw, FailureMode))
    && Get(raw, SimulationOnly) == Bool(true)
    && Get(raw, HardwareControlEnabled) == Bool(false)
    && Get(raw, ClaimBoundary) == Str(CLAIM_BOUNDARY)
  }

  lemma ScenarioRefusedExactlyUnlessAccepted(raw: Object)
    ensures ScenarioReasons(raw) == [] <==> ScenarioAccepted(raw)
    ensures ScenarioReasons(raw) == [] ==> ModeSupported(ScenarioFromMapping(raw).mode)
  {
    var r := REQUIRED_SCENARIO_FIELDS;
    assert MissingFields(raw, r, 1) == [] <==> ScenarioId in raw;
    assert MissingFields(raw, r, 2) == [] <==> MissingFields(raw, r, 1) == [] && FailureMode in raw;
    assert MissingFields(raw, r, 3) == [] <==> MissingFields(raw, r, 2) == [] && InjectionStage in raw;
    assert MissingFields(raw, r, 4) == [] <==> MissingFields(raw, r, 3) == [] && SimulationOnly in raw;
    assert MissingFields(raw, r, 5) == [] <==> MissingFields(raw, r, 4) == [] && HardwareControlEnabled in raw;
    assert MissingFields(raw, r, 6) == [] <==> MissingFields(raw, r, 5) == [] && ClaimBoundary in raw;
  }

  datatype Outcome = OSimulated | OFailed | OSkipped

  datatype Strategy = NoStrategy | SafeStop | RollbackToStart | RevertCompleted | TakeNoAction | RevertThenStop

  datatype Injection = Injection(
    simulated: seq<string>, failed: seq<string>, skipped: seq<string>, reasons: seq<string>,
    strategy: Strategy, failureAction: Option<string>, outcomes: seq<(string, Outcome)>)

  function StrategyFor(mode: Mode): Strategy {
    if SafeStopMode(mode) then SafeStop
    else if mode.RouteUnavailable? then RollbackToStart
    else RevertCompleted
  }

  /** First position from i on whose action id is the target; the list length if there is none. */
  function FindTarget(actions: seq<Object>, target: string, i: nat): nat
    requires i <= |actions|
    decreases |actions| - i
  {
    if i == |actions| then i
    else if Get(actions[i], ActionId) == Str(target) then i
    else FindTarget(actions, target, i + 1)
  }

  function TargetIndex(actions: seq<Object>, s: Scenario): nat {
    var named := if s.target.Some? && s.target.value != "" then FindTarget(actions, s.target.value, 0) else |actions|;
    if named < |actions| then named
    else if s.mode.PartialPlanFailure? && |actions| > 1 then 1
    else 0
  }

  /** First rejecting position from i on; the list length if there is none. */
  function FirstRejected(verdicts: seq<bool>, i: nat): nat
    requires i <= |verdicts|
    decreases |verdicts| - i
  {
    if i == |verdicts| then i
    else if !verdicts[i] then i
    else FirstRejected(verdicts, i + 1)
  }

  /** Where the failure lands: at the target, or earlier at the first action the adapters reject. */
  function FailurePoint(verdicts: seq<bool>, target: nat): nat {
    var rejected := FirstRejected(verdicts, 0);
    if rejected < target then rejected else target
  }

  lemma {:induction false} FirstRejectedSplits(verdicts: seq<bool>, i: nat)
    requires i <= |verdicts|
    ensures i <= FirstRejected(verdicts, i) <= |verdicts|
    ensures forall j :: i <= j < FirstRejected(verdicts, i) ==> verdicts[j]
    ensures FirstRejected(verdicts, i) < |verdicts| ==> !verdicts[FirstRejected(verdicts, i)]
    decreases |verdicts| - i
  {
    if i < |verdicts| && verdicts[i] {
      FirstRejectedSplits(verdicts, i + 1);
    }
  }

  lemma TargetIndexWithin(actions: seq<Object>, s: Scenario)
    ensures actions != [] ==> TargetIndex(actions, s) < |actions|
  {
  }

  function FailureReasonsFor(mode: Mode, failureAction: Option<string>): seq<string> {
    [ModeText(mode) + ":"
     + (if failureAction.Some? && failureAction.value != "" then failureAction.value else "no_target")]
    + (if mode.ActionTimeout? then ["retry_not_allowed_in_v0_4_1"] else [])
  }

  /** What the injector knows of an action: its id and whether the adapters accept it. */
  datatype Probe = Probe(id: string, accepted: bool, rejection: string)

  function ProbeOf(action: Object): Probe {
    var r := Resolve(action);
    Probe(ActionIdOf(action), Accepts(action),
          "mock_adapter_rejected:" + (if r.Unresolved? then r.reason else ActionIdOf(action)))
  }

  function Probes(actions: seq<Object>): seq<Probe> {
    seq(|actions|, i requires 0 <= i < |actions| => ProbeOf(actions[i]))
  }

  function IdsOf(probes: seq<Probe>): seq<string> {
    seq(|probes|, i requires 0 <= i < |probes| => probes[i].id)
  }

  function VerdictsOf(probes: seq<Probe>): seq<bool> {
    seq(|probes|, i requires 0 <= i < |probes| => probes[i].accepted)
  }

  function OutcomeAt(i: nat, k: nat): Outcome {
    if i < k then OSimulated else if i == k then OFailed else OSkipped
  }

  /** Closed form of an injected failure: everything before the failure point is simulated, the failure point fails,
      everything after it is skipped. */
  function Injected(probes: seq<Probe>, target: nat, mode: Mode): Injection
    requires probes != [] ==> target < |probes|
  {
    var ids := IdsOf(probes);
    if probes == [] then Injection([], [], [], FailureReasonsFor(mode, None), StrategyFor(mode), None, [])
    else
      var k := FailurePoint(VerdictsOf(probes), target);
      Injection(ids[..k], [ids[k]], ids[k + 1..], FailureReasonsFor(mode, Some(ids[k])), StrategyFor(mode),
                Some(ids[k]),
                seq(|ids|, i requires 0 <= i < |ids| => (ids[i], OutcomeAt(i, k))))
  }

  function IdsWhere(probes: seq<Probe>, accepted: bool): seq<string> {
    if probes == [] then []
    else
      var last := probes[|probes| - 1];
      IdsWhere(probes[..|probes| - 1], accepted) + (if last.accepted == accepted then [last.id] else [])
  }

  function RejectionReasons(probes: seq<Probe>): seq<string> {
    if probes == [] then []
    else
      var last := probes[|probes| - 1];
      RejectionReasons(probes[..|probes| - 1]) + (if last.accepted then [] else [last.rejection])
  }

  function Undisturbed(probes: seq<Probe>): Injection {
    var failed := IdsWhere(probes, false);
    Injection(IdsWhere(probes, true), failed, [], RejectionReasons(probes),
              if failed == [] then NoStrategy else SafeStop, if failed == [] then None else Some(failed[0]),
              seq(|probes|, i requires 0 <= i < |probes| =>
                (probes[i].id, if probes[i].accepted then OSimulated else OFailed)))
  }

  function InjectionOf(actions: seq<Object>, s: Scenario): Injection
    requires ModeSupported(s.mode)
  {
    var probes := Probes(actions);
    if s.mode.ForcedBoundary? then
      var ids := IdsOf(probes);
      Injection([], [], ids, [ModeText(s.mode)], TakeNoAction, None,
                seq(|ids|, i requires 0 <= i < |ids| => (ids[i], OSkipped)))
    else if s.mode.NoFailure? then Undisturbed(probes)
    else
      TargetIndexWithin(actions, s);
      Injected(probes, TargetIndex(actions, s), s.mode)
  }

  // ---- the loops ----

  method FindTargetIndex(actions: seq<Object>, s: Scenario) returns (index: nat)
    ensures index == TargetIndex(actions, s)
  {
    if s.target.Some? && s.target.value != "" {
      for i := 0 to |actions|
        invariant FindTarget(actions, s.target.value, 0) == FindTarget(actions, s.target.value, i)
      {
        if Get(actions[i], ActionId) == Str(s.target.value) {
          return i;
        }
      }
    }
    if s.mode.PartialPlanFailure? && |actions| > 1 {
      return 1;
    }
    return 0;
  }

  /** The loop moves its own target when an earlier action is rejected; the failure still lands at the first of the
      two, and nothing after it is simulated. */
  method RunToFailure(probes: seq<Probe>, start: nat, ghost ids: seq<string>, ghost verdicts: seq<bool>)
    returns (simulated: seq<string>, failed: seq<string>, skipped: seq<string>, failureAction: Option<string>,
             outcomes: seq<(string, Outcome)>)
    requires ids == IdsOf(probes) && verdicts == VerdictsOf(probes)
    requires start < |probes|
    ensures var k := FailurePoint(verdicts, start);
      && k < |probes|
      && simulated == ids[..k] && failed == [ids[k]] && skipped == ids[k + 1..] && failureAction == Some(ids[k])
      && |outcomes| == |ids| && forall j :: 0 <= j < |ids| ==> outcomes[j] == (ids[j], OutcomeAt(j, k))
  {
    var target := start;
    simulated, failed, skipped, failureAction, outcomes := [], [], [], None, [];
    ghost var k := FailurePoint(verdicts, start);
    FirstRejectedSplits(verdicts, 0);
    for i := 0 to |probes|
      invariant target == if i <= k then start else k
      invariant simulated == if i <= k then ids[..i] else ids[..k]
      invariant i <= k ==> failed == [] && skipped == [] && failureAction == None
      invariant i > k ==> failed == [ids[k]] && skipped == ids[k + 1..i] && failureAction == Some(ids[k])
      invariant |outcomes| == i && forall j :: 0 <= j < i ==> outcomes[j] == (ids[j], OutcomeAt(j, k))
    {
      var id := probes[i].id;
      assert verdicts[i] == probes[i].accepted && ids[i] == id;
      if i < target {
        if probes[i].accepted {
          simulated := simulated + [id];
          outcomes := outcomes + [(id, OSimulated)];
        } else {
          failed := failed + [id];
          outcomes := outcomes + [(id, OFailed)];
          failureAction := Some(id);
          target := i;
        }
      } else if i == target {
        failed := failed + [id];
        outcomes := outcomes + [(id, OFailed)];
        failureAction := Some(id);
      } else {
        skipped := skipped + [id];
        outcomes := outcomes + [(id, OSkipped)];
      }
    }
  }

  method InjectAtTarget(probes: seq<Probe>, start: nat, mode: Mode) returns (r: Injection)
    requires probes != [] ==> start < |probes|
    ensures r == Injected(probes, start, mode)
  {
    if probes == [] {
      return Injection([], [], [], FailureReasonsFor(mode, None), StrategyFor(mode), None, []);
    }
    var simulated, failed, skipped, failureAction, outcomes :=
      RunToFailure(probes, start, IdsOf(probes), VerdictsOf(probes));
    r := Injection(simulated, failed, skipped, FailureReasonsFor(mode, failureAction), StrategyFor(mode),
                   failureAction, outcomes);
    assert r.outcomes == Injected(probes, start, mode).outcomes;
  }

  method SimulateWithoutInjection(probes: seq<Probe>) returns (r: Injection)
    ensures r == Undisturbed(probes)
  {
    var simulated: seq<string>, failed: seq<string>, reasons: seq<string> := [], [], [];
    var outcomes: seq<(string, Outcome)> := [];
    for i := 0 to |probes|
      invariant simulated == IdsWhere(probes[..i], true) && failed == IdsWhere(probes[..i], false)
      invariant reasons == RejectionReasons(probes[..i])
      invariant |outcomes| == i && forall j :: 0 <= j < i ==>
        outcomes[j] == (probes[j].id, if probes[j].accepted then OSimulated else OFailed)
    {
      assert probes[..i + 1][..i] == probes[..i];
      if !probes[i].accepted {
        failed := failed + [probes[i].id];
        outcomes := outcomes + [(probes[i].id, OFailed)];
        reasons := reasons + [probes[i].rejection];
      } else {
        simulated := simulated + [probes[i].id];
        outcomes := outcomes + [(probes[i].id, OSimulated)];
      }
    }
    assert probes[..|probes|] == probes;
    r := Injection(simulated, failed, [], reasons, if failed == [] then NoStrategy else SafeStop,
                   if failed == [] then None else Some(failed[0]), outcomes);
    assert r.outcomes == Undisturbed(probes).outcomes;
  }

  method InjectFailure(actions: seq<Object>, s: Scenario) returns (r: Injection)
    requires ModeSupported(s.mode)
    ensures r == InjectionOf(actions, s)
  {
    var probes := Probes(actions);
    if s.mode.ForcedBoundary? {
      var ids := IdsOf(probes);
      return Injection([], [], ids, [ModeText(s.mode)], TakeNoAction, None,
                       seq(|ids|, i requires 0 <= i < |ids| => (ids[i], OSkipped)));
    }
    if s.mode.NoFailure? {
      r := SimulateWithoutInjection(probes);
    } else {
      TargetIndexWithin(actions, s);
      var index := FindTargetIndex(actions, s);
      r := InjectAtTarget(probes, index, s.mode);
    }
  }
}
