/** The shape of an injected failure, and the agreement of the injector with the adapter simulator. */
module InjectionTheorems {
  import opened Base
  import opened JsonValues
  import opened RuntimePlan
  import opened Adapters
  import opened FailureInjector

  lemma FailurePointIsMinimum(verdicts: seq<bool>, target: nat)
    requires target < |verdicts|
    ensures var k := FailurePoint(verdicts, target);
      && k <= target
      && (forall i :: 0 <= i < k ==> verdicts[i])
      && (k < target ==> !verdicts[k])
  {
    FirstRejectedSplits(verdicts, 0);
  }

  lemma {:induction false} FindTargetIsFirst(actions: seq<Object>, target: string, i: nat)
    requires i <= |actions|
    ensures var t := FindTarget(actions, target, i);
      && i <= t <= |actions|
      && (forall j :: i <= j < t ==> Get(actions[j], ActionId) != Str(target))
      && (t < |actions| ==> Get(actions[t], ActionId) == Str(target))
    decreases |actions| - i
  {
    if i < |actions| && Get(actions[i], ActionId) != Str(target) {
      FindTargetIsFirst(actions, target, i + 1);
    }
  }

  /** The scenario asks for this action by its id. */
  predicate Names(s: Scenario, action: Object) {
    s.target.Some? && s.target.value != "" && Get(action, ActionId) == Str(s.target.value)
  }

  /** The scenario's target position is a real position: the first action carrying the requested id if there is one,
      else position 1 for a partial plan failure on two or more actions, else position 0. */
  lemma TargetIsNamedOrDefault(actions: seq<Object>, s: Scenario)
    requires actions != []
    ensures var t := TargetIndex(actions, s);
      && t < |actions|
      && (forall j :: 0 <= j < |actions| && Names(s, actions[j]) ==> Names(s, actions[t]) && t <= j)
      && ((forall j :: 0 <= j < |actions| ==> !Names(s, actions[j])) ==>
            t == if s.mode.PartialPlanFailure? && |actions| > 1 then 1 else 0)
  {
    TargetIndexWithin(actions, s);
    if s.target.Some? {
      FindTargetIsFirst(actions, s.target.value, 0);
    }
  }

  ghost predicate FailureShape(r: Injection, ids: seq<string>, verdicts: seq<bool>, target: nat)
    requires |ids| == |verdicts|
  {
    var k := |r.simulated|;
    && r.simulated + r.failed + r.skipped == ids
    && k <= target < |ids|
    && r.failed == [ids[k]] && r.failureAction == Some(ids[k])
    && |r.outcomes| == |ids|
    && (forall i :: 0 <= i < |ids| ==>
         r.outcomes[i] == (ids[i], if i < k then OSimulated else if i == k then OFailed else OSkipped))
    && (forall i :: 0 <= i < k ==> verdicts[i])
    && (k < target ==> !verdicts[k])
  }

  lemma InjectedShape(probes: seq<Probe>, target: nat, mode: Mode)
    requires target < |probes|
    ensures FailureShape(Injected(probes, target, mode), IdsOf(probes), VerdictsOf(probes), target)
  {
    FailurePointIsMinimum(VerdictsOf(probes), target);
    var ids, k := IdsOf(probes), FailurePoint(VerdictsOf(probes), target);
    assert ids[..k] + [ids[k]] + ids[k + 1..] == ids;
  }

  lemma InjectingModesInject(actions: seq<Object>, s: Scenario)
    requires Injecting(s.mode)
    ensures actions != [] ==> TargetIndex(actions, s) < |Probes(actions)|
    ensures |Probes(actions)| == |actions|
    ensures InjectionOf(actions, s) == Injected(Probes(actions), TargetIndex(actions, s), s.mode)
  {
    TargetIndexWithin(actions, s);
  }

  /** Injection shape, for every injecting mode and every non-empty action list: with k the smaller of the target
      position and the first rejected position, the outcomes in plan order are simulated^k, failed, skipped^*, the
      three id lists concatenate to the plan's ids in order, and every simulated action was accepted. */
  lemma InjectedFailureShape(actions: seq<Object>, s: Scenario)
    requires Injecting(s.mode) && actions != []
    ensures FailureShape(InjectionOf(actions, s), IdsOf(Probes(actions)), VerdictsOf(Probes(actions)),
                         TargetIndex(actions, s))
  {
    InjectingModesInject(actions, s);
    InjectedShape(Probes(actions), TargetIndex(actions, s), s.mode);
  }

  lemma VerdictIsAcceptance(actions: seq<Object>, i: nat)
    requires i < |actions|
    ensures VerdictsOf(Probes(actions))[i] == Accepts(actions[i])
    ensures IdsOf(Probes(actions))[i] == ActionIdOf(actions[i])
  {
    assert Probes(actions)[i] == ProbeOf(actions[i]);
  }

  /** The ids of the results with (or without) status `simulated`, in order. */
  function ResultIds(results: seq<MockResult>, simulated: bool): seq<string> {
    if results == [] then []
    else
      var last := results[|results| - 1];
      ResultIds(results[..|results| - 1], simulated)
      + (if (last.status == Simulated) == simulated then [last.actionId] else [])
  }

  ghost predicate SameView(results: seq<MockResult>, probes: seq<Probe>) {
    && |results| == |probes|
    && forall i :: 0 <= i < |results| ==>
         results[i].actionId == probes[i].id && (results[i].status == Simulated <==> probes[i].accepted)
  }

  lemma ResultsAndProbesAgree(actions: seq<Object>)
    ensures SameView(Results(actions), Probes(actions))
  {
    forall i | 0 <= i < |actions|
      ensures Results(actions)[i].actionId == Probes(actions)[i].id
      ensures Results(actions)[i].status == Simulated <==> Probes(actions)[i].accepted
    {
      ResultSimulatedExactlyAccepted(actions[i]);
      VerdictIsAcceptance(actions, i);
    }
  }

  lemma {:induction false} SameViewSameIds(results: seq<MockResult>, probes: seq<Probe>, simulated: bool)
    requires SameView(results, probes)
    ensures ResultIds(results, simulated) == IdsWhere(probes, simulated)
  {
    if results != [] {
      SameViewSameIds(results[..|results| - 1], probes[..|probes| - 1], simulated);
    }
  }

  ghost predicate ExecutablePlan(plan: Object) {
    Validation(plan).SafetyPassed() && Get(plan, PlanStatus).Str? && plan[PlanStatus].s in EXECUTABLE
  }

  lemma ExecutablePlanRunsAdapters(plan: Object)
    requires ExecutablePlan(plan)
    ensures SimulateReport(plan).results == Results(PlanActions(plan))
  {
  }

  /** Two simulators agree: on every executable valid plan, injection without a failure marks simulated exactly the
      actions the adapter simulator reports as simulated, and failed exactly those it blocks. */
  lemma UndisturbedAgreesWithAdapters(plan: Object, s: Scenario)
    requires ExecutablePlan(plan) && s.mode.NoFailure?
    ensures var r := InjectionOf(PlanActions(plan), s);
      && r.simulated == ResultIds(SimulateReport(plan).results, true)
      && r.failed == ResultIds(SimulateReport(plan).results, false)
      && r.skipped == []
  {
    var actions := PlanActions(plan);
    ExecutablePlanRunsAdapters(plan);
    ResultsAndProbesAgree(actions);
    SameViewSameIds(Results(actions), Probes(actions), true);
    SameViewSameIds(Results(actions), Probes(actions), false);
    assert InjectionOf(actions, s) == Undisturbed(Probes(actions));
  }

  /** Under an injected failure the simulated ids are a prefix of the adapter results, all of them accepted there. */
  lemma InjectedIsPrefixOfAdapters(plan: Object, s: Scenario)
    requires ExecutablePlan(plan) && Injecting(s.mode)
    ensures var r, results := InjectionOf(PlanActions(plan), s), SimulateReport(plan).results;
      && |r.simulated| <= |results|
      && forall i :: 0 <= i < |r.simulated| ==> r.simulated[i] == results[i].actionId && results[i].status == Simulated
  {
    var actions := PlanActions(plan);
    ExecutablePlanRunsAdapters(plan);
    if actions != [] {
      InjectedFailureShape(actions, s);
      ResultsAndProbesAgree(actions);
      var r, ids := InjectionOf(actions, s), IdsOf(Probes(actions));
      forall i | 0 <= i < |r.simulated|
        ensures r.simulated[i] == Results(actions)[i].actionId && Results(actions)[i].status == Simulated
      {
        assert (r.simulated + r.failed + r.skipped)[i] == r.simulated[i];
        assert VerdictsOf(Probes(actions))[i];
      }
    }
  }

  // ---- what an injection says of itself ----

  /** The strategy is that of the mode: safe-stop modes stop, an unavailable route goes back to the start, a partial
      failure reverts what completed, a boundary failure does nothing; without injection only a rejection stops. */
  lemma StrategyIsTheModes(actions: seq<Object>, s: Scenario)
    requires ModeSupported(s.mode)
    ensures var r := InjectionOf(actions, s);
      && (SafeStopMode(s.mode) ==> r.strategy == SafeStop)
      && (s.mode.RouteUnavailable? ==> r.strategy == RollbackToStart)
      && (s.mode.PartialPlanFailure? ==> r.strategy == RevertCompleted)
      && (s.mode.ForcedBoundary? ==> r.strategy == TakeNoAction)
      && (s.mode.NoFailure? ==> r.strategy == if r.failed == [] then NoStrategy else SafeStop)
  {
    TargetIndexWithin(actions, s);
  }

  /** The reason names mode and failed action; a timeout adds that there is no retry. A boundary failure names its
      mode. */
  lemma ReasonsAreTheModes(actions: seq<Object>, s: Scenario)
    requires ModeSupported(s.mode) && !s.mode.NoFailure?
    ensures var r := InjectionOf(actions, s);
      && |r.reasons| == (if s.mode.ActionTimeout? then 2 else 1)
      && (s.mode.ActionTimeout? ==> r.reasons[1] == "retry_not_allowed_in_v0_4_1")
      && (s.mode.ForcedBoundary? ==> r.reasons[0] == "forced_safety_boundary_failure")
      && (Injecting(s.mode) ==> r.reasons[0] == ModeText(s.mode) + ":"
                                + (match r.failureAction
                                   case Some(id) => if id != "" then id else "no_target"
                                   case None => "no_target"))
  {
    TargetIndexWithin(actions, s);
  }

  /** A boundary failure simulates and fails nothing: every action is skipped. */
  lemma BoundaryFailureSkipsAll(actions: seq<Object>, s: Scenario)
    requires s.mode.ForcedBoundary?
    ensures var r := InjectionOf(actions, s);
      && r.simulated == [] && r.failed == [] && r.failureAction == None && r.skipped == IdsOf(Probes(actions))
      && |r.outcomes| == |actions| && forall i :: 0 <= i < |actions| ==>
        r.outcomes[i] == (ActionIdOf(actions[i]), OSkipped)
  {
    forall i | 0 <= i < |actions| ensures IdsOf(Probes(actions))[i] == ActionIdOf(actions[i]) {
      VerdictIsAcceptance(actions, i);
    }
  }

  /** Without injection every action is tried: each outcome is its acceptance, the failed ones give one reason each,
      naming the adapters' reason where no adapter was found, and the first failed one is the failure action. */
  lemma UndisturbedTriesAll(actions: seq<Object>, s: Scenario)
    requires s.mode.NoFailure?
    ensures var r := InjectionOf(actions, s);
      && |r.outcomes| == |actions|
      && (forall i :: 0 <= i < |actions| ==>
            r.outcomes[i] == (ActionIdOf(actions[i]), if Accepts(actions[i]) then OSimulated else OFailed))
      && |r.reasons| == |r.failed| && |r.simulated| + |r.failed| == |actions|
      && r.failureAction == (if r.failed == [] then None else Some(r.failed[0]))
  {
    hide Accepts, ProbeOf;
    forall i | 0 <= i < |actions|
      ensures Probes(actions)[i].id == ActionIdOf(actions[i]) && Probes(actions)[i].accepted == Accepts(actions[i])
    {
      VerdictIsAcceptance(actions, i);
    }
    CountsAgree(Probes(actions));
  }

  lemma {:induction false} CountsAgree(probes: seq<Probe>)
    ensures |RejectionReasons(probes)| == |IdsWhere(probes, false)|
    ensures |IdsWhere(probes, true)| + |IdsWhere(probes, false)| == |probes|
  {
    if probes != [] { CountsAgree(probes[..|probes| - 1]); }
  }

  /** The reason a rejected action gives when nothing is injected: why it does not resolve, or its own id. */
  ghost predicate IsRejectionReason(actions: seq<Object>, t: string) {
    exists i :: 0 <= i < |actions| && !Accepts(actions[i])
                && t == "mock_adapter_rejected:"
                        + match Resolve(actions[i]) case Unresolved(reason) => reason case _ => ActionIdOf(actions[i])
  }

  lemma {:induction false} RejectionReasonsAre(actions: seq<Object>, n: nat)
    requires n <= |actions|
    ensures forall t :: t in RejectionReasons(Probes(actions)[..n]) <==> IsRejectionReason(actions[..n], t)
  {
    hide Accepts, Resolve;
    if n > 0 {
      RejectionReasonsAre(actions, n - 1);
      var probes := Probes(actions);
      assert probes[..n][..n - 1] == probes[..n - 1] && probes[..n][n - 1] == ProbeOf(actions[n - 1]);
      assert actions[..n] == actions[..n - 1] + [actions[n - 1]];
    }
  }

  /** Without an injected failure the reasons are exactly those of the rejected actions. */
  lemma UndisturbedReasonsAre(actions: seq<Object>, s: Scenario)
    requires s.mode.NoFailure?
    ensures forall t :: t in InjectionOf(actions, s).reasons <==> IsRejectionReason(actions, t)
  {
    hide Accepts, Resolve, IsRejectionReason;
    RejectionReasonsAre(actions, |actions|);
    assert actions[..|actions|] == actions && Probes(actions)[..|actions|] == Probes(actions);
  }
}
