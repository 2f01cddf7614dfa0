// The pre-registered stopping rule that decides, pair by pair, whether an experiment is complete.

module StoppingRule {
  import opened Json

  type Run = map<string, Json>

  datatype Rule = Rule(minimumPairs: int, maximumPairs: int, targetCiHalfWidth: Option<real>)

  datatype Interval = Interval(estimate: real, lower: real, upper: real)

  datatype Code =
    | MinimumPairsReached
    | MaximumPairsReached
    | FixedPairCountReached
    | TargetCiHalfWidthReached

  datatype Mode = FixedPairCount | TargetCiHalfWidth

  datatype Evaluation = Evaluation(code: Code, evaluationOrder: nat, satisfied: bool, firstSatisfiedAtPair: Option<int>)

  datatype Decision = Decision(
    mode: Mode,
    triggered: bool,
    reason: Code,
    primaryReason: Code,
    reasons: seq<Code>,
    minimumPairs: int,
    maximumPairs: int,
    targetCiHalfWidth: Option<real>,
    observedCiHalfWidth: Option<real>,
    bootstrapInterval95: Option<Interval>,
    completedPairs: nat,
    conditionEvaluations: seq<Evaluation>)

  // The rule together with what it reads from a run: the primary metric, the seeded
  // bootstrap of the paired differences, and the rounding to six digits.
  datatype Plan = Plan(
    rule: Rule,
    seedCount: nat,
    metric: Run -> real,
    bootstrap: seq<real> -> Interval,
    round6: real -> real)

  predicate ValidRule(rule: Rule, seedCount: nat) {
    && 1 <= rule.minimumPairs <= rule.maximumPairs
    && rule.maximumPairs == seedCount
  }

  // The rule as it is stored in a request: an object whose two bounds are realigned in place.
  class StoppingRuleConfig {
    var minimumPairs: int
    var maximumPairs: int
    var targetCiHalfWidth: Option<real>

    // The field bounds and the bound check that a rule passes before it is attached to a request.
    ghost predicate Valid()
      reads this
    {
      && 5 <= minimumPairs <= 50
      && 10 <= maximumPairs <= 50
      && minimumPairs <= maximumPairs
      && (targetCiHalfWidth.Some? ==> 0.0 < targetCiHalfWidth.value <= 100.0)
    }

    // Whatever maximum the client sent, the aligned rule ends at the seed count and stays a valid rule;
    // a minimum that already fits is kept.
    method AlignStoppingRule(seedCount: nat)
      requires Valid()
      requires seedCount in {10, 25, 50}
      modifies this
      ensures Valid()
      ensures targetCiHalfWidth == old(targetCiHalfWidth)
      ensures ValidRule(Rule(minimumPairs, maximumPairs, targetCiHalfWidth), seedCount)
      ensures old(minimumPairs) <= seedCount ==> minimumPairs == old(minimumPairs)
      ensures old(minimumPairs) > seedCount ==> minimumPairs == seedCount
    {
      if maximumPairs != seedCount {
        maximumPairs := seedCount;
      }
      if minimumPairs > seedCount {
        minimumPairs := seedCount;
      }
    }
  }

  /*** One evaluation of the rule ***/

  function LimitCode(rule: Rule): Code {
    if rule.targetCiHalfWidth.Some? then MaximumPairsReached else FixedPairCountReached
  }

  function ConditionCodes(rule: Rule): seq<Code> {
    [MinimumPairsReached, LimitCode(rule)]
    + (if rule.targetCiHalfWidth.Some? then [TargetCiHalfWidthReached] else [])
  }

  function InitialDecision(plan: Plan): Decision {
    var codes := ConditionCodes(plan.rule);
    Decision(
      if plan.rule.targetCiHalfWidth.Some? then TargetCiHalfWidth else FixedPairCount,
      false, MaximumPairsReached, MaximumPairsReached, [],
      plan.rule.minimumPairs, plan.seedCount, plan.rule.targetCiHalfWidth,
      None, None, 0,
      seq(|codes|, i requires 0 <= i < |codes| => Evaluation(codes[i], i + 1, false, None)))
  }

  function Differences(plan: Plan, baseline: seq<Run>, intervention: seq<Run>): seq<real>
    requires |baseline| == |intervention|
  {
    seq(|baseline|, i requires 0 <= i < |baseline| => plan.metric(intervention[i]) - plan.metric(baseline[i]))
  }

  function HalfWidth(plan: Plan, interval: Interval): real {
    plan.round6((interval.upper - interval.lower) / 2.0)
  }

  // What each condition means after the given pairs, independent of any earlier decision.
  predicate Holds(plan: Plan, baseline: seq<Run>, intervention: seq<Run>, code: Code)
    requires |baseline| == |intervention|
  {
    match code
    case MinimumPairsReached => |baseline| >= plan.rule.minimumPairs
    case MaximumPairsReached => |baseline| >= plan.rule.maximumPairs
    case FixedPairCountReached => |baseline| >= plan.rule.maximumPairs
    case TargetCiHalfWidthReached =>
      && plan.rule.targetCiHalfWidth.Some?
      && |baseline| >= plan.rule.minimumPairs
      && HalfWidth(plan, plan.bootstrap(Differences(plan, baseline, intervention))) <= plan.rule.targetCiHalfWidth.value
  }

  // The pair number recorded when a condition is first seen to hold.
  function SatisfiedAt(plan: Plan, pairs: nat, code: Code): int {
    match code
    case MinimumPairsReached => plan.rule.minimumPairs
    case MaximumPairsReached => plan.rule.maximumPairs
    case FixedPairCountReached => plan.rule.maximumPairs
    case TargetCiHalfWidthReached => pairs
  }

  // The last recorded evaluation of a code wins, as in a dictionary built from the list.
  function PreviousFirst(evaluations: seq<Evaluation>, code: Code): Option<int> {
    if evaluations == [] then None
    else if evaluations[|evaluations| - 1].code == code then evaluations[|evaluations| - 1].firstSatisfiedAtPair
    else PreviousFirst(evaluations[..|evaluations| - 1], code)
  }

  function NextFirst(plan: Plan, baseline: seq<Run>, intervention: seq<Run>, previous: Decision, code: Code): Option<int>
    requires |baseline| == |intervention|
  {
    var first := PreviousFirst(previous.conditionEvaluations, code);
    if first.None? && Holds(plan, baseline, intervention, code) then Some(SatisfiedAt(plan, |baseline|, code)) else first
  }

  function NextEvaluations(plan: Plan, baseline: seq<Run>, intervention: seq<Run>, previous: Decision): seq<Evaluation>
    requires |baseline| == |intervention|
  {
    var codes := ConditionCodes(plan.rule);
    seq(|codes|, i requires 0 <= i < |codes| =>
      Evaluation(codes[i], i + 1, Holds(plan, baseline, intervention, codes[i]),
                 NextFirst(plan, baseline, intervention, previous, codes[i])))
  }

  function TerminalReasons(plan: Plan, baseline: seq<Run>, intervention: seq<Run>): seq<Code>
    requires |baseline| == |intervention|
  {
    (if Holds(plan, baseline, intervention, MaximumPairsReached) then [LimitCode(plan.rule)] else [])
    + (if Holds(plan, baseline, intervention, TargetCiHalfWidthReached) then [TargetCiHalfWidthReached] else [])
  }

  function NextDecision(plan: Plan, baseline: seq<Run>, intervention: seq<Run>, previous: Decision): Decision
    requires |baseline| == |intervention|
  {
    var reasons := TerminalReasons(plan, baseline, intervention);
    var primary := if reasons != [] then reasons[0] else previous.primaryReason;
    var measured := plan.rule.targetCiHalfWidth.Some? && |baseline| >= plan.rule.minimumPairs;
    var interval := plan.bootstrap(Differences(plan, baseline, intervention));
    previous.(
      triggered := reasons != [],
      reason := primary,
      primaryReason := primary,
      reasons := reasons,
      observedCiHalfWidth := if measured then Some(HalfWidth(plan, interval)) else previous.observedCiHalfWidth,
      bootstrapInterval95 :=
        if measured then Some(Interval(plan.round6(interval.estimate), plan.round6(interval.lower), plan.round6(interval.upper)))
        else previous.bootstrapInterval95,
      completedPairs := |baseline|,
      conditionEvaluations := NextEvaluations(plan, baseline, intervention, previous))
  }

  // The differences of the pairs: intervention minus baseline.
  ghost predicate PairedBy(plan: Plan, baseline: seq<Run>, intervention: seq<Run>, differences: seq<real>)
    requires |baseline| == |intervention|
  {
    |differences| == |baseline| && forall j :: 0 <= j < |baseline| ==> differences[j] == plan.metric(intervention[j]) - plan.metric(baseline[j])
  }

  predicate Measured(rule: Rule, pairs: nat) {
    rule.targetCiHalfWidth.Some? && pairs >= rule.minimumPairs
  }

  // Half the width of the bootstrap interval, rounded.
  function Width(plan: Plan, differences: seq<real>): real {
    plan.round6((plan.bootstrap(differences).upper - plan.bootstrap(differences).lower) / 2.0)
  }

  predicate WithinTarget(plan: Plan, differences: seq<real>) {
    Measured(plan.rule, |differences|) && Width(plan, differences) <= plan.rule.targetCiHalfWidth.value
  }

  // The interval of the pairs is reported from the minimum on when the rule has a target, and what was reported before is
  // kept otherwise.
  ghost predicate ReportsInterval(plan: Plan, differences: seq<real>, previous: Decision, decision: Decision) {
    if Measured(plan.rule, |differences|) then
      var interval := plan.bootstrap(differences);
      && decision.observedCiHalfWidth == Some(Width(plan, differences))
      && decision.bootstrapInterval95
         == Some(Interval(plan.round6(interval.estimate), plan.round6(interval.lower), plan.round6(interval.upper)))
    else
      decision.observedCiHalfWidth == previous.observedCiHalfWidth && decision.bootstrapInterval95 == previous.bootstrapInterval95
  }

  // Triggered at the maximum or within the target, for exactly these reasons, of which the limit comes first.
  ghost predicate ReportsReasons(plan: Plan, differences: seq<real>, previous: Decision, decision: Decision) {
    var full, within := |differences| >= plan.rule.maximumPairs, WithinTarget(plan, differences);
    var limit := if plan.rule.targetCiHalfWidth.Some? then MaximumPairsReached else FixedPairCountReached;
    && decision.completedPairs == |differences|
    && (decision.triggered <==> full || within)
    && decision.reasons == (if full then [limit] else []) + (if within then [TargetCiHalfWidthReached] else [])
    && decision.reason == decision.primaryReason
    && decision.primaryReason == (if full then limit else if within then TargetCiHalfWidthReached else previous.primaryReason)
  }

  // One evaluation for the minimum, one for the limit and, with a target, one for the target, each as it holds now.
  ghost predicate ReportsConditions(plan: Plan, differences: seq<real>, decision: Decision) {
    var rule, evaluations := plan.rule, decision.conditionEvaluations;
    && |evaluations| == (if rule.targetCiHalfWidth.Some? then 3 else 2)
    && (forall i :: 0 <= i < |evaluations| ==> evaluations[i].evaluationOrder == i + 1)
    && evaluations[0].code == MinimumPairsReached && evaluations[0].satisfied == (|differences| >= rule.minimumPairs)
    && evaluations[1].code == (if rule.targetCiHalfWidth.Some? then MaximumPairsReached else FixedPairCountReached)
    && evaluations[1].satisfied == (|differences| >= rule.maximumPairs)
    && (rule.targetCiHalfWidth.Some? ==>
          evaluations[2].code == TargetCiHalfWidthReached && evaluations[2].satisfied == WithinTarget(plan, differences))
  }

  ghost predicate Reports(plan: Plan, differences: seq<real>, previous: Decision, decision: Decision) {
    && decision.mode == previous.mode && decision.targetCiHalfWidth == previous.targetCiHalfWidth
    && decision.minimumPairs == previous.minimumPairs && decision.maximumPairs == previous.maximumPairs
    && ReportsInterval(plan, differences, previous, decision) && ReportsReasons(plan, differences, previous, decision)
    && ReportsConditions(plan, differences, decision)
  }

  lemma {:induction false} DecisionReports(
    plan: Plan, baseline: seq<Run>, intervention: seq<Run>, previous: Decision, differences: seq<real>)
    requires |baseline| == |intervention| && PairedBy(plan, baseline, intervention, differences)
    ensures Reports(plan, differences, previous, NextDecision(plan, baseline, intervention, previous))
  {
    assert differences == Differences(plan, baseline, intervention);
    hide Differences, PairedBy, NextFirst;
  }

  method PairedDifferences(plan: Plan, baseline: seq<Run>, intervention: seq<Run>) returns (differences: seq<real>)
    requires |baseline| == |intervention|
    ensures differences == Differences(plan, baseline, intervention)
  {
    differences := [];
    for i := 0 to |baseline|
      invariant differences == Differences(plan, baseline, intervention)[..i]
    {
      differences := differences + [plan.metric(intervention[i]) - plan.metric(baseline[i])];
    }
  }

  // Every condition state in order, each with the first pair recorded for it or recorded now.
  method ConditionEvaluations(conditionStates: seq<(Code, bool, int)>, previous: seq<Evaluation>)
    returns (evaluations: seq<Evaluation>)
    ensures |evaluations| == |conditionStates|
    ensures forall i :: 0 <= i < |conditionStates| ==>
      var (code, satisfied, satisfiedAtPair) := conditionStates[i];
      var first := PreviousFirst(previous, code);
      evaluations[i] == Evaluation(code, i + 1, satisfied, if first.None? && satisfied then Some(satisfiedAtPair) else first)
  {
    evaluations := [];
    for i := 0 to |conditionStates|
      invariant |evaluations| == i
      invariant forall j :: 0 <= j < i ==>
        var (code, satisfied, satisfiedAtPair) := conditionStates[j];
        var first := PreviousFirst(previous, code);
        evaluations[j] == Evaluation(code, j + 1, satisfied, if first.None? && satisfied then Some(satisfiedAtPair) else first)
    {
      var (code, satisfied, satisfiedAtPair) := conditionStates[i];
      var first := PreviousFirst(previous, code);
      if first.None? && satisfied {
        first := Some(satisfiedAtPair);
      }
      evaluations := evaluations + [Evaluation(code, i + 1, satisfied, first)];
    }
  }

  // The bootstrap of the paired differences, from the minimum on when the rule has a target.
  method MeasureTarget(plan: Plan, baseline: seq<Run>, intervention: seq<Run>)
    returns (targetReached: bool, observedHalfWidth: Option<real>, intervalPayload: Option<Interval>)
    requires |baseline| == |intervention|
    ensures targetReached == Holds(plan, baseline, intervention, TargetCiHalfWidthReached)
    ensures observedHalfWidth.Some? == intervalPayload.Some? == Measured(plan.rule, |baseline|)
    ensures observedHalfWidth.Some? ==>
      var interval := plan.bootstrap(Differences(plan, baseline, intervention));
      && observedHalfWidth.value == HalfWidth(plan, interval)
      && intervalPayload.value == Interval(plan.round6(interval.estimate), plan.round6(interval.lower), plan.round6(interval.upper))
  {
    hide Differences;
    targetReached, observedHalfWidth, intervalPayload := false, None, None;
    if plan.rule.targetCiHalfWidth.Some? && |baseline| >= plan.rule.minimumPairs {
      var differences := PairedDifferences(plan, baseline, intervention);
      var interval := plan.bootstrap(differences);
      var halfWidth := plan.round6((interval.upper - interval.lower) / 2.0);
      observedHalfWidth := Some(halfWidth);
      targetReached := halfWidth <= plan.rule.targetCiHalfWidth.value;
      intervalPayload := Some(Interval(plan.round6(interval.estimate), plan.round6(interval.lower), plan.round6(interval.upper)));
    }
  }

  // Which conditions the rule has, which of them hold, and the pair each would be recorded at.
  method EvaluateConditions(plan: Plan, baseline: seq<Run>, intervention: seq<Run>, targetReached: bool, previous: Decision)
    returns (evaluations: seq<Evaluation>)
    requires |baseline| == |intervention| && targetReached == Holds(plan, baseline, intervention, TargetCiHalfWidthReached)
    ensures evaluations == NextEvaluations(plan, baseline, intervention, previous)
  {
    hide Differences, PreviousFirst, HalfWidth;
    var hasTarget := plan.rule.targetCiHalfWidth.Some?;
    var limitCode := if hasTarget then MaximumPairsReached else FixedPairCountReached;
    var conditionStates: seq<(Code, bool, int)> :=
      [(MinimumPairsReached, |baseline| >= plan.rule.minimumPairs, plan.rule.minimumPairs),
       (limitCode, |baseline| >= plan.rule.maximumPairs, plan.rule.maximumPairs)];
    if hasTarget {
      conditionStates := conditionStates + [(TargetCiHalfWidthReached, targetReached, |baseline|)];
    }
    ghost var codes := ConditionCodes(plan.rule);
    assert |conditionStates| == |codes| && forall i :: 0 <= i < |codes| ==>
      conditionStates[i] == (codes[i], Holds(plan, baseline, intervention, codes[i]), SatisfiedAt(plan, |baseline|, codes[i]));
    evaluations := ConditionEvaluations(conditionStates, previous.conditionEvaluations);
  }

  // The rule as the worker evaluates it: lists built in loops, one pass over the paired runs.
  method DecideStop(plan: Plan, baseline: seq<Run>, intervention: seq<Run>, previous: Decision) returns (decision: Decision)
    requires |baseline| == |intervention|
    ensures decision == NextDecision(plan, baseline, intervention, previous)
  {
    hide Differences, NextEvaluations;
    var completedPairs := |baseline|;
    var maximumReached := completedPairs >= plan.rule.maximumPairs;
    var targetReached, observedHalfWidth, intervalPayload := MeasureTarget(plan, baseline, intervention);

    var limitCode := if plan.rule.targetCiHalfWidth.Some? then MaximumPairsReached else FixedPairCountReached;
    var evaluations := EvaluateConditions(plan, baseline, intervention, targetReached, previous);

    var terminalReasons: seq<Code> := [];
    if maximumReached {
      terminalReasons := terminalReasons + [limitCode];
    }
    if targetReached {
      terminalReasons := terminalReasons + [TargetCiHalfWidthReached];
    }
    var primary := if terminalReasons != [] then terminalReasons[0] else previous.primaryReason;
    decision := previous.(
      completedPairs := completedPairs,
      triggered := terminalReasons != [],
      reason := primary,
      primaryReason := primary,
      reasons := terminalReasons,
      observedCiHalfWidth := if observedHalfWidth.Some? then observedHalfWidth else previous.observedCiHalfWidth,
      bootstrapInterval95 := if intervalPayload.Some? then intervalPayload else previous.bootstrapInterval95,
      conditionEvaluations := evaluations);
  }

  // What the decision reports, in terms of nothing but the metric, the bootstrap and the rule.
  method StoppingDecision(plan: Plan, baseline: seq<Run>, intervention: seq<Run>, previous: Decision)
    returns (decision: Decision)
    requires |baseline| == |intervention|
    ensures decision == NextDecision(plan, baseline, intervention, previous)
    ensures forall differences :: PairedBy(plan, baseline, intervention, differences) ==> Reports(plan, differences, previous, decision)
  {
    hide Reports;
    forall differences | PairedBy(plan, baseline, intervention, differences)
      ensures Reports(plan, differences, previous, NextDecision(plan, baseline, intervention, previous))
    {
      DecisionReports(plan, baseline, intervention, previous, differences);
    }
    decision := DecideStop(plan, baseline, intervention, previous);
  }

  /*** The rule over a whole run ***/

  // The decision after the first k pairs: the fold that a run performs, one evaluation per pair.
  function DecisionAfter(plan: Plan, baseline: seq<Run>, intervention: seq<Run>, k: nat): Decision
    requires |baseline| == |intervention| && k <= |baseline|
  {
    if k == 0 then InitialDecision(plan)
    else NextDecision(plan, baseline[..k], intervention[..k], DecisionAfter(plan, baseline, intervention, k - 1))
  }

  // The least pair number up to k at which a condition held.
  function FirstHeld(plan: Plan, baseline: seq<Run>, intervention: seq<Run>, code: Code, k: nat): (first: Option<int>)
    requires |baseline| == |intervention| && k <= |baseline|
    ensures first.Some? ==>
      && 1 <= first.value <= k
      && Holds(plan, baseline[..first.value], intervention[..first.value], code)
      && forall j :: 1 <= j < first.value ==> !Holds(plan, baseline[..j], intervention[..j], code)
    ensures first.None? ==> forall j :: 1 <= j <= k ==> !Holds(plan, baseline[..j], intervention[..j], code)
  {
    if k == 0 then None
    else
      var earlier := FirstHeld(plan, baseline, intervention, code, k - 1);
      if earlier.Some? then earlier
      else if Holds(plan, baseline[..k], intervention[..k], code) then Some(k)
      else None
  }

  predicate Terminal(plan: Plan, baseline: seq<Run>, intervention: seq<Run>, k: nat)
    requires |baseline| == |intervention| && k <= |baseline|
  {
    || Holds(plan, baseline[..k], intervention[..k], MaximumPairsReached)
    || Holds(plan, baseline[..k], intervention[..k], TargetCiHalfWidthReached)
  }

  lemma {:induction false} FirstHeldLimit(plan: Plan, baseline: seq<Run>, intervention: seq<Run>, code: Code, k: nat)
    requires |baseline| == |intervention| && k <= |baseline|
    requires 1 <= plan.rule.minimumPairs && 1 <= plan.rule.maximumPairs
    requires code != TargetCiHalfWidthReached
    ensures FirstHeld(plan, baseline, intervention, code, k)
         == if k >= SatisfiedAt(plan, k, code) then Some(SatisfiedAt(plan, k, code)) else None
  {
    var at := SatisfiedAt(plan, k, code);
    assert at <= k ==> Holds(plan, baseline[..at], intervention[..at], code);
  }

  // The evaluations that tell the truth about the first k pairs: each is satisfied exactly when its condition
  // holds now, and its first pair is the least pair at which the condition ever held.
  ghost predicate TrueEvaluations(plan: Plan, baseline: seq<Run>, intervention: seq<Run>, k: nat, evaluations: seq<Evaluation>)
    requires |baseline| == |intervention| && k <= |baseline|
  {
    var codes := ConditionCodes(plan.rule);
    && |evaluations| == |codes|
    && forall i :: 0 <= i < |codes| ==>
         && evaluations[i].code == codes[i]
         && evaluations[i].evaluationOrder == i + 1
         && (k > 0 ==> evaluations[i].satisfied == Holds(plan, baseline[..k], intervention[..k], codes[i]))
         && evaluations[i].firstSatisfiedAtPair == FirstHeld(plan, baseline, intervention, codes[i], k)
  }

  lemma {:induction false} PreviousFirstAt(evaluations: seq<Evaluation>, i: nat)
    requires i < |evaluations|
    requires forall j :: i < j < |evaluations| ==> evaluations[j].code != evaluations[i].code
    ensures PreviousFirst(evaluations, evaluations[i].code) == evaluations[i].firstSatisfiedAtPair
  {
    var last := |evaluations| - 1;
    if i < last {
      PreviousFirstAt(evaluations[..last], i);
    }
  }

  lemma {:induction false} FirstHeldStep(
    plan: Plan, baseline: seq<Run>, intervention: seq<Run>, k: nat, evaluations: seq<Evaluation>, i: nat)
    requires |baseline| == |intervention| && 1 <= k <= |baseline|
    requires 1 <= plan.rule.minimumPairs && 1 <= plan.rule.maximumPairs
    requires TrueEvaluations(plan, baseline, intervention, k - 1, evaluations)
    requires i < |evaluations|
    ensures
      var code := evaluations[i].code;
      var first := PreviousFirst(evaluations, code);
      FirstHeld(plan, baseline, intervention, code, k)
        == if first.None? && Holds(plan, baseline[..k], intervention[..k], code) then Some(SatisfiedAt(plan, k, code)) else first
  {
    hide Holds;
    var code := evaluations[i].code;
    PreviousFirstAt(evaluations, i);
    if code != TargetCiHalfWidthReached {
      FirstHeldLimit(plan, baseline, intervention, code, k - 1);
      FirstHeldLimit(plan, baseline, intervention, code, k);
    }
  }

  lemma {:induction false} EvaluationsRecordFirstPairs(plan: Plan, baseline: seq<Run>, intervention: seq<Run>, k: nat)
    requires |baseline| == |intervention| && k <= |baseline|
    requires 1 <= plan.rule.minimumPairs && 1 <= plan.rule.maximumPairs
    ensures TrueEvaluations(plan, baseline, intervention, k, DecisionAfter(plan, baseline, intervention, k).conditionEvaluations)
  {
    hide Holds, PreviousFirst, SatisfiedAt, TerminalReasons, HalfWidth, Differences;
    if k > 0 {
      hide FirstHeld, ConditionCodes;
      EvaluationsRecordFirstPairs(plan, baseline, intervention, k - 1);
      var previous := DecisionAfter(plan, baseline, intervention, k - 1);
      forall i | 0 <= i < |ConditionCodes(plan.rule)|
        ensures NextFirst(plan, baseline[..k], intervention[..k], previous, ConditionCodes(plan.rule)[i])
             == FirstHeld(plan, baseline, intervention, ConditionCodes(plan.rule)[i], k)
      {
        FirstHeldStep(plan, baseline, intervention, k, previous.conditionEvaluations, i);
      }
    }
  }

  // After any number of pairs the decision reports the interval of exactly those pairs from the minimum on, and none before.
  lemma {:induction false} RunReports(plan: Plan, baseline: seq<Run>, intervention: seq<Run>, k: nat, differences: seq<real>)
    requires |baseline| == |intervention| && k <= |baseline| && plan.rule.minimumPairs >= 1
    requires PairedBy(plan, baseline[..k], intervention[..k], differences)
    ensures ReportsInterval(plan, differences, InitialDecision(plan), DecisionAfter(plan, baseline, intervention, k))
    ensures k > 0 ==> exists previous :: Reports(plan, differences, previous, DecisionAfter(plan, baseline, intervention, k))
  {
    if k > 0 {
      hide NextDecision, PairedBy;
      var previous := DecisionAfter(plan, baseline, intervention, k - 1);
      DecisionReports(plan, baseline[..k], intervention[..k], previous, differences);
      if !Measured(plan.rule, k) {
        var earlier := differences[..k - 1];
        assert PairedBy(plan, baseline[..k - 1], intervention[..k - 1], earlier) by {
          PairedPrefix(plan, baseline, intervention, k, differences);
        }
        RunReports(plan, baseline, intervention, k - 1, earlier);
      }
    }
  }

  // What a decision says about the rule itself.
  predicate NamesRule(plan: Plan, decision: Decision) {
    && decision.mode == (if plan.rule.targetCiHalfWidth == None then FixedPairCount else TargetCiHalfWidth)
    && decision.minimumPairs == plan.rule.minimumPairs && decision.maximumPairs == plan.seedCount
    && decision.targetCiHalfWidth == plan.rule.targetCiHalfWidth
  }

  lemma {:induction false} RunNamesRule(plan: Plan, baseline: seq<Run>, intervention: seq<Run>, k: nat)
    requires |baseline| == |intervention| && k <= |baseline|
    ensures NamesRule(plan, DecisionAfter(plan, baseline, intervention, k))
  {
    if k > 0 {
      hide NextEvaluations, TerminalReasons, Differences, HalfWidth;
      RunNamesRule(plan, baseline, intervention, k - 1);
    }
  }

  // The decision names the rule and rests on these runs: on their differences and on nothing else.
  ghost predicate RestsOn(plan: Plan, baseline: seq<Run>, intervention: seq<Run>, decision: Decision)
    requires |baseline| == |intervention|
  {
    && NamesRule(plan, decision)
    && forall differences :: PairedBy(plan, baseline, intervention, differences) ==>
      && ReportsInterval(plan, differences, InitialDecision(plan), decision)
      && (baseline != [] ==> (decision.triggered <==> |baseline| >= plan.rule.maximumPairs || WithinTarget(plan, differences)))
  }

  lemma {:induction false} RunRestsOnItsPairs(plan: Plan, baseline: seq<Run>, intervention: seq<Run>)
    requires |baseline| == |intervention| && plan.rule.minimumPairs >= 1
    ensures RestsOn(plan, baseline, intervention, DecisionAfter(plan, baseline, intervention, |baseline|))
  {
    hide DecisionAfter, PairedBy, ReportsInterval, ReportsConditions, WithinTarget, NamesRule;
    RunNamesRule(plan, baseline, intervention, |baseline|);
    assert baseline[..|baseline|] == baseline && intervention[..|baseline|] == intervention;
    forall differences | PairedBy(plan, baseline, intervention, differences)
      ensures ReportsInterval(plan, differences, InitialDecision(plan), DecisionAfter(plan, baseline, intervention, |baseline|))
      ensures baseline != [] ==>
        (DecisionAfter(plan, baseline, intervention, |baseline|).triggered
         <==> |baseline| >= plan.rule.maximumPairs || WithinTarget(plan, differences))
    {
      RunReports(plan, baseline, intervention, |baseline|, differences);
      assert |differences| == |baseline| by { PairedLength(plan, baseline, intervention, differences); }
    }
  }

  lemma {:induction false} PairedLength(plan: Plan, baseline: seq<Run>, intervention: seq<Run>, differences: seq<real>)
    requires |baseline| == |intervention| && PairedBy(plan, baseline, intervention, differences)
    ensures |differences| == |baseline|
  {
  }

  lemma {:induction false} PairedPrefix(plan: Plan, baseline: seq<Run>, intervention: seq<Run>, k: nat, differences: seq<real>)
    requires |baseline| == |intervention| && 1 <= k <= |baseline| && PairedBy(plan, baseline[..k], intervention[..k], differences)
    ensures PairedBy(plan, baseline[..k - 1], intervention[..k - 1], differences[..k - 1])
  {
  }

  // A decision is triggered exactly when a terminal condition holds; the sample limit outranks the precision target.
  lemma {:induction false} TriggeredExactlyWhenTerminal(plan: Plan, baseline: seq<Run>, intervention: seq<Run>, k: nat)
    requires |baseline| == |intervention| && k <= |baseline|
    requires 1 <= plan.rule.minimumPairs && 1 <= plan.rule.maximumPairs
    ensures
      var decision := DecisionAfter(plan, baseline, intervention, k);
      && (decision.triggered <==> Terminal(plan, baseline, intervention, k))
      && (decision.triggered && k >= plan.rule.maximumPairs ==> decision.reason == decision.primaryReason == LimitCode(plan.rule))
      && (decision.triggered && k < plan.rule.maximumPairs ==> decision.reason == decision.primaryReason == TargetCiHalfWidthReached)
      && decision.completedPairs == k
  {
  }
}
