// The closed loop that asks a model for the representatives' decisions, round by round, against a pilot market that
// replays the decisions so far.

module CognitionScheduler {
  import opened Json

  datatype Pilot = Pilot(eventLogHash: string, pathsHash: string)

  datatype Post = Post(round: nat, representative: nat, text: string)

  // What a representative is shown. `memory` is the summary of its own previous decision.
  datatype Observation = Observation(representative: nat, round: nat, pilot: Pilot, social: seq<Post>, memory: Option<string>)

  // `publicMessage` is empty when there is none.
  datatype Decision = Decision(summary: string, publicMessage: string, citesEvidence: bool)

  datatype Signal = Signal(
    representative: nat, round: nat, observation: Observation, decision: Decision, fallbackUsed: bool, reason: string)

  // A call fails, or answers with a structurally valid decision or with a rule fallback and its reason.
  datatype CallResult = Refused(code: string) | Answered(decision: Decision, fallbackUsed: bool, reason: string)

  // Everything outside: the deterministic pilot run, which may fail; the model, by attempt; the user's request to go on
  // with rules, polled before each attempt; and the reviewed social posts of a round.
  datatype Environment = Environment(
    pilot: seq<Signal> -> Option<Pilot>, model: (nat, Observation) -> CallResult, stop: nat -> bool, reviewed: nat -> seq<Post>)

  // `unavailable` names a missing prerequisite: credential, matching model, approved evidence or price.
  datatype Config = Config(
    hybrid: bool, unavailable: Option<string>, representatives: nat, rounds: nat, budget: nat, fallbackAllowed: bool)

  datatype Failure = RuleContinuation | CallFailed(code: string) | CircuitOpen

  datatype Mode = HybridLlm | HybridPartial | RuleFallback

  datatype Counters = Counters(attempted: nat, completed: nat, fallbacks: nat, structured: nat)

  datatype Preparation =
    | RuleOnly
    | Unavailable(code: string)
    | NoAgents(planned: nat)
    | Raised
    | FailedClosed(planned: nat, attempted: nat, discarded: nat)
    | Prepared(mode: Mode, signals: seq<Signal>, pilot: Pilot, planned: nat, counters: Counters, failure: Option<Failure>)

  function Min(a: nat, b: nat): nat {
    if a < b then a else b
  }

  function Planned(config: Config): nat {
    Min(config.budget, config.representatives * config.rounds)
  }

  /*** What a representative observes ***/

  // The published messages of a round, at most `room` of them.
  function Messages(signals: seq<Signal>, round: nat, room: nat): seq<Post> {
    if signals == [] || room == 0 then []
    else if signals[0].round == round && signals[0].decision.publicMessage != "" && signals[0].decision.citesEvidence then
      [Post(round, signals[0].representative, signals[0].decision.publicMessage)] + Messages(signals[1..], round, room - 1)
    else Messages(signals[1..], round, room)
  }

  function SocialFeed(env: Environment, signals: seq<Signal>, round: nat): seq<Post> {
    var posts := env.reviewed(round) + (if round == 0 then [] else Messages(signals, round - 1, 8));
    if |posts| > 24 then posts[..24] else posts
  }

  // The summary of the representative's latest decision.
  function Memory(signals: seq<Signal>, representative: nat): Option<string> {
    if signals == [] then None
    else if signals[|signals| - 1].representative == representative then Some(signals[|signals| - 1].decision.summary)
    else Memory(signals[..|signals| - 1], representative)
  }

  function Observe(env: Environment, pilot: Pilot, earlier: seq<Signal>, representative: nat, round: nat): Observation {
    Observation(representative, round, pilot, SocialFeed(env, earlier, round), Memory(earlier, representative))
  }

  /*** Specification of one preparation ***/

  function Fallbacks(signals: seq<Signal>): nat {
    if signals == [] then 0 else Fallbacks(signals[..|signals| - 1]) + (if signals[|signals| - 1].fallbackUsed then 1 else 0)
  }

  // How often a fallback was used for this reason.
  function Repeats(signals: seq<Signal>, reason: string): nat {
    if signals == [] then 0
    else
      var last := signals[|signals| - 1];
      Repeats(signals[..|signals| - 1], reason) + (if last.fallbackUsed && last.reason == reason then 1 else 0)
  }

  function Attempts(signals: seq<Signal>, failure: Option<Failure>): nat {
    |signals| + (if failure.Some? && failure.value.CallFailed? then 1 else 0)
  }

  function ModeOf(signals: seq<Signal>, failure: Option<Failure>): Mode {
    if signals != [] && Fallbacks(signals) == |signals| then RuleFallback
    else if Fallbacks(signals) > 0 || (failure.Some? && signals != []) then HybridPartial
    else if failure.Some? then RuleFallback
    else HybridLlm
  }

  lemma {:induction false} FallbacksBounded(signals: seq<Signal>)
    ensures Fallbacks(signals) <= |signals|
  {
    if signals != [] {
      FallbacksBounded(signals[..|signals| - 1]);
    }
  }

  function Settled(config: Config, signals: seq<Signal>, pilot: Pilot, failure: Option<Failure>): Preparation {
    FallbacksBounded(signals);
    Prepared(ModeOf(signals, failure), signals, pilot, Planned(config),
             Counters(Attempts(signals, failure), |signals|, Fallbacks(signals), |signals| - Fallbacks(signals)), failure)
  }

  function PilotFailure(config: Config, signals: seq<Signal>, failure: Option<Failure>): Preparation {
    if config.fallbackAllowed then FailedClosed(Planned(config), Attempts(signals, failure), |signals|) else Raised
  }

  function RoundStart(config: Config, k: nat): (start: nat)
    requires config.representatives > 0
    ensures start <= k
  {
    DivBounds(k, config.representatives);
    k / config.representatives * config.representatives
  }

  lemma {:induction false} DivBounds(k: nat, n: nat)
    requires n > 0
    ensures 0 <= k / n * n <= k < (k / n + 1) * n
    ensures k % n == k - k / n * n
  {
  }

  // End a round: rerun the pilot on all signals if the round added any, then stop or go on.
  function CloseRound(config: Config, env: Environment, signals: seq<Signal>, start: nat, pilot: Pilot, failure: Option<Failure>): Preparation
    requires config.representatives > 0 && |signals| <= Planned(config)
    requires failure == None ==> start < |signals|
    decreases Planned(config) - |signals|, if failure == None then 2 else 0
  {
    if |signals| > start then
      match env.pilot(signals)
      case None => PilotFailure(config, signals, failure)
      case Some(next) =>
        if failure.Some? || |signals| == Planned(config) then Settled(config, signals, next, failure)
        else Calls(config, env, signals, next)
    else Settled(config, signals, pilot, failure)
  }

  // From the next call on: `pilot` is the market of the round that the next call belongs to.
  function Calls(config: Config, env: Environment, signals: seq<Signal>, pilot: Pilot): Preparation
    requires config.representatives > 0 && |signals| < Planned(config)
    decreases Planned(config) - |signals|, 1
  {
    var k := |signals|;
    var start, round := RoundStart(config, k), k / config.representatives;
    if env.stop(k) then CloseRound(config, env, signals, start, pilot, Some(RuleContinuation))
    else
      var observation := Observe(env, pilot, signals[..start], k - start, round);
      match env.model(k, observation)
      case Refused(code) =>
        if config.fallbackAllowed then CloseRound(config, env, signals, start, pilot, Some(CallFailed(code))) else Raised
      case Answered(decision, fallbackUsed, reason) =>
        if fallbackUsed && !config.fallbackAllowed then Raised
        else
          var more := signals + [Signal(k - start, round, observation, decision, fallbackUsed, reason)];
          if fallbackUsed && Repeats(more, reason) >= 3 then CloseRound(config, env, more, start, pilot, Some(CircuitOpen))
          else if k + 1 == start + config.representatives || k + 1 == Planned(config) then
            CloseRound(config, env, more, start, pilot, None)
          else Calls(config, env, more, pilot)
  }

  function Preparing(config: Config, env: Environment): Preparation {
    if !config.hybrid then RuleOnly
    else if config.unavailable.Some? then (if config.fallbackAllowed then Unavailable(config.unavailable.value) else Raised)
    else if config.representatives == 0 || Planned(config) == 0 then NoAgents(Planned(config))
    else match env.pilot([])
      case None => PilotFailure(config, [], None)
      case Some(pilot) => Calls(config, env, [], pilot)
  }

  /*** What every preparation guarantees ***/

  // Signal k answers call k, made for the representative and round that come next in the schedule, on an observation
  // built from nothing but the signals of earlier rounds and the pilot market that replays them.
  ghost predicate FollowsAt(config: Config, env: Environment, signals: seq<Signal>, k: nat)
    requires config.representatives > 0 && k < |signals|
  {
    var start, round := RoundStart(config, k), k / config.representatives;
    && env.pilot(signals[..start]).Some?
    && signals[k].representative == k - start && signals[k].round == round
    && signals[k].observation == Observe(env, env.pilot(signals[..start]).value, signals[..start], k - start, round)
    && env.model(k, signals[k].observation) == Answered(signals[k].decision, signals[k].fallbackUsed, signals[k].reason)
    && !env.stop(k)
    && (signals[k].fallbackUsed ==> config.fallbackAllowed)
  }

  ghost predicate Follows(config: Config, env: Environment, signals: seq<Signal>)
    requires config.representatives > 0
  {
    forall k :: 0 <= k < |signals| ==> FollowsAt(config, env, signals, k)
  }

  // No fallback reason has come up three times.
  ghost predicate NotTripped(signals: seq<Signal>) {
    forall k :: 0 <= k < |signals| && signals[k].fallbackUsed ==> Repeats(signals[..k + 1], signals[k].reason) < 3
  }

  // Why the schedule ended where it did.
  ghost predicate EndsRightly(config: Config, env: Environment, signals: seq<Signal>, failure: Option<Failure>)
    requires config.representatives > 0
  {
    match failure
    case None => |signals| == Planned(config) && NotTripped(signals)
    case Some(RuleContinuation) => |signals| < Planned(config) && NotTripped(signals) && env.stop(|signals|)
    case Some(CallFailed(code)) =>
      && |signals| < Planned(config) && NotTripped(signals) && !env.stop(|signals|) && config.fallbackAllowed
      && var start := RoundStart(config, |signals|);
         && env.pilot(signals[..start]).Some?
         && env.model(|signals|, Observe(env, env.pilot(signals[..start]).value, signals[..start], |signals| - start,
                                         |signals| / config.representatives)) == Refused(code)
    case Some(CircuitOpen) =>
      && signals != [] && |signals| <= Planned(config) && NotTripped(signals[..|signals| - 1])
      && signals[|signals| - 1].fallbackUsed && Repeats(signals, signals[|signals| - 1].reason) == 3
  }

  // The discarded signals of a preparation that failed closed: they followed the schedule, and the pilot failed on them.
  ghost predicate Discards(config: Config, env: Environment, result: Preparation, signals: seq<Signal>, failure: Option<Failure>)
    requires config.representatives > 0
  {
    && |signals| <= Planned(config) && Follows(config, env, signals) && env.pilot(signals) == None
    && (failure.Some? && failure.value.CallFailed? ==> |signals| < Planned(config))
    && result == FailedClosed(Planned(config), Attempts(signals, failure), |signals|)
  }

  ghost predicate Sound(config: Config, env: Environment, result: Preparation)
    requires config.representatives > 0
  {
    && (result.Prepared? ==>
          && Follows(config, env, result.signals)
          && EndsRightly(config, env, result.signals, result.failure)
          && env.pilot(result.signals) == Some(result.pilot)
          && result == Settled(config, result.signals, result.pilot, result.failure))
    && (result.FailedClosed? ==> exists signals, failure :: Discards(config, env, result, signals, failure))
  }

  lemma {:induction false} FollowsAppend(config: Config, env: Environment, signals: seq<Signal>, signal: Signal)
    requires config.representatives > 0 && Follows(config, env, signals)
    requires FollowsAt(config, env, signals + [signal], |signals|)
    ensures Follows(config, env, signals + [signal])
  {
    hide Observe, RoundStart;
    forall k | 0 <= k < |signals|
      ensures FollowsAt(config, env, signals + [signal], k)
    {
      assert FollowsAt(config, env, signals, k);
      assert (signals + [signal])[..RoundStart(config, k)] == signals[..RoundStart(config, k)];
    }
  }

  lemma {:induction false} RepeatsGrow(signals: seq<Signal>, signal: Signal)
    ensures
      var more := signals + [signal];
      Repeats(more, signal.reason) == Repeats(signals, signal.reason) + (if signal.fallbackUsed then 1 else 0)
  {
    assert (signals + [signal])[..|signals|] == signals;
  }

  // Below the third repetition nothing has tripped; each new signal adds at most one.
  lemma {:induction false} RepeatsBounded(signals: seq<Signal>, reason: string)
    requires NotTripped(signals)
    ensures Repeats(signals, reason) < 3
  {
    if signals != [] {
      var last := |signals| - 1;
      assert signals[..last + 1] == signals;
      PrefixNotTripped(signals, last);
      RepeatsBounded(signals[..last], reason);
    }
  }

  lemma {:induction false} PrefixNotTripped(signals: seq<Signal>, n: nat)
    requires NotTripped(signals) && n <= |signals|
    ensures NotTripped(signals[..n])
  {
    var prefix := signals[..n];
    forall k | 0 <= k < n && prefix[k].fallbackUsed
      ensures Repeats(prefix[..k + 1], prefix[k].reason) < 3
    {
      assert prefix[..k + 1] == signals[..k + 1];
    }
  }

  lemma {:induction false} NotTrippedAppend(signals: seq<Signal>, signal: Signal)
    requires NotTripped(signals) && !(signal.fallbackUsed && Repeats(signals + [signal], signal.reason) >= 3)
    ensures NotTripped(signals + [signal])
  {
    var more := signals + [signal];
    assert more[..|more|] == more;
    forall k | 0 <= k < |signals| && more[k].fallbackUsed
      ensures Repeats(more[..k + 1], more[k].reason) < 3
    {
      assert more[..k + 1] == signals[..k + 1];
    }
  }

  lemma {:induction false} CloseRoundIsSound(
    config: Config, env: Environment, signals: seq<Signal>, start: nat, pilot: Pilot, failure: Option<Failure>)
    requires config.representatives > 0 && |signals| <= Planned(config) && (failure == None ==> start < |signals|)
    requires Follows(config, env, signals) && start <= |signals| && env.pilot(signals[..start]) == Some(pilot)
    requires failure.Some? ==> EndsRightly(config, env, signals, failure)
    requires failure == None ==> NotTripped(signals)
    requires failure == None ==> |signals| == Planned(config) || RoundStart(config, |signals|) == |signals|
    ensures Sound(config, env, CloseRound(config, env, signals, start, pilot, failure))
    decreases Planned(config) - |signals|, if failure == None then 2 else 0
  {
    hide Follows, NotTripped, RoundStart;
    if |signals| > start {
      if env.pilot(signals).Some? && failure == None && |signals| < Planned(config) {
        assert signals[..|signals|] == signals;
        CallsAreSound(config, env, signals, env.pilot(signals).value);
      } else if env.pilot(signals) == None && config.fallbackAllowed {
        assert Discards(config, env, PilotFailure(config, signals, failure), signals, failure);
      }
    } else {
      assert signals[..start] == signals;
    }
  }

  lemma {:induction false} NextRoundStarts(config: Config, k: nat)
    requires config.representatives > 0
    ensures k + 1 == RoundStart(config, k) + config.representatives ==> RoundStart(config, k + 1) == k + 1
    ensures k + 1 != RoundStart(config, k) + config.representatives ==> RoundStart(config, k + 1) == RoundStart(config, k)
    ensures k - RoundStart(config, k) < config.representatives
  {
    var n, q := config.representatives, k / config.representatives;
    DivBounds(k, n);
    DivBounds(k + 1, n);
    if k + 1 == q * n + n {
      QuotientUnique(k + 1, n, q + 1);
    } else {
      QuotientUnique(k + 1, n, q);
    }
  }

  lemma {:induction false} QuotientUnique(k: nat, n: nat, q: nat)
    requires n > 0 && q * n <= k < (q + 1) * n
    ensures k / n == q
  {
    DivBounds(k, n);
    MulMonotone(k / n + 1, q, n);
    MulMonotone(q + 1, k / n, n);
  }

  lemma {:induction false} MulMonotone(a: nat, b: nat, n: nat)
    ensures a <= b ==> a * n <= b * n
  {
  }

  lemma {:induction false} CallsAreSound(config: Config, env: Environment, signals: seq<Signal>, pilot: Pilot)
    requires config.representatives > 0 && |signals| < Planned(config)
    requires Follows(config, env, signals) && NotTripped(signals)
    requires env.pilot(signals[..RoundStart(config, |signals|)]) == Some(pilot)
    ensures Sound(config, env, Calls(config, env, signals, pilot))
    decreases Planned(config) - |signals|, 1
  {
    hide Follows, NotTripped, Sound, RoundStart, Observe, CloseRound, Repeats;
    var k := |signals|;
    var start, round := RoundStart(config, k), k / config.representatives;
    if env.stop(k) {
      CloseRoundIsSound(config, env, signals, start, pilot, Some(RuleContinuation));
    } else {
      var observation := Observe(env, pilot, signals[..start], k - start, round);
      match env.model(k, observation)
      case Refused(code) =>
        if config.fallbackAllowed {
          CloseRoundIsSound(config, env, signals, start, pilot, Some(CallFailed(code)));
        } else {
          RaisedIsSound(config, env);
        }
      case Answered(decision, fallbackUsed, reason) =>
        if fallbackUsed && !config.fallbackAllowed {
          RaisedIsSound(config, env);
        } else {
          AnswerFollows(config, env, signals, pilot, decision, fallbackUsed, reason);
          AnsweredIsSound(config, env, signals, pilot, Signal(k - start, round, observation, decision, fallbackUsed, reason));
        }
    }
  }

  lemma {:induction false} AnswerFollows(
    config: Config, env: Environment, signals: seq<Signal>, pilot: Pilot, decision: Decision, fallbackUsed: bool, reason: string)
    requires config.representatives > 0 && env.pilot(signals[..RoundStart(config, |signals|)]) == Some(pilot)
    requires
      var start, round := RoundStart(config, |signals|), |signals| / config.representatives;
      env.model(|signals|, Observe(env, pilot, signals[..start], |signals| - start, round)) == Answered(decision, fallbackUsed, reason)
    requires !env.stop(|signals|) && (fallbackUsed ==> config.fallbackAllowed)
    ensures
      var start, round := RoundStart(config, |signals|), |signals| / config.representatives;
      var observation := Observe(env, pilot, signals[..start], |signals| - start, round);
      FollowsAt(config, env, signals + [Signal(|signals| - start, round, observation, decision, fallbackUsed, reason)], |signals|)
  {
    hide RoundStart, Observe;
    var start, round := RoundStart(config, |signals|), |signals| / config.representatives;
    var observation := Observe(env, pilot, signals[..start], |signals| - start, round);
    var more := signals + [Signal(|signals| - start, round, observation, decision, fallbackUsed, reason)];
    assert more[..start] == signals[..start];
  }

  lemma {:induction false} RaisedIsSound(config: Config, env: Environment)
    requires config.representatives > 0
    ensures Sound(config, env, Raised)
  {
  }

  lemma {:induction false} AnsweredIsSound(config: Config, env: Environment, signals: seq<Signal>, pilot: Pilot, signal: Signal)
    requires config.representatives > 0 && |signals| < Planned(config)
    requires Follows(config, env, signals) && NotTripped(signals)
    requires env.pilot(signals[..RoundStart(config, |signals|)]) == Some(pilot)
    requires FollowsAt(config, env, signals + [signal], |signals|)
    ensures
      var k, start, more := |signals|, RoundStart(config, |signals|), signals + [signal];
      Sound(config, env,
            if signal.fallbackUsed && Repeats(more, signal.reason) >= 3 then CloseRound(config, env, more, start, pilot, Some(CircuitOpen))
            else if k + 1 == start + config.representatives || k + 1 == Planned(config) then
              CloseRound(config, env, more, start, pilot, None)
            else Calls(config, env, more, pilot))
    decreases Planned(config) - |signals|, 0
  {
    hide Follows, FollowsAt, NotTripped, Sound, RoundStart, CloseRound, Calls, Repeats;
    var k, start, more := |signals|, RoundStart(config, |signals|), signals + [signal];
    FollowsAppend(config, env, signals, signal);
    NextRoundStarts(config, k);
    assert more[..start] == signals[..start];
    assert more[..k] == signals && more[k] == signal;
    if signal.fallbackUsed && Repeats(more, signal.reason) >= 3 {
      RepeatsBounded(signals, signal.reason);
      RepeatsGrow(signals, signal);
      CloseRoundIsSound(config, env, more, start, pilot, Some(CircuitOpen));
    } else {
      NotTrippedAppend(signals, signal);
      if k + 1 == start + config.representatives || k + 1 == Planned(config) {
        CloseRoundIsSound(config, env, more, start, pilot, None);
      } else {
        CallsAreSound(config, env, more, pilot);
      }
    }
  }

  // Every prepared sequence follows the schedule on observations of earlier rounds, ends for the stated reason, and has
  // survived the pilot that replays it; a preparation fails closed only on a sequence that followed the schedule and that
  // the pilot could not replay.
  lemma {:induction false} PreparedIsSound(config: Config, env: Environment)
    requires Preparing(config, env).Prepared? || Preparing(config, env).FailedClosed?
    ensures config.representatives > 0 && Sound(config, env, Preparing(config, env))
  {
    hide Sound, Calls;
    var none: seq<Signal> := [];
    assert RoundStart(config, 0) == 0 && none[..0] == none;
    if env.pilot(none) == None {
      NothingPrepared(config, env);
    } else {
      CallsAreSound(config, env, none, env.pilot(none).value);
    }
  }

  lemma {:induction false} NothingPrepared(config: Config, env: Environment)
    requires config.representatives > 0 && env.pilot([]) == None
    ensures Sound(config, env, PilotFailure(config, [], None))
  {
    assert config.fallbackAllowed ==> Discards(config, env, PilotFailure(config, [], None), [], None);
  }

  // Whatever the outcome that is reported: the call budget is never exceeded, and calls are attempted once each, so that
  // all but at most one failed call complete. A report that failed closed counts what it discarded.
  lemma {:induction false} CallsStayWithinPlan(config: Config, env: Environment)
    ensures
      match Preparing(config, env)
      case Prepared(_, signals, _, planned, c, failure) =>
        && planned == Min(config.budget, config.representatives * config.rounds)
        && c.completed == |signals| && c.completed == c.structured + c.fallbacks
        && c.attempted <= planned
        && c.attempted == c.completed + (if failure.Some? && failure.value.CallFailed? then 1 else 0)
      case FailedClosed(planned, attempted, discarded) =>
        && planned == Min(config.budget, config.representatives * config.rounds)
        && attempted <= planned
        && discarded <= attempted <= discarded + 1
      case NoAgents(planned) => planned == 0
      case _ => true
  {
    var result := Preparing(config, env);
    if result.Prepared? {
      PreparedIsSound(config, env);
      hide Preparing, Follows, NotTripped, Observe;
      FallbacksBounded(result.signals);
    } else if result.FailedClosed? {
      PreparedIsSound(config, env);
      hide Preparing, Follows;
      var signals, failure :| Discards(config, env, result, signals, failure);
    } else {
      hide Calls;
      NoAgentsMeansNoPlan(config, env);
    }
  }

  lemma {:induction false} NoAgentsMeansNoPlan(config: Config, env: Environment)
    ensures Preparing(config, env).NoAgents? ==> Preparing(config, env).planned == 0
  {
    if Preparing(config, env).NoAgents? && config.representatives > 0 && Planned(config) > 0 && env.pilot([]).Some? {
      CallsReport(config, env, [], env.pilot([]).value);
    }
  }

  // The rounds end in a prepared sequence, a failure of the pilot, or an error; the failure is reported where fallbacks are
  // allowed, and the error raised only where they are not.
  predicate Ended(config: Config, result: Preparation) {
    result.Prepared? || (result.FailedClosed? && config.fallbackAllowed) || (result.Raised? && !config.fallbackAllowed)
  }

  lemma {:induction false} CloseRoundReports(
    config: Config, env: Environment, signals: seq<Signal>, start: nat, pilot: Pilot, failure: Option<Failure>)
    requires config.representatives > 0 && |signals| <= Planned(config) && (failure == None ==> start < |signals|)
    ensures Ended(config, CloseRound(config, env, signals, start, pilot, failure))
    decreases Planned(config) - |signals|, if failure == None then 2 else 0
  {
    if |signals| > start && env.pilot(signals).Some? && failure == None && |signals| < Planned(config) {
      CallsReport(config, env, signals, env.pilot(signals).value);
    }
  }

  lemma {:induction false} CallsReport(config: Config, env: Environment, signals: seq<Signal>, pilot: Pilot)
    requires config.representatives > 0 && |signals| < Planned(config)
    ensures Ended(config, Calls(config, env, signals, pilot))
    decreases Planned(config) - |signals|, 1
  {
    hide Observe, Repeats, CloseRound;
    var k := |signals|;
    var start, round := RoundStart(config, k), k / config.representatives;
    if env.stop(k) {
      CloseRoundReports(config, env, signals, start, pilot, Some(RuleContinuation));
    } else {
      var observation := Observe(env, pilot, signals[..start], k - start, round);
      match env.model(k, observation)
      case Refused(code) => CloseRoundReports(config, env, signals, start, pilot, Some(CallFailed(code)));
      case Answered(decision, fallbackUsed, reason) =>
        var more := signals + [Signal(k - start, round, observation, decision, fallbackUsed, reason)];
        CloseRoundReports(config, env, more, start, pilot, Some(CircuitOpen));
        CloseRoundReports(config, env, more, start, pilot, None);
        if k + 1 < Planned(config) {
          CallsReport(config, env, more, pilot);
        }
    }
  }

  lemma {:induction false} NoFallbacks(signals: seq<Signal>)
    ensures Fallbacks(signals) == 0 <==> forall k :: 0 <= k < |signals| ==> !signals[k].fallbackUsed
  {
    if signals != [] {
      NoFallbacks(signals[..|signals| - 1]);
    }
  }

  // The hybrid mode is reported exactly when every planned call completed with a structurally valid decision.
  lemma {:induction false} HybridMeansEveryCallValid(config: Config, env: Environment)
    requires Preparing(config, env).Prepared?
    ensures
      var result := Preparing(config, env);
      result.mode == HybridLlm <==>
      |result.signals| == result.planned && result.failure == None
      && forall k :: 0 <= k < |result.signals| ==> !result.signals[k].fallbackUsed
  {
    PreparedIsSound(config, env);
    PlannedIsPositive(config, env);
    hide Preparing, Follows, NotTripped, Observe;
    NoFallbacks(Preparing(config, env).signals);
  }

  lemma {:induction false} PlannedIsPositive(config: Config, env: Environment)
    requires Preparing(config, env).Prepared?
    ensures Planned(config) > 0
  {
    hide Calls, Planned;
  }

  // Without permission to fall back, no signal is a rule fallback and no failed call or open circuit is papered over.
  lemma {:induction false} StrictModeHasNoFallback(config: Config, env: Environment)
    requires Preparing(config, env).Prepared? && !config.fallbackAllowed
    ensures
      var result := Preparing(config, env);
      && (forall k :: 0 <= k < |result.signals| ==> !result.signals[k].fallbackUsed)
      && (result.failure == None || result.failure == Some(RuleContinuation))
  {
    PreparedIsSound(config, env);
    hide Preparing, NotTripped, Observe, RoundStart;
    var signals := Preparing(config, env).signals;
    forall k | 0 <= k < |signals|
      ensures !signals[k].fallbackUsed
    {
      assert FollowsAt(config, env, signals, k);
    }
  }

  // Signals are only returned when the pilot succeeded on the signals of every complete round and on all of them: a pilot
  // that fails at any round leaves no signals.
  lemma {:induction false} SignalsSurvivedEveryPilot(config: Config, env: Environment, k: nat)
    requires Preparing(config, env).Prepared? && config.representatives > 0
    requires k <= |Preparing(config, env).signals|
    requires k == |Preparing(config, env).signals| || k == RoundStart(config, k)
    ensures env.pilot(Preparing(config, env).signals[..k]).Some?
  {
    var signals := Preparing(config, env).signals;
    PreparedIsSound(config, env);
    hide Preparing, NotTripped, Observe, RoundStart;
    if k < |signals| {
      assert FollowsAt(config, env, signals, k);
    } else {
      assert signals[..k] == signals;
    }
  }

  // The two environments have the same pilot market and reviewed posts, and the model answers alike before a call; from
  // that call on its answers may differ in every way, and the user may stop at different times.
  ghost predicate AlikeBefore(env: Environment, env': Environment, first: nat) {
    && env'.pilot == env.pilot && env'.reviewed == env.reviewed
    && (forall k: nat, observation :: k < first ==> env'.model(k, observation) == env.model(k, observation))
  }

  // Until the first call on which the answers may differ, the signals are the same.
  lemma {:induction false} SameUntil(
    config: Config, env: Environment, env': Environment, signals: seq<Signal>, signals': seq<Signal>, first: nat, n: nat)
    requires config.representatives > 0 && Follows(config, env, signals) && Follows(config, env', signals')
    requires AlikeBefore(env, env', first) && n <= first && n <= |signals| && n <= |signals'|
    ensures signals[..n] == signals'[..n]
  {
    if n > 0 {
      SameUntil(config, env, env', signals, signals', first, n - 1);
      SameSignal(config, env, env', signals, signals', first, n - 1);
      assert signals[..n] == signals[..n - 1] + [signals[n - 1]] && signals'[..n] == signals'[..n - 1] + [signals'[n - 1]];
    }
  }

  lemma {:induction false} SameObservation(
    config: Config, env: Environment, env': Environment, signals: seq<Signal>, signals': seq<Signal>, k: nat)
    requires config.representatives > 0 && Follows(config, env, signals) && Follows(config, env', signals')
    requires k < |signals| && k < |signals'| && signals[..RoundStart(config, k)] == signals'[..RoundStart(config, k)]
    requires env'.pilot == env.pilot && env'.reviewed == env.reviewed
    ensures signals'[k].observation == signals[k].observation
  {
    assert FollowsAt(config, env, signals, k) && FollowsAt(config, env', signals', k);
  }

  lemma {:induction false} SameSignal(
    config: Config, env: Environment, env': Environment, signals: seq<Signal>, signals': seq<Signal>, first: nat, k: nat)
    requires config.representatives > 0 && Follows(config, env, signals) && Follows(config, env', signals')
    requires AlikeBefore(env, env', first) && k < first && k < |signals| && k < |signals'| && signals[..k] == signals'[..k]
    ensures signals'[k] == signals[k]
  {
    hide Observe;
    assert signals[..k][..RoundStart(config, k)] == signals[..RoundStart(config, k)];
    assert signals'[..k][..RoundStart(config, k)] == signals'[..RoundStart(config, k)];
    SameObservation(config, env, env', signals, signals', k);
    assert FollowsAt(config, env, signals, k) && FollowsAt(config, env', signals', k);
  }

  // An answer never sees anything of its own round: when the model may answer differently from the beginning of a round
  // on, two preparations still show each representative of that round the same observation.
  lemma {:induction false} ObservationsIgnoreTheirOwnRound(config: Config, env: Environment, env': Environment, k: nat)
    requires Preparing(config, env).Prepared? && Preparing(config, env').Prepared?
    requires k < |Preparing(config, env).signals| && k < |Preparing(config, env').signals|
    requires config.representatives > 0 && AlikeBefore(env, env', RoundStart(config, k))
    ensures Preparing(config, env').signals[k].observation == Preparing(config, env).signals[k].observation
  {
    PreparedIsSound(config, env);
    PreparedIsSound(config, env');
    var signals, signals' := Preparing(config, env).signals, Preparing(config, env').signals;
    hide Preparing, Follows, NotTripped, Observe, RoundStart;
    SameUntil(config, env, env', signals, signals', RoundStart(config, k), RoundStart(config, k));
    SameObservation(config, env, env', signals, signals', k);
  }

  /*** What is reported, and what each representative is shown ***/

  function UsedFallback(signals: seq<Signal>): set<nat> {
    set k: nat | k < |signals| && signals[k].fallbackUsed
  }

  lemma {:induction false} FallbacksAreCounted(signals: seq<Signal>)
    ensures Fallbacks(signals) == |UsedFallback(signals)|
  {
    if signals != [] {
      var front, last := signals[..|signals| - 1], |signals| - 1;
      FallbacksAreCounted(front);
      assert UsedFallback(signals) == UsedFallback(front) + (if signals[last].fallbackUsed then {last} else {});
    }
  }

  // The reported mode by the number of signals that used a fallback: a rule fallback when all did, or when there is no
  // signal; a partial one when some did or the calls were cut short; and the hybrid mode when neither.
  lemma {:induction false} ModesAreExact(config: Config, env: Environment)
    requires Preparing(config, env).Prepared?
    ensures
      var result := Preparing(config, env);
      var n, used := |result.signals|, |UsedFallback(result.signals)|;
      && result.counters.fallbacks == used <= n && result.counters.structured == n - used
      && (result.mode == RuleFallback <==> used == n && (n > 0 || result.failure.Some?))
      && (result.mode == HybridPartial <==> n > 0 && used < n && (used > 0 || result.failure.Some?))
      && (result.mode == HybridLlm <==> used == 0 && result.failure == None)
  {
    PreparedIsSound(config, env);
    PlannedIsPositive(config, env);
    hide Preparing, Follows, NotTripped, Observe;
    FallbacksAreCounted(Preparing(config, env).signals);
    FallbacksBounded(Preparing(config, env).signals);
  }

  // Which outcome is possible when: nothing is asked without need, and an error is raised only in strict mode.
  lemma {:induction false} OutcomesHaveReasons(config: Config, env: Environment)
    ensures
      var result := Preparing(config, env);
      && (result.RuleOnly? <==> !config.hybrid)
      && (result.Unavailable? <==> config.hybrid && config.unavailable.Some? && config.fallbackAllowed)
      && (result.Unavailable? ==> Some(result.code) == config.unavailable)
      && (result.NoAgents? <==>
            config.hybrid && config.unavailable == None && (config.representatives == 0 || config.rounds == 0 || config.budget == 0))
      && (result.Raised? ==> config.hybrid && !config.fallbackAllowed)
      && (result.FailedClosed? ==> config.hybrid && config.fallbackAllowed)
  {
    if config.hybrid && config.unavailable == None && config.representatives > 0 && Planned(config) > 0 && env.pilot([]).Some? {
      CallsReport(config, env, [], env.pilot([]).value);
    }
    hide Calls;
    PlanIsEmpty(config);
  }

  lemma {:induction false} PlanIsEmpty(config: Config)
    ensures Planned(config) == 0 <==> config.representatives == 0 || config.rounds == 0 || config.budget == 0
  {
    if config.representatives > 0 && config.rounds > 0 {
      MulMonotone(1, config.representatives, config.rounds);
    }
  }

  predicate Publishes(signal: Signal, round: nat) {
    signal.round == round && signal.decision.publicMessage != "" && signal.decision.citesEvidence
  }

  // The positions of the first signals of the round that publish, at most `room` of them.
  ghost predicate FirstPublished(signals: seq<Signal>, round: nat, room: nat, chosen: seq<nat>) {
    && |chosen| <= room
    && (forall a, b :: 0 <= a < b < |chosen| ==> chosen[a] < chosen[b])
    && (forall a :: 0 <= a < |chosen| ==> chosen[a] < |signals| && Publishes(signals[chosen[a]], round))
    && (forall j :: 0 <= j < |signals| && Publishes(signals[j], round) && j !in chosen ==>
          |chosen| == room && forall a :: 0 <= a < |chosen| ==> chosen[a] < j)
  }

  function PostsAt(signals: seq<Signal>, chosen: seq<nat>): seq<Post>
    requires forall a :: 0 <= a < |chosen| ==> chosen[a] < |signals|
  {
    seq(|chosen|, a requires 0 <= a < |chosen| =>
      Post(signals[chosen[a]].round, signals[chosen[a]].representative, signals[chosen[a]].decision.publicMessage))
  }

  lemma {:induction false} MessagesCons(signals: seq<Signal>, round: nat, room: nat)
    requires signals != [] && room > 0
    ensures Messages(signals, round, room) ==
            if Publishes(signals[0], round) then
              [Post(signals[0].round, signals[0].representative, signals[0].decision.publicMessage)] + Messages(signals[1..], round, room - 1)
            else Messages(signals[1..], round, room)
  {
  }

  lemma {:induction false} NothingChosen(signals: seq<Signal>, round: nat, room: nat)
    requires signals == [] || room == 0
    ensures FirstPublished(signals, round, room, []) && Messages(signals, round, room) == PostsAt(signals, [])
  {
  }

  lemma {:induction false} MessagesAreFirstPublished(signals: seq<Signal>, round: nat, room: nat) returns (chosen: seq<nat>)
    ensures FirstPublished(signals, round, room, chosen) && Messages(signals, round, room) == PostsAt(signals, chosen)
  {
    hide Messages, PostsAt, Publishes, FirstPublished, LaterPublished;
    if signals == [] || room == 0 {
      chosen := [];
      NothingChosen(signals, round, room);
    } else {
      MessagesCons(signals, round, room);
      if Publishes(signals[0], round) {
        var rest := MessagesAreFirstPublished(signals[1..], round, room - 1);
        chosen := FirstThenRest(signals, round, room, rest);
      } else {
        var rest := MessagesAreFirstPublished(signals[1..], round, room);
        chosen := OnlyRest(signals, round, room, rest);
      }
    }
  }

  lemma {:induction false} FirstThenRest(signals: seq<Signal>, round: nat, room: nat, rest: seq<nat>) returns (chosen: seq<nat>)
    requires signals != [] && room > 0 && Publishes(signals[0], round) && FirstPublished(signals[1..], round, room - 1, rest)
    ensures FirstPublished(signals, round, room, chosen)
    ensures PostsAt(signals, chosen)
         == [Post(signals[0].round, signals[0].representative, signals[0].decision.publicMessage)] + PostsAt(signals[1..], rest)
  {
    hide PostsAt, Publishes;
    var shifted := seq(|rest|, a requires 0 <= a < |rest| => rest[a] + 1);
    ShiftedPosts(signals, signals[1..], rest, shifted);
    ShiftedPublish(signals, signals[1..], round, room - 1, rest, shifted);
    chosen := [0] + shifted;
    PrependPublished(signals, round, room, shifted, chosen);
    hide FirstPublished;
    PrependPosts(signals, shifted, chosen);
  }

  lemma {:induction false} OnlyRest(signals: seq<Signal>, round: nat, room: nat, rest: seq<nat>) returns (chosen: seq<nat>)
    requires signals != [] && !Publishes(signals[0], round) && FirstPublished(signals[1..], round, room, rest)
    ensures FirstPublished(signals, round, room, chosen) && PostsAt(signals, chosen) == PostsAt(signals[1..], rest)
  {
    hide PostsAt, Publishes;
    chosen := seq(|rest|, a requires 0 <= a < |rest| => rest[a] + 1);
    ShiftedPosts(signals, signals[1..], rest, chosen);
    ShiftedPublish(signals, signals[1..], round, room, rest, chosen);
    OnlyLaterPublished(signals, round, room, chosen);
  }

  // The positions of the rest of the list, counted in the whole list.
  ghost predicate LaterPublished(signals: seq<Signal>, round: nat, room: nat, chosen: seq<nat>) {
    && |chosen| <= room
    && (forall a, b :: 0 <= a < b < |chosen| ==> chosen[a] < chosen[b])
    && (forall a :: 0 <= a < |chosen| ==> 0 < chosen[a] < |signals| && Publishes(signals[chosen[a]], round))
    && (forall j :: 0 < j < |signals| && Publishes(signals[j], round) && j !in chosen ==>
          |chosen| == room && forall a :: 0 <= a < |chosen| ==> chosen[a] < j)
  }

  lemma {:induction false} ShiftedPublish(signals: seq<Signal>, tail: seq<Signal>, round: nat, room: nat, rest: seq<nat>, shifted: seq<nat>)
    requires |signals| == |tail| + 1 && forall j :: 0 <= j < |tail| ==> signals[j + 1] == tail[j]
    requires FirstPublished(tail, round, room, rest)
    requires |shifted| == |rest| && forall a :: 0 <= a < |rest| ==> shifted[a] == rest[a] + 1
    ensures LaterPublished(signals, round, room, shifted)
  {
    hide Publishes;
    assert forall a :: 0 <= a < |shifted| ==> signals[shifted[a]] == tail[rest[a]];
    forall j | 0 < j < |signals| && Publishes(signals[j], round) && j !in shifted
      ensures |shifted| == room && forall a :: 0 <= a < |shifted| ==> shifted[a] < j
    {
      var before: nat := j - 1;
      assert signals[before + 1] == tail[before];
      NotShifted(rest, shifted, before);
    }
  }

  lemma {:induction false} NotShifted(rest: seq<nat>, shifted: seq<nat>, before: nat)
    requires |shifted| == |rest| && forall a :: 0 <= a < |rest| ==> shifted[a] == rest[a] + 1
    requires before + 1 !in shifted
    ensures before !in rest
  {
    forall a | 0 <= a < |rest|
      ensures rest[a] != before
    {
      assert shifted[a] in shifted;
    }
  }

  lemma {:induction false} ShiftedPosts(signals: seq<Signal>, tail: seq<Signal>, rest: seq<nat>, shifted: seq<nat>)
    requires |signals| == |tail| + 1 && forall j :: 0 <= j < |tail| ==> signals[j + 1] == tail[j]
    requires |shifted| == |rest| && forall a :: 0 <= a < |rest| ==> rest[a] < |tail| && shifted[a] == rest[a] + 1
    ensures PostsAt(signals, shifted) == PostsAt(tail, rest)
  {
    assert forall a :: 0 <= a < |shifted| ==> signals[shifted[a]] == tail[rest[a]];
  }

  lemma {:induction false} OnlyLaterPublished(signals: seq<Signal>, round: nat, room: nat, chosen: seq<nat>)
    requires signals != [] && LaterPublished(signals, round, room, chosen) && !Publishes(signals[0], round)
    ensures FirstPublished(signals, round, room, chosen)
  {
    hide Publishes;
  }

  lemma {:induction false} PrependPublished(signals: seq<Signal>, round: nat, room: nat, later: seq<nat>, chosen: seq<nat>)
    requires signals != [] && room > 0 && Publishes(signals[0], round) && LaterPublished(signals, round, room - 1, later)
    requires |chosen| == |later| + 1 && chosen[0] == 0 && forall a :: 1 <= a < |chosen| ==> chosen[a] == later[a - 1]
    ensures FirstPublished(signals, round, room, chosen)
  {
    hide Publishes;
    forall j | 0 <= j < |signals| && Publishes(signals[j], round) && j !in chosen
      ensures |chosen| == room && forall a :: 0 <= a < |chosen| ==> chosen[a] < j
    {
      assert chosen[0] in chosen;
      NotLater(later, chosen, j);
    }
  }

  lemma {:induction false} NotLater(later: seq<nat>, chosen: seq<nat>, j: nat)
    requires |chosen| == |later| + 1 && forall a :: 1 <= a < |chosen| ==> chosen[a] == later[a - 1]
    requires j !in chosen
    ensures j !in later
  {
    forall a | 0 <= a < |later|
      ensures later[a] != j
    {
      assert chosen[a + 1] in chosen;
    }
  }

  lemma {:induction false} PrependPosts(signals: seq<Signal>, later: seq<nat>, chosen: seq<nat>)
    requires signals != [] && forall a :: 0 <= a < |later| ==> later[a] < |signals|
    requires chosen == [0] + later
    ensures PostsAt(signals, chosen)
         == [Post(signals[0].round, signals[0].representative, signals[0].decision.publicMessage)] + PostsAt(signals, later)
  {
  }

  // A representative speaks once in each round, so its latest decision is the one of the round before.
  lemma {:induction false} MemoryIsLastRound(signals: seq<Signal>, n: nat, round: nat, i: nat)
    requires i < n && |signals| == round * n && forall k :: 0 <= k < |signals| ==> signals[k].representative == k % n
    ensures round > 0 ==> 0 <= |signals| - n + i < |signals|
    ensures Memory(signals, i) == if round == 0 then None else Some(signals[|signals| - n + i].decision.summary)
  {
    if round > 0 {
      MulMonotone(1, round, n);
      var at := |signals| - n + i;
      assert at == (round - 1) * n + i;
      forall j | at <= j < |signals|
        ensures signals[j].representative == i + (j - at)
      {
        QuotientUnique(j, n, round - 1);
        DivBounds(j, n);
      }
      MemoryOfEarlierRounds(signals, at + 1, i);
      assert signals[..at + 1][at] == signals[at];
    }
  }

  // What call k is shown: its own place in the schedule; the market that replays the earlier rounds; the representative's
  // decision of the round before; and the reviewed posts, then the first eight messages published in the round before,
  // cut off at twenty-four.
  lemma {:induction false} ShownFromEarlierRounds(config: Config, env: Environment, k: nat) returns (chosen: seq<nat>)
    requires Preparing(config, env).Prepared? && config.representatives > 0 && k < |Preparing(config, env).signals|
    ensures
      var signals, n := Preparing(config, env).signals, config.representatives;
      var round, i, shown := k / n, k % n, signals[k].observation;
      && i <= k && shown.representative == i && shown.round == round
      && env.pilot(signals[..k - i]) == Some(shown.pilot)
      && (round > 0 ==> n <= k)
      && shown.memory == (if round == 0 then None else Some(signals[k - n].decision.summary))
      && FirstPublished(signals[..k - i], if round > 0 then round - 1 else 0, if round > 0 then 8 else 0, chosen)
      && var posts := env.reviewed(round) + PostsAt(signals[..k - i], chosen);
         shown.social == (if |posts| > 24 then posts[..24] else posts)
  {
    PreparedIsSound(config, env);
    var signals := Preparing(config, env).signals;
    hide Preparing, NotTripped, EndsRightly, Settled, Follows, FirstPublished, PostsAt, Memory;
    ShownPlaceAndMemory(config, env, signals, k);
    chosen := ShownFeed(config, env, signals, k);
  }

  lemma {:induction false} ShownPlaceAndMemory(config: Config, env: Environment, signals: seq<Signal>, k: nat)
    requires config.representatives > 0 && Follows(config, env, signals) && k < |signals|
    ensures
      var n := config.representatives;
      var round, i, shown := k / n, k % n, signals[k].observation;
      && i <= k && shown.representative == i && shown.round == round
      && env.pilot(signals[..k - i]) == Some(shown.pilot)
      && (round > 0 ==> n <= k)
      && shown.memory == (if round == 0 then None else Some(signals[k - n].decision.summary))
  {
    hide SocialFeed, Memory;
    var start, round, i := RoundStart(config, k), k / config.representatives, k % config.representatives;
    DivBounds(k, config.representatives);
    assert FollowsAt(config, env, signals, k);
    forall j | 0 <= j < start
      ensures signals[..start][j].representative == j % config.representatives
    {
      assert FollowsAt(config, env, signals, j);
      DivBounds(j, config.representatives);
    }
    hide Follows, FollowsAt;
    MemoryIsLastRound(signals[..start], config.representatives, round, i);
  }

  lemma {:induction false} ShownFeed(config: Config, env: Environment, signals: seq<Signal>, k: nat) returns (chosen: seq<nat>)
    requires config.representatives > 0 && Follows(config, env, signals) && k < |signals|
    ensures
      var round, start := k / config.representatives, k - k % config.representatives;
      && start >= 0
      && FirstPublished(signals[..start], if round > 0 then round - 1 else 0, if round > 0 then 8 else 0, chosen)
      && var posts := env.reviewed(round) + PostsAt(signals[..start], chosen);
         signals[k].observation.social == (if |posts| > 24 then posts[..24] else posts)
  {
    hide Messages, FirstPublished, PostsAt, Memory;
    var start, round := RoundStart(config, k), k / config.representatives;
    DivBounds(k, config.representatives);
    assert FollowsAt(config, env, signals, k);
    hide Follows, FollowsAt;
    if round > 0 {
      chosen := MessagesAreFirstPublished(signals[..start], round - 1, 8);
    } else {
      chosen := [];
      NothingPublished(signals[..start]);
    }
  }

  lemma {:induction false} NothingPublished(signals: seq<Signal>)
    requires signals == []
    ensures FirstPublished(signals, 0, 0, []) && PostsAt(signals, []) == []
  {
  }

  /*** The loop itself ***/

  lemma {:induction false} MemoryOfEarlierRounds(signals: seq<Signal>, start: nat, representative: nat)
    requires start <= |signals| && forall j :: start <= j < |signals| ==> signals[j].representative != representative
    ensures Memory(signals, representative) == Memory(signals[..start], representative)
  {
    if start == |signals| {
      assert signals[..start] == signals;
    } else {
      var front := signals[..|signals| - 1];
      MemoryOfEarlierRounds(front, start, representative);
      assert front[..start] == signals[..start];
    }
  }

  // The counts of repeated reasons that the loop keeps.
  ghost predicate CountsRepeats(counts: map<string, nat>, signals: seq<Signal>) {
    forall reason :: Repeats(signals, reason) == if reason in counts then counts[reason] else 0
  }

  lemma {:induction false} CountsAppend(counts: map<string, nat>, signals: seq<Signal>, signal: Signal)
    requires CountsRepeats(counts, signals)
    ensures
      var count := if signal.reason in counts then counts[signal.reason] else 0;
      && CountsRepeats(if signal.fallbackUsed then counts[signal.reason := count + 1] else counts, signals + [signal])
      && (signal.fallbackUsed ==> Repeats(signals + [signal], signal.reason) == count + 1)
      && Fallbacks(signals + [signal]) == Fallbacks(signals) + (if signal.fallbackUsed then 1 else 0)
  {
    assert (signals + [signal])[..|signals|] == signals;
  }

  lemma {:induction false} RoundOf(config: Config, round: nat, i: nat)
    requires i < config.representatives
    ensures
      var k := round * config.representatives + i;
      k / config.representatives == round && RoundStart(config, k) == round * config.representatives
  {
    QuotientUnique(round * config.representatives + i, config.representatives, round);
  }

  // The running totals of a preparation.
  datatype Totals = Totals(attempted: nat, completed: nat, fallbacks: nat, structured: nat, repeated: map<string, nat>)

  ghost predicate Tally(totals: Totals, signals: seq<Signal>, failure: Option<Failure>) {
    && totals.attempted == Attempts(signals, failure)
    && totals.completed == |signals|
    && totals.fallbacks == Fallbacks(signals)
    && totals.completed == totals.structured + totals.fallbacks
    && CountsRepeats(totals.repeated, signals)
  }

  function Count(totals: Totals, signal: Signal): Totals {
    var count := if signal.reason in totals.repeated then totals.repeated[signal.reason] else 0;
    if signal.fallbackUsed then
      Totals(totals.attempted + 1, totals.completed + 1, totals.fallbacks + 1, totals.structured,
             totals.repeated[signal.reason := count + 1])
    else Totals(totals.attempted + 1, totals.completed + 1, totals.fallbacks, totals.structured + 1, totals.repeated)
  }

  lemma {:induction false} CountTallies(totals: Totals, signals: seq<Signal>, signal: Signal)
    requires Tally(totals, signals, None)
    ensures Tally(Count(totals, signal), signals + [signal], None)
    ensures signal.fallbackUsed ==>
              signal.reason in Count(totals, signal).repeated
              && Count(totals, signal).repeated[signal.reason] == Repeats(signals + [signal], signal.reason)
  {
    CountsAppend(totals.repeated, signals, signal);
  }

  // One round: up to a call for each representative, ended early by the user, a failed call or the circuit breaker.
  method RunRound(config: Config, env: Environment, round: nat, pilot: Pilot, earlier: seq<Signal>, before: Totals)
    returns (raised: bool, signals: seq<Signal>, totals: Totals, failure: Option<Failure>)
    requires config.representatives > 0 && |earlier| == round * config.representatives < Planned(config)
    requires Tally(before, earlier, None)
    ensures raised ==> Calls(config, env, earlier, pilot) == Raised
    ensures !raised ==>
              && earlier <= signals && |signals| <= Planned(config) && Tally(totals, signals, failure)
              && (failure == None ==> |signals| == Min(|earlier| + config.representatives, Planned(config)))
              && Calls(config, env, earlier, pilot) == CloseRound(config, env, signals, |earlier|, pilot, failure)
  {
    hide Tally, Repeats, RoundStart, CloseRound, Observe, Memory, SocialFeed, CountsRepeats;
    var start := |earlier|;
    var callsThisRound := Min(config.representatives, Planned(config) - start);
    var social := SocialFeed(env, earlier, round);
    raised, signals, totals, failure := false, earlier, before, None;
    var i := 0;
    while i < callsThisRound && failure == None
      invariant i <= callsThisRound && earlier <= signals && start <= |signals| <= start + callsThisRound
      invariant forall j :: start <= j < |signals| ==> signals[j].representative == j - start
      invariant Tally(totals, signals, failure)
      invariant failure == None ==> |signals| == start + i
      invariant failure == None && i < callsThisRound ==> Calls(config, env, earlier, pilot) == Calls(config, env, signals, pilot)
      invariant failure.Some? || i == callsThisRound ==>
                  (failure == None ==> start < |signals|)
                  && Calls(config, env, earlier, pilot) == CloseRound(config, env, signals, start, pilot, failure)
      decreases callsThisRound - i, failure == None
    {
      RoundOf(config, round, i);
      assert signals[..start] == earlier;
      assert totals.attempted == |signals| by { TallyAttempts(totals, signals); }
      if env.stop(totals.attempted) {
        failure := Some(RuleContinuation);
        StopTallies(totals, signals);
        break;
      }
      var observation := Observation(i, round, pilot, social, Memory(signals, i));
      assert observation == Observe(env, pilot, earlier, i, round) by { ObserveNow(env, pilot, signals, start, i, round); }
      match env.model(totals.attempted, observation)
      case Refused(code) =>
        if !config.fallbackAllowed {
          raised := true;
          return;
        }
        RefusalTallies(totals, signals, code);
        totals := totals.(attempted := totals.attempted + 1);
        failure := Some(CallFailed(code));
      case Answered(decision, fallbackUsed, reason) =>
        if fallbackUsed && !config.fallbackAllowed {
          raised := true;
          return;
        }
        var signal := Signal(i, round, observation, decision, fallbackUsed, reason);
        CountTallies(totals, signals, signal);
        totals := Count(totals, signal);
        signals := signals + [signal];
        if fallbackUsed && totals.repeated[reason] >= 3 {
          CircuitTallies(totals, signals);
          failure := Some(CircuitOpen);
        }
        i := i + 1;
    }
  }

  lemma {:induction false} TallyAttempts(totals: Totals, signals: seq<Signal>)
    requires Tally(totals, signals, None)
    ensures totals.attempted == |signals|
  {
  }

  lemma {:induction false} StopTallies(totals: Totals, signals: seq<Signal>)
    requires Tally(totals, signals, None)
    ensures Tally(totals, signals, Some(RuleContinuation))
  {
  }

  lemma {:induction false} CircuitTallies(totals: Totals, signals: seq<Signal>)
    requires Tally(totals, signals, None)
    ensures Tally(totals, signals, Some(CircuitOpen))
  {
  }

  lemma {:induction false} RefusalTallies(totals: Totals, signals: seq<Signal>, code: string)
    requires Tally(totals, signals, None)
    ensures Tally(totals.(attempted := totals.attempted + 1), signals, Some(CallFailed(code)))
  {
  }

  // The social posts fixed at the start of the round and the representative's memory are all it sees of the signals.
  lemma {:induction false} ObserveNow(env: Environment, pilot: Pilot, signals: seq<Signal>, start: nat, i: nat, round: nat)
    requires start + i == |signals| && forall j :: start <= j < |signals| ==> signals[j].representative == j - start
    ensures Observation(i, round, pilot, SocialFeed(env, signals[..start], round), Memory(signals, i))
         == Observe(env, pilot, signals[..start], i, round)
  {
    MemoryOfEarlierRounds(signals, start, i);
  }

  lemma {:induction false} RoundsCoverPlan(config: Config, round: nat)
    ensures (round + 1) * config.representatives == round * config.representatives + config.representatives
    ensures config.rounds <= round ==> round * config.representatives >= Planned(config)
  {
    MulMonotone(config.rounds, round, config.representatives);
  }

  lemma {:induction false} SettledTotals(config: Config, signals: seq<Signal>, pilot: Pilot, failure: Option<Failure>, totals: Totals)
    requires Tally(totals, signals, failure)
    ensures
      Settled(config, signals, pilot, failure) ==
      Prepared(ModeOf(signals, failure), signals, pilot, Planned(config),
               Counters(totals.attempted, totals.completed, totals.fallbacks, totals.structured), failure)
    ensures totals.attempted == Attempts(signals, failure)
  {
  }

  // Round after round, with a pilot rerun after each that added signals.
  method RunRounds(config: Config, env: Environment, first: Pilot) returns (result: Preparation)
    requires config.representatives > 0 && Planned(config) > 0
    ensures result == Calls(config, env, [], first)
  {
    hide Calls, Tally, RoundStart, Planned, ModeOf, Settled, Fallbacks;
    var signals: seq<Signal> := [];
    var totals := Totals(0, 0, 0, 0, map[]);
    var failure: Option<Failure> := None;
    var pilot, round := first, 0;
    NothingTallied();
    while round < config.rounds && |signals| < Planned(config) && failure == None
      invariant |signals| <= Planned(config) && Tally(totals, signals, failure)
      invariant failure == None && |signals| < Planned(config) ==>
                  |signals| == round * config.representatives && Calls(config, env, [], first) == Calls(config, env, signals, pilot)
      invariant failure.Some? || |signals| == Planned(config) ==>
                  Calls(config, env, [], first) == Settled(config, signals, pilot, failure)
      decreases config.rounds - round
    {
      RoundsCoverPlan(config, round);
      var start, raised := |signals|, false;
      raised, signals, totals, failure := RunRound(config, env, round, pilot, signals, totals);
      if raised {
        return Raised;
      }
      if |signals| > start {
        var next := env.pilot(signals);
        if next == None {
          SettledTotals(config, signals, pilot, failure, totals);
          return if config.fallbackAllowed then FailedClosed(Planned(config), totals.attempted, |signals|) else Raised;
        }
        pilot := next.value;
      }
      round := round + 1;
    }
    RoundsCoverPlan(config, round);
    SettledTotals(config, signals, pilot, failure, totals);
    return Prepared(ModeOf(signals, failure), signals, pilot, Planned(config),
                    Counters(totals.attempted, totals.completed, totals.fallbacks, totals.structured), failure);
  }

  lemma {:induction false} NothingTallied()
    ensures Tally(Totals(0, 0, 0, 0, map[]), [], None)
  {
  }

  method PrepareCognitiveSignals(config: Config, env: Environment) returns (result: Preparation)
    ensures result == Preparing(config, env)
  {
    if !config.hybrid {
      return RuleOnly;
    }
    if config.unavailable.Some? {
      return if config.fallbackAllowed then Unavailable(config.unavailable.value) else Raised;
    }
    if config.representatives == 0 || Planned(config) == 0 {
      return NoAgents(Planned(config));
    }
    var pilot := env.pilot([]);
    if pilot == None {
      return if config.fallbackAllowed then FailedClosed(Planned(config), 0, 0) else Raised;
    }
    result := RunRounds(config, env, pilot.value);
  }
}
