// Whether Retry-After can be relied on: for every bucket of the service, over every run of its requests.

module RetryPromise {
  import opened RateLimiter
  import opened RateLimitRules

  // The system after some requests, at the time of the next one.
  function At(config: Config, before: seq<(Request, real, real)>, delay: real): System {
    var y := Run(config, Events(before));
    y.(clock := Advance(y.clock, delay), storeClock := Advance(y.storeClock, delay))
  }

  // A request is rejected by the given bucket, waits as told, and the bucket still rejects it although nothing else has
  // been admitted meanwhile.
  ghost predicate Broken(
    config: Config, before: seq<(Request, real, real)>, request: Request, delay: real, i: nat, stem: Stem, scope: Scope)
  {
    var y, rules := At(config, before, delay), RulesFor(request);
    var (s, outcome) := Decide(config, y.limiter, rules, y.clock, y.storeClock);
    && CountsIn(request, stem, scope) && i < |rules| && rules[i] == BucketRule(request, stem, scope)
    && outcome.Exceeded? && Rejects(config, y, rules, i)
    && Decide(config, s, [rules[i]], y.clock + outcome.retryAfter as real, y.storeClock + outcome.retryAfter as real).1 != Admitted
  }

  // No run of a process, which either requires accounts or knows none, breaks the promise for the bucket.
  ghost predicate KeepsPromise(config: Config, required: bool, stem: Stem, scope: Scope) {
    forall before, request, delay, i: nat ::
      AllReceived(required, before) && Received(required, request) ==> !Broken(config, before, request, delay, i, stem, scope)
  }

  /*** One limit ***/

  lemma {:induction false} ServiceInv(config: Config, required: bool, before: seq<(Request, real, real)>, delay: real)
    requires AllReceived(required, before)
    ensures SystemInv(At(config, before, delay), WindowOf, Limits(required))
  {
    hide RulesFor, GoodRules, MemoryRelated, StoreRelated, Run, WindowOf, Limits, AllSpaced;
    EventsAreGood(required, before);
    RunInv(config, Events(before), WindowOf, Limits(required));
    var y := Run(config, Events(before));
    LaterClock(y.limiter, y.history, WindowOf, y.clock, y.storeClock, Advance(y.clock, delay), Advance(y.storeClock, delay));
  }

  // Outside plain and guided writes, the requests that one process receives use one limit for a bucket.
  lemma {:induction false} OneLimitIsTheLargest(required: bool, request: Request, stem: Stem, scope: Scope)
    requires Received(required, request) && CountsIn(request, stem, scope) && stem != Write
    ensures BucketRule(request, stem, scope).limit == Limits(required)(BucketRule(request, stem, scope).key)
  {
    hide Render, Limits;
    KeyFacts(required, stem, scope, Subject(request, scope));
  }

  // Every bucket but those of all writes keeps the promise in every run of the service.
  lemma {:induction false} OneLimitKeepsPromise(config: Config, required: bool, stem: Stem, scope: Scope)
    requires stem != Write
    ensures KeepsPromise(config, required, stem, scope)
  {
    hide At, Decide, RulesFor, BucketRule, CountsIn, GoodRules, SystemInv, WindowOf, Limits, Rejects, Received, AllReceived;
    forall before, request, delay, i: nat | AllReceived(required, before) && Received(required, request)
      ensures !Broken(config, before, request, delay, i, stem, scope)
    {
      var y, rules := At(config, before, delay), RulesFor(request);
      if Broken(config, before, request, delay, i, stem, scope) {
        ServiceInv(config, required, before, delay);
        RulesAreGood(required, request);
        OneLimitIsTheLargest(required, request, stem, scope);
        var outcome := Decide(config, y.limiter, rules, y.clock, y.storeClock).1;
        RetryAfterIsSoundAndTight(config, y, WindowOf, Limits(required), rules, i, outcome.retryAfter as real);
      }
    }
  }

  /*** Runs in which every request is admitted ***/

  // One request a second.
  function Ticks(requests: seq<Request>): seq<(Request, real, real)> {
    seq(|requests|, i requires 0 <= i < |requests| => (requests[i], 1.0, 1.0))
  }

  predicate Names(rules: seq<Rule>, key: string) {
    exists i :: 0 <= i < |rules| && rules[i].key == key
  }

  // When the bucket was asked for.
  function Asked(requests: seq<Request>, key: string): seq<real> {
    if requests == [] then []
    else
      Asked(requests[..|requests| - 1], key)
      + (if Names(RulesFor(requests[|requests| - 1]), key) then [|requests| as real] else [])
  }

  // Every bucket still has room when it is asked for.
  ghost predicate Roomy(requests: seq<Request>) {
    forall k :: 0 <= k < |requests| ==> requests[k].route.LimitedWrite? && HasRoomFor(requests[..k], RulesFor(requests[k]))
  }

  ghost predicate HasRoomFor(requests: seq<Request>, rules: seq<Rule>) {
    forall i :: 0 <= i < |rules| ==> |Asked(requests, rules[i].key)| < rules[i].limit
  }

  predicate Unprotected(rules: seq<Rule>) {
    forall i :: 0 <= i < |rules| ==> !rules[i].protected
  }

  lemma {:induction false} SelectUnprotected(rules: seq<Rule>, persistent: bool)
    requires Unprotected(rules)
    ensures Select(rules, false, persistent) == rules && Select(rules, true, persistent) == []
  {
    if rules != [] {
      SelectUnprotected(rules[1..], persistent);
      assert rules == [rules[0]] + rules[1..];
    }
  }

  lemma {:induction false} PassGrows(s: Limiter, rules: seq<Rule>, now: real)
    ensures |MemoryPass(s, rules, now).0.buckets| <= |s.buckets| + |rules|
    ensures |Charge(s, rules, now).buckets| <= |s.buckets| + |rules|
    decreases |rules|
  {
    if rules != [] {
      hide Prune, Verdict;
      PassGrows(Touch(s, rules[0], now), rules[1..], now);
      PassGrows(s.(buckets := s.buckets[rules[0].key := Bucket(s, rules[0].key) + [now]]), rules[1..], now);
    }
  }

  lemma {:induction false} RoomIsAdmitted(history: map<string, seq<real>>, rules: seq<Rule>, now: real)
    requires forall i :: 0 <= i < |rules| ==> |Times(history, rules[i].key)| < rules[i].limit
    ensures JudgeAll(history, rules, now) == Admitted
  {
    if rules != [] {
      LiveNotLonger(Times(history, rules[0].key), now - rules[0].windowSeconds);
      RoomIsAdmitted(history, rules[1..], now);
    }
  }

  lemma {:induction false} AddTimes(history: map<string, seq<real>>, rules: seq<Rule>, now: real, key: string)
    requires forall i, j :: 0 <= i < j < |rules| ==> rules[i].key != rules[j].key
    ensures Times(Add(history, rules, now), key) == Times(history, key) + (if Names(rules, key) then [now] else [])
    decreases |rules|
  {
    if rules != [] {
      var rest := rules[1..];
      assert forall i :: 0 <= i < |rest| ==> rest[i] == rules[i + 1];
      AddTimes(history[rules[0].key := Times(history, rules[0].key) + [now]], rest, now, key);
      if rules[0].key == key {
        assert !Names(rest, key);
      } else if Names(rules, key) {
        var i :| 0 <= i < |rules| && rules[i].key == key;
        assert rest[i - 1].key == key;
      }
    }
  }

  // Below the memory bound nothing is forgotten.
  lemma {:induction false} NothingForgotten(h: History, s: Limiter, key: string)
    ensures Times(Forget(h, s, s).memory, key) == Times(h.memory, key)
  {
  }

  ghost predicate Grown(y: System, y': System, rules: seq<Rule>) {
    && y'.clock == y.clock + 1.0
    && |y'.limiter.buckets| <= |y.limiter.buckets| + 20
    && forall key :: Times(y'.history.memory, key) == Times(y.history.memory, key) + (if Names(rules, key) then [y'.clock] else [])
  }

  lemma {:induction false} StepAdmits(config: Config, required: bool, y: System, rules: seq<Rule>)
    requires SystemInv(y, WindowOf, Limits(required)) && GoodRules(rules, WindowOf, Limits(required)) && Unprotected(rules) && |rules| <= 10
    requires forall i :: 0 <= i < |rules| ==> |Times(y.history.memory, rules[i].key)| < rules[i].limit
    requires |y.limiter.buckets| + 20 <= config.maxBuckets
    ensures Grown(y, Step(config, y, Event(rules, 1.0, 1.0)), rules)
  {
    hide MemoryRelated, StoreRelated, AllSpaced, WindowOf, Limits, MemoryPass, Charge, Add, JudgeAll, Forget, StorePass;
    var now, storeNow := y.clock + 1.0, y.storeClock + 1.0;
    SelectUnprotected(rules, config.persistent);
    LaterClock(y.limiter, y.history, WindowOf, y.clock, y.storeClock, now, storeNow);
    RefinesFullHistory(config, y.limiter, y.history, WindowOf, rules, now, storeNow);
    RoomIsAdmitted(y.history.memory, rules, now);
    PassGrows(y.limiter, rules, now);
    PassGrows(MemoryPass(y.limiter, rules, now).0, rules, now);
    var decided := Decide(config, y.limiter, rules, now, storeNow).0;
    var judged := HistoryDecide(config, y.history, rules, now, storeNow).0;
    forall key
      ensures Times(Forget(judged, decided, decided).memory, key) ==
              Times(y.history.memory, key) + (if Names(rules, key) then [now] else [])
    {
      AddTimes(y.history.memory, rules, now, key);
      NothingForgotten(judged, decided, key);
    }
    hide GoodRules, Times, Names;
  }

  lemma {:induction false} WriteRules(request: Request)
    requires request.route.LimitedWrite?
    ensures |RulesFor(request)| <= 10 && Unprotected(RulesFor(request))
  {
    hide Render;
  }

  // The requests have all been admitted.
  ghost predicate Mirrors(y: System, requests: seq<Request>) {
    && y.clock == |requests| as real && |y.limiter.buckets| <= 20 * |requests|
    && forall key :: Times(y.history.memory, key) == Asked(requests, key)
  }

  lemma {:induction false} OneMoreAdmitted(config: Config, required: bool, y: System, front: seq<Request>, request: Request)
    requires SystemInv(y, WindowOf, Limits(required)) && Mirrors(y, front) && HasRoomFor(front, RulesFor(request))
    requires Received(required, request) && request.route.LimitedWrite? && 20 * (|front| + 1) <= config.maxBuckets
    ensures Mirrors(Step(config, y, Event(RulesFor(request), 1.0, 1.0)), front + [request])
  {
    hide RulesFor, Step, Times, Names, GoodRules, SystemInv, WindowOf, Limits;
    RulesAreGood(required, request);
    WriteRules(request);
    StepAdmits(config, required, y, RulesFor(request));
    assert (front + [request])[..|front|] == front;
  }

  lemma {:induction false} RoomyParts(requests: seq<Request>)
    requires Roomy(requests) && requests != []
    ensures
      var front, last := requests[..|requests| - 1], requests[|requests| - 1];
      Roomy(front) && last.route.LimitedWrite? && HasRoomFor(front, RulesFor(last))
  {
    hide HasRoomFor, RulesFor;
    var front := requests[..|requests| - 1];
    assert forall k :: 0 <= k < |front| ==> front[..k] == requests[..k] && front[k] == requests[k];
  }

  lemma {:induction false} RunNext(config: Config, front: seq<Request>, request: Request)
    ensures
      Run(config, Events(Ticks(front + [request]))) ==
      Step(config, Run(config, Events(Ticks(front))), Event(RulesFor(request), 1.0, 1.0))
  {
    hide Step, RulesFor;
    var events := Events(Ticks(front + [request]));
    assert events[..|front|] == Events(Ticks(front)) && events[|front|] == Event(RulesFor(request), 1.0, 1.0);
  }

  lemma {:induction false} NothingAsked(config: Config)
    ensures Mirrors(Run(config, Events(Ticks([]))), [])
  {
    assert Events(Ticks([])) == [];
  }

  lemma {:induction false} TicksReceived(required: bool, requests: seq<Request>)
    requires AllReceived(required, Ticks(requests)) && requests != []
    ensures AllReceived(required, Ticks(requests[..|requests| - 1])) && Received(required, requests[|requests| - 1])
  {
    hide Received;
    var front, last := requests[..|requests| - 1], |requests| - 1;
    assert Ticks(requests)[last].0 == requests[last];
    assert forall i :: 0 <= i < last ==> Ticks(front)[i] == Ticks(requests)[i];
  }

  lemma {:induction false} AllAdmitted(config: Config, required: bool, requests: seq<Request>)
    requires AllReceived(required, Ticks(requests)) && Roomy(requests) && 20 * |requests| <= config.maxBuckets
    ensures Mirrors(Run(config, Events(Ticks(requests))), requests)
  {
    hide RulesFor, Step, Run, Roomy, HasRoomFor, SystemInv, WindowOf, Limits, Mirrors, Events, Ticks, AllReceived, Received;
    if requests == [] {
      NothingAsked(config);
    } else {
      var front, last := requests[..|requests| - 1], requests[|requests| - 1];
      RoomyParts(requests);
      TicksReceived(required, requests);
      AllAdmitted(config, required, front);
      ServiceInv(config, required, Ticks(front), 0.0);
      assert At(config, Ticks(front), 0.0) == Run(config, Events(Ticks(front)));
      OneMoreAdmitted(config, required, Run(config, Events(Ticks(front))), front, last);
      RunNext(config, front, last);
      assert front + [last] == requests;
    }
  }

  /*** A window that holds more than the rejecting rule's limit ***/

  function Seconds(n: nat): seq<real> {
    seq(n, i => (i + 1) as real)
  }

  lemma {:induction false} SecondsJudged(n: nat, rule: Rule, window: nat)
    requires 1 <= rule.limit < n < window && rule.windowSeconds == window as real
    ensures Judge(Seconds(n), rule, (n + 1) as real) == Exceeded(window - n)
    ensures Judge(Seconds(n), rule, (window + 1) as real).Exceeded?
  {
    var times := Seconds(n);
    LiveAll(times, (n + 1) as real - window as real);
    assert times == [times[0]] + times[1..];
    LiveAll(times[1..], 1.0);
    assert RetryAfter(window as real, (n + 1) as real, 1.0) == window - n by { CeilBounds((window - n) as real); }
    assert Live(times, 1.0) == times[1..];
    assert (window + 1) as real - window as real == 1.0;
    hide Live, RetryAfter;
  }

  // After n admitted requests to a bucket, one a second, a request under a lower limit is told to wait until the first
  // of them leaves; that is too early.
  lemma {:induction false} LowerLimitBreaks(
    config: Config, required: bool, requests: seq<Request>, request: Request, i: nat, stem: Stem, scope: Scope, window: nat)
    requires AllReceived(required, Ticks(requests)) && Received(required, request)
    requires Roomy(requests) && 20 * |requests| <= config.maxBuckets
    requires request.route.LimitedWrite? && CountsIn(request, stem, scope)
    requires i < |RulesFor(request)| && RulesFor(request)[i] == BucketRule(request, stem, scope)
    requires forall j :: 0 <= j < i ==> |Asked(requests, RulesFor(request)[j].key)| < RulesFor(request)[j].limit
    requires Asked(requests, RulesFor(request)[i].key) == Seconds(|requests|)
    requires 1 <= RulesFor(request)[i].limit < |requests| < window && RulesFor(request)[i].windowSeconds == window as real
    ensures Broken(config, Ticks(requests), request, 1.0, i, stem, scope)
  {
    hide RulesFor, GoodRules, SystemInv, WindowOf, Limits, BucketRule, CountsIn, Decide, HistoryDecide, Judge, Run, Asked, Roomy;
    var n, y, rules := |requests|, At(config, Ticks(requests), 1.0), RulesFor(request);
    AllAdmitted(config, required, requests);
    ServiceInv(config, required, Ticks(requests), 1.0);
    RulesAreGood(required, request);
    WriteRules(request);
    assert y.clock == (n + 1) as real;
    SecondsJudged(n, rules[i], window);
    RejectedByHistory(config, required, y, rules, i);
    AskedAgain(config, y, WindowOf, Limits(required), rules, i, (window - n) as real);
  }

  lemma {:induction false} FirstRejection(history: map<string, seq<real>>, rules: seq<Rule>, now: real, i: nat)
    requires i < |rules| && Judge(Times(history, rules[i].key), rules[i], now) != Admitted
    requires forall j :: 0 <= j < i ==> |Times(history, rules[j].key)| < rules[j].limit
    ensures JudgeAll(history, rules, now) == Judge(Times(history, rules[i].key), rules[i], now)
  {
    if i > 0 {
      LiveNotLonger(Times(history, rules[0].key), now - rules[0].windowSeconds);
      hide Live;
      FirstRejection(history, rules[1..], now, i - 1);
    }
  }

  lemma {:induction false} RejectedByHistory(config: Config, required: bool, y: System, rules: seq<Rule>, i: nat)
    requires SystemInv(y, WindowOf, Limits(required)) && GoodRules(rules, WindowOf, Limits(required)) && Unprotected(rules)
    requires i < |rules| && Judge(Times(y.history.memory, rules[i].key), rules[i], y.clock) != Admitted
    requires forall j :: 0 <= j < i ==> |Times(y.history.memory, rules[j].key)| < rules[j].limit
    ensures Rejects(config, y, rules, i)
    ensures Decide(config, y.limiter, rules, y.clock, y.storeClock).1 ==
            Judge(Times(y.history.memory, rules[i].key), rules[i], y.clock)
  {
    hide MemoryRelated, StoreRelated, AllSpaced, WindowOf, Limits, Decide, Judge, JudgeAll, JudgeStored, Times;
    SelectUnprotected(rules, config.persistent);
    RefinesFullHistory(config, y.limiter, y.history, WindowOf, rules, y.clock, y.storeClock);
    FirstRejection(y.history.memory, rules, y.clock, i);
  }

  /*** The buckets of all writes ***/

  // A write of an account where the process requires one.
  function WriteFrom(required: bool, guided: bool, clientIp: string, session: string): Request {
    Request(LimitedWrite(false, false, false, false, guided), clientIp, if required then "u" else "", session)
  }

  lemma {:induction false} AskedBound(requests: seq<Request>, key: string)
    ensures |Asked(requests, key)| <= |requests|
  {
    if requests != [] {
      AskedBound(requests[..|requests| - 1], key);
    }
  }

  lemma {:induction false} AskedByAll(requests: seq<Request>, key: string)
    requires forall k :: 0 <= k < |requests| ==> Names(RulesFor(requests[k]), key)
    ensures Asked(requests, key) == Seconds(|requests|)
  {
    hide RulesFor;
    if requests != [] {
      AskedByAll(requests[..|requests| - 1], key);
    }
  }

  lemma {:induction false} AskedByNone(requests: seq<Request>, key: string)
    requires forall k :: 0 <= k < |requests| ==> !Names(RulesFor(requests[k]), key)
    ensures Asked(requests, key) == []
  {
    hide RulesFor;
    if requests != [] {
      AskedByNone(requests[..|requests| - 1], key);
    }
  }

  // Fewer requests than any limit leave room.
  lemma {:induction false} FewAreRoomy(requests: seq<Request>)
    requires forall k :: 0 <= k < |requests| ==> requests[k].route.LimitedWrite?
    requires forall k, i :: 0 <= k < |requests| && 0 <= i < |RulesFor(requests[k])| ==> |requests| <= RulesFor(requests[k])[i].limit
    ensures Roomy(requests)
  {
    hide RulesFor;
    forall k, i | 0 <= k < |requests| && 0 <= i < |RulesFor(requests[k])|
      ensures |Asked(requests[..k], RulesFor(requests[k])[i].key)| < RulesFor(requests[k])[i].limit
    {
      AskedBound(requests[..k], RulesFor(requests[k])[i].key);
    }
  }

  function Repeat(request: Request, n: nat): seq<Request> {
    seq(n, _ => request)
  }

  lemma {:induction false} WriteRulesOf(required: bool, guided: bool, clientIp: string, session: string)
    ensures
      var request, limit := WriteFrom(required, guided, clientIp, session), if guided then 90 else 30;
      && RulesFor(request) ==
         [Rule(Render(Write, ByIp, clientIp), limit, 60.0, false), Rule(Render(Write, BySession, session), limit, 60.0, false)]
      && Received(required, request) && request.route.LimitedWrite?
      && CountsIn(request, Write, ByIp) && RulesFor(request)[0] == BucketRule(request, Write, ByIp)
      && CountsIn(request, Write, BySession) && RulesFor(request)[1] == BucketRule(request, Write, BySession)
  {
    hide Render;
  }

  lemma {:induction false} RepeatIsRoomy(request: Request, n: nat)
    requires request.route.LimitedWrite? && forall i :: 0 <= i < |RulesFor(request)| ==> n <= RulesFor(request)[i].limit
    ensures Roomy(Repeat(request, n))
  {
    hide RulesFor;
    FewAreRoomy(Repeat(request, n));
  }

  lemma {:induction false} RepeatAsks(request: Request, n: nat, i: nat)
    requires i < |RulesFor(request)|
    ensures Asked(Repeat(request, n), RulesFor(request)[i].key) == Seconds(n)
  {
    hide RulesFor, Asked;
    NamesRule(RulesFor(request), i);
    AskedByAll(Repeat(request, n), RulesFor(request)[i].key);
  }

  lemma {:induction false} NamesRule(rules: seq<Rule>, i: nat)
    requires i < |rules|
    ensures Names(rules, rules[i].key)
  {
  }

  // Forty guided-workflow writes of one session.
  function GuidedWrites(required: bool): seq<Request> {
    Repeat(WriteFrom(required, true, "a", "s"), 40)
  }

  lemma {:induction false} GuidedWritesAreAdmitted(required: bool)
    ensures |GuidedWrites(required)| == 40 && Roomy(GuidedWrites(required)) && AllReceived(required, Ticks(GuidedWrites(required)))
    ensures Asked(GuidedWrites(required), Render(Write, ByIp, "a")) == Seconds(40)
    ensures Asked(GuidedWrites(required), Render(Write, BySession, "s")) == Seconds(40)
  {
    var guided := WriteFrom(required, true, "a", "s");
    WriteRulesOf(required, true, "a", "s");
    hide Render, Asked, RulesFor, CountsIn, BucketRule, Roomy, Seconds, Received;
    RepeatIsRoomy(guided, 40);
    RepeatAsks(guided, 40, 0);
    RepeatAsks(guided, 40, 1);
    hide WriteFrom;
    assert forall i :: 0 <= i < 40 ==> Ticks(GuidedWrites(required))[i].0 == guided;
  }

  lemma {:induction false} OtherAddressNotAsked(required: bool)
    ensures Asked(GuidedWrites(required), Render(Write, ByIp, "b")) == []
  {
    var guided := WriteFrom(required, true, "a", "s");
    WriteRulesOf(required, true, "a", "s");
    OtherAddress();
    hide Render, Asked, RulesFor;
    assert !Names(RulesFor(guided), Render(Write, ByIp, "b"));
    hide Names;
    AskedByNone(GuidedWrites(required), Render(Write, ByIp, "b"));
  }

  // After them, a plain write of the session.
  lemma {:induction false} WritesBreak(config: Config, required: bool)
    requires config.maxBuckets >= 800
    ensures
      var before, plain := Ticks(GuidedWrites(required)), WriteFrom(required, false, "a", "s");
      AllReceived(required, before) && Received(required, plain) && Broken(config, before, plain, 1.0, 0, Write, ByIp)
  {
    hide Broken, Asked, Roomy, Seconds, GuidedWrites, Ticks, AllReceived;
    GuidedWritesAreAdmitted(required);
    WriteRulesOf(required, false, "a", "s");
    hide WriteFrom, RulesFor, CountsIn, BucketRule, Render, Received;
    LowerLimitBreaks(config, required, GuidedWrites(required), WriteFrom(required, false, "a", "s"), 0, Write, ByIp, 60);
  }

  // The same session writes from another address.
  lemma {:induction false} SessionWritesBreak(config: Config, required: bool)
    requires config.maxBuckets >= 800
    ensures
      var before, plain := Ticks(GuidedWrites(required)), WriteFrom(required, false, "b", "s");
      AllReceived(required, before) && Received(required, plain) && Broken(config, before, plain, 1.0, 1, Write, BySession)
  {
    hide Broken, Asked, Roomy, Seconds, GuidedWrites, Ticks, AllReceived;
    GuidedWritesAreAdmitted(required);
    OtherAddressNotAsked(required);
    WriteRulesOf(required, false, "b", "s");
    hide WriteFrom, RulesFor, CountsIn, BucketRule, Render, Received;
    LowerLimitBreaks(config, required, GuidedWrites(required), WriteFrom(required, false, "b", "s"), 1, Write, BySession, 60);
  }

  lemma {:induction false} OtherAddress()
    ensures Render(Write, ByIp, "a") != Render(Write, ByIp, "b") && Render(Write, BySession, "s") != Render(Write, ByIp, "b")
  {
    hide Render;
    if Render(Write, ByIp, "a") == Render(Write, ByIp, "b") {
      KeysAreDecodable(Write, ByIp, "a", Write, ByIp, "b");
    }
    if Render(Write, BySession, "s") == Render(Write, ByIp, "b") {
      KeysAreDecodable(Write, BySession, "s", Write, ByIp, "b");
    }
  }

  // Behind every rejection in every run of the service is a bucket that the request counts in.
  lemma {:induction false} EveryRejectionHasABucket(config: Config, required: bool, before: seq<(Request, real, real)>, request: Request, delay: real)
    returns (i: nat, stem: Stem, scope: Scope)
    requires AllReceived(required, before) && Received(required, request)
    requires
      var y := At(config, before, delay);
      Decide(config, y.limiter, RulesFor(request), y.clock, y.storeClock).1 != Admitted
    ensures i < |RulesFor(request)| && CountsIn(request, stem, scope) && RulesFor(request)[i] == BucketRule(request, stem, scope)
    ensures Rejects(config, At(config, before, delay), RulesFor(request), i)
  {
    hide At, Decide, RulesFor, BucketRule, CountsIn, GoodRules, SystemInv, WindowOf, Limits;
    ServiceInv(config, required, before, delay);
    RulesAreGood(required, request);
    i := SomeRuleRejects(config, At(config, before, delay), WindowOf, Limits(required), RulesFor(request));
    RulesAreOfBuckets(request, RulesFor(request)[i]);
    stem, scope :| CountsIn(request, stem, scope) && RulesFor(request)[i] == BucketRule(request, stem, scope);
  }

  // Over all runs of a process of either kind, a bucket keeps the promise exactly when it is not one of the two buckets
  // that guided and plain writes share.
  lemma {:induction false} PromiseKeptExceptForWrites(config: Config, required: bool, stem: Stem, scope: Scope)
    requires config.maxBuckets >= 800 && exists request :: CountsIn(request, stem, scope)
    ensures KeepsPromise(config, required, stem, scope) <==> stem != Write
  {
    hide Broken, RulesFor, AllReceived, Received;
    if stem != Write {
      OneLimitKeepsPromise(config, required, stem, scope);
    } else {
      WritesBreak(config, required);
      SessionWritesBreak(config, required);
    }
  }
}
