// The rules that a request is checked against: which buckets it counts in, and with which limits and windows.

module RateLimitRules {
  import opened RateLimiter
  import opened Text

  datatype Stem =
    | AuthWrite | AuthLogin | AuthCode | AdminCredential | AccountSensitive
    | Write | ExperimentCreate | StudyRun | ResultInterpretation | FactoryProvider

  datatype Scope = ByIp | BySession | ByUser

  // What the path patterns decide about a write outside the authentication, credential and account routes.
  datatype Route =
    | ReadOnly
    | Authentication(login: bool, verificationCode: bool)
    | LlmCredential
    | Account
    | LimitedWrite(experimentCreate: bool, studyRun: bool, interpretation: bool, providerCall: bool, guidedWorkflow: bool)
    | Unlimited

  // `userId` is the empty string when the request carries no authentication.
  datatype Request = Request(route: Route, clientIp: string, userId: string, sessionDigest: string)

  predicate Authenticated(request: Request) {
    request.userId != ""
  }

  // A process either requires accounts or knows none. Where it requires them, the request is authenticated before its
  // rules are asked for, on every path but the public ones around signing in.
  predicate Received(required: bool, request: Request) {
    match request.route
    case LimitedWrite(_, _, _, _, _) => Authenticated(request) == required
    case LlmCredential | Account => Authenticated(request) == required
    case _ => Authenticated(request) ==> required
  }

  function StemName(stem: Stem): string {
    match stem
    case AuthWrite => "auth-write"
    case AuthLogin => "auth-login"
    case AuthCode => "auth-code"
    case AdminCredential => "admin-llm-credential"
    case AccountSensitive => "account-sensitive"
    case Write => "write"
    case ExperimentCreate => "experiment-create"
    case StudyRun => "study-run"
    case ResultInterpretation => "result-interpretation"
    case FactoryProvider => "factory-provider"
  }

  function ScopeName(scope: Scope): string {
    match scope
    case ByIp => "ip"
    case BySession => "session"
    case ByUser => "user"
  }

  // The key of a bucket; the account bucket has no scope part.
  function Render(stem: Stem, scope: Scope, subject: string): string {
    StemName(stem) + ":" + (if stem == AccountSensitive then subject else ScopeName(scope) + ":" + subject)
  }

  function Principal(request: Request): string {
    if Authenticated(request) then request.userId else "unavailable:" + request.clientIp
  }

  function Window(stem: Stem): real {
    match stem
    case AuthWrite | AuthLogin | FactoryProvider => 300.0
    case AuthCode | AdminCredential | AccountSensitive => 3600.0
    case Write | ExperimentCreate | StudyRun | ResultInterpretation => 60.0
  }

  // The largest limit that any request to a process uses for the bucket.
  function LargestLimit(required: bool, stem: Stem, scope: Scope): nat {
    match stem
    case AuthWrite => 120
    case AuthLogin => 30
    case AuthCode => 60
    case AdminCredential => 5
    case AccountSensitive => 5
    case Write => 90
    case ExperimentCreate => 5
    case StudyRun => 2
    case ResultInterpretation => if scope == ByIp && required then 120 else 8
    case FactoryProvider => if scope != ByIp then 12 else if required then 120 else 10
  }

  function ProtectedRule(stem: Stem, request: Request, limit: int, window: real): Rule {
    Rule(Render(stem, ByIp, request.clientIp), limit, window, true)
  }

  function Pair(stem: Stem, request: Request, ipLimit: int, sessionLimit: int, window: real): seq<Rule> {
    [Rule(Render(stem, ByIp, request.clientIp), ipLimit, window, false),
     Rule(Render(stem, BySession, request.sessionDigest), sessionLimit, window, false)]
  }

  function Extend(rules: seq<Rule>, wanted: bool, more: seq<Rule>): seq<Rule> {
    if wanted then rules + more else rules
  }

  function RulesFor(request: Request): seq<Rule> {
    match request.route
    case ReadOnly => []
    case Unlimited => []
    case Authentication(login, verificationCode) =>
      var always := [ProtectedRule(AuthWrite, request, 120, 300.0)];
      var atLogin := Extend(always, login, [ProtectedRule(AuthLogin, request, 30, 300.0)]);
      Extend(atLogin, verificationCode, [ProtectedRule(AuthCode, request, 60, 3600.0)])
    case LlmCredential =>
      [Rule(Render(AdminCredential, ByUser, Principal(request)), 5, 3600.0, false),
       Rule(Render(AdminCredential, ByIp, request.clientIp), 5, 3600.0, false)]
    case Account => [Rule(Render(AccountSensitive, ByUser, Principal(request)), 5, 3600.0, false)]
    case LimitedWrite(experimentCreate, studyRun, interpretation, providerCall, guidedWorkflow) =>
      var writeLimit := if guidedWorkflow then 90 else 30;
      var always := Pair(Write, request, writeLimit, writeLimit, 60.0);
      var created := Extend(always, experimentCreate, Pair(ExperimentCreate, request, 5, 5, 60.0));
      var studied := Extend(created, studyRun, Pair(StudyRun, request, 2, 2, 60.0));
      var interpreted := Extend(studied, interpretation,
                                Pair(ResultInterpretation, request, if Authenticated(request) then 120 else 8, 8, 60.0));
      Extend(interpreted, providerCall, Pair(FactoryProvider, request, if Authenticated(request) then 120 else 10, 12, 300.0))
  }

  /*** Keys of different buckets differ ***/

  lemma {:induction false} SigningStemIsPlain(stem: Stem)
    requires stem in {AuthWrite, AuthLogin, AuthCode, Write, StudyRun}
    ensures Free(StemName(stem), ':')
  {
  }

  lemma {:induction false} CreationStemIsPlain(stem: Stem)
    requires stem in {AdminCredential, AccountSensitive, ExperimentCreate}
    ensures Free(StemName(stem), ':')
  {
  }

  lemma {:induction false} ProviderStemIsPlain(stem: Stem)
    requires stem in {ResultInterpretation, FactoryProvider}
    ensures Free(StemName(stem), ':')
  {
  }

  lemma {:induction false} StemIsPlain(stem: Stem)
    ensures Free(StemName(stem), ':')
  {
    hide StemName, Free;
    if stem in {AuthWrite, AuthLogin, AuthCode, Write, StudyRun} {
      SigningStemIsPlain(stem);
    } else if stem in {AdminCredential, AccountSensitive, ExperimentCreate} {
      CreationStemIsPlain(stem);
    } else {
      ProviderStemIsPlain(stem);
    }
  }

  lemma {:induction false} ScopeIsPlain(scope: Scope)
    ensures Free(ScopeName(scope), ':')
  {
  }

  // The letters that tell two names of one length apart.
  lemma {:induction false} NamesDiffer(a: Stem, b: Stem)
    requires StemName(a) == StemName(b)
    ensures a == b
  {
    assert |StemName(a)| == |StemName(b)| && StemName(a)[0] == StemName(b)[0];
    assert |StemName(a)| == 10 ==> StemName(a)[5] == StemName(b)[5];
  }

  lemma {:induction false} KeysAreDecodable(stem: Stem, scope: Scope, subject: string, stem': Stem, scope': Scope, subject': string)
    requires Render(stem, scope, subject) == Render(stem', scope', subject')
    ensures stem == stem' && subject == subject' && (stem != AccountSensitive ==> scope == scope')
  {
    StemIsPlain(stem);
    StemIsPlain(stem');
    ScopeIsPlain(scope);
    ScopeIsPlain(scope');
    hide StemName, Free;
    SplitAtFirst(StemName(stem), if stem == AccountSensitive then subject else ScopeName(scope) + ":" + subject,
                 StemName(stem'), if stem' == AccountSensitive then subject' else ScopeName(scope') + ":" + subject', ':');
    NamesDiffer(stem, stem');
    if stem != AccountSensitive {
      SplitAtFirst(ScopeName(scope), subject, ScopeName(scope'), subject', ':');
      assert |ScopeName(scope)| == |ScopeName(scope')|;
    }
  }

  /*** The limiter's assumptions hold of every request ***/

  ghost predicate IsKey(key: string, stem: Stem, scope: Scope) {
    exists subject :: key == Render(stem, scope, subject)
  }

  // The one window of a key, whatever request it comes from.
  ghost function WindowOf(key: string): real {
    if exists stem, scope :: IsKey(key, stem, scope) then
      var stem, scope :| IsKey(key, stem, scope); Window(stem)
    else 60.0
  }

  ghost function LimitOf(required: bool, key: string): nat {
    if exists stem, scope :: IsKey(key, stem, scope) then
      var stem, scope :| IsKey(key, stem, scope); LargestLimit(required, stem, scope)
    else 0
  }

  ghost function Limits(required: bool): string -> nat {
    key => LimitOf(required, key)
  }

  lemma {:induction false} OneBucketPerKey(stem: Stem, scope: Scope, subject: string, stem': Stem, scope': Scope)
    requires IsKey(Render(stem, scope, subject), stem', scope')
    ensures stem' == stem && (stem != AccountSensitive ==> scope' == scope)
  {
    hide Render;
    var subject' :| Render(stem, scope, subject) == Render(stem', scope', subject');
    KeysAreDecodable(stem, scope, subject, stem', scope', subject');
  }

  lemma {:induction false} WindowOfKey(stem: Stem, scope: Scope, subject: string)
    ensures WindowOf(Render(stem, scope, subject)) == Window(stem)
  {
    var key := Render(stem, scope, subject);
    assert IsKey(key, stem, scope);
    hide Render, IsKey, Window;
    forall stem', scope' | IsKey(key, stem', scope')
      ensures stem' == stem
    {
      OneBucketPerKey(stem, scope, subject, stem', scope');
    }
  }

  lemma {:induction false} LimitOfKey(required: bool, stem: Stem, scope: Scope, subject: string)
    ensures LimitOf(required, Render(stem, scope, subject)) == LargestLimit(required, stem, scope)
  {
    var key := Render(stem, scope, subject);
    assert IsKey(key, stem, scope);
    hide Render, IsKey;
    forall stem', scope' | IsKey(key, stem', scope')
      ensures stem' == stem && (stem != AccountSensitive ==> scope' == scope)
    {
      OneBucketPerKey(stem, scope, subject, stem', scope');
    }
  }

  lemma {:induction false} KeyFacts(required: bool, stem: Stem, scope: Scope, subject: string)
    ensures WindowOf(Render(stem, scope, subject)) == Window(stem)
    ensures Limits(required)(Render(stem, scope, subject)) == LargestLimit(required, stem, scope)
  {
    hide Render, Window, WindowOf, LimitOf, LargestLimit;
    WindowOfKey(stem, scope, subject);
    LimitOfKey(required, stem, scope, subject);
  }

  ghost predicate OfStems(key: string, stems: set<Stem>) {
    exists stem, scope :: stem in stems && IsKey(key, stem, scope)
  }

  // Well-formed rules whose buckets all belong to the given stems.
  ghost predicate GoodGroup(required: bool, rules: seq<Rule>, stems: set<Stem>) {
    GoodRules(rules, WindowOf, Limits(required)) && forall i :: 0 <= i < |rules| ==> OfStems(rules[i].key, stems)
  }

  lemma {:induction false} RenderedOfStem(stem: Stem, scope: Scope, subject: string, stems: set<Stem>)
    requires stem in stems
    ensures OfStems(Render(stem, scope, subject), stems)
  {
    hide Render;
    assert IsKey(Render(stem, scope, subject), stem, scope);
  }

  lemma {:induction false} OneIsGood(required: bool, rule: Rule, stem: Stem, scope: Scope, subject: string)
    requires rule.key == Render(stem, scope, subject) && rule.windowSeconds == Window(stem)
    requires 1 <= rule.limit <= LargestLimit(required, stem, scope)
    ensures GoodGroup(required, [rule], {stem})
  {
    hide Render, OfStems, WindowOf, Limits;
    KeyFacts(required, stem, scope, subject);
    RenderedOfStem(stem, scope, subject, {stem});
  }

  lemma {:induction false} PairIsGood(required: bool, stem: Stem, request: Request, ipLimit: int, sessionLimit: int, window: real)
    requires stem != AccountSensitive && window == Window(stem)
    requires 1 <= ipLimit <= LargestLimit(required, stem, ByIp) && 1 <= sessionLimit <= LargestLimit(required, stem, BySession)
    ensures GoodGroup(required, Pair(stem, request, ipLimit, sessionLimit, window), {stem})
  {
    hide Render, WindowOf, Limits, OfStems;
    KeyFacts(required, stem, ByIp, request.clientIp);
    KeyFacts(required, stem, BySession, request.sessionDigest);
    RenderedOfStem(stem, ByIp, request.clientIp, {stem});
    RenderedOfStem(stem, BySession, request.sessionDigest, {stem});
    if Render(stem, ByIp, request.clientIp) == Render(stem, BySession, request.sessionDigest) {
      KeysAreDecodable(stem, ByIp, request.clientIp, stem, BySession, request.sessionDigest);
    }
  }

  lemma {:induction false} StemsAreDisjoint(key: string, stem: Stem, scope: Scope, stem': Stem, scope': Scope)
    requires IsKey(key, stem, scope) && IsKey(key, stem', scope')
    ensures stem == stem'
  {
    hide Render;
    var subject :| key == Render(stem, scope, subject);
    var subject' :| key == Render(stem', scope', subject');
    KeysAreDecodable(stem, scope, subject, stem', scope', subject');
  }

  lemma {:induction false} StemSetsAreDisjoint(key: string, s: set<Stem>, t: set<Stem>)
    requires OfStems(key, s) && OfStems(key, t)
    ensures s * t != {}
  {
    var stem, scope :| stem in s && IsKey(key, stem, scope);
    var stem', scope' :| stem' in t && IsKey(key, stem', scope');
    StemsAreDisjoint(key, stem, scope, stem', scope');
    assert stem in s * t;
  }

  lemma {:induction false} WiderStems(key: string, s: set<Stem>, t: set<Stem>)
    requires OfStems(key, s) && s <= t
    ensures OfStems(key, t)
  {
  }

  lemma {:induction false} JoinGroups(required: bool, a: seq<Rule>, s: set<Stem>, b: seq<Rule>, t: set<Stem>)
    requires GoodGroup(required, a, s) && GoodGroup(required, b, t) && s !! t
    ensures GoodGroup(required, a + b, s + t)
  {
    hide WindowOf, Limits, OfStems;
    var c := a + b;
    forall i, j | 0 <= i < j < |c|
      ensures c[i].key != c[j].key
    {
      if i < |a| <= j && c[i].key == c[j].key {
        StemSetsAreDisjoint(c[i].key, s, t);
      }
    }
    forall i | 0 <= i < |c|
      ensures OfStems(c[i].key, s + t)
    {
      WiderStems(c[i].key, if i < |a| then s else t, s + t);
    }
  }

  lemma {:induction false} NoRulesAreGood(required: bool, stems: set<Stem>)
    ensures GoodGroup(required, [], stems)
  {
  }

  lemma {:induction false} ExtendIsGood(required: bool, rules: seq<Rule>, stems: set<Stem>, wanted: bool, more: seq<Rule>, stem: Stem)
    requires GoodGroup(required, rules, stems) && GoodGroup(required, more, {stem}) && stem !in stems
    ensures GoodGroup(required, Extend(rules, wanted, more), stems + {stem})
  {
    hide GoodGroup;
    NoRulesAreGood(required, {stem});
    JoinGroups(required, rules, stems, if wanted then more else [], {stem});
    assert rules + [] == rules;
  }

  // Every request names each bucket at most once, always with the bucket's own window, under a positive limit no larger
  // than the bucket's largest: the facts the limiter's guarantees rest on.
  lemma {:induction false} RulesAreGood(required: bool, request: Request)
    requires Received(required, request)
    ensures GoodRules(RulesFor(request), WindowOf, Limits(required))
  {
    match request.route
    case ReadOnly | Unlimited => NoRulesAreGood(required, {});
    case Authentication(login, verificationCode) => AuthenticationIsGood(required, request);
    case LlmCredential => CredentialIsGood(required, request);
    case Account => OneIsGood(required, RulesFor(request)[0], AccountSensitive, ByUser, Principal(request));
    case LimitedWrite(_, _, _, _, _) => LimitedWriteIsGood(required, request);
  }

  lemma {:induction false} AuthenticationIsGood(required: bool, request: Request)
    requires request.route.Authentication?
    ensures GoodRules(RulesFor(request), WindowOf, Limits(required))
  {
    hide Render, GoodRules, WindowOf, Limits, OfStems, Extend;
    var route, ip := request.route, request.clientIp;
    var always := [ProtectedRule(AuthWrite, request, 120, 300.0)];
    OneIsGood(required, always[0], AuthWrite, ByIp, ip);
    var login := [ProtectedRule(AuthLogin, request, 30, 300.0)];
    OneIsGood(required, login[0], AuthLogin, ByIp, ip);
    ExtendIsGood(required, always, {AuthWrite}, route.login, login, AuthLogin);
    var code := [ProtectedRule(AuthCode, request, 60, 3600.0)];
    OneIsGood(required, code[0], AuthCode, ByIp, ip);
    ExtendIsGood(required, Extend(always, route.login, login), {AuthWrite} + {AuthLogin}, route.verificationCode, code, AuthCode);
  }

  lemma {:induction false} CredentialIsGood(required: bool, request: Request)
    requires request.route.LlmCredential?
    ensures GoodRules(RulesFor(request), WindowOf, Limits(required))
  {
    hide Render, WindowOf, Limits;
    KeyFacts(required, AdminCredential, ByUser, Principal(request));
    KeyFacts(required, AdminCredential, ByIp, request.clientIp);
    if Render(AdminCredential, ByUser, Principal(request)) == Render(AdminCredential, ByIp, request.clientIp) {
      KeysAreDecodable(AdminCredential, ByUser, Principal(request), AdminCredential, ByIp, request.clientIp);
    }
  }

  lemma {:induction false} LimitedWriteIsGood(required: bool, request: Request)
    requires request.route.LimitedWrite? && Authenticated(request) == required
    ensures GoodRules(RulesFor(request), WindowOf, Limits(required))
  {
    hide Render, Pair, WindowOf, Limits, OfStems, GoodRules, Extend;
    var route, writeLimit := request.route, if request.route.guidedWorkflow then 90 else 30;
    var ipLimit, providerLimit := if Authenticated(request) then 120 else 8, if Authenticated(request) then 120 else 10;
    var always := Pair(Write, request, writeLimit, writeLimit, 60.0);
    PairIsGood(required, Write, request, writeLimit, writeLimit, 60.0);
    PairIsGood(required, ExperimentCreate, request, 5, 5, 60.0);
    ExtendIsGood(required, always, {Write}, route.experimentCreate, Pair(ExperimentCreate, request, 5, 5, 60.0), ExperimentCreate);
    var created := Extend(always, route.experimentCreate, Pair(ExperimentCreate, request, 5, 5, 60.0));
    PairIsGood(required, StudyRun, request, 2, 2, 60.0);
    ExtendIsGood(required, created, {Write} + {ExperimentCreate}, route.studyRun, Pair(StudyRun, request, 2, 2, 60.0), StudyRun);
    var studied := Extend(created, route.studyRun, Pair(StudyRun, request, 2, 2, 60.0));
    PairIsGood(required, ResultInterpretation, request, ipLimit, 8, 60.0);
    ExtendIsGood(required, studied, {Write} + {ExperimentCreate} + {StudyRun}, route.interpretation,
                 Pair(ResultInterpretation, request, ipLimit, 8, 60.0), ResultInterpretation);
    var interpreted := Extend(studied, route.interpretation, Pair(ResultInterpretation, request, ipLimit, 8, 60.0));
    PairIsGood(required, FactoryProvider, request, providerLimit, 12, 300.0);
    ExtendIsGood(required, interpreted, {Write} + {ExperimentCreate} + {StudyRun} + {ResultInterpretation}, route.providerCall,
                 Pair(FactoryProvider, request, providerLimit, 12, 300.0), FactoryProvider);
  }

  /*** Which buckets a request counts in, bucket by bucket ***/

  function Subject(request: Request, scope: Scope): string {
    match scope
    case ByIp => request.clientIp
    case BySession => request.sessionDigest
    case ByUser => Principal(request)
  }

  // Each bucket for itself: the requests that count in it.
  predicate CountsIn(request: Request, stem: Stem, scope: Scope) {
    var route := request.route;
    match stem
    case AuthWrite => scope == ByIp && route.Authentication?
    case AuthLogin => scope == ByIp && route.Authentication? && route.login
    case AuthCode => scope == ByIp && route.Authentication? && route.verificationCode
    case AdminCredential => scope != BySession && route.LlmCredential?
    case AccountSensitive => scope == ByUser && route.Account?
    case Write => scope != ByUser && route.LimitedWrite?
    case ExperimentCreate => scope != ByUser && route.LimitedWrite? && route.experimentCreate
    case StudyRun => scope != ByUser && route.LimitedWrite? && route.studyRun
    case ResultInterpretation => scope != ByUser && route.LimitedWrite? && route.interpretation
    case FactoryProvider => scope != ByUser && route.LimitedWrite? && route.providerCall
  }

  // A lower limit applies to writes outside the guided workflow; otherwise only the presence of an account matters.
  function LimitFor(request: Request, stem: Stem, scope: Scope): nat {
    if stem == Write && !(request.route.LimitedWrite? && request.route.guidedWorkflow) then 30
    else LargestLimit(Authenticated(request), stem, scope)
  }

  function BucketRule(request: Request, stem: Stem, scope: Scope): Rule {
    Rule(Render(stem, scope, Subject(request, scope)), LimitFor(request, stem, scope), Window(stem),
         stem in {AuthWrite, AuthLogin, AuthCode})
  }

  // The request is checked against exactly the rules of the buckets it counts in.
  ghost predicate ChargesExactly(request: Request, rules: seq<Rule>) {
    && (forall stem, scope :: CountsIn(request, stem, scope) ==> BucketRule(request, stem, scope) in rules)
    && (forall rule :: rule in rules ==> exists stem, scope :: CountsIn(request, stem, scope) && rule == BucketRule(request, stem, scope))
  }

  lemma {:induction false} RulesAreOfBuckets(request: Request, rule: Rule)
    requires rule in RulesFor(request)
    ensures exists stem, scope :: CountsIn(request, stem, scope) && rule == BucketRule(request, stem, scope)
  {
    hide Render, Principal, Authenticated;
    match request.route
    case Authentication(_, _) =>
      assert CountsIn(request, AuthWrite, ByIp);
      assert rule == BucketRule(request, AuthWrite, ByIp) || rule == BucketRule(request, AuthLogin, ByIp)
             || rule == BucketRule(request, AuthCode, ByIp);
    case LlmCredential =>
      assert CountsIn(request, AdminCredential, ByUser) && CountsIn(request, AdminCredential, ByIp);
      assert rule == BucketRule(request, AdminCredential, ByUser) || rule == BucketRule(request, AdminCredential, ByIp);
    case Account =>
      assert CountsIn(request, AccountSensitive, ByUser) && rule == BucketRule(request, AccountSensitive, ByUser);
    case LimitedWrite(_, _, _, _, _) => WriteRuleIsOfBucket(request, rule);
  }

  lemma {:induction false} WriteRuleIsOfBucket(request: Request, rule: Rule)
    requires request.route.LimitedWrite? && rule in RulesFor(request)
    ensures exists stem, scope :: CountsIn(request, stem, scope) && rule == BucketRule(request, stem, scope)
  {
    hide Render, Authenticated;
    var stem := WriteStem(request, rule);
    assert CountsIn(request, stem, ByIp) && CountsIn(request, stem, BySession);
    assert rule == BucketRule(request, stem, ByIp) || rule == BucketRule(request, stem, BySession);
  }

  lemma {:induction false} WriteStem(request: Request, rule: Rule) returns (stem: Stem)
    requires request.route.LimitedWrite? && rule in RulesFor(request)
    ensures CountsIn(request, stem, ByIp) && CountsIn(request, stem, BySession)
    ensures rule in [BucketRule(request, stem, ByIp), BucketRule(request, stem, BySession)]
  {
    hide Render, Authenticated;
    var route, writeLimit := request.route, if request.route.guidedWorkflow then 90 else 30;
    if rule in Pair(Write, request, writeLimit, writeLimit, 60.0) {
      stem := Write;
    } else if route.experimentCreate && rule in Pair(ExperimentCreate, request, 5, 5, 60.0) {
      stem := ExperimentCreate;
    } else if route.studyRun && rule in Pair(StudyRun, request, 2, 2, 60.0) {
      stem := StudyRun;
    } else if route.interpretation
              && rule in Pair(ResultInterpretation, request, if Authenticated(request) then 120 else 8, 8, 60.0) {
      stem := ResultInterpretation;
    } else {
      stem := FactoryProvider;
    }
  }

  lemma {:induction false} BucketsHaveRules(request: Request, stem: Stem, scope: Scope)
    requires CountsIn(request, stem, scope)
    ensures BucketRule(request, stem, scope) in RulesFor(request)
  {
    hide Render, Principal, Authenticated;
    var rule := BucketRule(request, stem, scope);
    match request.route
    case Authentication(login, code) =>
      assert stem == AuthLogin ==> rule == ProtectedRule(AuthLogin, request, 30, 300.0);
    case LlmCredential =>
    case Account =>
    case LimitedWrite(_, _, _, _, _) => WriteBucketsHaveRules(request, stem, scope);
  }

  lemma {:induction false} WriteBucketsHaveRules(request: Request, stem: Stem, scope: Scope)
    requires request.route.LimitedWrite? && CountsIn(request, stem, scope)
    ensures BucketRule(request, stem, scope) in RulesFor(request)
  {
    hide Render, Authenticated;
    var limit := LimitFor(request, stem, ByIp);
    assert BucketRule(request, stem, scope) in Pair(stem, request, limit, LimitFor(request, stem, BySession), Window(stem));
  }

  // The list of rules is built route by route; what comes out is one rule for every bucket the request counts in and no
  // other, no bucket twice, always the bucket's own window, and a limit of at least one and at most the bucket's largest.
  method RateLimitRules(request: Request) returns (rules: seq<Rule>)
    ensures rules == RulesFor(request)
    ensures ChargesExactly(request, rules)
    ensures forall required :: Received(required, request) ==> GoodRules(rules, WindowOf, Limits(required))
  {
    forall required | Received(required, request)
      ensures GoodRules(RulesFor(request), WindowOf, Limits(required))
    {
      RulesAreGood(required, request);
    }
    RulesChargeExactly(request);
    hide ChargesExactly, GoodRules;
    hide Render, Pair, ProtectedRule, Principal, Authenticated;
    match request.route
    case ReadOnly => return [];
    case Unlimited => return [];
    case Authentication(login, verificationCode) =>
      rules := [ProtectedRule(AuthWrite, request, 120, 300.0)];
      if login {
        rules := rules + [ProtectedRule(AuthLogin, request, 30, 300.0)];
      }
      if verificationCode {
        rules := rules + [ProtectedRule(AuthCode, request, 60, 3600.0)];
      }
    case LlmCredential =>
      return [Rule(Render(AdminCredential, ByUser, Principal(request)), 5, 3600.0, false),
              Rule(Render(AdminCredential, ByIp, request.clientIp), 5, 3600.0, false)];
    case Account => return [Rule(Render(AccountSensitive, ByUser, Principal(request)), 5, 3600.0, false)];
    case LimitedWrite(experimentCreate, studyRun, interpretation, providerCall, guidedWorkflow) =>
      var writeLimit := if guidedWorkflow then 90 else 30;
      rules := Pair(Write, request, writeLimit, writeLimit, 60.0);
      if experimentCreate {
        rules := rules + Pair(ExperimentCreate, request, 5, 5, 60.0);
      }
      if studyRun {
        rules := rules + Pair(StudyRun, request, 2, 2, 60.0);
      }
      if interpretation {
        rules := rules + Pair(ResultInterpretation, request, if Authenticated(request) then 120 else 8, 8, 60.0);
      }
      if providerCall {
        rules := rules + Pair(FactoryProvider, request, if Authenticated(request) then 120 else 10, 12, 300.0);
      }
  }

  lemma {:induction false} RulesChargeExactly(request: Request)
    ensures ChargesExactly(request, RulesFor(request))
  {
    hide RulesFor, BucketRule, CountsIn;
    forall stem, scope | CountsIn(request, stem, scope)
      ensures BucketRule(request, stem, scope) in RulesFor(request)
    {
      BucketsHaveRules(request, stem, scope);
    }
    forall rule | rule in RulesFor(request)
      ensures exists stem, scope :: CountsIn(request, stem, scope) && rule == BucketRule(request, stem, scope)
    {
      RulesAreOfBuckets(request, rule);
    }
  }

  // A run of the limiter over the requests of the service.
  function Events(requests: seq<(Request, real, real)>): seq<Event> {
    seq(|requests|, i requires 0 <= i < |requests| => Event(RulesFor(requests[i].0), requests[i].1, requests[i].2))
  }

  ghost predicate AllReceived(required: bool, requests: seq<(Request, real, real)>) {
    forall i :: 0 <= i < |requests| ==> Received(required, requests[i].0)
  }

  lemma {:induction false} EventsAreGood(required: bool, requests: seq<(Request, real, real)>)
    requires AllReceived(required, requests)
    ensures GoodEvents(Events(requests), WindowOf, Limits(required))
  {
    hide RulesFor, GoodRules, WindowOf, Limits, Received;
    forall i | 0 <= i < |requests|
      ensures GoodRules(Events(requests)[i].rules, WindowOf, Limits(required))
    {
      RulesAreGood(required, requests[i].0);
    }
  }

  // No sequence of requests to a process ever puts more events into a bucket's window than the bucket's largest limit,
  // which for the address buckets of questions and provider calls depends on whether the process requires accounts.
  lemma {:induction false} ServiceNeverExceedsItsLimits(
    config: Config, required: bool, requests: seq<(Request, real, real)>, stem: Stem, scope: Scope, subject: string, from: real)
    requires AllReceived(required, requests)
    ensures
      var h, key := Run(config, Events(requests)).history, Render(stem, scope, subject);
      && |Within(Times(h.memory, key), from, from + Window(stem))| <= LargestLimit(required, stem, scope)
      && |Within(Times(h.durable, key), from, from + Window(stem))| <= LargestLimit(required, stem, scope)
  {
    hide RulesFor, GoodRules, Run, Within, Render, WindowOf, Limits;
    EventsAreGood(required, requests);
    KeyFacts(required, stem, scope, subject);
    NoWindowExceedsItsLimit(config, Events(requests), WindowOf, Limits(required), Render(stem, scope, subject), from);
  }

  /*** The failing eviction is reached ***/

  predicate PlainWrite(request: Request) {
    request.route == LimitedWrite(false, false, false, false, false)
  }

  // Two requests that share neither address nor session.
  predicate Strangers(a: Request, b: Request) {
    a.clientIp != b.clientIp && a.sessionDigest != b.sessionDigest
  }

  ghost predicate AllStrangers(requests: seq<(Request, real, real)>, request: Request) {
    && PlainWrite(request) && (forall i :: 0 <= i < |requests| ==> PlainWrite(requests[i].0) && Strangers(requests[i].0, request))
    && (forall i, j :: 0 <= i < j < |requests| ==> Strangers(requests[i].0, requests[j].0))
  }

  function AddressKey(request: Request): string {
    Render(Write, ByIp, request.clientIp)
  }

  function SessionKey(request: Request): string {
    Render(Write, BySession, request.sessionDigest)
  }

  // One address bucket and one session bucket for each request, all of them in use.
  ghost predicate Occupied(s: Limiter, requests: seq<(Request, real, real)>) {
    && OrderInv(s) && |s.buckets| == 2 * |requests| && s.protectedKeys == {}
    && (forall key :: key in s.buckets ==> s.buckets[key] != [])
    && (forall key :: key in s.buckets ==>
          exists i :: 0 <= i < |requests| && key in {AddressKey(requests[i].0), SessionKey(requests[i].0)})
  }

  lemma {:induction false} PlainRules(request: Request)
    requires PlainWrite(request)
    ensures RulesFor(request) == [Rule(AddressKey(request), 30, 60.0, false), Rule(SessionKey(request), 30, 60.0, false)]
    ensures AddressKey(request) != SessionKey(request)
  {
    hide Render;
    if AddressKey(request) == SessionKey(request) {
      KeysAreDecodable(Write, ByIp, request.clientIp, Write, BySession, request.sessionDigest);
    }
  }

  lemma {:induction false} StrangersHaveOtherKeys(a: Request, b: Request)
    requires Strangers(a, b)
    ensures {AddressKey(a), SessionKey(a)} !! {AddressKey(b), SessionKey(b)}
  {
    hide Render;
    OnlySameSubject(Write, ByIp, a.clientIp, ByIp, b.clientIp);
    OnlySameSubject(Write, ByIp, a.clientIp, BySession, b.sessionDigest);
    OnlySameSubject(Write, BySession, a.sessionDigest, ByIp, b.clientIp);
    OnlySameSubject(Write, BySession, a.sessionDigest, BySession, b.sessionDigest);
  }

  lemma {:induction false} OnlySameSubject(stem: Stem, scope: Scope, subject: string, scope': Scope, subject': string)
    requires stem != AccountSensitive && (scope != scope' || subject != subject')
    ensures Render(stem, scope, subject) != Render(stem, scope', subject')
  {
    hide Render;
    if Render(stem, scope, subject) == Render(stem, scope', subject') {
      KeysAreDecodable(stem, scope, subject, stem, scope', subject');
    }
  }

  lemma {:induction false} StrangerIsNew(s: Limiter, requests: seq<(Request, real, real)>, request: Request)
    requires Occupied(s, requests) && AllStrangers(requests, request)
    ensures AddressKey(request) !in s.buckets && SessionKey(request) !in s.buckets
  {
    hide OrderInv, AddressKey, SessionKey;
    forall i | 0 <= i < |requests|
      ensures {AddressKey(requests[i].0), SessionKey(requests[i].0)} !! {AddressKey(request), SessionKey(request)}
    {
      StrangersHaveOtherKeys(requests[i].0, request);
    }
  }

  // Below the memory bound a stranger's write takes two more places.
  lemma {:induction false} StrangerTakesTwo(
    config: Config, s: Limiter, requests: seq<(Request, real, real)>, last: (Request, real, real), now: real, storeNow: real)
    requires Occupied(s, requests) && AllStrangers(requests, last.0) && 2 * |requests| + 2 <= config.maxBuckets
    ensures Occupied(Checked(config, s, RulesFor(last.0), now, storeNow).0, requests + [last])
  {
    hide OrderInv, AddressKey, SessionKey, RulesFor, Decide;
    var a, b := AddressKey(last.0), SessionKey(last.0);
    PlainRules(last.0);
    StrangerIsNew(s, requests, last.0);
    var first, second := Rule(a, 30, 60.0, false), Rule(b, 30, 60.0, false);
    TwoNewKeysDecide(config, s, first, second, now, storeNow);
    DecideKeepsOrder(config, s, [first, second], now, storeNow);
    TwoMore(s.buckets, a, b, [now]);
    var after := TwoCharged(s, first, second, now);
    assert Checked(config, s, RulesFor(last.0), now, storeNow).0 == after;
    var more := requests + [last];
    forall key | key in after.buckets
      ensures exists i :: 0 <= i < |more| && key in {AddressKey(more[i].0), SessionKey(more[i].0)}
    {
      if key in s.buckets {
        var i :| 0 <= i < |requests| && key in {AddressKey(requests[i].0), SessionKey(requests[i].0)};
        assert more[i] == requests[i];
      } else {
        assert more[|requests|] == last;
      }
    }
  }

  lemma {:induction false} RunLast(config: Config, front: seq<(Request, real, real)>, last: (Request, real, real))
    ensures
      var y := Run(config, Events(front));
      Run(config, Events(front + [last])).limiter ==
      Checked(config, y.limiter, RulesFor(last.0), Advance(y.clock, last.1), Advance(y.storeClock, last.2)).0
  {
    hide RulesFor, Checked, HistoryDecide, Decide, Forget;
    var events := Events(front + [last]);
    assert events[..|front|] == Events(front) && events[|front|] == Event(RulesFor(last.0), last.1, last.2);
  }

  lemma {:induction false} NothingOccupied(config: Config)
    ensures Occupied(Run(config, Events([])).limiter, [])
  {
    assert Events([]) == [];
  }

  lemma {:induction false} StrangersOccupy(config: Config, requests: seq<(Request, real, real)>)
    requires forall k :: 0 <= k < |requests| ==> AllStrangers(requests[..k], requests[k].0)
    requires 2 * |requests| <= config.maxBuckets
    ensures Occupied(Run(config, Events(requests)).limiter, requests)
  {
    hide RulesFor, Checked, AllStrangers, Occupied, Run, Events;
    if requests == [] {
      NothingOccupied(config);
    } else {
      var front, last := requests[..|requests| - 1], requests[|requests| - 1];
      assert forall k :: 0 <= k < |front| ==> front[..k] == requests[..k] && front[k] == requests[k];
      StrangersOccupy(config, front);
      var y := Run(config, Events(front));
      StrangerTakesTwo(config, y.limiter, front, last, Advance(y.clock, last.1), Advance(y.storeClock, last.2));
      RunLast(config, front, last);
      assert front + [last] == requests;
    }
  }

  // Plain writes, each from its own address and session, at any times: when their buckets fill the memory, the next such
  // write is charged and its check fails.
  lemma {:induction false} StrangersOverflow(
    config: Config, requests: seq<(Request, real, real)>, request: Request, delay: real, storeDelay: real)
    requires AllStrangers(requests, request) && config.maxBuckets == 2 * |requests|
    ensures
      var y := Run(config, Events(requests));
      var now, storeNow := Advance(y.clock, delay), Advance(y.storeClock, storeDelay);
      && Decide(config, y.limiter, RulesFor(request), now, storeNow).1 == Admitted
      && Checked(config, y.limiter, RulesFor(request), now, storeNow).1 == EvictionError
  {
    hide RulesFor, Checked, Decide, AddressKey, SessionKey, Events, Run, OrderInv, PlainWrite, Strangers;
    forall k | 0 <= k < |requests|
      ensures AllStrangers(requests[..k], requests[k].0)
    {
    }
    StrangersOccupy(config, requests);
    var y := Run(config, Events(requests));
    PlainRules(request);
    StrangerIsNew(y.limiter, requests, request);
    hide AllStrangers;
    TwoNewKeysAtCapacityFail(
      config, y.limiter, Rule(AddressKey(request), 30, 60.0, false), Rule(SessionKey(request), 30, 60.0, false),
      Advance(y.clock, delay), Advance(y.storeClock, storeDelay));
  }

  // A plain write of the n-th address and session, with an account where the process requires one.
  function StrangerNumber(required: bool, n: nat): Request {
    var name := seq(n, _ => 'x');
    Request(LimitedWrite(false, false, false, false, false), name, if required then "u" else "", name)
  }

  // A process of either kind reaches the failure with half as many such writes as it has places, at the default size
  // with five thousand.
  lemma {:induction false} OverflowIsReached(config: Config, required: bool)
    requires config.maxBuckets % 2 == 0
    ensures
      var n := config.maxBuckets / 2;
      var requests := seq(n, i requires 0 <= i < n => (StrangerNumber(required, i), 0.0, 0.0));
      var y := Run(config, Events(requests));
      && AllReceived(required, requests) && Received(required, StrangerNumber(required, n))
      && Checked(config, y.limiter, RulesFor(StrangerNumber(required, n)), y.clock, y.storeClock).1 == EvictionError
  {
    hide Run, Events, Checked, RulesFor;
    var n := config.maxBuckets / 2;
    var requests := seq(n, i requires 0 <= i < n => (StrangerNumber(required, i), 0.0, 0.0));
    forall i, j | 0 <= i < j <= n
      ensures Strangers(StrangerNumber(required, i), StrangerNumber(required, j))
    {
      assert |StrangerNumber(required, i).clientIp| != |StrangerNumber(required, j).clientIp|;
    }
    hide StrangerNumber, Strangers;
    assert AllStrangers(requests, StrangerNumber(required, n)) by {
      forall i | 0 <= i <= n
        ensures PlainWrite(StrangerNumber(required, i))
      {
        StrangerIsPlain(required, i);
      }
    }
    forall i | 0 <= i <= n
      ensures Received(required, StrangerNumber(required, i))
    {
      StrangerIsPlain(required, i);
    }
    StrangersOverflow(config, requests, StrangerNumber(required, n), 0.0, 0.0);
  }

  lemma {:induction false} StrangerIsPlain(required: bool, n: nat)
    ensures PlainWrite(StrangerNumber(required, n)) && Received(required, StrangerNumber(required, n))
  {
  }
}
