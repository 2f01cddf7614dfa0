// The coordinator that merges concurrent interpretation requests, runs one operation at a time per principal,
// and replays a recent outcome for a bounded time.
//
// The code holds one state lock around each of its critical sections, so a run of the system is any interleaving of
// those sections with the steps of the background tasks they create.

module SingleFlight {
  import opened Json

  datatype Key = Key(principal: string, clientRequestId: string)

  // A failure is replayable when a fresh instance of it can be rebuilt; a base exception is never cached.
  datatype Outcome =
    | Returned(result: string)
    | Raised(error: string, replayable: bool)
    | RaisedBaseException
    | TaskCancelled

  predicate Cacheable(outcome: Outcome) {
    outcome.Returned? || (outcome.Raised? && outcome.replayable)
  }

  datatype Phase = Waiting | Executing | Finished(outcome: Outcome)

  datatype Cause = Expired(at: real) | Evicted | Cleared

  // The life of a flight as history: in flight until its cleanup, then cached or not, then dropped from the cache.
  datatype Fate =
    | InFlight
    | Uncached(cleanedAt: real)
    | Cached(cleanedAt: real)
    | Dropped(cleanedAt: real, cause: Cause)

  // A background task: the request it serves, the principal lock it was created with, and its history.
  datatype Task = Task(
    key: Key, requestHash: string, lock: nat, phase: Phase,
    createdAt: real, startedAt: Option<real>, fate: Fate)

  datatype ActiveFlight = ActiveFlight(requestHash: string, task: nat)

  // `stamp` is the insertion order of the entry in its dictionary.
  datatype CompletedFlight = CompletedFlight(requestHash: string, outcome: Outcome, expiresAt: real, stamp: nat, task: nat)

  datatype Limits = Limits(maxActive: nat, maxCompleted: nat, ttl: real)

  predicate ValidLimits(limits: Limits) {
    limits.maxActive >= 1 && limits.maxCompleted >= 1 && 1.0 <= limits.ttl <= 300.0
  }

  // `holders[l]` is the task that holds lock object l.
  datatype State = State(
    tasks: seq<Task>,
    active: map<Key, ActiveFlight>,
    completed: map<Key, CompletedFlight>,
    principalLocks: map<string, nat>,
    holders: seq<Option<nat>>,
    stamp: nat,
    clock: real)

  datatype Reply =
    | Replay(outcome: Outcome)
    | Await(task: nat)
    | Conflict
    | CapacityExceeded

  /*** The critical sections ***/

  function SurvivingEntries(completed: map<Key, CompletedFlight>, now: real): map<Key, CompletedFlight> {
    map key | key in completed && completed[key].expiresAt > now :: completed[key]
  }

  function RecordDrop(task: Task, dropped: bool, cause: Cause): Task {
    if dropped && task.fate.Cached? then task.(fate := Dropped(task.fate.cleanedAt, cause)) else task
  }

  // `dropped` lists the tasks whose completed entries leave the cache.
  function RecordDrops(tasks: seq<Task>, dropped: set<nat>, cause: Cause): seq<Task> {
    seq(|tasks|, t requires 0 <= t < |tasks| => RecordDrop(tasks[t], t in dropped, cause))
  }

  function EntriesOf(completed: map<Key, CompletedFlight>): set<nat> {
    set key | key in completed :: completed[key].task
  }

  function Purge(s: State, now: real): State {
    var kept := SurvivingEntries(s.completed, now);
    s.(completed := kept, clock := now,
       tasks := RecordDrops(s.tasks, EntriesOf(s.completed) - EntriesOf(kept), Expired(now)))
  }

  function ForOthers(completed: map<Key, CompletedFlight>, principal: string): map<Key, CompletedFlight> {
    map key | key in completed && key.principal != principal :: completed[key]
  }

  function Clear(s: State, principal: string): State {
    var kept := ForOthers(s.completed, principal);
    s.(completed := kept, tasks := RecordDrops(s.tasks, EntriesOf(s.completed) - EntriesOf(kept), Cleared))
  }

  function LockFor(s: State, principal: string): nat {
    if principal in s.principalLocks then s.principalLocks[principal] else |s.holders|
  }

  function Launch(s: State, key: Key, requestHash: string): State {
    var lock := LockFor(s, key.principal);
    s.(tasks := s.tasks + [Task(key, requestHash, lock, Waiting, s.clock, None, InFlight)],
       active := s.active[key := ActiveFlight(requestHash, |s.tasks|)],
       principalLocks := s.principalLocks[key.principal := lock],
       holders := if key.principal in s.principalLocks then s.holders else s.holders + [None])
  }

  // The locked part of one request, from the purge to the choice of a task.
  function Execute(limits: Limits, s: State, key: Key, requestHash: string, now: real): (State, Reply) {
    var p := Purge(s, now);
    if key in p.completed then
      (p, if p.completed[key].requestHash != requestHash then Conflict else Replay(p.completed[key].outcome))
    else if key in p.active then
      (p, if p.active[key].requestHash != requestHash then Conflict else Await(p.active[key].task))
    else if |p.active| >= limits.maxActive then (p, CapacityExceeded)
    else (Launch(p, key, requestHash), Await(|p.tasks|))
  }

  predicate OlderEntry(a: CompletedFlight, b: CompletedFlight) {
    a.expiresAt < b.expiresAt || (a.expiresAt == b.expiresAt && a.stamp <= b.stamp)
  }

  // The entry that min() picks: least expiry, the first inserted among equals.
  predicate IsOldest(completed: map<Key, CompletedFlight>, key: Key) {
    key in completed && forall other :: other in completed ==> OlderEntry(completed[key], completed[other])
  }

  lemma {:induction false} OldestExists(completed: map<Key, CompletedFlight>, keys: set<Key>)
    requires keys != {} && keys <= completed.Keys
    ensures exists key :: key in keys && forall other :: other in keys ==> OlderEntry(completed[key], completed[other])
  {
    var some :| some in keys;
    if keys != {some} {
      var rest := keys - {some};
      OldestExists(completed, rest);
      var oldest :| oldest in rest && forall other :: other in rest ==> OlderEntry(completed[oldest], completed[other]);
      if !OlderEntry(completed[some], completed[oldest]) {
        assert forall other :: other in keys ==> OlderEntry(completed[oldest], completed[other]);
      } else {
        assert forall other :: other in keys ==> OlderEntry(completed[some], completed[other]);
      }
    }
  }

  ghost function Oldest(completed: map<Key, CompletedFlight>): Key
    requires completed != map[]
    ensures IsOldest(completed, Oldest(completed))
  {
    OldestExists(completed, completed.Keys);
    var key :| key in completed.Keys && forall other :: other in completed.Keys ==> OlderEntry(completed[key], completed[other]);
    key
  }

  // Make room for one more completed entry.
  ghost function MakeRoom(limits: Limits, s: State): State {
    if |s.completed| < limits.maxCompleted || s.completed == map[] then s
    else
      var oldest := Oldest(s.completed);
      s.(completed := s.completed - {oldest}, tasks := RecordDrops(s.tasks, {s.completed[oldest].task}, Evicted))
  }

  predicate PrincipalActive(active: map<Key, ActiveFlight>, principal: string) {
    exists key :: key in active && key.principal == principal
  }

  // The principal's lock is forgotten with its last flight, unless somebody still holds it.
  function ReleasePrincipal(s: State, principal: string): State {
    if PrincipalActive(s.active, principal) || principal !in s.principalLocks then s
    else if s.principalLocks[principal] < |s.holders| && s.holders[s.principalLocks[principal]].Some? then s
    else s.(principalLocks := s.principalLocks - {principal})
  }

  // The flight leaves the active flights and its outcome enters the cache.
  function Stored(limits: Limits, s: State, key: Key, t: nat, entry: CompletedFlight): State
    requires t < |s.tasks|
  {
    s.(active := s.active - {key}, completed := s.completed[key := entry], stamp := s.stamp + 1,
       tasks := s.tasks[t := s.tasks[t].(fate := Cached(s.clock))])
  }

  // Retire a finished flight: out of the active flights, into the cache when its outcome can be replayed.
  ghost function Retire(limits: Limits, s: State, key: Key, t: nat, now: real): State
    requires t < |s.tasks| && s.tasks[t].phase.Finished? && key in s.active
  {
    var outcome, at := s.tasks[t].phase.outcome, s.(clock := now);
    if Cacheable(outcome) then
      Stored(limits, MakeRoom(limits, at), key, t, CompletedFlight(s.active[key].requestHash, outcome, now + limits.ttl, s.stamp, t))
    else at.(active := s.active - {key}, tasks := s.tasks[t := s.tasks[t].(fate := Uncached(now))])
  }

  // Cleanups race: the waiters and the completion callback may all run one, and only the first for a flight acts.
  ghost function Cleanup(limits: Limits, s: State, key: Key, t: nat, now: real): State
    requires t < |s.tasks| && s.tasks[t].phase.Finished?
  {
    if key in s.active && s.active[key].task == t then ReleasePrincipal(Retire(limits, s, key, t, now), key.principal)
    else s.(clock := now)
  }

  /*** The background tasks ***/

  function SetTask(s: State, t: nat, task: Task): State
    requires t < |s.tasks|
  {
    s.(tasks := s.tasks[t := task])
  }

  // A waiting task takes its lock when nobody holds it, and only then starts its operation.
  function Acquire(s: State, t: nat, now: real): State
    requires t < |s.tasks|
  {
    var task := s.tasks[t];
    if task.phase != Waiting || task.lock >= |s.holders| || s.holders[task.lock].Some? then s.(clock := now)
    else SetTask(s, t, task.(phase := Executing, startedAt := Some(now))).(holders := s.holders[task.lock := Some(t)], clock := now)
  }

  // The operation returns, raises or is cancelled; leaving it releases the lock.
  function Finish(s: State, t: nat, outcome: Outcome, now: real): State
    requires t < |s.tasks|
  {
    var task := s.tasks[t];
    var finished := task.(phase := Finished(outcome));
    if task.phase == Executing && task.lock < |s.holders| then
      SetTask(s, t, finished).(holders := s.holders[task.lock := None], clock := now)
    else if task.phase == Waiting && outcome == TaskCancelled then SetTask(s, t, finished).(clock := now)
    else s.(clock := now)
  }

  /*** Runs ***/

  datatype Action =
    | ExecuteRequest(key: Key, requestHash: string)
    | AcquireLock(task: nat)
    | FinishTask(task: nat, outcome: Outcome)
    | CleanupFlight(cleanupKey: Key, task: nat)
    | PurgeExpired
    | ClearPrincipal(principal: string)

  // `delay` is the time since the previous step; the clock is monotone.
  datatype Event = Event(action: Action, delay: real)

  ghost function Step(limits: Limits, s: State, event: Event): State {
    var now := if event.delay > 0.0 then s.clock + event.delay else s.clock;
    match event.action
    case ExecuteRequest(key, requestHash) => Execute(limits, s, key, requestHash, now).0
    case AcquireLock(t) => if t < |s.tasks| then Acquire(s, t, now) else s
    case FinishTask(t, outcome) => if t < |s.tasks| then Finish(s, t, outcome, now) else s
    case CleanupFlight(key, t) =>
      if t < |s.tasks| && s.tasks[t].phase.Finished? then Cleanup(limits, s, key, t, now) else s
    case PurgeExpired => Purge(s, now)
    case ClearPrincipal(principal) => Clear(s, principal)
  }

  ghost function Run(limits: Limits, events: seq<Event>): State {
    if events == [] then State([], map[], map[], map[], [], 0, 0.0)
    else Step(limits, Run(limits, events[..|events| - 1]), events[|events| - 1])
  }

  /*** Invariants ***/

  // Active flights are exactly the flights that have not been cleaned up, and an unfinished task is one of them.
  ghost predicate FlightsInv(tasks: seq<Task>, active: map<Key, ActiveFlight>) {
    && (forall key :: key in active ==> FlightInv(tasks, key, active[key]))
    && (forall t :: 0 <= t < |tasks| && tasks[t].fate == InFlight ==> tasks[t].key in active && active[tasks[t].key].task == t)
    && (forall t :: 0 <= t < |tasks| && !tasks[t].phase.Finished? ==> tasks[t].fate == InFlight)
  }

  ghost predicate FlightInv(tasks: seq<Task>, key: Key, flight: ActiveFlight) {
    && flight.task < |tasks|
    && tasks[flight.task].key == key
    && tasks[flight.task].requestHash == flight.requestHash
    && tasks[flight.task].fate == InFlight
  }

  // The lock map names exactly the principals with active flights, and all their flights share that one lock object.
  ghost predicate LocksInv(tasks: seq<Task>, active: map<Key, ActiveFlight>, principalLocks: map<string, nat>, locks: nat) {
    && (forall principal :: principal in principalLocks <==> PrincipalActive(active, principal))
    && (forall principal :: principal in principalLocks ==> principalLocks[principal] < locks)
    && (forall p, q :: p in principalLocks && q in principalLocks && principalLocks[p] == principalLocks[q] ==> p == q)
    && (forall t :: 0 <= t < |tasks| && tasks[t].fate == InFlight && tasks[t].key.principal in principalLocks ==>
          tasks[t].lock == principalLocks[tasks[t].key.principal])
  }

  // A task executes exactly while it holds its lock.
  ghost predicate HoldersInv(tasks: seq<Task>, holders: seq<Option<nat>>) {
    && (forall t :: 0 <= t < |tasks| && tasks[t].phase == Executing ==>
          tasks[t].lock < |holders| && holders[tasks[t].lock] == Some(t))
    && (forall l :: 0 <= l < |holders| && holders[l].Some? ==>
          holders[l].value < |tasks| && tasks[holders[l].value].phase == Executing && tasks[holders[l].value].lock == l)
  }

  // Every cached entry belongs to a finished, replayable task of the same key and hash, and expires a full window after
  // its cleanup.
  ghost predicate CacheInv(limits: Limits, tasks: seq<Task>, active: map<Key, ActiveFlight>, completed: map<Key, CompletedFlight>) {
    && (forall key :: key in completed ==> key !in active && EntryInv(limits, tasks, key, completed[key]))
    && (forall t :: 0 <= t < |tasks| && tasks[t].fate.Cached? ==>
          tasks[t].key in completed && completed[tasks[t].key].task == t)
  }

  ghost predicate EntryInv(limits: Limits, tasks: seq<Task>, key: Key, entry: CompletedFlight) {
    && entry.task < |tasks|
    && var task := tasks[entry.task];
       && task.key == key && task.requestHash == entry.requestHash
       && task.phase == Finished(entry.outcome) && Cacheable(entry.outcome)
       && task.fate.Cached? && entry.expiresAt == task.fate.cleanedAt + limits.ttl
  }

  // In insertion order, expiries never decrease.
  ghost predicate OrderInv(limits: Limits, completed: map<Key, CompletedFlight>, stamp: nat, clock: real) {
    && (forall key :: key in completed ==> completed[key].stamp < stamp && completed[key].expiresAt <= clock + limits.ttl)
    && (forall a, b :: a in completed && b in completed && completed[a].stamp <= completed[b].stamp ==>
          completed[a].expiresAt <= completed[b].expiresAt && (completed[a].stamp == completed[b].stamp ==> a == b))
  }

  ghost predicate BoundsInv(limits: Limits, s: State) {
    |s.active| <= limits.maxActive && |s.completed| <= limits.maxCompleted
  }

  // No time in a task's history lies in the future, and its times are in order.
  ghost predicate TimesInv(limits: Limits, tasks: seq<Task>, clock: real) {
    forall t :: 0 <= t < |tasks| ==> TaskTimes(limits, tasks[t], clock)
  }

  ghost predicate TaskTimes(limits: Limits, task: Task, clock: real) {
    && task.createdAt <= clock
    && (task.startedAt.Some? ==> task.createdAt <= task.startedAt.value <= clock)
    && (task.fate != InFlight ==> task.createdAt <= task.fate.cleanedAt <= clock)
    && (task.fate != InFlight && task.startedAt.Some? ==> task.startedAt.value <= task.fate.cleanedAt)
    && (task.fate.Uncached? ==> task.phase.Finished? && !Cacheable(task.phase.outcome))
    && (task.fate.Dropped? && task.fate.cause.Expired? ==> task.fate.cleanedAt + limits.ttl <= task.fate.cause.at <= clock)
  }

  // A second flight for a key is only launched after the first was cleaned up and is no longer cached.
  ghost predicate SuccessionInv(tasks: seq<Task>) {
    forall a, b :: 0 <= a < b < |tasks| && tasks[a].key == tasks[b].key ==> Succeeds(tasks[a], tasks[b])
  }

  predicate Succeeds(first: Task, second: Task) {
    && (first.fate.Uncached? || first.fate.Dropped?)
    && first.fate.cleanedAt <= second.createdAt
    && (first.fate.Dropped? && first.fate.cause.Expired? ==> first.fate.cause.at <= second.createdAt)
  }

  ghost predicate Inv(limits: Limits, s: State) {
    && FlightsInv(s.tasks, s.active)
    && LocksInv(s.tasks, s.active, s.principalLocks, |s.holders|)
    && HoldersInv(s.tasks, s.holders)
    && CacheInv(limits, s.tasks, s.active, s.completed)
    && OrderInv(limits, s.completed, s.stamp, s.clock)
    && BoundsInv(limits, s)
    && TimesInv(limits, s.tasks, s.clock)
    && SuccessionInv(s.tasks)
  }

  /*** Every step keeps the invariant ***/

  lemma {:induction false} SubsetSize<T>(a: set<T>, b: set<T>)
    requires a <= b
    ensures |a| <= |b|
  {
    if a != {} {
      var x :| x in a;
      SubsetSize(a - {x}, b - {x});
    }
  }

  // A task that keeps everything but its phase, its start time and the fate of its cached outcome.
  predicate SameFlight(a: Task, b: Task) {
    && b.key == a.key && b.requestHash == a.requestHash && b.lock == a.lock && b.createdAt == a.createdAt
    && (a.phase.Finished? ==> b.phase == a.phase)
    && (b.fate == a.fate || (a.fate.Cached? && b.fate.Dropped? && b.fate.cleanedAt == a.fate.cleanedAt))
  }

  ghost predicate SameFlights(tasks: seq<Task>, tasks': seq<Task>) {
    |tasks'| == |tasks| && forall t :: 0 <= t < |tasks| ==> SameFlight(tasks[t], tasks'[t])
  }

  lemma {:induction false} FlightsFrame(tasks: seq<Task>, tasks': seq<Task>, active: map<Key, ActiveFlight>)
    requires FlightsInv(tasks, active) && SameFlights(tasks, tasks')
    ensures FlightsInv(tasks', active)
  {
    forall key | key in active
      ensures FlightInv(tasks', key, active[key])
    {
      assert FlightInv(tasks, key, active[key]) && SameFlight(tasks[active[key].task], tasks'[active[key].task]);
    }
  }

  lemma {:induction false} LocksFrame(
    tasks: seq<Task>, tasks': seq<Task>, active: map<Key, ActiveFlight>, principalLocks: map<string, nat>, locks: nat)
    requires LocksInv(tasks, active, principalLocks, locks) && SameFlights(tasks, tasks')
    ensures LocksInv(tasks', active, principalLocks, locks)
  {
    assert forall t :: 0 <= t < |tasks| ==> SameFlight(tasks[t], tasks'[t]);
  }

  lemma {:induction false} SuccessionFrame(tasks: seq<Task>, tasks': seq<Task>)
    requires SuccessionInv(tasks) && SameFlights(tasks, tasks')
    ensures SuccessionInv(tasks')
  {
    forall a, b | 0 <= a < b < |tasks'| && tasks'[a].key == tasks'[b].key
      ensures Succeeds(tasks'[a], tasks'[b])
    {
      assert SameFlight(tasks[a], tasks'[a]) && SameFlight(tasks[b], tasks'[b]) && Succeeds(tasks[a], tasks[b]);
    }
  }

  lemma {:induction false} HoldersFrame(tasks: seq<Task>, tasks': seq<Task>, holders: seq<Option<nat>>)
    requires HoldersInv(tasks, holders) && |tasks| <= |tasks'|
    requires forall t :: 0 <= t < |tasks| ==> tasks'[t].phase == tasks[t].phase && tasks'[t].lock == tasks[t].lock
    requires forall t :: |tasks| <= t < |tasks'| ==> tasks'[t].phase != Executing
    ensures HoldersInv(tasks', holders)
  {
  }

  // Tasks that are cached stay as they are, and no other task becomes cached.
  lemma {:induction false} CacheFrame(
    limits: Limits, tasks: seq<Task>, tasks': seq<Task>, active: map<Key, ActiveFlight>, active': map<Key, ActiveFlight>,
    completed: map<Key, CompletedFlight>)
    requires CacheInv(limits, tasks, active, completed)
    requires |tasks| <= |tasks'|
    requires forall t :: 0 <= t < |tasks| && tasks[t].fate.Cached? ==> tasks'[t] == tasks[t]
    requires forall t :: 0 <= t < |tasks'| && tasks'[t].fate.Cached? ==> t < |tasks| && tasks[t].fate.Cached?
    requires forall key :: key in completed ==> key !in active'
    ensures CacheInv(limits, tasks', active', completed)
  {
  }

  lemma {:induction false} DropKeepsCache(
    limits: Limits, tasks: seq<Task>, active: map<Key, ActiveFlight>, completed: map<Key, CompletedFlight>,
    kept: map<Key, CompletedFlight>, cause: Cause)
    requires CacheInv(limits, tasks, active, completed)
    requires kept.Keys <= completed.Keys && forall key :: key in kept ==> kept[key] == completed[key]
    ensures CacheInv(limits, RecordDrops(tasks, EntriesOf(completed) - EntriesOf(kept), cause), active, kept)
  {
    var dropped := EntriesOf(completed) - EntriesOf(kept);
    var tasks' := RecordDrops(tasks, dropped, cause);
    forall key | key in kept
      ensures EntryInv(limits, tasks', key, kept[key])
    {
      assert kept[key].task in EntriesOf(kept);
    }
    forall t | 0 <= t < |tasks'| && tasks'[t].fate.Cached?
      ensures tasks'[t].key in kept && kept[tasks'[t].key].task == t
    {
      assert t in EntriesOf(completed);
      var key :| key in kept && kept[key].task == t;
      assert EntryInv(limits, tasks, key, completed[key]);
    }
  }

  lemma {:induction false} DropKeepsTimes(
    limits: Limits, s: State, kept: map<Key, CompletedFlight>, cause: Cause, now: real)
    requires CacheInv(limits, s.tasks, s.active, s.completed) && TimesInv(limits, s.tasks, s.clock) && now >= s.clock
    requires kept.Keys <= s.completed.Keys && forall key :: key in kept ==> kept[key] == s.completed[key]
    requires cause.Expired? ==> cause.at == now && forall key :: key in s.completed && key !in kept ==> s.completed[key].expiresAt <= now
    ensures TimesInv(limits, RecordDrops(s.tasks, EntriesOf(s.completed) - EntriesOf(kept), cause), now)
  {
    var dropped := EntriesOf(s.completed) - EntriesOf(kept);
    forall t | 0 <= t < |s.tasks|
      ensures TaskTimes(limits, RecordDrop(s.tasks[t], t in dropped, cause), now)
    {
      assert TaskTimes(limits, s.tasks[t], s.clock);
      if t in dropped && s.tasks[t].fate.Cached? {
        var key := s.tasks[t].key;
        assert EntryInv(limits, s.tasks, key, s.completed[key]);
        assert key in kept ==> t in EntriesOf(kept);
      }
    }
  }

  lemma {:induction false} DropKeepsFlights(tasks: seq<Task>, dropped: set<nat>, cause: Cause)
    ensures SameFlights(tasks, RecordDrops(tasks, dropped, cause))
  {
  }

  lemma {:induction false} DropKeepsHolders(tasks: seq<Task>, dropped: set<nat>, cause: Cause, holders: seq<Option<nat>>)
    requires HoldersInv(tasks, holders)
    ensures HoldersInv(RecordDrops(tasks, dropped, cause), holders)
  {
    HoldersFrame(tasks, RecordDrops(tasks, dropped, cause), holders);
  }

  lemma {:induction false} DropKeepsOrder(
    limits: Limits, completed: map<Key, CompletedFlight>, kept: map<Key, CompletedFlight>, stamp: nat, clock: real, now: real)
    requires OrderInv(limits, completed, stamp, clock) && now >= clock
    requires kept.Keys <= completed.Keys && forall key :: key in kept ==> kept[key] == completed[key]
    ensures OrderInv(limits, kept, stamp, now)
  {
  }

  // Dropping entries from the cache, for whatever cause, touches nothing but the cache and the history of its tasks.
  lemma {:induction false} DropKeepsInv(limits: Limits, s: State, kept: map<Key, CompletedFlight>, cause: Cause, now: real)
    requires Inv(limits, s) && now >= s.clock
    requires kept.Keys <= s.completed.Keys && forall key :: key in kept ==> kept[key] == s.completed[key]
    requires cause.Expired? ==> cause.at == now && forall key :: key in s.completed && key !in kept ==> s.completed[key].expiresAt <= now
    ensures
      var s' := s.(completed := kept, clock := now,
                   tasks := RecordDrops(s.tasks, EntriesOf(s.completed) - EntriesOf(kept), cause));
      Inv(limits, s')
  {
    hide FlightsInv, LocksInv, HoldersInv, CacheInv, OrderInv, TimesInv, SuccessionInv, RecordDrops, SameFlights, EntriesOf;
    var dropped := EntriesOf(s.completed) - EntriesOf(kept);
    var tasks := RecordDrops(s.tasks, dropped, cause);
    DropKeepsFlights(s.tasks, dropped, cause);
    SubsetSize(kept.Keys, s.completed.Keys);
    FlightsFrame(s.tasks, tasks, s.active);
    LocksFrame(s.tasks, tasks, s.active, s.principalLocks, |s.holders|);
    DropKeepsHolders(s.tasks, dropped, cause, s.holders);
    SuccessionFrame(s.tasks, tasks);
    DropKeepsCache(limits, s.tasks, s.active, s.completed, kept, cause);
    DropKeepsTimes(limits, s, kept, cause, now);
    DropKeepsOrder(limits, s.completed, kept, s.stamp, s.clock, now);
  }

  lemma {:induction false} PurgeKeepsInv(limits: Limits, s: State, now: real)
    requires Inv(limits, s) && now >= s.clock
    ensures Inv(limits, Purge(s, now))
  {
    DropKeepsInv(limits, s, SurvivingEntries(s.completed, now), Expired(now), now);
  }

  lemma {:induction false} ClearKeepsInv(limits: Limits, s: State, principal: string)
    requires Inv(limits, s)
    ensures Inv(limits, Clear(s, principal))
  {
    DropKeepsInv(limits, s, ForOthers(s.completed, principal), Cleared, s.clock);
  }

  lemma {:induction false} AddedPrincipal(active: map<Key, ActiveFlight>, key: Key, flight: ActiveFlight, principal: string)
    ensures PrincipalActive(active[key := flight], principal) <==> PrincipalActive(active, principal) || principal == key.principal
  {
    var after := active[key := flight];
    assert key in after;
    if PrincipalActive(active, principal) {
      var other :| other in active && other.principal == principal;
      assert other in after;
    }
  }

  lemma {:induction false} FlightOfPrincipal(tasks: seq<Task>, active: map<Key, ActiveFlight>, t: nat)
    requires FlightsInv(tasks, active) && t < |tasks| && tasks[t].fate == InFlight
    ensures PrincipalActive(active, tasks[t].key.principal)
  {
    assert tasks[t].key in active;
  }

  lemma {:induction false} LaunchKeepsLocks(s: State, key: Key, requestHash: string)
    requires FlightsInv(s.tasks, s.active) && LocksInv(s.tasks, s.active, s.principalLocks, |s.holders|)
    requires key !in s.active
    ensures
      var s' := Launch(s, key, requestHash);
      LocksInv(s'.tasks, s'.active, s'.principalLocks, |s'.holders|)
  {
    hide PrincipalActive, FlightsInv;
    var s' := Launch(s, key, requestHash);
    forall principal
      ensures principal in s'.principalLocks <==> PrincipalActive(s'.active, principal)
    {
      AddedPrincipal(s.active, key, ActiveFlight(requestHash, |s.tasks|), principal);
    }
    forall t | 0 <= t < |s.tasks| && s.tasks[t].fate == InFlight && s.tasks[t].key.principal in s'.principalLocks
      ensures s.tasks[t].lock == s'.principalLocks[s.tasks[t].key.principal]
    {
      FlightOfPrincipal(s.tasks, s.active, t);
    }
  }

  lemma {:induction false} LaunchKeepsSuccession(limits: Limits, s: State, key: Key, requestHash: string)
    requires FlightsInv(s.tasks, s.active) && CacheInv(limits, s.tasks, s.active, s.completed)
    requires TimesInv(limits, s.tasks, s.clock) && SuccessionInv(s.tasks)
    requires key !in s.active && key !in s.completed
    ensures SuccessionInv(Launch(s, key, requestHash).tasks)
  {
    var tasks := Launch(s, key, requestHash).tasks;
    forall a | 0 <= a < |s.tasks| && s.tasks[a].key == key
      ensures Succeeds(s.tasks[a], tasks[|s.tasks|])
    {
      assert TaskTimes(limits, s.tasks[a], s.clock);
    }
  }

  lemma {:induction false} LaunchKeepsFlights(limits: Limits, s: State, key: Key, requestHash: string)
    requires FlightsInv(s.tasks, s.active) && TimesInv(limits, s.tasks, s.clock) && key !in s.active
    ensures
      var s' := Launch(s, key, requestHash);
      FlightsInv(s'.tasks, s'.active) && TimesInv(limits, s'.tasks, s'.clock)
  {
    var s' := Launch(s, key, requestHash);
    forall other | other in s'.active
      ensures FlightInv(s'.tasks, other, s'.active[other])
    {
      assert other != key ==> FlightInv(s.tasks, other, s.active[other]);
    }
    forall t | 0 <= t < |s'.tasks|
      ensures TaskTimes(limits, s'.tasks[t], s'.clock)
    {
      assert t < |s.tasks| ==> TaskTimes(limits, s.tasks[t], s.clock);
    }
  }

  lemma {:induction false} FreshLock(tasks: seq<Task>, holders: seq<Option<nat>>)
    requires HoldersInv(tasks, holders)
    ensures HoldersInv(tasks, holders + [None])
  {
  }

  lemma {:induction false} LaunchKeepsInv(limits: Limits, s: State, key: Key, requestHash: string)
    requires Inv(limits, s)
    requires key !in s.active && key !in s.completed && |s.active| < limits.maxActive
    ensures Inv(limits, Launch(s, key, requestHash))
  {
    hide FlightsInv, LocksInv, HoldersInv, CacheInv, OrderInv, TimesInv, SuccessionInv;
    var s' := Launch(s, key, requestHash);
    assert s'.active.Keys == s.active.Keys + {key};
    LaunchKeepsFlights(limits, s, key, requestHash);
    LaunchKeepsLocks(s, key, requestHash);
    HoldersFrame(s.tasks, s'.tasks, s.holders);
    FreshLock(s'.tasks, s.holders);
    CachedAreNotActive(limits, s);
    CacheFrame(limits, s.tasks, s'.tasks, s.active, s'.active, s.completed);
    LaunchKeepsSuccession(limits, s, key, requestHash);
  }

  lemma {:induction false} CachedAreNotActive(limits: Limits, s: State)
    requires CacheInv(limits, s.tasks, s.active, s.completed)
    ensures forall key :: key in s.completed ==> key !in s.active
  {
  }

  lemma {:induction false} LaterClock(limits: Limits, s: State, now: real)
    requires Inv(limits, s) && now >= s.clock
    ensures Inv(limits, s.(clock := now))
  {
    hide FlightsInv, LocksInv, HoldersInv, CacheInv, SuccessionInv;
  }

  // A task moves through its phases, and takes or frees its own lock accordingly; its history gains at most a start time.
  lemma {:induction false} PhaseKeepsInv(limits: Limits, s: State, t: nat, after: Task, holder: Option<nat>)
    requires Inv(limits, s) && t < |s.tasks|
    requires
      var before := s.tasks[t];
      && after == before.(phase := after.phase, startedAt := after.startedAt)
      && !before.phase.Finished?
      && (after.startedAt == before.startedAt || after.startedAt == Some(s.clock))
      && before.lock < |s.holders|
      && (after.phase == Executing ==> before.phase == Waiting && s.holders[before.lock] == None && holder == Some(t))
      && (before.phase == Executing ==> after.phase.Finished? && holder == None)
      && (before.phase == Waiting && after.phase.Finished? ==> holder == s.holders[before.lock])
      && after.phase != Waiting
    ensures Inv(limits, s.(tasks := s.tasks[t := after], holders := s.holders[after.lock := holder]))
  {
    hide LocksInv, HoldersInv, CacheInv, OrderInv, SuccessionInv;
    var tasks := s.tasks[t := after];
    assert TaskTimes(limits, s.tasks[t], s.clock);
    assert SameFlights(s.tasks, tasks) && s.tasks[t].fate == InFlight;
    assert TimesInv(limits, tasks, s.clock) by { hide FlightsInv, SameFlights; }
    hide FlightsInv, TimesInv;
    FlightsFrame(s.tasks, tasks, s.active);
    LocksFrame(s.tasks, tasks, s.active, s.principalLocks, |s.holders|);
    CachedAreNotActive(limits, s);
    CacheFrame(limits, s.tasks, tasks, s.active, s.active, s.completed);
    PhaseKeepsHolders(s.tasks, s.holders, t, after, holder);
    SuccessionFrame(s.tasks, tasks);
  }

  lemma {:induction false} PhaseKeepsHolders(tasks: seq<Task>, holders: seq<Option<nat>>, t: nat, after: Task, holder: Option<nat>)
    requires HoldersInv(tasks, holders) && t < |tasks| && after.lock == tasks[t].lock < |holders|
    requires after.phase == Executing ==> tasks[t].phase == Waiting && holders[after.lock] == None && holder == Some(t)
    requires tasks[t].phase == Executing ==> after.phase.Finished? && holder == None
    requires tasks[t].phase == Waiting && after.phase.Finished? ==> holder == holders[after.lock]
    requires after.phase != Waiting && !tasks[t].phase.Finished?
    ensures HoldersInv(tasks[t := after], holders[after.lock := holder])
  {
  }

  // An unfinished task has a principal lock of its own principal.
  lemma {:induction false} UnfinishedHasLock(limits: Limits, s: State, t: nat)
    requires Inv(limits, s) && t < |s.tasks| && !s.tasks[t].phase.Finished?
    ensures s.tasks[t].key.principal in s.principalLocks
    ensures s.tasks[t].lock == s.principalLocks[s.tasks[t].key.principal] < |s.holders|
  {
    hide HoldersInv, CacheInv, OrderInv, TimesInv, SuccessionInv;
    assert s.tasks[t].key in s.active;
  }

  lemma {:induction false} AcquireKeepsInv(limits: Limits, s: State, t: nat, now: real)
    requires Inv(limits, s) && t < |s.tasks| && now >= s.clock
    ensures Inv(limits, Acquire(s, t, now))
  {
    hide Inv;
    var later := s.(clock := now);
    LaterClock(limits, s, now);
    if Acquire(s, t, now) != later {
      PhaseKeepsInv(limits, later, t, s.tasks[t].(phase := Executing, startedAt := Some(now)), Some(t));
    }
  }

  lemma {:induction false} FinishKeepsInv(limits: Limits, s: State, t: nat, outcome: Outcome, now: real)
    requires Inv(limits, s) && t < |s.tasks| && now >= s.clock
    ensures Inv(limits, Finish(s, t, outcome, now))
  {
    hide Inv;
    var later, task := s.(clock := now), s.tasks[t];
    LaterClock(limits, s, now);
    if !task.phase.Finished? {
      UnfinishedHasLock(limits, s, t);
      if task.phase == Executing {
        PhaseKeepsInv(limits, later, t, task.(phase := Finished(outcome)), None);
      } else if outcome == TaskCancelled {
        PhaseKeepsInv(limits, later, t, task.(phase := Finished(outcome)), s.holders[task.lock]);
        assert s.holders[task.lock := s.holders[task.lock]] == s.holders;
      }
    }
  }

  /*** Cleanups ***/

  // The lock map before the release of a principal whose flight has just been retired.
  ghost predicate StaleLocks(
    tasks: seq<Task>, active: map<Key, ActiveFlight>, principalLocks: map<string, nat>, locks: nat, principal: string)
  {
    && principal in principalLocks
    && (forall p :: p != principal ==> (p in principalLocks <==> PrincipalActive(active, p)))
    && (forall p :: p in principalLocks ==> principalLocks[p] < locks)
    && (forall p, q :: p in principalLocks && q in principalLocks && principalLocks[p] == principalLocks[q] ==> p == q)
    && (forall t :: 0 <= t < |tasks| && tasks[t].fate == InFlight && tasks[t].key.principal in principalLocks ==>
          tasks[t].lock == principalLocks[tasks[t].key.principal])
  }

  lemma {:induction false} RetireKeepsFlights(tasks: seq<Task>, active: map<Key, ActiveFlight>, key: Key, t: nat, fate: Fate)
    requires FlightsInv(tasks, active) && key in active && active[key].task == t < |tasks| && tasks[t].phase.Finished?
    requires fate != InFlight
    ensures FlightsInv(tasks[t := tasks[t].(fate := fate)], active - {key})
  {
    var tasks', active' := tasks[t := tasks[t].(fate := fate)], active - {key};
    assert FlightInv(tasks, key, active[key]);
    forall other | other in active'
      ensures FlightInv(tasks', other, active'[other])
    {
      assert FlightInv(tasks, other, active[other]);
    }
  }

  lemma {:induction false} RetireKeepsLocks(
    tasks: seq<Task>, active: map<Key, ActiveFlight>, principalLocks: map<string, nat>, locks: nat, key: Key, t: nat, fate: Fate)
    requires LocksInv(tasks, active, principalLocks, locks) && key in active && t < |tasks| && fate != InFlight
    ensures StaleLocks(tasks[t := tasks[t].(fate := fate)], active - {key}, principalLocks, locks, key.principal)
  {
    assert PrincipalActive(active, key.principal);
    forall p | p != key.principal && PrincipalActive(active, p)
      ensures PrincipalActive(active - {key}, p)
    {
      var other :| other in active && other.principal == p;
      assert other in active - {key};
    }
    assert forall p :: PrincipalActive(active - {key}, p) ==> PrincipalActive(active, p);
  }

  lemma {:induction false} RetireKeepsSuccession(tasks: seq<Task>, t: nat, fate: Fate)
    requires SuccessionInv(tasks) && t < |tasks| && tasks[t].fate == InFlight
    ensures SuccessionInv(tasks[t := tasks[t].(fate := fate)])
  {
    var tasks' := tasks[t := tasks[t].(fate := fate)];
    forall a, b | 0 <= a < b < |tasks'| && tasks'[a].key == tasks'[b].key
      ensures Succeeds(tasks'[a], tasks'[b])
    {
      assert Succeeds(tasks[a], tasks[b]);
    }
  }

  lemma {:induction false} RetireKeepsTimes(limits: Limits, tasks: seq<Task>, clock: real, t: nat, fate: Fate)
    requires TimesInv(limits, tasks, clock) && t < |tasks| && tasks[t].phase.Finished? && tasks[t].fate == InFlight
    requires fate == Cached(clock) || (fate == Uncached(clock) && !Cacheable(tasks[t].phase.outcome))
    ensures TimesInv(limits, tasks[t := tasks[t].(fate := fate)], clock)
  {
    var tasks' := tasks[t := tasks[t].(fate := fate)];
    forall u | 0 <= u < |tasks'|
      ensures TaskTimes(limits, tasks'[u], clock)
    {
      assert TaskTimes(limits, tasks[u], clock);
    }
  }

  lemma {:induction false} StoreKeepsCache(
    limits: Limits, tasks: seq<Task>, active: map<Key, ActiveFlight>, completed: map<Key, CompletedFlight>, key: Key, t: nat,
    now: real, stamp: nat)
    requires CacheInv(limits, tasks, active, completed) && key in active && FlightInv(tasks, key, active[key])
    requires active[key].task == t < |tasks| && tasks[t].phase.Finished? && Cacheable(tasks[t].phase.outcome)
    ensures
      var entry := CompletedFlight(active[key].requestHash, tasks[t].phase.outcome, now + limits.ttl, stamp, t);
      CacheInv(limits, tasks[t := tasks[t].(fate := Cached(now))], active - {key}, completed[key := entry])
  {
    var tasks' := tasks[t := tasks[t].(fate := Cached(now))];
    var entry := CompletedFlight(active[key].requestHash, tasks[t].phase.outcome, now + limits.ttl, stamp, t);
    var completed' := completed[key := entry];
    forall other | other in completed'
      ensures EntryInv(limits, tasks', other, completed'[other])
    {
      assert other != key ==> EntryInv(limits, tasks, other, completed[other]);
    }
  }

  lemma {:induction false} StoreKeepsOrder(
    limits: Limits, completed: map<Key, CompletedFlight>, key: Key, entry: CompletedFlight, stamp: nat, clock: real)
    requires OrderInv(limits, completed, stamp, clock) && key !in completed
    requires entry.stamp == stamp && entry.expiresAt == clock + limits.ttl
    ensures OrderInv(limits, completed[key := entry], stamp + 1, clock)
  {
  }

  // Everything but the principal's lock is in order after a flight has been retired.
  ghost predicate RetiredInv(limits: Limits, s: State, principal: string) {
    && FlightsInv(s.tasks, s.active)
    && StaleLocks(s.tasks, s.active, s.principalLocks, |s.holders|, principal)
    && HoldersInv(s.tasks, s.holders)
    && CacheInv(limits, s.tasks, s.active, s.completed)
    && OrderInv(limits, s.completed, s.stamp, s.clock)
    && BoundsInv(limits, s)
    && TimesInv(limits, s.tasks, s.clock)
    && SuccessionInv(s.tasks)
  }

  // Distinct entries have distinct tasks, so dropping one entry drops one task.
  lemma {:induction false} EntryTasks(limits: Limits, tasks: seq<Task>, active: map<Key, ActiveFlight>,
      completed: map<Key, CompletedFlight>, key: Key)
    requires CacheInv(limits, tasks, active, completed) && key in completed
    ensures EntriesOf(completed) - EntriesOf(completed - {key}) == {completed[key].task}
  {
    var kept := completed - {key};
    assert forall other :: other in completed ==> EntryInv(limits, tasks, other, completed[other]);
    assert completed[key].task in EntriesOf(completed);
    forall other | other in kept
      ensures other in completed && kept[other] == completed[other] && kept[other].task != completed[key].task
    {
    }
    forall t | t in EntriesOf(completed) && t != completed[key].task
      ensures t in EntriesOf(kept)
    {
      var other :| other in completed && completed[other].task == t;
      assert other in kept;
    }
  }

  // The oldest entry makes room for a new one.
  lemma {:induction false} MakeRoomKeepsInv(limits: Limits, s: State)
    requires Inv(limits, s) && limits.maxCompleted >= 1
    ensures Inv(limits, MakeRoom(limits, s)) && |MakeRoom(limits, s).completed| < limits.maxCompleted
  {
    hide FlightsInv, LocksInv, HoldersInv, CacheInv, OrderInv, TimesInv, SuccessionInv, RecordDrops, EntriesOf, IsOldest;
    if |s.completed| >= limits.maxCompleted && s.completed != map[] {
      var oldest := Oldest(s.completed);
      assert oldest in s.completed by { assert IsOldest(s.completed, oldest); OldestIsThere(s.completed); }
      var kept := s.completed - {oldest};
      EntryTasks(limits, s.tasks, s.active, s.completed, oldest);
      assert kept.Keys == s.completed.Keys - {oldest};
      DropKeepsInv(limits, s, kept, Evicted, s.clock);
    }
  }

  lemma {:induction false} OldestIsThere(completed: map<Key, CompletedFlight>)
    requires completed != map[]
    ensures Oldest(completed) in completed
  {
  }

  lemma {:induction false} MakeRoomFrame(limits: Limits, s: State)
    ensures
      var s' := MakeRoom(limits, s);
      && s' == s.(completed := s'.completed, tasks := s'.tasks) && s'.completed.Keys <= s.completed.Keys
      && |s'.tasks| == |s.tasks| && forall t :: 0 <= t < |s.tasks| && !s.tasks[t].fate.Cached? ==> s'.tasks[t] == s.tasks[t]
  {
  }

  lemma {:induction false} RetireUncached(limits: Limits, s: State, key: Key, t: nat)
    requires Inv(limits, s) && key in s.active && s.active[key].task == t < |s.tasks| && s.tasks[t].phase.Finished?
    requires !Cacheable(s.tasks[t].phase.outcome)
    ensures RetiredInv(limits, Retire(limits, s, key, t, s.clock), key.principal)
  {
    hide LocksInv, StaleLocks, HoldersInv, CacheInv, OrderInv, TimesInv, SuccessionInv;
    var tasks := s.tasks[t := s.tasks[t].(fate := Uncached(s.clock))];
    assert FlightInv(s.tasks, key, s.active[key]);
    assert (s.active - {key}).Keys == s.active.Keys - {key};
    hide FlightsInv;
    RetireKeepsFlights(s.tasks, s.active, key, t, Uncached(s.clock));
    RetireKeepsLocks(s.tasks, s.active, s.principalLocks, |s.holders|, key, t, Uncached(s.clock));
    RetireKeepsHolders(s.tasks, s.holders, t, Uncached(s.clock));
    CachedAreNotActive(limits, s);
    CacheFrame(limits, s.tasks, tasks, s.active, s.active - {key}, s.completed);
    RetireKeepsTimes(limits, s.tasks, s.clock, t, Uncached(s.clock));
    RetireKeepsSuccession(s.tasks, t, Uncached(s.clock));
  }

  lemma {:induction false} RemovedSize<V>(m: map<Key, V>, key: Key)
    requires key in m
    ensures |m - {key}| == |m| - 1
  {
    assert (m - {key}).Keys == m.Keys - {key};
  }

  lemma {:induction false} AddedSize<V>(m: map<Key, V>, key: Key, value: V)
    ensures |m[key := value]| <= |m| + 1
  {
    assert m[key := value].Keys == m.Keys + {key};
  }

  lemma {:induction false} RetireKeepsHolders(tasks: seq<Task>, holders: seq<Option<nat>>, t: nat, fate: Fate)
    requires HoldersInv(tasks, holders) && t < |tasks|
    ensures HoldersInv(tasks[t := tasks[t].(fate := fate)], holders)
  {
  }

  lemma {:induction false} StoreKeepsFlights(limits: Limits, s: State, key: Key, t: nat)
    requires Inv(limits, s) && key in s.active && s.active[key].task == t < |s.tasks| && s.tasks[t].phase.Finished?
    ensures
      var tasks := s.tasks[t := s.tasks[t].(fate := Cached(s.clock))];
      && FlightsInv(tasks, s.active - {key})
      && StaleLocks(tasks, s.active - {key}, s.principalLocks, |s.holders|, key.principal)
      && HoldersInv(tasks, s.holders)
      && TimesInv(limits, tasks, s.clock)
      && SuccessionInv(tasks)
  {
    hide LocksInv, StaleLocks, HoldersInv, CacheInv, OrderInv, TimesInv, SuccessionInv;
    ActiveServes(limits, s, key);
    assert s.tasks[t].fate == InFlight;
    hide FlightsInv, FlightInv;
    RetireKeepsFlights(s.tasks, s.active, key, t, Cached(s.clock));
    RetireKeepsLocks(s.tasks, s.active, s.principalLocks, |s.holders|, key, t, Cached(s.clock));
    RetireKeepsHolders(s.tasks, s.holders, t, Cached(s.clock));
    RetireKeepsTimes(limits, s.tasks, s.clock, t, Cached(s.clock));
    RetireKeepsSuccession(s.tasks, t, Cached(s.clock));
  }

  lemma {:induction false} StoreKeepsBounds(limits: Limits, s: State, key: Key, t: nat, entry: CompletedFlight)
    requires BoundsInv(limits, s) && |s.completed| < limits.maxCompleted && t < |s.tasks| && key in s.active
    ensures BoundsInv(limits, Stored(limits, s, key, t, entry))
  {
    RemovedSize(s.active, key);
    AddedSize(s.completed, key, entry);
  }

  lemma {:induction false} StoreKeepsEntries(limits: Limits, s: State, key: Key, t: nat, entry: CompletedFlight)
    requires Inv(limits, s) && key in s.active && s.active[key].task == t < |s.tasks| && s.tasks[t].phase.Finished?
    requires Cacheable(s.tasks[t].phase.outcome)
    requires entry == CompletedFlight(s.active[key].requestHash, s.tasks[t].phase.outcome, s.clock + limits.ttl, s.stamp, t)
    ensures
      var s' := Stored(limits, s, key, t, entry);
      CacheInv(limits, s'.tasks, s'.active, s'.completed) && OrderInv(limits, s'.completed, s'.stamp, s'.clock)
  {
    hide FlightsInv, FlightInv, LocksInv, HoldersInv, CacheInv, OrderInv, TimesInv, SuccessionInv, Cacheable, BoundsInv;
    ActiveServes(limits, s, key);
    CachedAreNotActive(limits, s);
    StoreKeepsCache(limits, s.tasks, s.active, s.completed, key, t, s.clock, s.stamp);
    StoreKeepsOrder(limits, s.completed, key, entry, s.stamp, s.clock);
  }

  lemma {:induction false} StoreKeepsInv(limits: Limits, s: State, key: Key, t: nat, entry: CompletedFlight)
    requires Inv(limits, s) && key in s.active && s.active[key].task == t < |s.tasks| && s.tasks[t].phase.Finished?
    requires Cacheable(s.tasks[t].phase.outcome) && |s.completed| < limits.maxCompleted
    requires entry == CompletedFlight(s.active[key].requestHash, s.tasks[t].phase.outcome, s.clock + limits.ttl, s.stamp, t)
    ensures RetiredInv(limits, Stored(limits, s, key, t, entry), key.principal)
  {
    hide FlightsInv, FlightInv, LocksInv, StaleLocks, HoldersInv, CacheInv, OrderInv, TimesInv, SuccessionInv, Cacheable, BoundsInv;
    StoreKeepsFlights(limits, s, key, t);
    StoreKeepsBounds(limits, s, key, t, entry);
    StoreKeepsEntries(limits, s, key, t, entry);
  }

  lemma {:induction false} FlightIsInFlight(tasks: seq<Task>, key: Key, flight: ActiveFlight)
    requires FlightInv(tasks, key, flight)
    ensures tasks[flight.task].fate == InFlight
  {
  }

  lemma {:induction false} RetireCached(limits: Limits, s: State, key: Key, t: nat)
    requires Inv(limits, s) && key in s.active && s.active[key].task == t < |s.tasks| && s.tasks[t].phase.Finished?
    requires Cacheable(s.tasks[t].phase.outcome) && limits.maxCompleted >= 1
    ensures RetiredInv(limits, Retire(limits, s, key, t, s.clock), key.principal)
  {
    hide Inv, FlightInv, MakeRoom, Stored, RetiredInv, Cacheable;
    ActiveServes(limits, s, key);
    assert s.tasks[t].fate == InFlight by { FlightIsInFlight(s.tasks, key, s.active[key]); }
    MakeRoomKeepsInv(limits, s);
    MakeRoomFrame(limits, s);
    var roomy := MakeRoom(limits, s);
    var outcome := s.tasks[t].phase.outcome;
    StoreKeepsInv(limits, roomy, key, t, CompletedFlight(s.active[key].requestHash, outcome, s.clock + limits.ttl, s.stamp, t));
  }

  // A retired flight's principal whose lock is still held has another flight in progress.
  lemma {:induction false} HeldLockMeansActive(
    tasks: seq<Task>, active: map<Key, ActiveFlight>, principalLocks: map<string, nat>, holders: seq<Option<nat>>, principal: string)
    requires FlightsInv(tasks, active) && StaleLocks(tasks, active, principalLocks, |holders|, principal)
    requires HoldersInv(tasks, holders)
    requires holders[principalLocks[principal]].Some?
    ensures PrincipalActive(active, principal)
  {
    var h := holders[principalLocks[principal]].value;
    assert tasks[h].phase == Executing && tasks[h].fate == InFlight;
    assert tasks[h].key in active;
    assert PrincipalActive(active, tasks[h].key.principal);
  }

  lemma {:induction false} ReleaseKeepsLocks(
    tasks: seq<Task>, active: map<Key, ActiveFlight>, principalLocks: map<string, nat>, locks: nat, principal: string)
    requires StaleLocks(tasks, active, principalLocks, locks, principal)
    ensures LocksInv(tasks, active, if PrincipalActive(active, principal) then principalLocks else principalLocks - {principal}, locks)
  {
  }

  lemma {:induction false} ReleaseKeepsInv(limits: Limits, s: State, principal: string)
    requires RetiredInv(limits, s, principal)
    ensures Inv(limits, ReleasePrincipal(s, principal))
  {
    hide FlightsInv, HoldersInv, CacheInv, OrderInv, TimesInv, SuccessionInv, PrincipalActive, LocksInv;
    ReleaseKeepsLocks(s.tasks, s.active, s.principalLocks, |s.holders|, principal);
    if s.holders[s.principalLocks[principal]].Some? {
      HeldLockMeansActive(s.tasks, s.active, s.principalLocks, s.holders, principal);
    }
  }

  lemma {:induction false} CleanupKeepsInv(limits: Limits, s: State, key: Key, t: nat, now: real)
    requires Inv(limits, s) && ValidLimits(limits) && now >= s.clock && t < |s.tasks| && s.tasks[t].phase.Finished?
    ensures Inv(limits, Cleanup(limits, s, key, t, now))
  {
    hide Inv, RetiredInv, Retire, ReleasePrincipal;
    LaterClock(limits, s, now);
    var later := s.(clock := now);
    if key in s.active && s.active[key].task == t {
      if Cacheable(s.tasks[t].phase.outcome) {
        RetireCached(limits, later, key, t);
      } else {
        RetireUncached(limits, later, key, t);
      }
      RetireSetsClock(limits, s, key, t, now);
      ReleaseKeepsInv(limits, Retire(limits, later, key, t, now), key.principal);
    }
  }

  lemma {:induction false} RetireSetsClock(limits: Limits, s: State, key: Key, t: nat, now: real)
    requires t < |s.tasks| && s.tasks[t].phase.Finished? && key in s.active
    ensures Retire(limits, s, key, t, now) == Retire(limits, s.(clock := now), key, t, now)
  {
  }

  lemma {:induction false} ExecuteKeepsInv(limits: Limits, s: State, key: Key, requestHash: string, now: real)
    requires Inv(limits, s) && now >= s.clock
    ensures Inv(limits, Execute(limits, s, key, requestHash, now).0)
  {
    hide Inv, Purge, Launch;
    PurgeKeepsInv(limits, s, now);
    var p := Purge(s, now);
    if key !in p.completed && key !in p.active && |p.active| < limits.maxActive {
      LaunchKeepsInv(limits, p, key, requestHash);
    }
  }

  lemma {:induction false} StepKeepsInv(limits: Limits, s: State, event: Event)
    requires Inv(limits, s) && ValidLimits(limits)
    ensures Inv(limits, Step(limits, s, event))
  {
    hide Inv, Execute, Acquire, Finish, Cleanup, Purge, Clear;
    var now := if event.delay > 0.0 then s.clock + event.delay else s.clock;
    match event.action
    case ExecuteRequest(key, requestHash) => ExecuteKeepsInv(limits, s, key, requestHash, now);
    case AcquireLock(t) => if t < |s.tasks| { AcquireKeepsInv(limits, s, t, now); }
    case FinishTask(t, outcome) => if t < |s.tasks| { FinishKeepsInv(limits, s, t, outcome, now); }
    case CleanupFlight(key, t) =>
      if t < |s.tasks| && s.tasks[t].phase.Finished? { CleanupKeepsInv(limits, s, key, t, now); }
    case PurgeExpired => PurgeKeepsInv(limits, s, now);
    case ClearPrincipal(principal) => ClearKeepsInv(limits, s, principal);
  }

  lemma {:induction false} RunInv(limits: Limits, events: seq<Event>)
    requires ValidLimits(limits)
    ensures Inv(limits, Run(limits, events))
  {
    if events != [] {
      hide Inv, Step;
      RunInv(limits, events[..|events| - 1]);
      StepKeepsInv(limits, Run(limits, events[..|events| - 1]), events[|events| - 1]);
    }
  }

  /*** What every run guarantees ***/

  // Operations of one principal never overlap.
  lemma {:induction false} OneExecutingPerPrincipal(limits: Limits, events: seq<Event>, a: nat, b: nat)
    requires ValidLimits(limits)
    requires a < |Run(limits, events).tasks| && b < |Run(limits, events).tasks|
    requires Run(limits, events).tasks[a].phase == Executing && Run(limits, events).tasks[b].phase == Executing
    requires Run(limits, events).tasks[a].key.principal == Run(limits, events).tasks[b].key.principal
    ensures a == b
  {
    hide FlightsInv, LocksInv, CacheInv, OrderInv, TimesInv, SuccessionInv;
    RunInv(limits, events);
    UnfinishedHasLock(limits, Run(limits, events), a);
    UnfinishedHasLock(limits, Run(limits, events), b);
  }

  // A lock is remembered exactly while its principal has a flight, and the tables stay disjoint and bounded.
  lemma {:induction false} TablesMatch(limits: Limits, events: seq<Event>)
    requires ValidLimits(limits)
    ensures
      var s := Run(limits, events);
      && (forall principal :: principal in s.principalLocks <==> exists key :: key in s.active && key.principal == principal)
      && (forall key :: key in s.completed ==> key !in s.active)
      && |s.active| <= limits.maxActive && |s.completed| <= limits.maxCompleted
  {
    var s := Run(limits, events);
    RunInv(limits, events);
    hide FlightsInv, HoldersInv, OrderInv, TimesInv, SuccessionInv;
    CachedAreNotActive(limits, s);
    hide CacheInv;
    assert forall principal :: principal in s.principalLocks <==> PrincipalActive(s.active, principal);
    hide LocksInv;
  }

  // Two operations for one key: the second starts after the first flight's cleanup, and a whole window after it unless
  // the outcome was not replayable, or its entry was evicted or cleared.
  lemma {:induction false} AtMostOncePerWindow(limits: Limits, events: seq<Event>, a: nat, b: nat)
    requires ValidLimits(limits) && a < b < |Run(limits, events).tasks|
    requires Run(limits, events).tasks[a].key == Run(limits, events).tasks[b].key
    requires Run(limits, events).tasks[b].startedAt.Some?
    ensures
      var first, start := Run(limits, events).tasks[a], Run(limits, events).tasks[b].startedAt.value;
      && first.phase.Finished?
      && first.fate != InFlight && first.fate.cleanedAt <= start
      && (start < first.fate.cleanedAt + limits.ttl ==>
            || (first.fate.Uncached? && !first.phase.outcome.Returned?
                && (first.phase.outcome.Raised? ==> !first.phase.outcome.replayable))
            || (first.fate.Dropped? && !first.fate.cause.Expired?))
  {
    var s := Run(limits, events);
    RunInv(limits, events);
    hide LocksInv, HoldersInv, CacheInv, OrderInv, FlightInv;
    assert Succeeds(s.tasks[a], s.tasks[b]);
    assert TaskTimes(limits, s.tasks[a], s.clock) && TaskTimes(limits, s.tasks[b], s.clock);
  }

  predicate Served(task: Task, key: Key, requestHash: string, outcome: Outcome) {
    task.key == key && task.requestHash == requestHash && task.phase == Finished(outcome)
  }

  // A caller is given only outcomes of a task that serves its own key under its own request hash.
  lemma {:induction false} OwnHashOnly(limits: Limits, events: seq<Event>, key: Key, requestHash: string, now: real)
    requires ValidLimits(limits) && now >= Run(limits, events).clock
    ensures
      var (after, reply) := Execute(limits, Run(limits, events), key, requestHash, now);
      && (reply.Await? ==> reply.task < |after.tasks| && after.tasks[reply.task].key == key
                           && after.tasks[reply.task].requestHash == requestHash)
      && (reply.Replay? ==> exists t: nat :: t < |after.tasks| && Served(after.tasks[t], key, requestHash, reply.outcome))
  {
    hide Inv, Purge, Launch;
    var s := Run(limits, events);
    RunInv(limits, events);
    var p := Purge(s, now);
    PurgeKeepsInv(limits, s, now);
    CachedServes(limits, p, key);
    ActiveServes(limits, p, key);
    LaunchServes(p, key, requestHash);
  }

  lemma {:induction false} CachedServes(limits: Limits, s: State, key: Key)
    requires Inv(limits, s)
    ensures key in s.completed ==>
      var entry := s.completed[key];
      entry.task < |s.tasks| && Served(s.tasks[entry.task], key, entry.requestHash, entry.outcome)
  {
    hide FlightsInv, LocksInv, HoldersInv, OrderInv, TimesInv, SuccessionInv;
    assert key in s.completed ==> EntryInv(limits, s.tasks, key, s.completed[key]);
  }

  lemma {:induction false} ActiveServes(limits: Limits, s: State, key: Key)
    requires Inv(limits, s)
    ensures key in s.active ==> FlightInv(s.tasks, key, s.active[key])
  {
    hide LocksInv, HoldersInv, CacheInv, OrderInv, TimesInv, SuccessionInv;
  }

  lemma {:induction false} LaunchServes(s: State, key: Key, requestHash: string)
    ensures
      var tasks := Launch(s, key, requestHash).tasks;
      |tasks| == |s.tasks| + 1 && tasks[|s.tasks|].key == key && tasks[|s.tasks|].requestHash == requestHash
  {
  }

  // While an outcome is cached, a retry under the same hash replays it and any other hash is refused.
  lemma {:induction false} ReplaysWithinWindow(limits: Limits, events: seq<Event>, t: nat, requestHash: string, now: real)
    requires ValidLimits(limits) && now >= Run(limits, events).clock && t < |Run(limits, events).tasks|
    requires
      var task := Run(limits, events).tasks[t];
      task.fate.Cached? && now < task.fate.cleanedAt + limits.ttl
    ensures
      var s := Run(limits, events);
      var (after, reply) := Execute(limits, s, s.tasks[t].key, requestHash, now);
      && |after.tasks| == |s.tasks|
      && s.tasks[t].phase.Finished?
      && reply == (if requestHash == s.tasks[t].requestHash then Replay(s.tasks[t].phase.outcome) else Conflict)
  {
    hide FlightsInv, LocksInv, HoldersInv, OrderInv, TimesInv, SuccessionInv;
    var s := Run(limits, events);
    RunInv(limits, events);
    var key := s.tasks[t].key;
    assert key in s.completed && s.completed[key].task == t;
    assert EntryInv(limits, s.tasks, key, s.completed[key]);
    assert key in SurvivingEntries(s.completed, now);
  }

  // Of all the cleanups that race for a task, only the first under the task's own key does anything.
  lemma {:induction false} OnlyFirstCleanupActs(limits: Limits, events: seq<Event>, key: Key, t: nat, now: real)
    requires ValidLimits(limits) && t < |Run(limits, events).tasks| && Run(limits, events).tasks[t].phase.Finished?
    ensures
      var s := Run(limits, events);
      var after := Cleanup(limits, s, key, t, now);
      if s.tasks[t].fate == InFlight && s.tasks[t].key == key then
        after.active == s.active - {key} && t < |after.tasks| && after.tasks[t].fate != InFlight
      else after == s.(clock := now)
  {
    hide LocksInv, HoldersInv, CacheInv, OrderInv, TimesInv, SuccessionInv, Retire, ReleasePrincipal;
    var s := Run(limits, events);
    RunInv(limits, events);
    if key in s.active && s.active[key].task == t {
      ActiveServes(limits, s, key);
      RetireActs(limits, s, key, t, now);
    }
  }

  lemma {:induction false} RetireActs(limits: Limits, s: State, key: Key, t: nat, now: real)
    requires t < |s.tasks| && s.tasks[t].phase.Finished? && key in s.active
    ensures
      var after := ReleasePrincipal(Retire(limits, s, key, t, now), key.principal);
      after.active == s.active - {key} && t < |after.tasks| && after.tasks[t].fate != InFlight
  {
    hide MakeRoom, Cacheable;
    MakeRoomFrame(limits, s.(clock := now));
  }

  // The entry evicted to make room is the first one that was inserted.
  lemma {:induction false} EvictionIsFifo(limits: Limits, events: seq<Event>)
    requires ValidLimits(limits) && Run(limits, events).completed != map[]
    ensures
      var completed := Run(limits, events).completed;
      forall key :: key in completed && key != Oldest(completed) ==> completed[Oldest(completed)].stamp < completed[key].stamp
  {
    hide FlightsInv, LocksInv, HoldersInv, CacheInv, TimesInv, SuccessionInv;
    var completed := Run(limits, events).completed;
    RunInv(limits, events);
    assert IsOldest(completed, Oldest(completed));
  }

  // Tasks are only ever added; a task keeps its key and hash, and a finished task its outcome.
  ghost predicate Persist(tasks: seq<Task>, tasks': seq<Task>) {
    |tasks| <= |tasks'| && forall t :: 0 <= t < |tasks| ==>
      && tasks'[t].key == tasks[t].key && tasks'[t].requestHash == tasks[t].requestHash
      && (tasks[t].phase.Finished? ==> tasks'[t].phase == tasks[t].phase)
  }

  lemma {:induction false} PurgePersists(s: State, now: real)
    ensures Persist(s.tasks, Purge(s, now).tasks)
  {
  }

  lemma {:induction false} ClearPersists(s: State, principal: string)
    ensures Persist(s.tasks, Clear(s, principal).tasks)
  {
  }

  lemma {:induction false} ExecutePersists(limits: Limits, s: State, key: Key, requestHash: string, now: real)
    ensures Persist(s.tasks, Execute(limits, s, key, requestHash, now).0.tasks)
  {
    PurgePersists(s, now);
    hide Purge;
  }

  lemma {:induction false} AcquirePersists(s: State, t: nat, now: real)
    requires t < |s.tasks|
    ensures Persist(s.tasks, Acquire(s, t, now).tasks)
  {
  }

  lemma {:induction false} FinishPersists(s: State, t: nat, outcome: Outcome, now: real)
    requires t < |s.tasks|
    ensures Persist(s.tasks, Finish(s, t, outcome, now).tasks)
  {
  }

  lemma {:induction false} CleanupPersists(limits: Limits, s: State, key: Key, t: nat, now: real)
    requires t < |s.tasks| && s.tasks[t].phase.Finished?
    ensures Persist(s.tasks, Cleanup(limits, s, key, t, now).tasks)
  {
    hide Retire;
    if key in s.active && s.active[key].task == t {
      RetirePersists(limits, s, key, t, now);
    }
  }

  lemma {:induction false} RetirePersists(limits: Limits, s: State, key: Key, t: nat, now: real)
    requires t < |s.tasks| && s.tasks[t].phase.Finished? && key in s.active
    ensures Persist(s.tasks, Retire(limits, s, key, t, now).tasks)
  {
    hide MakeRoom, Cacheable;
    MakeRoomPersists(limits, s.(clock := now));
  }

  lemma {:induction false} MakeRoomPersists(limits: Limits, s: State)
    ensures Persist(s.tasks, MakeRoom(limits, s).tasks)
  {
    hide Oldest, IsOldest;
  }

  lemma {:induction false} StepPersists(limits: Limits, s: State, event: Event)
    ensures Persist(s.tasks, Step(limits, s, event).tasks)
  {
    hide Execute, Acquire, Finish, Cleanup, Purge, Clear;
    var now := if event.delay > 0.0 then s.clock + event.delay else s.clock;
    match event.action
    case ExecuteRequest(key, requestHash) => ExecutePersists(limits, s, key, requestHash, now);
    case AcquireLock(t) => if t < |s.tasks| { AcquirePersists(s, t, now); }
    case FinishTask(t, outcome) => if t < |s.tasks| { FinishPersists(s, t, outcome, now); }
    case CleanupFlight(key, t) =>
      if t < |s.tasks| && s.tasks[t].phase.Finished? { CleanupPersists(limits, s, key, t, now); }
    case PurgeExpired => PurgePersists(s, now);
    case ClearPrincipal(principal) => ClearPersists(s, principal);
  }

  // Over any continuation of a run, every task keeps its key, its hash and, once finished, its outcome.
  lemma {:induction false} OutcomesArePermanent(limits: Limits, events: seq<Event>, more: seq<Event>)
    ensures Persist(Run(limits, events).tasks, Run(limits, events + more).tasks)
  {
    hide Step;
    if more == [] {
      assert events + more == events;
    } else {
      var last := |more| - 1;
      assert (events + more)[..|events| + last] == events + more[..last];
      OutcomesArePermanent(limits, events, more[..last]);
      StepPersists(limits, Run(limits, events + more[..last]), more[last]);
    }
  }

  /*** What a request is answered ***/

  // An outcome of the key is cached and has not expired.
  predicate Remembers(s: State, key: Key, now: real) {
    key in s.completed && s.completed[key].expiresAt > now
  }

  // The request waits as a flight of its own, behind the same lock as the other flights of its principal.
  ghost predicate Queued(s: State, key: Key, requestHash: string, now: real, after: State) {
    && |after.tasks| == |s.tasks| + 1 && after.active == s.active[key := ActiveFlight(requestHash, |s.tasks|)]
    && var task := after.tasks[|s.tasks|];
       && task.key == key && task.requestHash == requestHash && task.phase == Waiting && task.fate == InFlight
       && task.createdAt == now && task.startedAt == None
       && after.principalLocks == s.principalLocks[key.principal := task.lock]
       && (if key.principal in s.principalLocks then task.lock == s.principalLocks[key.principal] && after.holders == s.holders
           else task.lock == |s.holders| && after.holders == s.holders + [None])
  }

  // Only the cache may have changed.
  ghost predicate Untouched(s: State, after: State) {
    |after.tasks| == |s.tasks| && after.active == s.active && after.principalLocks == s.principalLocks && after.holders == s.holders
  }

  // A remembered outcome is replayed, a flight in progress is joined, and a key that has neither is launched whoever else
  // is active, as long as there is room; a hash that differs from the one on record is refused.
  ghost predicate Answers(limits: Limits, s: State, key: Key, requestHash: string, now: real, after: State, reply: Reply) {
    && (forall other :: other in after.completed <==> Remembers(s, other, now))
    && (forall other :: other in after.completed ==> after.completed[other] == s.completed[other])
    && |after.tasks| >= |s.tasks|
    && (forall t :: 0 <= t < |s.tasks| ==> after.tasks[t].(fate := s.tasks[t].fate) == s.tasks[t])
    && if Remembers(s, key, now) then
         && Untouched(s, after)
         && reply == (if requestHash == s.completed[key].requestHash then Replay(s.completed[key].outcome) else Conflict)
       else if key in s.active then
         && Untouched(s, after)
         && reply == (if requestHash == s.active[key].requestHash then Await(s.active[key].task) else Conflict)
       else if |s.active| < limits.maxActive then
         reply == Await(|s.tasks|) && Queued(s, key, requestHash, now, after)
       else
         reply == CapacityExceeded && Untouched(s, after)
  }

  lemma {:induction false} ExecuteAnswers(limits: Limits, s: State, key: Key, requestHash: string, now: real)
    ensures
      var (after, reply) := Execute(limits, s, key, requestHash, now);
      Answers(limits, s, key, requestHash, now, after, reply)
  {
  }

  // In every state of every run the answer is the one above, and a request is refused for want of room exactly when its
  // key is neither remembered nor active and every place is taken.
  lemma {:induction false} EveryRequestIsAnswered(limits: Limits, events: seq<Event>, key: Key, requestHash: string, now: real)
    requires ValidLimits(limits)
    ensures
      var s := Run(limits, events);
      var (after, reply) := Execute(limits, s, key, requestHash, now);
      && Answers(limits, s, key, requestHash, now, after, reply)
      && (reply == CapacityExceeded <==> !Remembers(s, key, now) && key !in s.active && |s.active| == limits.maxActive)
  {
    hide FlightsInv, LocksInv, HoldersInv, CacheInv, OrderInv, TimesInv, SuccessionInv, Execute, Queued;
    RunInv(limits, events);
    ExecuteAnswers(limits, Run(limits, events), key, requestHash, now);
  }

  // What the acting cleanup leaves in the cache: a result or a replayable failure for a whole window from now, at the cost of at most
  // one entry, of the least expiry, and only when the cache is full; any other outcome leaves the cache alone.
  lemma {:induction false} CleanupStores(limits: Limits, events: seq<Event>, t: nat, now: real)
    requires ValidLimits(limits) && t < |Run(limits, events).tasks|
    requires Run(limits, events).tasks[t].phase.Finished? && Run(limits, events).tasks[t].fate == InFlight
    ensures
      var s := Run(limits, events);
      var task := s.tasks[t];
      var after := Cleanup(limits, s, task.key, t, now);
      var outcome := task.phase.outcome;
      if outcome.Returned? || (outcome.Raised? && outcome.replayable) then
        && task.key in after.completed
        && after.completed[task.key] == CompletedFlight(task.requestHash, outcome, now + limits.ttl, s.stamp, t)
        && KeptButOldest(limits, s.completed, after.completed)
      else after.completed == s.completed
  {
    hide LocksInv, HoldersInv, OrderInv, TimesInv, SuccessionInv, Retire, ReleasePrincipal, KeptButOldest, Run;
    var s := Run(limits, events);
    RunInv(limits, events);
    var key := s.tasks[t].key;
    CachedAreNotActive(limits, s);
    hide CacheInv;
    assert key in s.active && s.active[key].task == t && FlightInv(s.tasks, key, s.active[key]);
    hide FlightsInv;
    RetireStores(limits, s, key, t, now);
    ReleaseKeepsCache(Retire(limits, s, key, t, now), key.principal);
  }

  lemma {:induction false} RetireStores(limits: Limits, s: State, key: Key, t: nat, now: real)
    requires t < |s.tasks| && s.tasks[t].phase.Finished? && key in s.active && key !in s.completed
    ensures
      var outcome, after := s.tasks[t].phase.outcome, Retire(limits, s, key, t, now);
      if Cacheable(outcome) then
        && key in after.completed
        && after.completed[key] == CompletedFlight(s.active[key].requestHash, outcome, now + limits.ttl, s.stamp, t)
        && KeptButOldest(limits, s.completed, after.completed)
      else after.completed == s.completed
  {
    hide MakeRoom, Cacheable;
    RoomKeepsAllButOldest(limits, s.(clock := now));
    MakeRoomFrame(limits, s.(clock := now));
  }

  lemma {:induction false} ReleaseKeepsCache(s: State, principal: string)
    ensures ReleasePrincipal(s, principal).completed == s.completed
  {
    hide PrincipalActive;
  }

  // All entries but at most one, of the least expiry, and that one only when the cache was full.
  ghost predicate KeptButOldest(limits: Limits, before: map<Key, CompletedFlight>, after: map<Key, CompletedFlight>) {
    && (forall key :: key in before && key in after ==> after[key] == before[key])
    && (forall key :: key in before && key !in after ==>
          |before| >= limits.maxCompleted && forall other :: other in before ==> before[key].expiresAt <= before[other].expiresAt)
    && (forall a, b :: a in before && b in before && a !in after && b !in after ==> a == b)
  }

  lemma {:induction false} RoomKeepsAllButOldest(limits: Limits, s: State)
    ensures KeptButOldest(limits, s.completed, MakeRoom(limits, s).completed)
  {
    if |s.completed| >= limits.maxCompleted && s.completed != map[] {
      assert IsOldest(s.completed, Oldest(s.completed));
    }
  }

  // Clearing a principal forgets its outcomes and nothing else: whatever is in flight stays.
  lemma {:induction false} ClearForgets(s: State, principal: string)
    ensures
      var after := Clear(s, principal);
      && Untouched(s, after) && after.clock == s.clock
      && (forall key :: key in after.completed <==> key in s.completed && key.principal != principal)
      && (forall key :: key in after.completed ==> after.completed[key] == s.completed[key])
  {
  }

  lemma {:induction false} RunNext(limits: Limits, events: seq<Event>, event: Event)
    ensures Run(limits, events + [event]) == Step(limits, Run(limits, events), event)
  {
    assert (events + [event])[..|events|] == events;
  }

  // From a waiting task whose lock is free, two steps run it to its end.
  lemma {:induction false} FreeLockRuns(limits: Limits, events: seq<Event>, t: nat, outcome: Outcome)
    requires ValidLimits(limits) && t < |Run(limits, events).tasks|
    requires
      var s := Run(limits, events);
      s.tasks[t].phase == Waiting && s.tasks[t].lock < |s.holders| && s.holders[s.tasks[t].lock] == None
    ensures
      var after := Run(limits, events + [Event(AcquireLock(t), 0.0)] + [Event(FinishTask(t, outcome), 0.0)]);
      t < |after.tasks| && after.tasks[t].startedAt.Some? && after.tasks[t].phase == Finished(outcome)
  {
    RunNext(limits, events, Event(AcquireLock(t), 0.0));
    RunNext(limits, events + [Event(AcquireLock(t), 0.0)], Event(FinishTask(t, outcome), 0.0));
    hide Run;
  }

  // No request waits for ever: from every state of every run, the operation that holds the lock can end, the waiting one
  // then starts, and it can end in any way.
  lemma {:induction false} WaiterCanRun(limits: Limits, events: seq<Event>, t: nat, outcome: Outcome) returns (more: seq<Event>)
    requires ValidLimits(limits) && t < |Run(limits, events).tasks| && Run(limits, events).tasks[t].phase == Waiting
    ensures
      var after := Run(limits, events + more);
      t < |after.tasks| && after.tasks[t].startedAt.Some? && after.tasks[t].phase == Finished(outcome)
  {
    hide Run, Inv, Finish, Execute, Acquire, Cleanup, Purge, Clear;
    var s := Run(limits, events);
    var run := [Event(AcquireLock(t), 0.0)] + [Event(FinishTask(t, outcome), 0.0)];
    RunInv(limits, events);
    UnfinishedHasLock(limits, s, t);
    var lock := s.tasks[t].lock;
    if s.holders[lock] == None {
      FreeLockRuns(limits, events, t, outcome);
      assert events + run == events + [Event(AcquireLock(t), 0.0)] + [Event(FinishTask(t, outcome), 0.0)];
      more := run;
    } else {
      var holder := s.holders[lock].value;
      var release := Event(FinishTask(holder, RaisedBaseException), 0.0);
      HolderExecutes(limits, s, lock);
      RunNext(limits, events, release);
      HolderReleases(s, holder, t, RaisedBaseException);
      FreeLockRuns(limits, events + [release], t, outcome);
      more := [release] + run;
      assert events + more == events + [release] + [Event(AcquireLock(t), 0.0)] + [Event(FinishTask(t, outcome), 0.0)];
    }
  }

  lemma {:induction false} HolderExecutes(limits: Limits, s: State, lock: nat)
    requires Inv(limits, s) && lock < |s.holders| && s.holders[lock].Some?
    ensures
      var holder := s.holders[lock].value;
      holder < |s.tasks| && s.tasks[holder].phase == Executing && s.tasks[holder].lock == lock
  {
    hide FlightsInv, LocksInv, CacheInv, OrderInv, TimesInv, SuccessionInv;
  }

  lemma {:induction false} HolderReleases(s: State, holder: nat, t: nat, outcome: Outcome)
    requires holder < |s.tasks| && s.tasks[holder].phase == Executing && s.tasks[holder].lock < |s.holders|
    requires t < |s.tasks| && s.tasks[t].phase == Waiting
    ensures
      var after := Finish(s, holder, outcome, s.clock);
      && |after.tasks| == |s.tasks| && after.tasks[t] == s.tasks[t]
      && |after.holders| == |s.holders| && after.holders[s.tasks[holder].lock] == None
  {
  }

  // Two requests of one principal under different ids are both awaited: the second waits while the first executes, and
  // executes after it.
  lemma {:induction false} TwoRequestsQueue(limits: Limits, a: Key, b: Key, hashes: (string, string), outcomes: (Outcome, Outcome))
    returns (asked: seq<Event>, both: seq<Event>, ended: seq<Event>)
    requires ValidLimits(limits) && limits.maxActive >= 2 && a.principal == b.principal && a != b
    ensures asked == [Event(ExecuteRequest(a, hashes.0), 0.0)] + [Event(ExecuteRequest(b, hashes.1), 0.0)]
    ensures asked <= both <= ended
    ensures
      var s := Run(limits, asked);
      |s.tasks| == 2 && s.tasks[0].key == a && s.tasks[1].key == b && s.tasks[0].phase == s.tasks[1].phase == Waiting
    ensures
      var s := Run(limits, both);
      |s.tasks| == 2 && s.tasks[0].phase == Executing && s.tasks[1].phase == Waiting
    ensures
      var s := Run(limits, ended);
      && |s.tasks| == 2 && s.tasks[0].phase == Finished(outcomes.0) && s.tasks[1].phase == Finished(outcomes.1)
      && s.tasks[1].startedAt.Some?
  {
    hide Step;
    BothAreAsked(limits, a, b, hashes);
    hide Run;
    asked := [Event(ExecuteRequest(a, hashes.0), 0.0)] + [Event(ExecuteRequest(b, hashes.1), 0.0)];
    FirstTakesTheLock(limits, Run(limits, asked));
    var acquired := asked + [Event(AcquireLock(0), 0.0)];
    RunNext(limits, asked, Event(AcquireLock(0), 0.0));
    both := acquired + [Event(AcquireLock(1), 0.0)];
    RunNext(limits, acquired, Event(AcquireLock(1), 0.0));
    OneAfterTheOther(limits, Run(limits, both), outcomes);
    var free := both + [Event(FinishTask(0, outcomes.0), 0.0)];
    RunNext(limits, both, Event(FinishTask(0, outcomes.0), 0.0));
    var second := free + [Event(AcquireLock(1), 0.0)];
    RunNext(limits, free, Event(AcquireLock(1), 0.0));
    ended := second + [Event(FinishTask(1, outcomes.1), 0.0)];
    RunNext(limits, second, Event(FinishTask(1, outcomes.1), 0.0));
  }

  lemma {:induction false} FirstTakesTheLock(limits: Limits, s: State)
    requires |s.tasks| == 2 && s.holders == [None] && s.tasks[0].phase == Waiting && s.tasks[1].phase == Waiting
    requires s.tasks[0].lock == s.tasks[1].lock == 0
    ensures
      var both := Step(limits, Step(limits, s, Event(AcquireLock(0), 0.0)), Event(AcquireLock(1), 0.0));
      && |both.tasks| == 2 && both.holders == [Some(0)] && both.tasks[0].phase == Executing && both.tasks[1].phase == Waiting
      && both.tasks[0].lock == both.tasks[1].lock == 0
  {
    hide Execute, Finish, Cleanup, Purge, Clear;
  }

  lemma {:induction false} OneAfterTheOther(limits: Limits, s: State, outcomes: (Outcome, Outcome))
    requires |s.tasks| == 2 && s.holders == [Some(0)] && s.tasks[0].phase == Executing && s.tasks[1].phase == Waiting
    requires s.tasks[0].lock == s.tasks[1].lock == 0
    ensures
      var free := Step(limits, s, Event(FinishTask(0, outcomes.0), 0.0));
      var ended := Step(limits, Step(limits, free, Event(AcquireLock(1), 0.0)), Event(FinishTask(1, outcomes.1), 0.0));
      && |ended.tasks| == 2 && ended.tasks[0].phase == Finished(outcomes.0) && ended.tasks[1].phase == Finished(outcomes.1)
      && ended.tasks[1].startedAt.Some?
  {
    hide Execute, Cleanup, Purge, Clear;
  }

  lemma {:induction false} BothAreAsked(limits: Limits, a: Key, b: Key, hashes: (string, string))
    requires ValidLimits(limits) && limits.maxActive >= 2 && a.principal == b.principal && a != b
    ensures
      var s := Run(limits, [Event(ExecuteRequest(a, hashes.0), 0.0)] + [Event(ExecuteRequest(b, hashes.1), 0.0)]);
      && |s.tasks| == 2 && s.holders == [None] && s.tasks[0].key == a && s.tasks[1].key == b
      && s.tasks[0].phase == Waiting && s.tasks[1].phase == Waiting && s.tasks[0].lock == s.tasks[1].lock == 0
  {
    var first, second := Event(ExecuteRequest(a, hashes.0), 0.0), Event(ExecuteRequest(b, hashes.1), 0.0);
    assert [first][..0] == [] && Run(limits, []) == State([], map[], map[], map[], [], 0, 0.0);
    assert Run(limits, [first]) == Step(limits, Run(limits, []), first);
    RunNext(limits, [first], second);
    var s1 := Run(limits, [first]);
    ExecuteAnswers(limits, Run(limits, []), a, hashes.0, 0.0);
    ExecuteAnswers(limits, s1, b, hashes.1, s1.clock);
    hide Run, Execute;
    assert s1.active.Keys == {a};
    assert |s1.active| == |s1.active.Keys|;
  }

  /*** The coordinator object ***/

  // The oldest entry is unique, because insertion stamps are.
  lemma {:induction false} OldestIsUnique(limits: Limits, completed: map<Key, CompletedFlight>, stamp: nat, clock: real, key: Key)
    requires OrderInv(limits, completed, stamp, clock) && IsOldest(completed, key)
    ensures key == Oldest(completed)
  {
    var oldest := Oldest(completed);
    assert IsOldest(completed, oldest);
    assert OlderEntry(completed[key], completed[oldest]) && OlderEntry(completed[oldest], completed[key]);
  }

  // Each method below is one critical section of the coordinator, or one step of a background task.
  class ResultInterpretationSingleFlight {
    const limits: Limits
    var tasks: seq<Task>
    var active: map<Key, ActiveFlight>
    var completed: map<Key, CompletedFlight>
    var principalLocks: map<string, nat>
    var holders: seq<Option<nat>>
    var stamp: nat
    var clock: real

    function Snapshot(): State
      reads this
    {
      State(tasks, active, completed, principalLocks, holders, stamp, clock)
    }

    constructor (limits: Limits)
      requires ValidLimits(limits)
      ensures this.limits == limits && Snapshot() == Run(limits, []) && Inv(limits, Snapshot())
    {
      this.limits := limits;
      tasks, active, completed, principalLocks, holders, stamp, clock := [], map[], map[], map[], [], 0, 0.0;
      new;
      RunInv(limits, []);
    }

    // Remove the given keys one at a time.
    method PopCompleted(keys: set<Key>)
      modifies this`completed
      ensures completed == old(completed) - keys
    {
      var pending := keys;
      while pending != {}
        invariant pending <= keys && completed == old(completed) - (keys - pending)
        decreases |pending|
      {
        var key :| key in pending;
        completed := completed - {key};
        pending := pending - {key};
        assert keys - pending == keys - (pending + {key}) + {key};
      }
      assert keys - pending == keys;
    }

    method PurgeExpired(now: real) returns (removed: nat)
      modifies this
      ensures Snapshot() == Purge(old(Snapshot()), now)
      ensures removed == |set key | key in old(completed) && old(completed)[key].expiresAt <= now|
    {
      var before := completed;
      var expired := set key | key in before && before[key].expiresAt <= now;
      PopCompleted(expired);
      assert completed == SurvivingEntries(before, now);
      tasks := RecordDrops(tasks, EntriesOf(before) - EntriesOf(completed), Expired(now));
      clock := now;
      removed := |expired|;
    }

    method ClearPrincipal(principal: string) returns (removed: nat)
      modifies this
      ensures Snapshot() == Clear(old(Snapshot()), principal)
      ensures removed == |set key | key in old(completed) && key.principal == principal|
    {
      var before := completed;
      var cleared := set key | key in before && key.principal == principal;
      PopCompleted(cleared);
      assert completed == ForOthers(before, principal);
      tasks := RecordDrops(tasks, EntriesOf(before) - EntriesOf(completed), Cleared);
      removed := |cleared|;
    }

    method ExecuteRequest(key: Key, requestHash: string, now: real) returns (reply: Reply)
      modifies this
      ensures (Snapshot(), reply) == Execute(limits, old(Snapshot()), key, requestHash, now)
      ensures Answers(limits, old(Snapshot()), key, requestHash, now, Snapshot(), reply)
    {
      ExecuteAnswers(limits, Snapshot(), key, requestHash, now);
      var _ := PurgeExpired(now);
      if key in completed {
        if completed[key].requestHash != requestHash {
          return Conflict;
        }
        return Replay(completed[key].outcome);
      }
      if key in active {
        if active[key].requestHash != requestHash {
          return Conflict;
        }
        return Await(active[key].task);
      }
      if |active| >= limits.maxActive {
        return CapacityExceeded;
      }
      if key.principal !in principalLocks {
        principalLocks := principalLocks[key.principal := |holders|];
        holders := holders + [None];
      }
      assert principalLocks == Purge(old(Snapshot()), now).principalLocks[key.principal := principalLocks[key.principal]];
      var t := |tasks|;
      tasks := tasks + [Task(key, requestHash, principalLocks[key.principal], Waiting, clock, None, InFlight)];
      active := active[key := ActiveFlight(requestHash, t)];
      return Await(t);
    }

    // The scan behind min(): the least expiry, and the first inserted entry among equals.
    method FindOldest() returns (oldest: Key)
      requires completed != map[]
      ensures IsOldest(completed, oldest)
    {
      var pending := completed.Keys;
      oldest :| oldest in pending;
      pending := pending - {oldest};
      while pending != {}
        invariant pending <= completed.Keys && oldest in completed
        invariant forall other :: other in completed && other !in pending ==> OlderEntry(completed[oldest], completed[other])
        decreases |pending|
      {
        var other :| other in pending;
        if !OlderEntry(completed[oldest], completed[other]) {
          oldest := other;
        }
        pending := pending - {other};
      }
    }

    method EvictOldest()
      requires Inv(limits, Snapshot())
      modifies this`completed, this`tasks
      ensures Snapshot() == MakeRoom(limits, old(Snapshot()))
    {
      if |completed| >= limits.maxCompleted && completed != map[] {
        var oldest := FindOldest();
        OldestIsUnique(limits, completed, stamp, clock, oldest);
        tasks := RecordDrops(tasks, {completed[oldest].task}, Evicted);
        completed := completed - {oldest};
      }
    }

    method ForgetLock(principal: string)
      modifies this`principalLocks
      ensures Snapshot() == ReleasePrincipal(old(Snapshot()), principal)
    {
      var stillActive := exists other :: other in active && other.principal == principal;
      if !stillActive && principal in principalLocks {
        var lock := principalLocks[principal];
        if lock >= |holders| || holders[lock].None? {
          principalLocks := principalLocks - {principal};
        }
      }
    }

    method CleanupFlight(key: Key, t: nat, now: real)
      requires Inv(limits, Snapshot()) && ValidLimits(limits) && now >= clock
      requires t < |tasks| && tasks[t].phase.Finished?
      modifies this
      ensures Snapshot() == Cleanup(limits, old(Snapshot()), key, t, now)
    {
      hide Inv, MakeRoom, ReleasePrincipal, Cacheable;
      LaterClock(limits, Snapshot(), now);
      ghost var entered := Snapshot().(clock := now);
      clock := now;
      if key !in active || active[key].task != t {
        return;
      }
      var flight := active[key];
      var outcome := tasks[t].phase.outcome;
      if Cacheable(outcome) {
        MakeRoomFrame(limits, entered);
        EvictOldest();
        completed := completed[key := CompletedFlight(flight.requestHash, outcome, now + limits.ttl, stamp, t)];
        stamp := stamp + 1;
        tasks := tasks[t := tasks[t].(fate := Cached(now))];
      } else {
        tasks := tasks[t := tasks[t].(fate := Uncached(now))];
      }
      active := active - {key};
      assert Snapshot() == Retire(limits, old(Snapshot()), key, t, now);
      ForgetLock(key.principal);
    }
  }
}
