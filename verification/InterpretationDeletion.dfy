// Answers and deletions of conversations as they run through the coordinator: every operation of an account is a flight of
// the coordinator, and its transaction on the stored history happens while the flight holds the account's lock.
//
// A run starts with empty coordinator tables and any stored history, as after a restart of the service.

module InterpretationDeletion {
  import opened Json
  import Flights = SingleFlight
  import History = InterpretationStore

  // `body` is the digest of the result together with the whole request.
  datatype Job =
    | Answer(owner: string, experiment: string, conversation: string, request: string, body: string)
    | Erase(owner: string, experiment: string, conversation: string)

  // `digest` is the request hash of a job; `deletionId` derives the request id of a deletion from its conversation.
  datatype World = World(limits: Flights.Limits, digest: Job -> string, deletionId: string -> string)

  ghost predicate ValidWorld(w: World) {
    Flights.ValidLimits(w.limits) && forall a, b :: w.digest(a) == w.digest(b) ==> a == b
  }

  function KeyOf(w: World, job: Job): Flights.Key {
    Flights.Key(job.owner, if job.Answer? then job.request else w.deletionId(job.conversation))
  }

  // `jobs[t]` is the work of task t. `removed` holds the deletions that found something to delete, and `writers` the task
  // that stored each row of this run.
  datatype System = System(
    flights: Flights.State, jobs: seq<Job>, removed: set<nat>, store: History.Store, writers: map<nat, nat>)

  // The checks of the endpoints, before the coordinator is asked.
  predicate Admissible(store: History.Store, job: Job) {
    && job.experiment in store.experiments
    && store.experiments[job.experiment].owner == job.owner
    && (job.Answer? ==> && store.experiments[job.experiment].completed
                        && History.StoneFor(job.owner, job.experiment, job.conversation) !in store.tombstones)
  }

  // Locks are fair: a task takes its lock only when everybody who queued for it before is finished.
  predicate MayStart(tasks: seq<Flights.Task>, t: nat) {
    t < |tasks| && forall u :: 0 <= u < t && tasks[u].lock == tasks[t].lock ==> tasks[u].phase.Finished?
  }

  // How an operation ends: `stores` tells whether an answer got as far as its save.
  datatype Ending = Ending(outcome: Flights.Outcome, stores: bool, content: string, wellFormed: bool, stamped: int, now: int)

  datatype Action =
    | Submit(job: Job)
    | Start(starting: nat)
    | Settle(settling: nat, ending: Ending)
    | Coordinate(action: Flights.Action)
    | Elsewhere(operation: History.Operation)

  datatype Event = Event(action: Action, delay: real)

  ghost function Coordinated(w: World, s: System, action: Flights.Action, delay: real): Flights.State {
    Flights.Step(w.limits, s.flights, Flights.Event(action, delay))
  }

  ghost function Submitted(w: World, s: System, job: Job, delay: real): System {
    var flights := Coordinated(w, s, Flights.ExecuteRequest(KeyOf(w, job), w.digest(job)), delay);
    s.(flights := flights, jobs := if |flights.tasks| > |s.flights.tasks| then s.jobs + [job] else s.jobs)
  }

  function SaveOf(w: World, job: Job, ending: Ending): History.Operation
    requires job.Answer?
  {
    History.SaveExchange(
      History.Request(job.owner, job.experiment, job.conversation, job.request, w.digest(job), ending.content, ending.wellFormed),
      ending.stamped, ending.now)
  }

  // The transaction of an operation that ends. A deletion that raises has rolled back.
  ghost function Committed(w: World, s: System, t: nat, ending: Ending): System
    requires t < |s.jobs|
  {
    match s.jobs[t]
    case Answer(_, _, _, _, _) =>
      if !ending.stores then s
      else
        var store := History.Step(s.store, SaveOf(w, s.jobs[t], ending));
        s.(store := store, writers := if store.nextId > s.store.nextId then s.writers[s.store.nextId := t] else s.writers)
    case Erase(owner, experiment, conversation) =>
      if !ending.outcome.Returned? then s
      else
        s.(store := History.Step(s.store, History.DeleteOne(owner, experiment, conversation)),
           removed := if History.DeleteConversation(s.store, owner, experiment, conversation).1 then s.removed + {t} else s.removed)
  }

  // The end of an operation, or the cancellation of one that never began.
  ghost function Settled(w: World, s: System, t: nat, ending: Ending, delay: real): System
    requires t < |s.jobs| == |s.flights.tasks|
  {
    var after := if s.flights.tasks[t].phase == Flights.Executing then Committed(w, s, t, ending) else s;
    after.(flights := Coordinated(w, s, Flights.FinishTask(t, ending.outcome), delay))
  }

  ghost function Step(w: World, s: System, event: Event): System {
    match event.action
    case Submit(job) => if Admissible(s.store, job) then Submitted(w, s, job, event.delay) else s
    case Start(t) =>
      if MayStart(s.flights.tasks, t) then s.(flights := Coordinated(w, s, Flights.AcquireLock(t), event.delay)) else s
    case Settle(t, ending) =>
      if t < |s.jobs| == |s.flights.tasks| then Settled(w, s, t, ending, event.delay) else s
    case Coordinate(action) =>
      if action.CleanupFlight? || action.PurgeExpired? || action.ClearPrincipal? then
        s.(flights := Coordinated(w, s, action, event.delay))
      else s
    case Elsewhere(operation) =>
      if operation.SaveExchange? || operation.DeleteOne? then s else s.(store := History.Step(s.store, operation))
  }

  // `past` is how the stored history came about.
  ghost function Run(w: World, past: seq<History.Operation>, events: seq<Event>): System {
    if events == [] then System(Flights.Run(w.limits, []), [], {}, History.Run(past), map[])
    else Step(w, Run(w, past, events[..|events| - 1]), events[|events| - 1])
  }

  /*** Invariants ***/

  ghost predicate JobsInv(w: World, tasks: seq<Flights.Task>, jobs: seq<Job>) {
    |jobs| == |tasks| && forall t :: 0 <= t < |jobs| ==> tasks[t].key == KeyOf(w, jobs[t]) && tasks[t].requestHash == w.digest(jobs[t])
  }

  predicate Begun(task: Flights.Task) {
    task.phase == Flights.Executing || (task.phase.Finished? && task.phase.outcome != Flights.TaskCancelled)
  }

  // Once a task has begun, everything its account asked for earlier is finished.
  ghost predicate QueueInv(tasks: seq<Flights.Task>) {
    forall a, b :: 0 <= a < b < |tasks| && tasks[a].key.principal == tasks[b].key.principal && Begun(tasks[b]) ==>
      tasks[a].phase.Finished?
  }

  predicate WrittenBy(row: History.Exchange, job: Job) {
    job.Answer? && row.owner == job.owner && row.experiment == job.experiment && row.conversation == job.conversation
    && row.request == job.request
  }

  ghost predicate WritersInv(s: System) {
    && (forall id :: id in s.writers ==> id < s.store.nextId && s.writers[id] < |s.jobs|)
    && (forall row :: row in s.store.rows && row.id in s.writers ==> WrittenBy(row, s.jobs[s.writers[row.id]]))
  }

  predicate Erased(s: System, d: nat) {
    d < |s.jobs| && d < |s.flights.tasks| && s.jobs[d].Erase?
    && s.flights.tasks[d].phase.Finished? && s.flights.tasks[d].phase.outcome.Returned?
  }

  predicate Concerns(row: History.Exchange, job: Job) {
    History.InConversation(row, job.owner, job.experiment, job.conversation)
  }

  // Whatever is stored of the conversation was stored by an answer that was asked for after the deletion.
  ghost predicate Covered(s: System, d: nat)
    requires d < |s.jobs|
  {
    && (forall row :: row in s.store.rows && Concerns(row, s.jobs[d]) ==> row.id in s.writers && s.writers[row.id] > d)
    && (d in s.removed ==> History.Barred(s.store, s.jobs[d].owner, s.jobs[d].experiment, s.jobs[d].conversation))
  }

  ghost predicate DeletionInv(s: System) {
    (forall d: nat :: Erased(s, d) ==> Covered(s, d)) && (forall d: nat :: d in s.removed ==> Erased(s, d))
  }

  ghost predicate SystemInv(w: World, s: System) {
    && Flights.Inv(w.limits, s.flights)
    && History.StoreInv(s.store)
    && JobsInv(w, s.flights.tasks, s.jobs)
    && QueueInv(s.flights.tasks)
    && WritersInv(s)
    && DeletionInv(s)
  }

  /*** What a step of the coordinator does to its tasks ***/

  // Tasks keep who they are and how they ended, and none begins.
  ghost predicate Quiet(tasks: seq<Flights.Task>, tasks': seq<Flights.Task>) {
    |tasks'| == |tasks| && forall t :: 0 <= t < |tasks| ==>
      tasks'[t].key == tasks[t].key && tasks'[t].requestHash == tasks[t].requestHash && tasks'[t].phase == tasks[t].phase
  }

  lemma {:induction false} PurgeIsQuiet(s: Flights.State, now: real)
    ensures Quiet(s.tasks, Flights.Purge(s, now).tasks)
  {
  }

  lemma {:induction false} CleanupIsQuiet(limits: Flights.Limits, s: Flights.State, key: Flights.Key, t: nat, now: real)
    requires t < |s.tasks| && s.tasks[t].phase.Finished?
    ensures Quiet(s.tasks, Flights.Cleanup(limits, s, key, t, now).tasks)
  {
    hide Flights.Retire;
    if key in s.active && s.active[key].task == t {
      RetireIsQuiet(limits, s, key, t, now);
    }
  }

  lemma {:induction false} RetireIsQuiet(limits: Flights.Limits, s: Flights.State, key: Flights.Key, t: nat, now: real)
    requires t < |s.tasks| && s.tasks[t].phase.Finished? && key in s.active
    ensures Quiet(s.tasks, Flights.Retire(limits, s, key, t, now).tasks)
  {
    hide Flights.MakeRoom, Flights.Cacheable;
    MakeRoomIsQuiet(limits, s.(clock := now));
  }

  lemma {:induction false} MakeRoomIsQuiet(limits: Flights.Limits, s: Flights.State)
    ensures Quiet(s.tasks, Flights.MakeRoom(limits, s).tasks)
  {
    hide Flights.Oldest, Flights.IsOldest;
  }

  lemma {:induction false} CoordinationIsQuiet(limits: Flights.Limits, s: Flights.State, action: Flights.Action, delay: real)
    requires action.CleanupFlight? || action.PurgeExpired? || action.ClearPrincipal?
    ensures Quiet(s.tasks, Flights.Step(limits, s, Flights.Event(action, delay)).tasks)
  {
    hide Flights.Cleanup, Flights.Purge;
    var now := if delay > 0.0 then s.clock + delay else s.clock;
    PurgeIsQuiet(s, now);
    if action.CleanupFlight? && action.task < |s.tasks| && s.tasks[action.task].phase.Finished? {
      CleanupIsQuiet(limits, s, action.cleanupKey, action.task, now);
    }
  }

  // A request adds at most one task, which waits.
  lemma {:induction false} RequestAddsWaitingTask(
    limits: Flights.Limits, s: Flights.State, key: Flights.Key, requestHash: string, delay: real)
    ensures
      var tasks := Flights.Step(limits, s, Flights.Event(Flights.ExecuteRequest(key, requestHash), delay)).tasks;
      && |s.tasks| <= |tasks| <= |s.tasks| + 1
      && Quiet(s.tasks, tasks[..|s.tasks|])
      && (|tasks| > |s.tasks| ==> var added := tasks[|s.tasks|];
            added.key == key && added.requestHash == requestHash && added.phase == Flights.Waiting)
  {
    var now := if delay > 0.0 then s.clock + delay else s.clock;
    PurgeIsQuiet(s, now);
    hide Flights.Purge;
  }

  // At most the one task in question changes its phase.
  ghost predicate OnlyChanges(tasks: seq<Flights.Task>, tasks': seq<Flights.Task>, t: nat) {
    |tasks'| == |tasks| && t < |tasks| && tasks'[t].key == tasks[t].key && tasks'[t].requestHash == tasks[t].requestHash
    && forall u :: 0 <= u < |tasks| && u != t ==> tasks'[u] == tasks[u]
  }

  lemma {:induction false} StartChangesOne(limits: Flights.Limits, s: Flights.State, t: nat, delay: real)
    requires t < |s.tasks|
    ensures
      var tasks := Flights.Step(limits, s, Flights.Event(Flights.AcquireLock(t), delay)).tasks;
      && OnlyChanges(s.tasks, tasks, t)
      && (tasks[t].phase == s.tasks[t].phase || (s.tasks[t].phase == Flights.Waiting && tasks[t].phase == Flights.Executing))
  {
  }

  lemma {:induction false} FinishChangesOne(limits: Flights.Limits, s: Flights.State, t: nat, outcome: Flights.Outcome, delay: real)
    requires t < |s.tasks|
    ensures
      var tasks := Flights.Step(limits, s, Flights.Event(Flights.FinishTask(t, outcome), delay)).tasks;
      && OnlyChanges(s.tasks, tasks, t)
      && (tasks[t].phase == s.tasks[t].phase
          || (tasks[t].phase == Flights.Finished(outcome)
              && (s.tasks[t].phase == Flights.Executing || (s.tasks[t].phase == Flights.Waiting && outcome == Flights.TaskCancelled))))
      && (s.tasks[t].phase == Flights.Executing && s.tasks[t].lock < |s.holders| ==> tasks[t].phase == Flights.Finished(outcome))
  {
  }

  /*** Every step keeps the invariant ***/

  lemma {:induction false} QuietKeepsQueue(tasks: seq<Flights.Task>, tasks': seq<Flights.Task>)
    requires QueueInv(tasks) && Quiet(tasks, tasks')
    ensures QueueInv(tasks')
  {
  }

  // Nothing is stored and no deletion ends.
  lemma {:induction false} IdleKeeps(s: System, s': System)
    requires WritersInv(s) && DeletionInv(s)
    requires s'.store == s.store && s'.writers == s.writers && s'.removed == s.removed && s.jobs <= s'.jobs
    requires forall d: nat :: Erased(s', d) <==> Erased(s, d)
    ensures WritersInv(s') && DeletionInv(s')
  {
    hide Erased, History.Barred, Concerns, WrittenBy;
    assert forall d :: 0 <= d < |s.jobs| ==> s'.jobs[d] == s.jobs[d];
    forall d: nat | Erased(s', d)
      ensures d < |s'.jobs| && Covered(s', d)
    {
      assert d < |s.jobs| by { ErasedIsJob(s, d); }
      assert Covered(s, d);
    }
  }

  lemma {:induction false} ErasedIsJob(s: System, d: nat)
    ensures Erased(s, d) ==> d < |s.jobs|
  {
  }

  // The coordinator's own steps do not touch operations or the stored history.
  lemma {:induction false} QuietKeepsInv(w: World, s: System, flights: Flights.State)
    requires SystemInv(w, s) && Flights.Inv(w.limits, flights) && Quiet(s.flights.tasks, flights.tasks)
    ensures SystemInv(w, s.(flights := flights))
  {
    hide Flights.Inv, History.StoreInv, WritersInv, DeletionInv;
    QuietKeepsQueue(s.flights.tasks, flights.tasks);
    hide QueueInv;
    IdleKeeps(s, s.(flights := flights));
  }

  lemma {:induction false} AddedKeepsQueue(tasks: seq<Flights.Task>, tasks': seq<Flights.Task>)
    requires QueueInv(tasks) && |tasks'| == |tasks| + 1 && Quiet(tasks, tasks'[..|tasks|])
    requires tasks'[|tasks|].phase == Flights.Waiting
    ensures QueueInv(tasks')
  {
    assert forall t :: 0 <= t < |tasks| ==> tasks'[t] == tasks'[..|tasks|][t];
  }

  lemma {:induction false} AddedKeepsInv(w: World, s: System, job: Job, flights: Flights.State)
    requires SystemInv(w, s) && Flights.Inv(w.limits, flights)
    requires |flights.tasks| == |s.jobs| + 1 && Quiet(s.flights.tasks, flights.tasks[..|s.jobs|])
    requires
      var added := flights.tasks[|s.jobs|];
      added.key == KeyOf(w, job) && added.requestHash == w.digest(job) && added.phase == Flights.Waiting
    ensures SystemInv(w, s.(flights := flights, jobs := s.jobs + [job]))
  {
    hide Flights.Inv, History.StoreInv, WritersInv, DeletionInv, KeyOf;
    AddedKeepsQueue(s.flights.tasks, flights.tasks);
    hide QueueInv;
    assert forall t :: 0 <= t < |s.jobs| ==> flights.tasks[t] == flights.tasks[..|s.jobs|][t];
    IdleKeeps(s, s.(flights := flights, jobs := s.jobs + [job]));
  }

  lemma {:induction false} SubmitKeepsInv(w: World, s: System, job: Job, delay: real)
    requires ValidWorld(w) && SystemInv(w, s)
    ensures SystemInv(w, Submitted(w, s, job, delay))
  {
    hide Flights.Inv, Flights.Step, History.StoreInv, WritersInv, DeletionInv, QueueInv, KeyOf, Quiet;
    var action := Flights.ExecuteRequest(KeyOf(w, job), w.digest(job));
    Flights.StepKeepsInv(w.limits, s.flights, Flights.Event(action, delay));
    RequestAddsWaitingTask(w.limits, s.flights, KeyOf(w, job), w.digest(job), delay);
    var flights := Coordinated(w, s, action, delay);
    if |flights.tasks| == |s.flights.tasks| {
      assert flights.tasks[..|s.flights.tasks|] == flights.tasks;
      QuietKeepsInv(w, s, flights);
    } else {
      AddedKeepsInv(w, s, job, flights);
    }
  }

  lemma {:induction false} UnfinishedShareLock(limits: Flights.Limits, s: Flights.State, a: nat, b: nat)
    requires Flights.Inv(limits, s) && a < |s.tasks| && b < |s.tasks|
    ensures
      s.tasks[a].key.principal == s.tasks[b].key.principal && !s.tasks[a].phase.Finished? && !s.tasks[b].phase.Finished? ==>
        s.tasks[a].lock == s.tasks[b].lock
  {
    hide Flights.Inv;
    if !s.tasks[a].phase.Finished? && !s.tasks[b].phase.Finished? {
      Flights.UnfinishedHasLock(limits, s, a);
      Flights.UnfinishedHasLock(limits, s, b);
    }
  }

  // The task at the head of its account's queue may begin.
  lemma {:induction false} StartKeepsQueue(w: World, s: System, t: nat, tasks': seq<Flights.Task>)
    requires Flights.Inv(w.limits, s.flights) && QueueInv(s.flights.tasks) && MayStart(s.flights.tasks, t)
    requires OnlyChanges(s.flights.tasks, tasks', t) && s.flights.tasks[t].phase == Flights.Waiting
    requires tasks'[t].phase == Flights.Executing
    ensures QueueInv(tasks')
  {
    hide Flights.Inv;
    var tasks := s.flights.tasks;
    forall a: nat, b: nat | a < b < |tasks'| && tasks'[a].key.principal == tasks'[b].key.principal && Begun(tasks'[b])
      ensures tasks'[a].phase.Finished?
    {
      UnfinishedShareLock(w.limits, s.flights, a, t);
    }
  }

  lemma {:induction false} StartedKeepsInv(w: World, s: System, t: nat, flights: Flights.State)
    requires SystemInv(w, s) && Flights.Inv(w.limits, flights) && MayStart(s.flights.tasks, t)
    requires OnlyChanges(s.flights.tasks, flights.tasks, t)
    requires s.flights.tasks[t].phase == Flights.Waiting && flights.tasks[t].phase == Flights.Executing
    ensures SystemInv(w, s.(flights := flights))
  {
    hide Flights.Inv, History.StoreInv, WritersInv, DeletionInv, KeyOf, MayStart;
    StartKeepsQueue(w, s, t, flights.tasks);
    hide QueueInv;
    IdleKeeps(s, s.(flights := flights));
  }

  lemma {:induction false} StartKeepsInv(w: World, s: System, t: nat, delay: real)
    requires ValidWorld(w) && SystemInv(w, s) && MayStart(s.flights.tasks, t)
    ensures SystemInv(w, s.(flights := Coordinated(w, s, Flights.AcquireLock(t), delay)))
  {
    hide Flights.Inv, Flights.Step, History.StoreInv, WritersInv, DeletionInv, QueueInv, KeyOf;
    Flights.StepKeepsInv(w.limits, s.flights, Flights.Event(Flights.AcquireLock(t), delay));
    StartChangesOne(w.limits, s.flights, t, delay);
    var flights := Coordinated(w, s, Flights.AcquireLock(t), delay);
    if flights.tasks[t].phase == s.flights.tasks[t].phase {
      QuietKeepsInv(w, s, flights);
    } else {
      StartedKeepsInv(w, s, t, flights);
    }
  }

  lemma {:induction false} FinishKeepsQueue(tasks: seq<Flights.Task>, tasks': seq<Flights.Task>, t: nat, outcome: Flights.Outcome)
    requires QueueInv(tasks) && OnlyChanges(tasks, tasks', t) && tasks'[t].phase == Flights.Finished(outcome)
    requires tasks[t].phase == Flights.Executing || outcome == Flights.TaskCancelled
    ensures QueueInv(tasks')
  {
    assert Begun(tasks'[t]) ==> Begun(tasks[t]);
  }

  // An operation ends without a successful deletion.
  lemma {:induction false} EndKeepsInv(w: World, s: System, t: nat, flights: Flights.State, outcome: Flights.Outcome)
    requires SystemInv(w, s) && Flights.Inv(w.limits, flights)
    requires OnlyChanges(s.flights.tasks, flights.tasks, t) && flights.tasks[t].phase == Flights.Finished(outcome)
    requires s.flights.tasks[t].phase == Flights.Executing || (s.flights.tasks[t].phase == Flights.Waiting && outcome == Flights.TaskCancelled)
    requires s.jobs[t].Answer? || !outcome.Returned?
    ensures SystemInv(w, s.(flights := flights))
  {
    hide Flights.Inv, History.StoreInv, WritersInv, DeletionInv, KeyOf;
    FinishKeepsQueue(s.flights.tasks, flights.tasks, t, outcome);
    hide QueueInv;
    IdleKeeps(s, s.(flights := flights));
  }

  // Where a row comes from when an answer has ended: it was there, or this answer stored it.
  ghost predicate Origin(s: System, s': System, t: nat, row: History.Exchange)
    requires t < |s.jobs|
  {
    if row in s.store.rows then (row.id in s'.writers <==> row.id in s.writers) && (row.id in s.writers ==> s'.writers[row.id] == s.writers[row.id])
    else row.id in s'.writers && s'.writers[row.id] == t && WrittenBy(row, s.jobs[t])
  }

  lemma {:induction false} AnswerOrigins(w: World, s: System, t: nat, ending: Ending)
    requires History.StoreInv(s.store) && t < |s.jobs| && s.jobs[t].Answer? && ending.stores
    ensures
      var s' := Committed(w, s, t, ending);
      && s.store.nextId <= s'.store.nextId
      && s'.writers == (if s'.store.nextId > s.store.nextId then s.writers[s.store.nextId := t] else s.writers)
      && forall row :: row in s'.store.rows ==> Origin(s, s', t, row)
  {
    var operation := SaveOf(w, s.jobs[t], ending);
    History.SaveAddsOneRow(s.store, operation.request, operation.stamped, operation.now);
    hide History.Save, History.WithinCaps, History.Saves;
    var s' := Committed(w, s, t, ending);
    forall row | row in s'.store.rows
      ensures Origin(s, s', t, row)
    {
      if row !in s.store.rows {
        assert row == History.NewRow(s.store, operation.request, operation.stamped);
      }
    }
  }

  // An answer that still executes was asked for after every deletion of its account that has succeeded.
  lemma {:induction false} ExecutingIsLater(w: World, s: System, t: nat, d: nat)
    requires SystemInv(w, s) && t < |s.jobs| && s.jobs[t].Answer? && s.flights.tasks[t].phase == Flights.Executing
    requires Erased(s, d) && s.jobs[d].owner == s.jobs[t].owner
    ensures d < t
  {
    hide Flights.Inv, History.StoreInv, WritersInv, DeletionInv;
    assert Begun(s.flights.tasks[d]);
  }

  lemma {:induction false} AnswerKeepsDeletion(w: World, s: System, t: nat, ending: Ending, d: nat)
    requires SystemInv(w, s) && t < |s.jobs| && s.jobs[t].Answer? && s.flights.tasks[t].phase == Flights.Executing && ending.stores
    requires Erased(s, d)
    ensures Covered(Committed(w, s, t, ending), d)
  {
    hide Flights.Inv, History.StoreInv, History.Barred, History.Step, QueueInv, JobsInv;
    var s' := Committed(w, s, t, ending);
    assert Covered(s, d);
    AnswerOrigins(w, s, t, ending);
    var job := s.jobs[d];
    if d in s.removed {
      History.StepKeepsBar(s.store, SaveOf(w, s.jobs[t], ending), job.owner, job.experiment, job.conversation);
    }
    forall row | row in s'.store.rows && Concerns(row, job)
      ensures row.id in s'.writers && s'.writers[row.id] > d
    {
      assert Origin(s, s', t, row);
      if row !in s.store.rows {
        ExecutingIsLater(w, s, t, d);
      }
    }
  }

  lemma {:induction false} AnswerKeepsWriters(w: World, s: System, t: nat, ending: Ending)
    requires History.StoreInv(s.store) && WritersInv(s) && t < |s.jobs| && s.jobs[t].Answer? && ending.stores
    ensures WritersInv(Committed(w, s, t, ending))
  {
    hide History.StoreInv, History.Step, WrittenBy;
    AnswerOrigins(w, s, t, ending);
    var s' := Committed(w, s, t, ending);
    forall row | row in s'.store.rows && row.id in s'.writers
      ensures WrittenBy(row, s'.jobs[s'.writers[row.id]])
    {
      assert Origin(s, s', t, row);
    }
  }

  lemma {:induction false} AnswerKeepsDeletions(w: World, s: System, t: nat, ending: Ending)
    requires SystemInv(w, s) && t < |s.jobs| && s.jobs[t].Answer? && s.flights.tasks[t].phase == Flights.Executing && ending.stores
    ensures DeletionInv(Committed(w, s, t, ending))
  {
    hide Flights.Inv, History.StoreInv, WritersInv, QueueInv, JobsInv, Committed, Covered;
    var s' := Committed(w, s, t, ending);
    AnswerKeepsRecord(w, s, t, ending);
    forall d: nat | Erased(s', d)
      ensures d < |s'.jobs| && Covered(s', d)
    {
      AnswerKeepsDeletion(w, s, t, ending, d);
    }
  }

  lemma {:induction false} AnswerKeepsRecord(w: World, s: System, t: nat, ending: Ending)
    requires t < |s.jobs| && s.jobs[t].Answer?
    ensures
      var s' := Committed(w, s, t, ending);
      s'.flights == s.flights && s'.jobs == s.jobs && s'.removed == s.removed
  {
  }

  lemma {:induction false} AnswerKeepsInv(w: World, s: System, t: nat, ending: Ending)
    requires SystemInv(w, s) && t < |s.jobs| && s.jobs[t].Answer? && s.flights.tasks[t].phase == Flights.Executing
    ensures SystemInv(w, Committed(w, s, t, ending))
  {
    if ending.stores {
      AnswerStoreKeepsInv(w, s, t, ending);
      AnswerKeepsDeletions(w, s, t, ending);
      AnswerKeepsWriters(w, s, t, ending);
      AnswerKeepsRecord(w, s, t, ending);
      hide Committed, Flights.Inv, History.StoreInv, WritersInv, DeletionInv, QueueInv, JobsInv;
    }
  }

  lemma {:induction false} AnswerStoreKeepsInv(w: World, s: System, t: nat, ending: Ending)
    requires History.StoreInv(s.store) && t < |s.jobs| && s.jobs[t].Answer? && ending.stores
    ensures History.StoreInv(Committed(w, s, t, ending).store)
  {
    hide History.StoreInv, History.Step;
    History.StepKeepsInv(s.store, SaveOf(w, s.jobs[t], ending));
  }

  // The rows only become fewer, and no marker is lost.
  lemma {:induction false} FewerRowsKeep(s: System, s': System)
    requires WritersInv(s) && s'.writers == s.writers && s'.jobs == s.jobs && s.store.nextId <= s'.store.nextId
    requires forall row :: row in s'.store.rows ==> row in s.store.rows
    ensures WritersInv(s')
  {
  }

  lemma {:induction false} ErasureCoversItself(s: System, s': System, t: nat)
    requires t < |s.jobs| && s.jobs[t].Erase? && s'.jobs == s.jobs && t !in s.removed
    requires
      var (job, deletion) := (s.jobs[t], History.DeleteConversation(s.store, s.jobs[t].owner, s.jobs[t].experiment, s.jobs[t].conversation));
      s'.store == deletion.0 && s'.removed == if deletion.1 then s.removed + {t} else s.removed
    ensures Covered(s', t)
  {
    var job := s.jobs[t];
    History.KeepIsSubset(s.store.rows, History.Outside(job.owner, job.experiment, job.conversation));
    if History.DeleteConversation(s.store, job.owner, job.experiment, job.conversation).1 {
      hide History.DeleteConversation;
      History.DeletedIsBarred(s.store, job.owner, job.experiment, job.conversation);
    }
  }

  lemma {:induction false} ErasureKeepsOthers(w: World, s: System, t: nat, ending: Ending, d: nat)
    requires SystemInv(w, s) && t < |s.jobs| && s.jobs[t].Erase? && ending.outcome.Returned? && d != t && Erased(s, d)
    ensures Covered(Committed(w, s, t, ending), d)
  {
    hide Flights.Inv, History.StoreInv, History.Barred, QueueInv, JobsInv, WritersInv;
    var other, job := s.jobs[t], s.jobs[d];
    assert Covered(s, d);
    History.KeepIsSubset(s.store.rows, History.Outside(other.owner, other.experiment, other.conversation));
    if d in s.removed {
      hide History.DeleteConversation;
      History.StepKeepsBar(s.store, History.DeleteOne(other.owner, other.experiment, other.conversation),
                           job.owner, job.experiment, job.conversation);
    }
  }

  lemma {:induction false} ErasureKeepsInv(w: World, s: System, t: nat, flights: Flights.State, ending: Ending)
    requires SystemInv(w, s) && Flights.Inv(w.limits, flights)
    requires OnlyChanges(s.flights.tasks, flights.tasks, t) && flights.tasks[t].phase == Flights.Finished(ending.outcome)
    requires s.flights.tasks[t].phase == Flights.Executing && s.jobs[t].Erase? && ending.outcome.Returned?
    ensures SystemInv(w, Committed(w, s, t, ending).(flights := flights))
  {
    hide Flights.Inv, History.StoreInv, KeyOf, Covered, History.DeleteConversation;
    var job := s.jobs[t];
    var deletion := History.DeleteOne(job.owner, job.experiment, job.conversation);
    History.StepKeepsInv(s.store, deletion);
    FinishKeepsQueue(s.flights.tasks, flights.tasks, t, ending.outcome);
    hide QueueInv;
    var c := Committed(w, s, t, ending);
    var s' := c.(flights := flights);
    DeletedRowsAreFewer(s.store, job.owner, job.experiment, job.conversation);
    FewerRowsKeep(s, s');
    assert t !in s.removed by { assert !Erased(s, t); }
    ErasureCoversItself(s, c, t);
    forall d: nat | Erased(s', d)
      ensures d < |s'.jobs| && Covered(s', d)
    {
      if d != t {
        assert Erased(s, d);
        ErasureKeepsOthers(w, s, t, ending, d);
      }
      CoveredFrame(c, s', d);
    }
    forall d: nat | d in s'.removed
      ensures Erased(s', d)
    {
      assert d != t ==> Erased(s, d);
    }
  }

  lemma {:induction false} CoveredFrame(s: System, s': System, d: nat)
    requires d < |s.jobs| && s'.jobs == s.jobs && s'.store == s.store && s'.removed == s.removed && s'.writers == s.writers
    ensures Covered(s, d) == Covered(s', d)
  {
  }

  lemma {:induction false} DeletedRowsAreFewer(store: History.Store, owner: string, experiment: string, conversation: string)
    ensures
      var store' := History.DeleteConversation(store, owner, experiment, conversation).0;
      store'.nextId == store.nextId && forall row :: row in store'.rows ==> row in store.rows
  {
    History.KeepIsSubset(store.rows, History.Outside(owner, experiment, conversation));
  }

  lemma {:induction false} SettleKeepsInv(w: World, s: System, t: nat, ending: Ending, delay: real)
    requires ValidWorld(w) && SystemInv(w, s) && t < |s.jobs|
    ensures SystemInv(w, Settled(w, s, t, ending, delay))
  {
    hide Flights.Inv, Flights.Step, History.StoreInv, WritersInv, DeletionInv, QueueInv, Committed;
    var flights := Coordinated(w, s, Flights.FinishTask(t, ending.outcome), delay);
    Flights.StepKeepsInv(w.limits, s.flights, Flights.Event(Flights.FinishTask(t, ending.outcome), delay));
    FinishChangesOne(w.limits, s.flights, t, ending.outcome, delay);
    if s.flights.tasks[t].phase == Flights.Executing {
      Flights.UnfinishedHasLock(w.limits, s.flights, t);
      if s.jobs[t].Answer? {
        AnswerKeepsInv(w, s, t, ending);
        AnswerKeepsRecord(w, s, t, ending);
        EndKeepsInv(w, Committed(w, s, t, ending), t, flights, ending.outcome);
      } else if ending.outcome.Returned? {
        ErasureKeepsInv(w, s, t, flights, ending);
      } else {
        FailedErasureStoresNothing(w, s, t, ending);
        EndKeepsInv(w, s, t, flights, ending.outcome);
      }
    } else if flights.tasks[t].phase == s.flights.tasks[t].phase {
      QuietKeepsInv(w, s, flights);
    } else {
      EndKeepsInv(w, s, t, flights, ending.outcome);
    }
  }

  lemma {:induction false} FailedErasureStoresNothing(w: World, s: System, t: nat, ending: Ending)
    requires t < |s.jobs| && s.jobs[t].Erase? && !ending.outcome.Returned?
    ensures Committed(w, s, t, ending) == s
  {
  }

  // Retention and the life of experiments, at any time.
  lemma {:induction false} ElsewhereKeepsInv(w: World, s: System, operation: History.Operation)
    requires SystemInv(w, s) && !operation.SaveExchange? && !operation.DeleteOne?
    ensures SystemInv(w, s.(store := History.Step(s.store, operation)))
  {
    hide Flights.Inv, History.StoreInv, QueueInv, JobsInv, History.Step;
    History.StepKeepsInv(s.store, operation);
    History.StepAddsOneRow(s.store, operation);
    History.StepIssuesIds(s.store, operation);
    var s' := s.(store := History.Step(s.store, operation));
    FewerRowsKeep(s, s');
    hide WritersInv;
    forall d: nat | Erased(s', d)
      ensures d < |s'.jobs| && Covered(s', d)
    {
      assert Erased(s, d) && Covered(s, d);
      if d in s.removed {
        hide History.Barred;
        History.StepKeepsBar(s.store, operation, s.jobs[d].owner, s.jobs[d].experiment, s.jobs[d].conversation);
      }
    }
  }

  lemma {:induction false} StepKeepsInv(w: World, s: System, event: Event)
    requires ValidWorld(w) && SystemInv(w, s)
    ensures SystemInv(w, Step(w, s, event))
  {
    hide SystemInv, Submitted, Settled, Flights.Inv;
    match event.action
    case Submit(job) => SubmitKeepsInv(w, s, job, event.delay);
    case Start(t) => if MayStart(s.flights.tasks, t) { StartKeepsInv(w, s, t, event.delay); }
    case Settle(t, ending) => if t < |s.jobs| == |s.flights.tasks| { SettleKeepsInv(w, s, t, ending, event.delay); }
    case Coordinate(action) =>
      if action.CleanupFlight? || action.PurgeExpired? || action.ClearPrincipal? {
        CoordinationIsQuiet(w.limits, s.flights, action, event.delay);
        CoordinateKeepsInv(w, s, action, event.delay);
      }
    case Elsewhere(operation) =>
      if !operation.SaveExchange? && !operation.DeleteOne? { ElsewhereKeepsInv(w, s, operation); }
  }

  lemma {:induction false} CoordinateKeepsInv(w: World, s: System, action: Flights.Action, delay: real)
    requires ValidWorld(w) && SystemInv(w, s)
    requires action.CleanupFlight? || action.PurgeExpired? || action.ClearPrincipal?
    ensures SystemInv(w, s.(flights := Coordinated(w, s, action, delay)))
  {
    hide Flights.Inv, History.StoreInv, WritersInv, DeletionInv, QueueInv, Quiet;
    CoordinationIsQuiet(w.limits, s.flights, action, delay);
    Flights.StepKeepsInv(w.limits, s.flights, Flights.Event(action, delay));
    QuietKeepsInv(w, s, Coordinated(w, s, action, delay));
  }

  lemma {:induction false} RunInv(w: World, past: seq<History.Operation>, events: seq<Event>)
    requires ValidWorld(w)
    ensures SystemInv(w, Run(w, past, events))
  {
    if events == [] {
      hide Flights.Inv, History.StoreInv;
      Flights.RunInv(w.limits, []);
      History.RunInv(past);
    } else {
      hide SystemInv, Step;
      RunInv(w, past, events[..|events| - 1]);
      StepKeepsInv(w, Run(w, past, events[..|events| - 1]), events[|events| - 1]);
    }
  }

  /*** What a successful deletion promises ***/

  // The operations of an account begin in the order in which they were asked for, one after the other.
  lemma {:induction false} OperationsRunInOrder(w: World, past: seq<History.Operation>, events: seq<Event>, a: nat, b: nat)
    requires ValidWorld(w) && a < b < |Run(w, past, events).jobs|
    requires Run(w, past, events).jobs[a].owner == Run(w, past, events).jobs[b].owner
    ensures
      var s := Run(w, past, events);
      b < |s.flights.tasks| && (Begun(s.flights.tasks[b]) ==> s.flights.tasks[a].phase.Finished?)
  {
    hide Flights.Inv, History.StoreInv, WritersInv, DeletionInv, Step;
    RunInv(w, past, events);
  }

  // After a successful deletion, now or ever later, everything stored of the conversation comes from an answer that was
  // asked for after the deletion: neither older rows nor answers that were already queued or running are there.
  lemma {:induction false} OnlyLaterAnswersRemain(
    w: World, past: seq<History.Operation>, events: seq<Event>, d: nat, row: History.Exchange)
    requires ValidWorld(w) && Erased(Run(w, past, events), d)
    requires row in Run(w, past, events).store.rows && Concerns(row, Run(w, past, events).jobs[d])
    ensures
      var s := Run(w, past, events);
      && row.id in s.writers && d < s.writers[row.id] < |s.jobs|
      && WrittenBy(row, s.jobs[s.writers[row.id]])
  {
    hide Flights.Inv, History.StoreInv, JobsInv, QueueInv, Step;
    RunInv(w, past, events);
    assert Covered(Run(w, past, events), d);
  }

  // What happened stays in the record: jobs keep their place, and deletions keep their success and what they found.
  lemma {:induction false} RecordGrows(w: World, past: seq<History.Operation>, events: seq<Event>, more: seq<Event>)
    requires ValidWorld(w)
    ensures
      var s, s' := Run(w, past, events), Run(w, past, events + more);
      s.jobs <= s'.jobs && s.removed <= s'.removed
  {
    if more == [] {
      assert events + more == events;
    } else {
      var front := more[..|more| - 1];
      assert (events + more)[..|events + more| - 1] == events + front;
      RecordGrows(w, past, events, front);
      StepGrowsRecord(w, Run(w, past, events + front), more[|more| - 1]);
    }
  }

  lemma {:induction false} StepGrowsRecord(w: World, s: System, event: Event)
    ensures s.jobs <= Step(w, s, event).jobs && s.removed <= Step(w, s, event).removed
  {
    hide Flights.Step, History.Step, History.DeleteConversation;
  }

  // A deletion that found something is final: in every continuation nothing of the conversation is stored, and every
  // request for an answer in it is refused before the coordinator could replay an old one.
  lemma {:induction false} DeletionOfAnswersIsFinal(
    w: World, past: seq<History.Operation>, events: seq<Event>, more: seq<Event>, d: nat, answer: Job)
    requires ValidWorld(w) && d in Run(w, past, events).removed && d < |Run(w, past, events).jobs|
    requires
      var job := Run(w, past, events).jobs[d];
      answer.Answer? && answer.owner == job.owner && answer.experiment == job.experiment && answer.conversation == job.conversation
    ensures
      var s, later := Run(w, past, events), Run(w, past, events + more);
      && (forall row :: row in later.store.rows ==> !Concerns(row, s.jobs[d]))
      && !Admissible(later.store, answer)
  {
    hide Flights.Inv, History.StoreInv, WritersInv, JobsInv, QueueInv, Step;
    RecordGrows(w, past, events, more);
    RunInv(w, past, events + more);
    var later := Run(w, past, events + more);
    assert Erased(later, d) && Covered(later, d);
  }

  // What the coordinator answers to an admissible request.
  function ReplyTo(w: World, s: System, job: Job, now: real): Flights.Reply {
    Flights.Execute(w.limits, s.flights, KeyOf(w, job), w.digest(job), now).1
  }

  // An answer of the conversation whose row is still stored.
  ghost predicate Stores(s: System, t: nat, job: Job)
    requires t < |s.jobs|
  {
    && s.jobs[t].Answer? && s.jobs[t].owner == job.owner && s.jobs[t].experiment == job.experiment
    && s.jobs[t].conversation == job.conversation
    && exists row :: row in s.store.rows && row.id in s.writers && s.writers[row.id] == t
  }

  // A deletion that is reported as successful without waiting was carried out before. It leaves something of the
  // conversation stored exactly when it had found nothing and an answer that was asked for after it is still stored.
  lemma {:induction false} ReportedDeletionWasCarriedOut(
    w: World, past: seq<History.Operation>, events: seq<Event>, job: Job, now: real) returns (d: nat)
    requires ValidWorld(w) && now >= Run(w, past, events).flights.clock && job.Erase?
    requires
      var reply := ReplyTo(w, Run(w, past, events), job, now);
      reply.Replay? && reply.outcome.Returned?
    ensures
      var s := Run(w, past, events);
      && Erased(s, d) && s.jobs[d] == job
      && (forall row :: row in s.store.rows && Concerns(row, job) ==> row.id in s.writers && s.writers[row.id] > d)
      && ((exists row :: row in s.store.rows && Concerns(row, job)) <==>
            d !in s.removed && exists t: nat :: d < t < |s.jobs| && Stores(s, t, job))
  {
    hide Flights.Inv, History.StoreInv, QueueInv, Step, Flights.Purge, KeyOf;
    var s := Run(w, past, events);
    RunInv(w, past, events);
    var purged := Flights.Purge(s.flights, now);
    Flights.PurgeKeepsInv(w.limits, s.flights, now);
    PurgeIsQuiet(s.flights, now);
    Flights.CachedServes(w.limits, purged, KeyOf(w, job));
    d := purged.completed[KeyOf(w, job)].task;
    assert w.digest(s.jobs[d]) == w.digest(job);
    assert Erased(s, d) && Covered(s, d);
    hide Flights.Execute, JobsInv;
    RemainsOfConversation(s, d);
  }

  lemma {:induction false} RemainsOfConversation(s: System, d: nat)
    requires d < |s.jobs| && s.jobs[d].Erase? && Covered(s, d) && WritersInv(s)
    ensures (exists row :: row in s.store.rows && Concerns(row, s.jobs[d])) <==>
            d !in s.removed && exists t: nat :: d < t < |s.jobs| && Stores(s, t, s.jobs[d])
  {
    var job := s.jobs[d];
    if exists row :: row in s.store.rows && Concerns(row, job) {
      var row :| row in s.store.rows && Concerns(row, job);
      assert Stores(s, s.writers[row.id], job);
    }
    if t: nat :| d < t < |s.jobs| && Stores(s, t, job) {
      var row :| row in s.store.rows && row.id in s.writers && s.writers[row.id] == t;
      assert Concerns(row, job);
    }
  }

  // A deletion that finds nothing leaves no marker, so an answer can be asked for afterwards; for as long as the outcome
  // of the deletion is cached, deleting again reports success and leaves whatever is stored by then.
  lemma {:induction false} RepeatedDeletionIsReplayed(
    w: World, past: seq<History.Operation>, events: seq<Event>, d: nat, delay: real)
    requires ValidWorld(w) && Erased(Run(w, past, events), d) && Run(w, past, events).flights.tasks[d].fate.Cached? && delay > 0.0
    requires
      var flights := Run(w, past, events).flights;
      flights.clock + delay < flights.tasks[d].fate.cleanedAt + w.limits.ttl
    ensures
      var s := Run(w, past, events);
      && ReplyTo(w, s, s.jobs[d], s.flights.clock + delay) == Flights.Replay(s.flights.tasks[d].phase.outcome)
      && Run(w, past, events + [Event(Submit(s.jobs[d]), delay)]).store == s.store
  {
    hide Run, SystemInv, Step, ReplyTo, ValidWorld, Flights.Execute;
    var s := Run(w, past, events);
    RunSteps(w, past, events, Event(Submit(s.jobs[d]), delay));
    RunInv(w, past, events);
    SubmitStoresNothing(w, s, s.jobs[d], delay);
    CachedIsReplayed(w, s, d, s.flights.clock + delay);
  }

  lemma {:induction false} SubmitStoresNothing(w: World, s: System, job: Job, delay: real)
    ensures Step(w, s, Event(Submit(job), delay)).store == s.store
  {
    hide Flights.Step;
  }

  lemma {:induction false} CachedIsReplayed(w: World, s: System, d: nat, now: real)
    requires SystemInv(w, s) && Erased(s, d) && s.flights.tasks[d].fate.Cached?
    requires now < s.flights.tasks[d].fate.cleanedAt + w.limits.ttl
    ensures ReplyTo(w, s, s.jobs[d], now) == Flights.Replay(s.flights.tasks[d].phase.outcome)
  {
    hide Flights.FlightsInv, Flights.LocksInv, Flights.HoldersInv, Flights.OrderInv, Flights.TimesInv, Flights.SuccessionInv;
    hide History.StoreInv, WritersInv, DeletionInv, QueueInv, KeyOf;
    var key := KeyOf(w, s.jobs[d]);
    assert key in s.flights.completed && s.flights.completed[key].task == d;
    assert Flights.EntryInv(w.limits, s.flights.tasks, key, s.flights.completed[key]);
    assert key in Flights.SurvivingEntries(s.flights.completed, now);
  }

  /*** A concrete run ***/

  const DELETION := Erase("o", "e", "c")
  const ANSWER := Answer("o", "e", "c", "q", "body")

  function Deleted(): Ending { Ending(Flights.Returned("deleted"), false, "", true, 0, 0) }

  function Answered(): Ending { Ending(Flights.Returned("answer"), true, "text", true, 0, 0) }

  // A deletion finds nothing and is retired; then an answer is asked for and stored.
  function Repeated(w: World): seq<Event> {
    [Event(Submit(DELETION), 0.0), Event(Start(0), 0.0), Event(Settle(0, Deleted()), 0.0),
     Event(Coordinate(Flights.CleanupFlight(KeyOf(w, DELETION), 0)), 0.0),
     Event(Submit(ANSWER), 0.0), Event(Start(1), 0.0), Event(Settle(1, Answered()), 0.0)]
  }

  function CompletedExperiment(): seq<History.Operation> {
    [History.AddOne("e", "o"), History.FinishOne("e", true)]
  }

  lemma {:induction false} StoreWithExperiment()
    ensures History.Run(CompletedExperiment()) == StoredExperiment()
  {
    var past := CompletedExperiment();
    assert past[..1] == [History.AddOne("e", "o")] && past[..1][..0] == [];
    assert History.Run(past[..1]) == History.Store([], {}, map["e" := History.Experiment("o", false)], {"e"}, 1);
  }

  lemma {:induction false} RunSteps(w: World, past: seq<History.Operation>, events: seq<Event>, event: Event)
    ensures Run(w, past, events + [event]) == Step(w, Run(w, past, events), event)
  {
    assert (events + [event])[..|events|] == events;
  }

  // The coordinator with one flight, or with its outcome cached.
  function OneFlight(w: World, phase: Flights.Phase, startedAt: Option<real>): Flights.State {
    var key := KeyOf(w, DELETION);
    Flights.State(
      [Flights.Task(key, w.digest(DELETION), 0, phase, 0.0, startedAt, Flights.InFlight)],
      map[key := Flights.ActiveFlight(w.digest(DELETION), 0)], map[], map["o" := 0],
      [if phase == Flights.Executing then Some(0) else None], 0, 0.0)
  }

  function OneOutcome(w: World): Flights.State {
    var key, outcome := KeyOf(w, DELETION), Flights.Returned("deleted");
    Flights.State(
      [Flights.Task(key, w.digest(DELETION), 0, Flights.Finished(outcome), 0.0, Some(0.0), Flights.Cached(0.0))],
      map[], map[key := Flights.CompletedFlight(w.digest(DELETION), outcome, w.limits.ttl, 0, 0)], map[], [None], 1, 0.0)
  }

  lemma {:induction false} DeletionLaunches(w: World)
    requires ValidWorld(w)
    ensures
      var action := Flights.ExecuteRequest(KeyOf(w, DELETION), w.digest(DELETION));
      Flights.Step(w.limits, Flights.Run(w.limits, []), Flights.Event(action, 0.0)) == OneFlight(w, Flights.Waiting, None)
  {
    var empty := Flights.Run(w.limits, []);
    assert Flights.Purge(empty, 0.0) == empty;
    hide Flights.Purge;
  }

  lemma {:induction false} DeletionRetires(w: World)
    requires ValidWorld(w)
    ensures
      var finished := OneFlight(w, Flights.Finished(Flights.Returned("deleted")), Some(0.0));
      var action := Flights.CleanupFlight(KeyOf(w, DELETION), 0);
      Flights.Step(w.limits, finished, Flights.Event(action, 0.0)) == OneOutcome(w)
  {
    hide Flights.Oldest;
    var finished, key := OneFlight(w, Flights.Finished(Flights.Returned("deleted")), Some(0.0)), KeyOf(w, DELETION);
    assert Flights.MakeRoom(w.limits, finished) == finished;
    var retired := Flights.Retire(w.limits, finished, key, 0, 0.0);
    assert retired == OneOutcome(w).(principalLocks := map["o" := 0]);
    assert map["o" := 0] - {"o"} == map[];
  }

  function StoredExperiment(): History.Store {
    History.Store([], {}, map["e" := History.Experiment("o", true)], {"e"}, 1)
  }

  function InFlight(w: World, phase: Flights.Phase, startedAt: Option<real>): System {
    System(OneFlight(w, phase, startedAt), [DELETION], {}, StoredExperiment(), map[])
  }

  lemma {:induction false} DeletionIsSubmitted(w: World)
    requires ValidWorld(w)
    ensures
      var s := System(Flights.Run(w.limits, []), [], {}, StoredExperiment(), map[]);
      Step(w, s, Event(Submit(DELETION), 0.0)) == InFlight(w, Flights.Waiting, None)
  {
    hide Flights.Step, KeyOf;
    DeletionLaunches(w);
  }

  lemma {:induction false} DeletionStarts(w: World)
    ensures Step(w, InFlight(w, Flights.Waiting, None), Event(Start(0), 0.0)) == InFlight(w, Flights.Executing, Some(0.0))
  {
    hide KeyOf;
  }

  lemma {:induction false} DeletionEnds(w: World)
    ensures
      Step(w, InFlight(w, Flights.Executing, Some(0.0)), Event(Settle(0, Deleted()), 0.0)) ==
      InFlight(w, Flights.Finished(Flights.Returned("deleted")), Some(0.0))
  {
    hide KeyOf;
  }

  lemma {:induction false} DeletionIsRetired(w: World)
    requires ValidWorld(w)
    ensures
      var s := InFlight(w, Flights.Finished(Flights.Returned("deleted")), Some(0.0));
      Step(w, s, Event(Coordinate(Flights.CleanupFlight(KeyOf(w, DELETION), 0)), 0.0)) ==
      System(OneOutcome(w), [DELETION], {}, StoredExperiment(), map[])
  {
    hide Flights.Step, KeyOf;
    DeletionRetires(w);
  }

  // The deletion has been carried out and its outcome is cached.
  lemma {:induction false} AfterDeletion(w: World)
    requires ValidWorld(w)
    ensures
      Run(w, CompletedExperiment(), Repeated(w)[..4]) ==
      System(OneOutcome(w), [DELETION], {}, StoredExperiment(), map[])
  {
    var past, events := CompletedExperiment(), Repeated(w);
    StoreWithExperiment();
    assert Run(w, past, []) == System(Flights.Run(w.limits, []), [], {}, StoredExperiment(), map[]) by {
      hide History.Run, CompletedExperiment;
    }
    hide CompletedExperiment, History.Run, Flights.Run, KeyOf, Run, Step, ValidWorld, OneFlight, OneOutcome, StoredExperiment;
    assert events[..1] == [] + [events[0]] && events[..2] == events[..1] + [events[1]];
    assert events[..3] == events[..2] + [events[2]] && events[..4] == events[..3] + [events[3]];
    RunSteps(w, past, [], events[0]);
    RunSteps(w, past, events[..1], events[1]);
    RunSteps(w, past, events[..2], events[2]);
    RunSteps(w, past, events[..3], events[3]);
    DeletionIsSubmitted(w);
    DeletionStarts(w);
    DeletionEnds(w);
    DeletionIsRetired(w);
  }

  lemma {:induction false} FirstSaveIsStored(w: World)
    ensures
      var after := History.Step(StoredExperiment(), SaveOf(w, ANSWER, Answered()));
      && after.nextId == 2
      && exists row :: row in after.rows && Concerns(row, DELETION)
  {
    var request := SaveOf(w, ANSWER, Answered()).request;
    var row := History.NewRow(StoredExperiment(), request, 0);
    assert History.PruneOwner([], "o", 0) == [];
    History.NewestSurvivesItsPrune([row], row, 0);
    assert [] + [row] == [row];
    hide History.PruneOwner;
    assert Concerns(row, DELETION);
  }

  // The coordinator with the cached outcome of the deletion and the flight of the answer.
  function OutcomeAndFlight(w: World, phase: Flights.Phase, startedAt: Option<real>): Flights.State {
    var key := KeyOf(w, ANSWER);
    OneOutcome(w).(
      tasks := OneOutcome(w).tasks + [Flights.Task(key, w.digest(ANSWER), 1, phase, 0.0, startedAt, Flights.InFlight)],
      active := map[key := Flights.ActiveFlight(w.digest(ANSWER), 1)], principalLocks := map["o" := 1],
      holders := [None, if phase == Flights.Executing then Some(1) else None])
  }

  function Answering(w: World, phase: Flights.Phase, startedAt: Option<real>): System {
    System(OutcomeAndFlight(w, phase, startedAt), [DELETION, ANSWER], {}, StoredExperiment(), map[])
  }

  lemma {:induction false} AnswerLaunches(w: World)
    requires ValidWorld(w) && w.deletionId("c") != "q"
    ensures
      var action := Flights.ExecuteRequest(KeyOf(w, ANSWER), w.digest(ANSWER));
      Flights.Step(w.limits, OneOutcome(w), Flights.Event(action, 0.0)) == OutcomeAndFlight(w, Flights.Waiting, None)
  {
    var flights := OneOutcome(w);
    assert Flights.SurvivingEntries(flights.completed, 0.0) == flights.completed;
    assert Flights.Purge(flights, 0.0) == flights;
    hide Flights.Purge;
  }

  lemma {:induction false} AnswerIsSubmitted(w: World)
    requires ValidWorld(w) && w.deletionId("c") != "q"
    ensures
      var s := System(OneOutcome(w), [DELETION], {}, StoredExperiment(), map[]);
      Step(w, s, Event(Submit(ANSWER), 0.0)) == Answering(w, Flights.Waiting, None)
  {
    AnswerLaunches(w);
    hide Flights.Step, KeyOf;
  }

  lemma {:induction false} AnswerStarts(w: World)
    ensures Step(w, Answering(w, Flights.Waiting, None), Event(Start(1), 0.0)) == Answering(w, Flights.Executing, Some(0.0))
  {
    hide KeyOf;
  }

  lemma {:induction false} ReplayOfCached(w: World, s: System, outcome: Flights.Outcome)
    requires KeyOf(w, DELETION) in s.flights.completed
    requires
      var entry := s.flights.completed[KeyOf(w, DELETION)];
      entry.requestHash == w.digest(DELETION) && entry.outcome == outcome && entry.expiresAt > s.flights.clock
    ensures ReplyTo(w, s, DELETION, s.flights.clock) == Flights.Replay(outcome)
  {
  }

  lemma {:induction false} AnswerSettles(w: World, s: System)
    requires s.jobs == [DELETION, ANSWER] && |s.flights.tasks| == 2 && s.flights.tasks[1].phase == Flights.Executing
    ensures
      var s' := Step(w, s, Event(Settle(1, Answered()), 0.0));
      && s'.store == History.Step(s.store, SaveOf(w, ANSWER, Answered()))
      && s'.flights.completed == s.flights.completed && s'.flights.clock == s.flights.clock
  {
    hide History.Step;
  }

  // The retry of a deletion can report success while an answer of the conversation stays stored.
  lemma {:induction false} RepeatedDeletionLeavesAnswer(w: World)
    requires ValidWorld(w) && w.deletionId("c") != "q"
    ensures
      var s := Run(w, CompletedExperiment(), Repeated(w));
      && ReplyTo(w, s, DELETION, s.flights.clock) == Flights.Replay(Flights.Returned("deleted"))
      && exists row :: row in s.store.rows && Concerns(row, DELETION)
  {
    hide CompletedExperiment, History.Run, KeyOf, Run, Step, ReplyTo, Concerns, History.Step, StoredExperiment, ValidWorld;
    var past, events := CompletedExperiment(), Repeated(w);
    assert events[..5] == events[..4] + [events[4]] && events[..6] == events[..5] + [events[5]] && events == events[..6] + [events[6]];
    RunSteps(w, past, events[..4], events[4]);
    RunSteps(w, past, events[..5], events[5]);
    RunSteps(w, past, events[..6], events[6]);
    AfterDeletion(w);
    AnswerIsSubmitted(w);
    AnswerStarts(w);
    FirstSaveIsStored(w);
    AnswerSettles(w, Answering(w, Flights.Executing, Some(0.0)));
    TimeToLive(w);
    ReplayOfCached(w, Run(w, past, events), Flights.Returned("deleted"));
  }

  lemma {:induction false} TimeToLive(w: World)
    ensures ValidWorld(w) ==> w.limits.ttl > 0.0
  {
  }
}
