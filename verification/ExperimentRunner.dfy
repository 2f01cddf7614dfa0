// The crash-safe experiment worker as a step machine over durable and volatile state.
//
// Every action is one database transaction, one in-memory computation, or a fault. A run of the system is any
// sequence of actions, so a crash, a restart, a cancellation or a failure may fall between any two durable writes.

module ExperimentRunner {
  import opened Json
  import opened StoppingRule
  import opened ExperimentRecord

  // A request together with the deterministic simulation it calls.
  datatype Config = Config(
    request: Request,
    plan: Plan,
    simulate: (int, Json, EventPack, seq<Json>) -> Run)

  ghost predicate ValidConfig(cfg: Config) {
    && ValidRule(cfg.plan.rule, cfg.request.seedCount)
    && cfg.plan.seedCount == cfg.request.seedCount
    && forall seed, value, eventPack, signals :: CarriesSeed(cfg.simulate(seed, value, eventPack, signals), seed)
  }

  function Seed(cfg: Config, i: nat): int {
    cfg.request.seedRoot + i * 1009
  }

  function Seeds(cfg: Config): seq<int> {
    seq(cfg.request.seedCount, i requires 0 <= i < cfg.request.seedCount => Seed(cfg, i))
  }

  function BaselineRun(cfg: Config, eventPack: EventPack, cognition: Cognition, i: nat): Run {
    cfg.simulate(Seed(cfg, i), cfg.request.baselineValue, eventPack, cognition.signals)
  }

  function InterventionRun(cfg: Config, eventPack: EventPack, cognition: Cognition, i: nat): Run {
    cfg.simulate(Seed(cfg, i), cfg.request.interventionValue, eventPack, cognition.signals)
  }

  // The row that stores pair i of a run under the given frozen cognition.
  function PairOf(cfg: Config, eventPack: EventPack, cognition: Cognition, i: nat): PairRow {
    PairRow(i, Seed(cfg, i),
            PrepareRun(BaselineRun(cfg, eventPack, cognition, i)),
            PrepareRun(InterventionRun(cfg, eventPack, cognition, i)))
  }

  function PairsOf(cfg: Config, eventPack: EventPack, cognition: Cognition, k: nat): seq<PairRow> {
    seq(k, i requires 0 <= i < k => PairOf(cfg, eventPack, cognition, i))
  }

  /*** The uninterrupted run: the plain loop, without any storage ***/

  datatype Outcome = Outcome(baselineRuns: seq<Run>, interventionRuns: seq<Run>, decision: Decision)

  function Continue(
    cfg: Config, eventPack: EventPack, cognition: Cognition,
    baselineRuns: seq<Run>, interventionRuns: seq<Run>, decision: Decision): (outcome: Outcome)
    requires |baselineRuns| == |interventionRuns| <= cfg.request.seedCount
    decreases cfg.request.seedCount - |baselineRuns|
  {
    if decision.triggered || |baselineRuns| == cfg.request.seedCount then
      Outcome(baselineRuns, interventionRuns, decision)
    else
      var i := |baselineRuns|;
      var baselines := baselineRuns + [CompactRun(BaselineRun(cfg, eventPack, cognition, i))];
      var interventions := interventionRuns + [CompactRun(InterventionRun(cfg, eventPack, cognition, i))];
      Continue(cfg, eventPack, cognition, baselines, interventions,
               NextDecision(cfg.plan, baselines, interventions, decision))
  }

  function Uninterrupted(cfg: Config, eventPack: EventPack, cognition: Cognition): Outcome {
    Continue(cfg, eventPack, cognition, [], [], InitialDecision(cfg.plan))
  }

  // What an uninterrupted run hands to aggregation and to the report.
  function UninterruptedResult(cfg: Config, eventPack: EventPack, cognition: Cognition): Result {
    var outcome := Uninterrupted(cfg, eventPack, cognition);
    ResultOf(cfg, eventPack, cognition, outcome, PairsOf(cfg, eventPack, cognition, |outcome.baselineRuns|))
  }

  function ResultOf(
    cfg: Config, eventPack: EventPack, cognition: Cognition, outcome: Outcome, representatives: seq<PairRow>): Result
  {
    Result(eventPack, Take(Seeds(cfg), |outcome.baselineRuns|), outcome.baselineRuns, outcome.interventionRuns,
           representatives, cognition, outcome.decision)
  }

  /*** State and actions ***/

  datatype Pc =
    | Submitted           // queued in the executor, nothing read yet
    | MigrateLegacy       // a version 1 checkpoint was restored, its rows are not yet written
    | WriteResume         // about to record the resumed checkpoint
    | WriteFresh          // about to record a start from scratch
    | PrepareCognition    // cognition is being prepared, then written with zero pairs
    | PairLoop            // at the head of the loop over pairs
    | RunPaths            // both paths of the next pair are being simulated
    | SavePair            // the pair is in memory, its row is not yet written
    | WriteMetadata       // the row is written, the metadata is not
    | WriteAggregating
    | Aggregate
    | WriteCancelled
    | AuditEnding         // the final status is written, its audit event is not; a failure here is still caught
    | Done

  datatype Worker = Worker(
    pc: Pc,
    eventPack: EventPack,
    cognition: Cognition,
    baselineRuns: seq<Run>,
    interventionRuns: seq<Run>,
    decision: Decision,
    pending: seq<PairRow>)

  // `workers` is the executor queue of this experiment; the single executor thread runs only its head.
  datatype State = State(up: bool, durable: Durable, workers: seq<Worker>)

  datatype Reading = Readable | MetadataUnreadable | PairsUnreadable

  // `StartUnqueued` is a claim whose audit event cannot be appended, so that no worker is submitted. `Die` ends a worker
  // without a write, as when the write that reports its failure fails too.
  datatype Action =
    | Start
    | StartUnqueued
    | Cancel
    | InvalidateResult
    | Begin(eventPack: EventPack, reading: Reading)
    | Migrate
    | Resume
    | Fresh
    | CognitionPrepared(cognition: Cognition)
    | LoopHead
    | PathsFinished
    | PathsCancelled
    | Save
    | Commit
    | EnterAggregation
    | Complete
    | FinishCancelled
    | Audited
    | FailRetryable
    | FailFinal
    | Die
    | Retire
    | Crash
    | Restart

  predicate Live(worker: Worker) {
    worker.pc != Done
  }

  // A live worker that has not written a final status.
  predicate Working(worker: Worker) {
    worker.pc != Done && worker.pc != AuditEnding
  }

  function NewWorker(cfg: Config): Worker {
    Worker(Submitted, EventPack.EventPack(""), Cognition([], Null), [], [], InitialDecision(cfg.plan), [])
  }

  function WithHead(s: State, worker: Worker): State
    requires s.workers != []
  {
    s.(workers := [worker] + s.workers[1..])
  }

  function Fail(s: State, status: Status): State
    requires s.workers != []
  {
    WithHead(s, s.workers[0].(pc := Done)).(durable := s.durable.(status := status))
  }

  function MetadataFor(cfg: Config, worker: Worker): Checkpoint {
    MetadataV2(Sha256(cfg.request), Sha256(worker.eventPack), Sha256(Seeds(cfg)),
               |worker.baselineRuns|, worker.cognition, worker.decision)
  }

  function PrepareAll(runs: seq<Run>): seq<Run> {
    seq(|runs|, i requires 0 <= i < |runs| => PrepareRun(runs[i]))
  }

  function CompactAll(runs: seq<Run>): seq<Run> {
    seq(|runs|, i requires 0 <= i < |runs| => CompactRun(runs[i]))
  }

  function MigratedRows(cfg: Config, baselineRuns: seq<Run>, interventionRuns: seq<Run>): seq<PairRow>
    requires |baselineRuns| == |interventionRuns|
  {
    seq(|baselineRuns|, i requires 0 <= i < |baselineRuns| =>
      PairRow(i, Seed(cfg, i), PrepareRun(baselineRuns[i]), PrepareRun(interventionRuns[i])))
  }

  predicate Normalized(d: Durable, reading: Reading) {
    reading != MetadataUnreadable && d.checkpoint.Some? && d.checkpoint.value.MetadataV2?
  }

  predicate Corrupted(d: Durable, reading: Reading) {
    reading == MetadataUnreadable || (Normalized(d, reading) && reading == PairsUnreadable)
  }

  // The worker reads the row once; pairs that cannot be read are as good as absent.
  function ReadCheckpoint(cfg: Config, d: Durable, eventPack: EventPack, reading: Reading): Option<Restored> {
    RestoreCheckpoint(
      if reading == MetadataUnreadable then None else d.checkpoint,
      if Normalized(d, reading) && reading == Readable then LoadPairs(d.rows) else [],
      Sha256(cfg.request), Sha256(eventPack), Sha256(Seeds(cfg)), Seeds(cfg))
  }

  function ResumedWorker(cfg: Config, eventPack: EventPack, r: Restored): Worker {
    Worker(
      if r.legacy then MigrateLegacy else WriteResume, eventPack, r.cognition,
      CompactAll(if r.legacy then PrepareAll(r.baselineRuns) else r.baselineRuns),
      CompactAll(if r.legacy then PrepareAll(r.interventionRuns) else r.interventionRuns),
      r.decision,
      if r.legacy && |r.baselineRuns| == |r.interventionRuns| then MigratedRows(cfg, r.baselineRuns, r.interventionRuns) else [])
  }

  // Resume from what was restored, start fresh when nothing was counted, and fail otherwise.
  function BeginWorker(cfg: Config, s: State, eventPack: EventPack, reading: Reading): State
    requires s.workers != []
  {
    var restored := ReadCheckpoint(cfg, s.durable, eventPack, reading);
    if restored.Some? then WithHead(s, ResumedWorker(cfg, eventPack, restored.value))
    else if Corrupted(s.durable, reading) || s.durable.completedPairs > 0 then Fail(s, FailedFinal)
    else WithHead(s, NewWorker(cfg).(pc := WriteFresh, eventPack := eventPack))
  }

  // Both arms of the next pair, on the same seed, appended to the in-memory lists and folded into the decision.
  function RunPair(cfg: Config, worker: Worker): Worker
    requires |worker.baselineRuns| == |worker.interventionRuns|
  {
    var pair := PairOf(cfg, worker.eventPack, worker.cognition, |worker.baselineRuns|);
    var baselines := worker.baselineRuns + [CompactRun(pair.baselineRun)];
    var interventions := worker.interventionRuns + [CompactRun(pair.interventionRun)];
    worker.(pc := SavePair, baselineRuns := baselines, interventionRuns := interventions,
            decision := NextDecision(cfg.plan, baselines, interventions, worker.decision), pending := [pair])
  }

  predicate StoredPairsPresent(rows: seq<PairRow>, k: nat) {
    k <= |rows| && NumberedFrom(rows[..k], 0)
  }

  function CompleteWorker(cfg: Config, s: State): State
    requires s.workers != []
  {
    var worker := s.workers[0];
    var k := |worker.baselineRuns|;
    if !StoredPairsPresent(s.durable.rows, k) then Fail(s, FailedRetryable)
    else
      var result := ResultOf(cfg, worker.eventPack, worker.cognition,
                             Outcome(worker.baselineRuns, worker.interventionRuns, worker.decision), s.durable.rows[..k]);
      WithHead(s, worker.(pc := AuditEnding)).(durable := Finish(s.durable, Completed, k, Some(result)))
  }

  // The program counter at which the head worker takes an action; failures may strike anywhere.
  predicate Enabled(action: Action, worker: Worker) {
    match action
    case Begin(_, _) => worker.pc == Submitted
    case Migrate => worker.pc == MigrateLegacy
    case Resume => worker.pc == WriteResume
    case Fresh => worker.pc == WriteFresh
    case CognitionPrepared(_) => worker.pc == PrepareCognition
    case LoopHead => worker.pc == PairLoop
    case PathsFinished => worker.pc == RunPaths && |worker.baselineRuns| == |worker.interventionRuns|
    case PathsCancelled => worker.pc == RunPaths
    case Save => worker.pc == SavePair && worker.pending != []
    case Commit => worker.pc == WriteMetadata
    case EnterAggregation => worker.pc == WriteAggregating
    case Complete => worker.pc == Aggregate
    case FinishCancelled => worker.pc == WriteCancelled
    case Audited => worker.pc == AuditEnding
    case FailRetryable => Working(worker)
    case FailFinal => Live(worker)
    case Die => Live(worker)
    case Retire => worker.pc == Done
    case _ => false
  }

  // The head worker's in-memory state after an action.
  function NextWorker(cfg: Config, d: Durable, worker: Worker, action: Action): Worker
    requires Enabled(action, worker)
  {
    match action
    case Migrate => worker.(pc := WriteResume)
    case Resume => worker.(pc := PairLoop)
    case Fresh => worker.(pc := PrepareCognition)
    case CognitionPrepared(cognition) => worker.(pc := PairLoop, cognition := cognition)
    case LoopHead =>
      worker.(pc :=
        if worker.decision.triggered || |worker.baselineRuns| >= cfg.request.seedCount then WriteAggregating
        else if d.cancelRequested then WriteCancelled
        else RunPaths)
    case PathsFinished => RunPair(cfg, worker)
    case PathsCancelled => if d.cancelRequested then worker.(pc := WriteCancelled) else worker
    case Save => worker.(pc := WriteMetadata)
    case Commit => worker.(pc := PairLoop)
    case EnterAggregation => worker.(pc := Aggregate)
    case FinishCancelled => worker.(pc := AuditEnding)
    case _ => worker.(pc := Done)
  }

  // The one transaction of an action, if it has one.
  function NextDurable(cfg: Config, d: Durable, worker: Worker, action: Action): Durable
    requires Enabled(action, worker)
  {
    match action
    case Migrate => d.(rows := worker.pending)
    case Resume => d.(status := Running, completedPairs := |worker.baselineRuns|, checkpoint := Some(MetadataFor(cfg, worker)))
    case Fresh => d.(status := Running, completedPairs := 0)
    case CognitionPrepared(cognition) => d.(checkpoint := Some(MetadataFor(cfg, worker.(cognition := cognition))))
    case Save => d.(rows := UpsertPair(d.rows, worker.pending[0]))
    case Commit => d.(completedPairs := |worker.baselineRuns|, checkpoint := Some(MetadataFor(cfg, worker)))
    case EnterAggregation => d.(status := Aggregating)
    case FinishCancelled => Finish(d, Cancelled, |worker.baselineRuns|, None)
    case FailRetryable => d.(status := FailedRetryable)
    case FailFinal => d.(status := FailedFinal)
    case _ => d
  }

  function WorkerStep(cfg: Config, s: State, action: Action): State
    requires s.workers != []
  {
    var worker := s.workers[0];
    if !Enabled(action, worker) then s
    else
      match action
      case Begin(eventPack, reading) => BeginWorker(cfg, s, eventPack, reading)
      case Complete => CompleteWorker(cfg, s)
      case Retire => s.(workers := s.workers[1..])
      case _ => WithHead(s, NextWorker(cfg, s.durable, worker, action)).(durable := NextDurable(cfg, s.durable, worker, action))
  }

  function Step(cfg: Config, s: State, action: Action): State {
    if !s.up then
      if action == Restart then s.(up := true, durable := Recover(s.durable)) else s
    else
      match action
      case Start =>
        if Claimable(s.durable) then s.(durable := Claim(s.durable), workers := s.workers + [NewWorker(cfg)]) else s
      case StartUnqueued => s.(durable := Claim(s.durable))
      case Cancel => s.(durable := RequestCancel(s.durable))
      case InvalidateResult => s.(durable := Invalidate(s.durable))
      case Crash => s.(up := false, workers := [])
      case Restart => s
      case _ => if s.workers == [] then s else WorkerStep(cfg, s, action)
  }

  function Execute(cfg: Config, s: State, actions: seq<Action>): State {
    if actions == [] then s
    else Step(cfg, Execute(cfg, s, actions[..|actions| - 1]), actions[|actions| - 1])
  }

  // An experiment starts as a new row, or as a retryable row left by the version that embedded its runs.
  ghost predicate Initial(cfg: Config, s: State) {
    && s.up && s.workers == []
    && s.durable.result == None
    && (s.durable == Durable(Ready, 0, s.durable.cancelRequested, None, [], None) || LegacyLeftover(cfg, s.durable))
  }

  ghost predicate LegacyLeftover(cfg: Config, d: Durable) {
    && d.status == FailedRetryable && d.rows == []
    && d.checkpoint.Some? && d.checkpoint.value.LegacyV1?
    && d.completedPairs == |d.checkpoint.value.baselineRuns|
    && LegacyInv(cfg, d.checkpoint.value, d.rows)
  }

  /*** Invariants ***/

  // The lists and the decision are what the plain loop has after the same number of pairs: the decision folds the rule
  // over the lists, and no earlier prefix was terminal.
  ghost predicate Faithful(
    cfg: Config, eventPack: EventPack, cognition: Cognition,
    baselineRuns: seq<Run>, interventionRuns: seq<Run>, decision: Decision)
  {
    && |baselineRuns| == |interventionRuns| <= cfg.request.seedCount
    && Continue(cfg, eventPack, cognition, baselineRuns, interventionRuns, decision) == Uninterrupted(cfg, eventPack, cognition)
    && Folded(cfg, baselineRuns, interventionRuns, decision)
  }

  ghost predicate Folded(cfg: Config, baselineRuns: seq<Run>, interventionRuns: seq<Run>, decision: Decision)
    requires |baselineRuns| == |interventionRuns|
  {
    && decision == DecisionAfter(cfg.plan, baselineRuns, interventionRuns, |baselineRuns|)
    && forall j :: 0 <= j < |baselineRuns| ==> !Terminal(cfg.plan, baselineRuns, interventionRuns, j)
  }

  ghost predicate HashesMatch(cfg: Config, checkpoint: Checkpoint) {
    checkpoint.requestHash == Sha256(cfg.request) && checkpoint.seedListHash == Sha256(Seeds(cfg))
  }

  ghost predicate LegacyInv(cfg: Config, c: Checkpoint, rows: seq<PairRow>)
    requires c.LegacyV1?
  {
    var eventPack, k := c.eventPackHash.preimage, |c.baselineRuns|;
    && HashesMatch(cfg, c)
    && |c.interventionRuns| == k <= cfg.request.seedCount
    && CarriesSeeds(c.baselineRuns, Seeds(cfg)) && CarriesSeeds(c.interventionRuns, Seeds(cfg))
    && MigratedRows(cfg, c.baselineRuns, c.interventionRuns) == PairsOf(cfg, eventPack, c.cognition, k)
    && (rows == [] || rows == PairsOf(cfg, eventPack, c.cognition, k))
    && FaithfulRows(cfg, eventPack, c.cognition, PairsOf(cfg, eventPack, c.cognition, k), c.decision)
  }

  // The stored rows are 0..m-1 in order, each on its own seed.
  ghost predicate InOrder(cfg: Config, rows: seq<PairRow>) {
    forall i :: 0 <= i < |rows| ==> rows[i].pairIndex == i && rows[i].seed == Seed(cfg, i)
  }

  // Version 2 metadata counts n pairs; rows 0..m-1 are stored with n <= m <= n + 1, in order and on the right seeds,
  // and every counted row holds the pair run under the one frozen cognition of the metadata.
  ghost predicate MetadataInv(cfg: Config, c: Checkpoint, rows: seq<PairRow>)
    requires c.MetadataV2?
  {
    var eventPack, n := c.eventPackHash.preimage, c.completedPairs;
    && HashesMatch(cfg, c)
    && n <= |rows| <= n + 1
    && n <= cfg.request.seedCount
    && InOrder(cfg, rows)
    && rows[..n] == PairsOf(cfg, eventPack, c.cognition, n)
    && FaithfulRows(cfg, eventPack, c.cognition, rows[..n], c.decision)
  }

  ghost predicate FaithfulRows(cfg: Config, eventPack: EventPack, cognition: Cognition, rows: seq<PairRow>, decision: Decision) {
    Faithful(cfg, eventPack, cognition, Baselines(LoadPairs(rows)), Interventions(LoadPairs(rows)), decision)
  }

  // The completed-pairs column, the checkpoint and the rows agree.
  ghost predicate CheckpointInv(cfg: Config, completedPairs: nat, checkpoint: Option<Checkpoint>, rows: seq<PairRow>) {
    match checkpoint
    case None => completedPairs == 0 && rows == []
    case Some(c) =>
      if c.LegacyV1? then completedPairs == |c.baselineRuns| && LegacyInv(cfg, c, rows)
      else completedPairs == c.completedPairs && MetadataInv(cfg, c, rows)
  }

  // A final status clears the checkpoint; a failure after it leaves a failed row without one.
  ghost predicate DurableInv(cfg: Config, d: Durable) {
    if d.status in {Ready, Completed, Cancelled, Invalidated} || (d.status == FailedFinal && d.checkpoint.None?) then
      d.checkpoint == None && d.rows == []
    else CheckpointInv(cfg, d.completedPairs, d.checkpoint, d.rows)
  }

  ghost predicate ResultInv(cfg: Config, d: Durable) {
    && (d.status in {Completed, Invalidated} ==> d.result.Some?)
    && (d.result.Some? ==>
          && d.status in {Completed, Invalidated, FailedFinal} && d.checkpoint == None
          && FaithfulResult(cfg, d.result.value, d.completedPairs))
  }

  ghost predicate FaithfulResult(cfg: Config, r: Result, completedPairs: nat) {
    r == UninterruptedResult(cfg, r.eventPack, r.cognition) && completedPairs == |r.baselineRuns|
  }

  // The metadata on disk counts n pairs of exactly this worker's run.
  ghost predicate Synced(checkpoint: Option<Checkpoint>, worker: Worker, n: int) {
    && checkpoint.Some? && checkpoint.value.MetadataV2?
    && checkpoint.value.eventPackHash == Sha256(worker.eventPack)
    && checkpoint.value.cognition == worker.cognition
    && checkpoint.value.completedPairs == n
  }

  ghost predicate WorkerFaithful(cfg: Config, worker: Worker) {
    && |worker.baselineRuns| == |worker.interventionRuns| <= cfg.request.seedCount
    && Faithful(cfg, worker.eventPack, worker.cognition, worker.baselineRuns, worker.interventionRuns, worker.decision)
  }

  ghost predicate WorkerInv(cfg: Config, d: Durable, worker: Worker) {
    match worker.pc
    case Submitted => true
    case Done => true
    case MigrateLegacy => MigrateInv(cfg, d.checkpoint, worker)
    case WriteResume => ResumeInv(cfg, d.completedPairs, d.checkpoint, d.rows, worker)
    case WriteFresh => FreshInv(cfg, d.completedPairs, worker)
    case PrepareCognition => FreshInv(cfg, d.completedPairs, worker)
    case PairLoop => CountedInv(cfg, d.checkpoint, d.rows, worker)
    case RunPaths =>
      && CountedInv(cfg, d.checkpoint, d.rows, worker)
      && |worker.baselineRuns| < cfg.request.seedCount && !worker.decision.triggered
    case SavePair =>
      && UncountedInv(cfg, d.checkpoint, d.rows, worker)
      && worker.pending == [PairOf(cfg, worker.eventPack, worker.cognition, |worker.baselineRuns| - 1)]
    case WriteMetadata =>
      && UncountedInv(cfg, d.checkpoint, d.rows, worker)
      && |d.rows| == |worker.baselineRuns|
      && d.rows[|d.rows| - 1] == PairOf(cfg, worker.eventPack, worker.cognition, |d.rows| - 1)
    case WriteAggregating => CountedInv(cfg, d.checkpoint, d.rows, worker) && Terminated(cfg, worker)
    case Aggregate => CountedInv(cfg, d.checkpoint, d.rows, worker) && Terminated(cfg, worker)
    case WriteCancelled => true
    case AuditEnding => true
  }

  ghost predicate Terminated(cfg: Config, worker: Worker) {
    worker.decision.triggered || |worker.baselineRuns| == cfg.request.seedCount
  }

  ghost predicate MigrateInv(cfg: Config, checkpoint: Option<Checkpoint>, worker: Worker) {
    && WorkerFaithful(cfg, worker)
    && checkpoint.Some? && checkpoint.value.LegacyV1?
    && checkpoint.value.eventPackHash == Sha256(worker.eventPack)
    && checkpoint.value.cognition == worker.cognition
    && |checkpoint.value.baselineRuns| == |worker.baselineRuns|
    && worker.pending == PairsOf(cfg, worker.eventPack, worker.cognition, |worker.baselineRuns|)
    && Mirrors(worker.pending, worker)
  }

  ghost predicate ResumeInv(cfg: Config, completedPairs: nat, checkpoint: Option<Checkpoint>, rows: seq<PairRow>, worker: Worker) {
    && WorkerFaithful(cfg, worker)
    && Mirrors(rows, worker)
    && |rows| <= |worker.baselineRuns| + 1
    && InOrder(cfg, rows)
    && rows[..|worker.baselineRuns|] == PairsOf(cfg, worker.eventPack, worker.cognition, |worker.baselineRuns|)
    && checkpoint.Some? && completedPairs == |worker.baselineRuns|
    && checkpoint.value.eventPackHash == Sha256(worker.eventPack)
    && checkpoint.value.cognition == worker.cognition
  }

  // Nothing is counted yet, so a leftover row or an older cognition cannot be mixed into the new run.
  ghost predicate FreshInv(cfg: Config, completedPairs: nat, worker: Worker) {
    && worker.baselineRuns == [] && worker.interventionRuns == []
    && worker.decision == InitialDecision(cfg.plan)
    && completedPairs == 0
  }

  // All in-memory pairs are counted on disk.
  ghost predicate CountedInv(cfg: Config, checkpoint: Option<Checkpoint>, rows: seq<PairRow>, worker: Worker) {
    && WorkerFaithful(cfg, worker)
    && Synced(checkpoint, worker, |worker.baselineRuns|)
    && Mirrors(rows, worker)
  }

  // The last in-memory pair is not counted on disk yet.
  ghost predicate UncountedInv(cfg: Config, checkpoint: Option<Checkpoint>, rows: seq<PairRow>, worker: Worker) {
    var n := |worker.baselineRuns| - 1;
    && 0 <= n <= |rows|
    && WorkerFaithful(cfg, worker)
    && Synced(checkpoint, worker, n)
    && var pair := PairOf(cfg, worker.eventPack, worker.cognition, n);
       && worker.baselineRuns == Baselines(LoadPairs(rows[..n])) + [CompactRun(pair.baselineRun)]
       && worker.interventionRuns == Interventions(LoadPairs(rows[..n])) + [CompactRun(pair.interventionRun)]
  }

  // The in-memory lists are the first rows, reloaded.
  ghost predicate Mirrors(rows: seq<PairRow>, worker: Worker) {
    && |worker.baselineRuns| <= |rows|
    && worker.baselineRuns == Baselines(LoadPairs(rows[..|worker.baselineRuns|]))
    && worker.interventionRuns == Interventions(LoadPairs(rows[..|worker.baselineRuns|]))
  }

  ghost predicate Active(status: Status) {
    status in {Queued, Running, Aggregating, CancelRequested}
  }

  predicate Finished(d: Durable) {
    d.status in {Completed, Cancelled, Invalidated}
  }

  // A live worker keeps the row out of every claimable status.
  ghost predicate Occupies(worker: Worker, status: Status) {
    && (Working(worker) ==> Active(status))
    && (worker.pc == AuditEnding ==> status in {Completed, Cancelled, Invalidated})
  }

  // Only the last submission can be live.
  ghost predicate QueueInv(status: Status, workers: seq<Worker>) {
    && (forall i :: 0 <= i < |workers| - 1 ==> !Live(workers[i]))
    && (workers != [] ==> Occupies(workers[|workers| - 1], status))
    && (|workers| > 1 && Live(workers[|workers| - 1]) ==> workers[|workers| - 1].pc == Submitted)
  }

  ghost predicate Inv(cfg: Config, s: State) {
    && DurableInv(cfg, s.durable)
    && ResultInv(cfg, s.durable)
    && (!s.up ==> s.workers == [])
    && QueueInv(s.durable.status, s.workers)
    && (s.workers != [] ==> WorkerInv(cfg, s.durable, s.workers[0]))
  }

  /*** What an uninterrupted run would have left ***/

  // The worker holds the outcome of an uninterrupted run, and every pair of it is stored.
  ghost predicate HoldsUninterrupted(cfg: Config, rows: seq<PairRow>, w: Worker) {
    var k := |w.baselineRuns|;
    && Uninterrupted(cfg, w.eventPack, w.cognition) == Outcome(w.baselineRuns, w.interventionRuns, w.decision)
    && k <= |rows| && rows[..k] == PairsOf(cfg, w.eventPack, w.cognition, k)
  }

  // A worker that reaches aggregation, and every stored result, is that of an uninterrupted run.
  ghost predicate EquivalentToUninterrupted(cfg: Config, s: State) {
    && (s.durable.status in {Completed, Invalidated} ==> s.durable.result.Some?)
    && (s.durable.result.Some? ==>
          var r := s.durable.result.value;
          && s.durable.status in {Completed, Invalidated, FailedFinal}
          && r == UninterruptedResult(cfg, r.eventPack, r.cognition) && s.durable.completedPairs == |r.baselineRuns|)
    && (s.workers != [] && s.workers[0].pc == Aggregate ==> HoldsUninterrupted(cfg, s.durable.rows, s.workers[0]))
  }

  /*** Every step keeps the invariant ***/

  lemma {:induction false} CompactRows(rows: seq<PairRow>)
    ensures CompactAll(Baselines(LoadPairs(rows))) == Baselines(LoadPairs(rows))
    ensures CompactAll(Interventions(LoadPairs(rows))) == Interventions(LoadPairs(rows))
  {
    forall i | 0 <= i < |rows|
      ensures CompactRun(CompactRun(rows[i].baselineRun)) == CompactRun(rows[i].baselineRun)
      ensures CompactRun(CompactRun(rows[i].interventionRun)) == CompactRun(rows[i].interventionRun)
    {
    }
  }

  lemma {:induction false} LoadOneMore(rows: seq<PairRow>, n: nat)
    requires n < |rows|
    ensures Baselines(LoadPairs(rows[..n + 1])) == Baselines(LoadPairs(rows[..n])) + [CompactRun(rows[n].baselineRun)]
    ensures Interventions(LoadPairs(rows[..n + 1])) == Interventions(LoadPairs(rows[..n])) + [CompactRun(rows[n].interventionRun)]
  {
  }

  // A rule that has not triggered leaves its lists short of the seed count.
  lemma {:induction false} FoldedAtLimit(cfg: Config, b: seq<Run>, i: seq<Run>, decision: Decision)
    requires ValidConfig(cfg) && |b| == |i| && Folded(cfg, b, i, decision)
    ensures decision.triggered <==> Terminal(cfg.plan, b, i, |b|)
    ensures |b| == cfg.request.seedCount ==> decision.triggered
  {
    hide DecisionAfter, Terminal;
    TriggeredExactlyWhenTerminal(cfg.plan, b, i, |b|);
    LimitIsTerminal(cfg, b, i);
  }

  // One more evaluation of the rule is the fold over one more pair, and the prefix before it was not terminal.
  lemma {:induction false} FoldOneMore(
    cfg: Config, b: seq<Run>, i: seq<Run>, decision: Decision, baselineRun: Run, interventionRun: Run)
    requires ValidConfig(cfg) && |b| == |i| && Folded(cfg, b, i, decision) && !decision.triggered
    ensures
      var b', i' := b + [baselineRun], i + [interventionRun];
      Folded(cfg, b', i', NextDecision(cfg.plan, b', i', decision))
  {
    hide NextDecision, TerminalReasons, Terminal;
    var k := |b|;
    var b', i' := b + [baselineRun], i + [interventionRun];
    FoldedAtLimit(cfg, b, i, decision);
    DecisionOfPrefix(cfg.plan, b, i, b', i', k);
    assert b'[..k + 1] == b' && i'[..k + 1] == i';
    forall j | 0 <= j <= k
      ensures !Terminal(cfg.plan, b', i', j)
    {
      TerminalOfPrefix(cfg.plan, b, i, b', i', j);
    }
  }

  lemma {:induction false} TerminalOfPrefix(plan: Plan, b: seq<Run>, i: seq<Run>, b': seq<Run>, i': seq<Run>, j: nat)
    requires |b| == |i| && j <= |b| && |b'| == |i'| && b <= b' && i <= i'
    ensures Terminal(plan, b', i', j) == Terminal(plan, b, i, j)
  {
    assert b[..j] == b'[..j] && i[..j] == i'[..j];
  }

  // Running one more pair keeps the lists on the path of the plain loop.
  lemma {:induction false} RunPairFaithful(cfg: Config, worker: Worker)
    requires ValidConfig(cfg) && WorkerFaithful(cfg, worker)
    requires |worker.baselineRuns| < cfg.request.seedCount && !worker.decision.triggered
    ensures WorkerFaithful(cfg, RunPair(cfg, worker))
  {
    var pair := PairOf(cfg, worker.eventPack, worker.cognition, |worker.baselineRuns|);
    FoldOneMore(cfg, worker.baselineRuns, worker.interventionRuns, worker.decision,
                CompactRun(pair.baselineRun), CompactRun(pair.interventionRun));
    hide Folded;
    CompactAfterStorage(BaselineRun(cfg, worker.eventPack, worker.cognition, |worker.baselineRuns|));
    CompactAfterStorage(InterventionRun(cfg, worker.eventPack, worker.cognition, |worker.baselineRuns|));
  }

  lemma {:induction false} LegacyRestored(cfg: Config, c: Checkpoint, rows: seq<PairRow>, worker: Worker)
    requires c.LegacyV1? && LegacyInv(cfg, c, rows)
    requires c.eventPackHash == Sha256(worker.eventPack)
    requires worker.cognition == c.cognition && worker.decision == c.decision
    requires worker.baselineRuns == CompactAll(PrepareAll(c.baselineRuns))
    requires worker.interventionRuns == CompactAll(PrepareAll(c.interventionRuns))
    requires worker.pending == MigratedRows(cfg, c.baselineRuns, c.interventionRuns)
    ensures MigrateInv(cfg, Some(c), worker)
  {
    assert worker.pending[..|worker.baselineRuns|] == worker.pending;
    assert worker.baselineRuns == Baselines(LoadPairs(worker.pending));
    assert worker.interventionRuns == Interventions(LoadPairs(worker.pending));
  }

  lemma {:induction false} MetadataRestored(cfg: Config, c: Checkpoint, rows: seq<PairRow>, worker: Worker)
    requires c.MetadataV2? && MetadataInv(cfg, c, rows)
    requires c.eventPackHash == Sha256(worker.eventPack)
    requires worker.cognition == c.cognition && worker.decision == c.decision
    requires worker.baselineRuns == CompactAll(Baselines(LoadPairs(rows)[..c.completedPairs]))
    requires worker.interventionRuns == CompactAll(Interventions(LoadPairs(rows)[..c.completedPairs]))
    ensures ResumeInv(cfg, c.completedPairs, Some(c), rows, worker)
  {
    assert LoadPairs(rows)[..c.completedPairs] == LoadPairs(rows[..c.completedPairs]);
    CompactRows(rows[..c.completedPairs]);
  }

  // A live head is the only worker, so a step is judged by the row and the head alone.
  lemma {:induction false} HeadStep(cfg: Config, s: State, d: Durable, worker: Worker)
    requires Inv(cfg, s) && s.workers != [] && Live(s.workers[0])
    requires DurableInv(cfg, d) && ResultInv(cfg, d) && WorkerInv(cfg, d, worker)
    requires Occupies(worker, d.status)
    ensures Inv(cfg, WithHead(s, worker).(durable := d))
  {
  }

  lemma {:induction false} RestoredKeepsInv(cfg: Config, d: Durable, eventPack: EventPack, reading: Reading)
    requires CheckpointInv(cfg, d.completedPairs, d.checkpoint, d.rows)
    requires ReadCheckpoint(cfg, d, eventPack, reading).Some?
    ensures WorkerInv(cfg, d, ResumedWorker(cfg, eventPack, ReadCheckpoint(cfg, d, eventPack, reading).value))
    ensures ResumedWorker(cfg, eventPack, ReadCheckpoint(cfg, d, eventPack, reading).value).pc in {MigrateLegacy, WriteResume}
  {
    hide LegacyInv, MetadataInv, MigrateInv, ResumeInv, CarriesSeeds, Seeds;
    var worker := ResumedWorker(cfg, eventPack, ReadCheckpoint(cfg, d, eventPack, reading).value);
    if d.checkpoint.value.LegacyV1? {
      LegacyRestored(cfg, d.checkpoint.value, d.rows, worker);
    } else {
      assert reading != Readable ==> d.completedPairs == 0 && LoadPairs(d.rows)[..0] == [];
      MetadataRestored(cfg, d.checkpoint.value, d.rows, worker);
    }
  }

  lemma {:induction false} PathsKeepInv(cfg: Config, checkpoint: Option<Checkpoint>, rows: seq<PairRow>, worker: Worker)
    requires ValidConfig(cfg) && CountedInv(cfg, checkpoint, rows, worker)
    requires |worker.baselineRuns| < cfg.request.seedCount && !worker.decision.triggered
    ensures UncountedInv(cfg, checkpoint, rows, RunPair(cfg, worker))
  {
    RunPairFaithful(cfg, worker);
  }

  lemma {:induction false} SavedRows(cfg: Config, worker: Worker, rows: seq<PairRow>)
    requires worker.baselineRuns != [] && |worker.baselineRuns| - 1 <= |rows| <= |worker.baselineRuns|
    requires InOrder(cfg, rows)
    ensures
      var n := |worker.baselineRuns| - 1;
      var pair := PairOf(cfg, worker.eventPack, worker.cognition, n);
      var rows' := UpsertPair(rows, pair);
      |rows'| == n + 1 && rows'[..n] == rows[..n] && rows'[n] == pair && InOrder(cfg, rows')
  {
    UpsertIntoNumbered(rows, PairOf(cfg, worker.eventPack, worker.cognition, |worker.baselineRuns| - 1), 0);
  }

  lemma {:induction false} SaveKeepsInv(cfg: Config, c: Checkpoint, rows: seq<PairRow>, worker: Worker)
    requires c.MetadataV2? && MetadataInv(cfg, c, rows)
    requires UncountedInv(cfg, Some(c), rows, worker)
    ensures
      var pair := PairOf(cfg, worker.eventPack, worker.cognition, |worker.baselineRuns| - 1);
      var rows' := UpsertPair(rows, pair);
      && MetadataInv(cfg, c, rows') && UncountedInv(cfg, Some(c), rows', worker.(pc := WriteMetadata))
      && |rows'| == |worker.baselineRuns| && rows'[|rows'| - 1] == pair
  {
    hide Faithful, PairsOf, PairOf, Baselines, Interventions, LoadPairs;
    SavedRows(cfg, worker, rows);
  }

  lemma {:induction false} CommitKeepsInv(cfg: Config, c: Checkpoint, rows: seq<PairRow>, worker: Worker)
    requires c.MetadataV2? && MetadataInv(cfg, c, rows)
    requires UncountedInv(cfg, Some(c), rows, worker)
    requires |rows| == |worker.baselineRuns|
    requires rows[|rows| - 1] == PairOf(cfg, worker.eventPack, worker.cognition, |rows| - 1)
    ensures MetadataInv(cfg, MetadataFor(cfg, worker), rows)
    ensures CountedInv(cfg, Some(MetadataFor(cfg, worker)), rows, worker.(pc := PairLoop))
  {
    hide Faithful, PairsOf, PairOf, Baselines, Interventions, LoadPairs, InOrder;
    var k := |worker.baselineRuns|;
    LoadOneMore(rows, k - 1);
    OnePairMore(cfg, worker.eventPack, worker.cognition, rows, k);
  }

  lemma {:induction false} OnePairMore(cfg: Config, eventPack: EventPack, cognition: Cognition, rows: seq<PairRow>, k: nat)
    requires 1 <= k == |rows|
    requires rows[..k - 1] == PairsOf(cfg, eventPack, cognition, k - 1) && rows[k - 1] == PairOf(cfg, eventPack, cognition, k - 1)
    ensures rows[..k] == PairsOf(cfg, eventPack, cognition, k)
  {
    hide PairOf;
    assert rows[..k] == rows[..k - 1] + [rows[k - 1]];
  }

  lemma {:induction false} ResumeKeepsInv(cfg: Config, completedPairs: nat, checkpoint: Option<Checkpoint>, rows: seq<PairRow>, worker: Worker)
    requires ResumeInv(cfg, completedPairs, checkpoint, rows, worker)
    ensures MetadataInv(cfg, MetadataFor(cfg, worker), rows)
    ensures CountedInv(cfg, Some(MetadataFor(cfg, worker)), rows, worker.(pc := PairLoop))
  {
  }

  lemma {:induction false} PreparedKeepsInv(cfg: Config, checkpoint: Option<Checkpoint>, rows: seq<PairRow>, worker: Worker)
    requires FreshInv(cfg, 0, worker) && CheckpointInv(cfg, 0, checkpoint, rows)
    ensures MetadataInv(cfg, MetadataFor(cfg, worker), rows)
    ensures CountedInv(cfg, Some(MetadataFor(cfg, worker)), rows, worker.(pc := PairLoop))
  {
    assert rows[..0] == [];
    assert PairsOf(cfg, worker.eventPack, worker.cognition, 0) == [];
  }

  lemma {:induction false} MigrateKeepsInv(cfg: Config, c: Checkpoint, rows: seq<PairRow>, worker: Worker)
    requires c.LegacyV1? && LegacyInv(cfg, c, rows) && MigrateInv(cfg, Some(c), worker)
    ensures LegacyInv(cfg, c, worker.pending)
    ensures ResumeInv(cfg, |c.baselineRuns|, Some(c), worker.pending, worker.(pc := WriteResume))
  {
    assert worker.pending[..|worker.baselineRuns|] == worker.pending;
  }

  // The rows that aggregation asks for are always stored, and it receives what an uninterrupted run hands over.
  lemma {:induction false} AggregationInput(cfg: Config, c: Checkpoint, rows: seq<PairRow>, worker: Worker)
    requires c.MetadataV2? && MetadataInv(cfg, c, rows)
    requires CountedInv(cfg, Some(c), rows, worker) && Terminated(cfg, worker)
    ensures
      var k := |worker.baselineRuns|;
      StoredPairsPresent(rows, k) && HoldsUninterrupted(cfg, rows, worker)
  {
    hide FaithfulRows, PairsOf, Mirrors, Folded, NextDecision;
  }

  // What the completing write stores.
  lemma {:induction false} CompletedRow(cfg: Config, d: Durable, worker: Worker)
    requires DurableInv(cfg, d) && ResultInv(cfg, d) && Active(d.status)
    requires CountedInv(cfg, d.checkpoint, d.rows, worker) && Terminated(cfg, worker)
    ensures
      var k := |worker.baselineRuns|;
      && StoredPairsPresent(d.rows, k) && HoldsUninterrupted(cfg, d.rows, worker)
      && var result := ResultOf(cfg, worker.eventPack, worker.cognition,
                                Outcome(worker.baselineRuns, worker.interventionRuns, worker.decision), d.rows[..k]);
         var d' := Finish(d, Completed, k, Some(result));
         DurableInv(cfg, d') && ResultInv(cfg, d') && result == UninterruptedResult(cfg, worker.eventPack, worker.cognition)
  {
    hide MetadataInv, LegacyInv, WorkerFaithful, Mirrors, PairsOf, Uninterrupted, StoredPairsPresent;
    AggregationInput(cfg, d.checkpoint.value, d.rows, worker);
  }

  lemma {:induction false} CompleteKeepsInv(cfg: Config, s: State)
    requires Inv(cfg, s)
    requires s.workers != [] && s.workers[0].pc == Aggregate
    ensures StoredPairsPresent(s.durable.rows, |s.workers[0].baselineRuns|)
    ensures Inv(cfg, CompleteWorker(cfg, s))
  {
    hide DurableInv, ResultInv, CountedInv, StoredPairsPresent, ResultOf, PairsOf;
    CompletedRow(cfg, s.durable, s.workers[0]);
    var s' := CompleteWorker(cfg, s);
    HeadStep(cfg, s, s'.durable, s'.workers[0]);
  }

  // Actions that put a restored or fresh worker into the loop.
  lemma {:induction false} EnterKeepsInv(cfg: Config, d: Durable, worker: Worker, action: Action)
    requires DurableInv(cfg, d) && Active(d.status)
    requires WorkerInv(cfg, d, worker) && Enabled(action, worker)
    requires action in {Migrate, Resume} || action.CognitionPrepared?
    ensures
      var d' := NextDurable(cfg, d, worker, action);
      DurableInv(cfg, d') && WorkerInv(cfg, d', NextWorker(cfg, d, worker, action)) && Active(d'.status)
  {
    hide LegacyInv, MetadataInv, WorkerFaithful, Mirrors, PairsOf, InOrder;
    match action
    case Migrate => MigrateKeepsInv(cfg, d.checkpoint.value, d.rows, worker);
    case Resume => ResumeKeepsInv(cfg, d.completedPairs, d.checkpoint, d.rows, worker);
    case CognitionPrepared(cognition) => PreparedKeepsInv(cfg, d.checkpoint, d.rows, worker.(cognition := cognition));
  }

  lemma {:induction false} PathsFinishedKeepsInv(cfg: Config, d: Durable, worker: Worker)
    requires ValidConfig(cfg)
    requires DurableInv(cfg, d) && Active(d.status)
    requires WorkerInv(cfg, d, worker) && Enabled(PathsFinished, worker)
    ensures
      var d' := NextDurable(cfg, d, worker, PathsFinished);
      DurableInv(cfg, d') && WorkerInv(cfg, d', NextWorker(cfg, d, worker, PathsFinished)) && Active(d'.status)
  {
    hide LegacyInv, MetadataInv, Faithful, Mirrors, NextDecision, Baselines, Interventions, LoadPairs;
    PathsKeepInv(cfg, d.checkpoint, d.rows, worker);
  }

  lemma {:induction false} SavePairKeepsInv(cfg: Config, d: Durable, worker: Worker)
    requires DurableInv(cfg, d) && Active(d.status)
    requires WorkerInv(cfg, d, worker) && Enabled(Save, worker)
    ensures
      var d' := NextDurable(cfg, d, worker, Save);
      DurableInv(cfg, d') && WorkerInv(cfg, d', NextWorker(cfg, d, worker, Save)) && Active(d'.status)
  {
    hide LegacyInv, MetadataInv, Faithful, PairsOf, UpsertPair, Baselines, Interventions, LoadPairs;
    SaveKeepsInv(cfg, d.checkpoint.value, d.rows, worker);
  }

  lemma {:induction false} CommitPairKeepsInv(cfg: Config, d: Durable, worker: Worker)
    requires DurableInv(cfg, d) && Active(d.status)
    requires WorkerInv(cfg, d, worker) && Enabled(Commit, worker)
    ensures
      var d' := NextDurable(cfg, d, worker, Commit);
      DurableInv(cfg, d') && WorkerInv(cfg, d', NextWorker(cfg, d, worker, Commit)) && Active(d'.status)
  {
    hide LegacyInv, MetadataInv, Faithful, Mirrors, PairsOf, Baselines, Interventions, LoadPairs;
    CommitKeepsInv(cfg, d.checkpoint.value, d.rows, worker);
  }

  // A failure before the final write changes nothing but the status.
  lemma {:induction false} FailureKeepsInv(cfg: Config, d: Durable, status: Status)
    requires DurableInv(cfg, d) && ResultInv(cfg, d) && Active(d.status)
    requires status in {FailedRetryable, FailedFinal}
    ensures DurableInv(cfg, d.(status := status)) && ResultInv(cfg, d.(status := status))
  {
    hide LegacyInv, MetadataInv, FaithfulResult;
  }

  lemma {:induction false} EndKeepsInv(cfg: Config, d: Durable, worker: Worker, action: Action)
    requires DurableInv(cfg, d) && ResultInv(cfg, d) && Active(d.status)
    requires Enabled(action, worker) && action in {FailRetryable, FailFinal, Die}
    ensures
      var d', worker' := NextDurable(cfg, d, worker, action), NextWorker(cfg, d, worker, action);
      DurableInv(cfg, d') && ResultInv(cfg, d') && WorkerInv(cfg, d', worker') && Occupies(worker', d'.status)
  {
    hide DurableInv, ResultInv;
    FailureKeepsInv(cfg, d, FailedRetryable);
    FailureKeepsInv(cfg, d, FailedFinal);
  }

  // A cancelled row keeps no checkpoint, no rows and no result.
  lemma {:induction false} CancelledRow(cfg: Config, d: Durable, pairs: nat)
    requires ResultInv(cfg, d) && Active(d.status)
    ensures
      var d' := Finish(d, Cancelled, pairs, None);
      DurableInv(cfg, d') && ResultInv(cfg, d') && d'.status == Cancelled && d'.result == None
  {
    hide FaithfulResult;
  }

  // The head of the loop and a poll for cancellation move the program counter alone.
  lemma {:induction false} LoopMoveKeepsInv(cfg: Config, d: Durable, worker: Worker, action: Action)
    requires WorkerInv(cfg, d, worker) && Enabled(action, worker) && Active(d.status)
    requires action in {LoopHead, PathsCancelled}
    ensures NextDurable(cfg, d, worker, action) == d
    ensures WorkerInv(cfg, d, NextWorker(cfg, d, worker, action)) && Occupies(NextWorker(cfg, d, worker, action), d.status)
  {
    hide Faithful, Baselines, Interventions, LoadPairs;
  }

  // Actions that only move the program counter or the status.
  lemma {:induction false} MoveKeepsInv(cfg: Config, d: Durable, worker: Worker, action: Action)
    requires DurableInv(cfg, d) && ResultInv(cfg, d) && Active(d.status)
    requires WorkerInv(cfg, d, worker) && Enabled(action, worker)
    requires action in {Fresh, EnterAggregation}
    ensures
      var d', worker' := NextDurable(cfg, d, worker, action), NextWorker(cfg, d, worker, action);
      DurableInv(cfg, d') && ResultInv(cfg, d') && WorkerInv(cfg, d', worker') && Occupies(worker', d'.status)
  {
    hide LegacyInv, MetadataInv, Faithful, Baselines, Interventions, LoadPairs, FaithfulResult;
  }

  lemma {:induction false} FinishCancelledKeepsInv(cfg: Config, d: Durable, worker: Worker)
    requires ResultInv(cfg, d) && Active(d.status) && Enabled(FinishCancelled, worker)
    ensures
      var d', worker' := NextDurable(cfg, d, worker, FinishCancelled), NextWorker(cfg, d, worker, FinishCancelled);
      DurableInv(cfg, d') && ResultInv(cfg, d') && WorkerInv(cfg, d', worker') && Occupies(worker', d'.status)
  {
    hide DurableInv, ResultInv, Finish;
    CancelledRow(cfg, d, |worker.baselineRuns|);
  }

  // After the final write the worker appends its audit event, fails, or dies; only the failure writes.
  lemma {:induction false} AuditKeepsInv(cfg: Config, d: Durable, worker: Worker, action: Action)
    requires DurableInv(cfg, d) && ResultInv(cfg, d) && Finished(d)
    requires worker.pc == AuditEnding && Enabled(action, worker)
    ensures
      var d', worker' := NextDurable(cfg, d, worker, action), NextWorker(cfg, d, worker, action);
      DurableInv(cfg, d') && ResultInv(cfg, d') && WorkerInv(cfg, d', worker') && Occupies(worker', d'.status)
  {
    hide CheckpointInv, FaithfulResult;
  }

  lemma {:induction false} ControlKeepsInv(cfg: Config, d: Durable)
    requires DurableInv(cfg, d) && ResultInv(cfg, d)
    ensures DurableInv(cfg, Claim(d)) && ResultInv(cfg, Claim(d))
    ensures DurableInv(cfg, RequestCancel(d)) && ResultInv(cfg, RequestCancel(d))
    ensures DurableInv(cfg, Recover(d)) && ResultInv(cfg, Recover(d))
    ensures DurableInv(cfg, Invalidate(d)) && ResultInv(cfg, Invalidate(d))
  {
    hide LegacyInv, MetadataInv, FaithfulResult;
  }

  // A submitted worker is alone with an active row, whose checkpoint agrees with it.
  lemma {:induction false} SubmittedFinds(cfg: Config, s: State)
    requires Inv(cfg, s) && s.workers != [] && s.workers[0].pc == Submitted
    ensures Active(s.durable.status) && CheckpointInv(cfg, s.durable.completedPairs, s.durable.checkpoint, s.durable.rows)
  {
    hide CheckpointInv, ResultInv;
  }

  lemma {:induction false} BeginKeepsInv(cfg: Config, s: State, eventPack: EventPack, reading: Reading)
    requires Inv(cfg, s)
    requires s.workers != [] && s.workers[0].pc == Submitted
    ensures Inv(cfg, BeginWorker(cfg, s, eventPack, reading))
  {
    hide Inv, WorkerInv, DurableInv, ResultInv, ReadCheckpoint, ResumedWorker, CheckpointInv;
    var d := s.durable;
    SubmittedFinds(cfg, s);
    InvOfDurable(cfg, s);
    if ReadCheckpoint(cfg, d, eventPack, reading).Some? {
      RestoredKeepsInv(cfg, d, eventPack, reading);
      HeadStep(cfg, s, d, ResumedWorker(cfg, eventPack, ReadCheckpoint(cfg, d, eventPack, reading).value));
    } else if Corrupted(d, reading) || d.completedPairs > 0 {
      FailureKeepsInv(cfg, d, FailedFinal);
      DoneOrFresh(cfg, d.(status := FailedFinal), s.workers[0].(pc := Done));
      HeadStep(cfg, s, d.(status := FailedFinal), s.workers[0].(pc := Done));
    } else {
      var worker := NewWorker(cfg).(pc := WriteFresh, eventPack := eventPack);
      DoneOrFresh(cfg, d, worker);
      HeadStep(cfg, s, d, worker);
    }
  }

  lemma {:induction false} DoneOrFresh(cfg: Config, d: Durable, worker: Worker)
    requires worker.pc == Done || (worker.pc == WriteFresh && FreshInv(cfg, d.completedPairs, worker))
    ensures WorkerInv(cfg, d, worker)
  {
    hide FreshInv;
  }

  lemma {:induction false} InvOfDurable(cfg: Config, s: State)
    requires Inv(cfg, s)
    ensures DurableInv(cfg, s.durable) && ResultInv(cfg, s.durable)
  {
    hide DurableInv, ResultInv, WorkerInv, QueueInv;
  }

  // Inside the loop no result appears and the worker keeps working.
  lemma {:induction false} LoopKeepsWorking(cfg: Config, d: Durable, worker: Worker, action: Action)
    requires ResultInv(cfg, d) && Active(d.status) && Working(worker) && Enabled(action, worker)
    requires action in {Migrate, Resume, PathsFinished, Save, Commit} || action.CognitionPrepared?
    ensures
      var d' := NextDurable(cfg, d, worker, action);
      Active(d'.status) && ResultInv(cfg, d') && Working(NextWorker(cfg, d, worker, action))
  {
    hide FaithfulResult, MetadataFor, UpsertPair, NextDecision;
  }

  // The head's state and the row after an action that is not the first, the completing or the last one.
  function Next(cfg: Config, s: State, action: Action): State
    requires s.workers != [] && Enabled(action, s.workers[0])
  {
    WithHead(s, NextWorker(cfg, s.durable, s.workers[0], action)).(durable := NextDurable(cfg, s.durable, s.workers[0], action))
  }

  predicate InLoop(action: Action) {
    action in {Migrate, Resume, PathsFinished, Save, Commit} || action.CognitionPrepared?
  }

  lemma {:induction false} LoopKeepsInv(cfg: Config, s: State, action: Action)
    requires ValidConfig(cfg)
    requires Inv(cfg, s) && s.workers != [] && Enabled(action, s.workers[0]) && InLoop(action)
    ensures Inv(cfg, Next(cfg, s, action))
  {
    hide Inv, DurableInv, WorkerInv, ResultInv, NextDurable, NextWorker, ValidConfig;
    var d, worker := s.durable, s.workers[0];
    InvOfDurable(cfg, s);
    LiveHead(cfg, s);
    LoopKeepsWorking(cfg, d, worker, action);
    if action in {Migrate, Resume} || action.CognitionPrepared? {
      EnterKeepsInv(cfg, d, worker, action);
    } else if action == PathsFinished {
      PathsFinishedKeepsInv(cfg, d, worker);
    } else if action == Save {
      SavePairKeepsInv(cfg, d, worker);
    } else {
      CommitPairKeepsInv(cfg, d, worker);
    }
    HeadStep(cfg, s, NextDurable(cfg, d, worker, action), NextWorker(cfg, d, worker, action));
  }

  lemma {:induction false} NextKeepsInv(cfg: Config, s: State, action: Action)
    requires ValidConfig(cfg)
    requires Inv(cfg, s) && s.workers != [] && Enabled(action, s.workers[0])
    requires !action.Begin? && action != Complete && action != Retire
    ensures Inv(cfg, Next(cfg, s, action))
  {
    hide Inv, DurableInv, WorkerInv, ResultInv, NextDurable, NextWorker, ValidConfig;
    var d, worker := s.durable, s.workers[0];
    if InLoop(action) {
      LoopKeepsInv(cfg, s, action);
    } else {
      InvOfDurable(cfg, s);
      LiveHead(cfg, s);
      if worker.pc == AuditEnding {
        AuditKeepsInv(cfg, d, worker, action);
      } else if action in {FailRetryable, FailFinal, Die} {
        EndKeepsInv(cfg, d, worker, action);
      } else if action in {LoopHead, PathsCancelled} {
        LoopMoveKeepsInv(cfg, d, worker, action);
      } else if action == FinishCancelled {
        FinishCancelledKeepsInv(cfg, d, worker);
      } else {
        MoveKeepsInv(cfg, d, worker, action);
      }
      HeadStep(cfg, s, NextDurable(cfg, d, worker, action), NextWorker(cfg, d, worker, action));
    }
  }

  lemma {:induction false} StepKeepsInv(cfg: Config, s: State, action: Action)
    requires ValidConfig(cfg) && Inv(cfg, s)
    ensures Inv(cfg, Step(cfg, s, action))
  {
    hide Inv, WorkerStep, ValidConfig, Enabled;
    if action == Start {
      StartKeepsInv(cfg, s);
    } else if action in {StartUnqueued, Cancel, InvalidateResult, Crash, Restart} {
      ControlStepKeepsInv(cfg, s, action);
    } else if s.up && s.workers != [] && Enabled(action, s.workers[0]) {
      WorkerStepKeepsInv(cfg, s, action);
    } else {
      NoStep(cfg, s, action);
    }
  }

  // A worker's action is that of the executor's head.
  lemma {:induction false} StepOfHead(cfg: Config, s: State, action: Action)
    requires s.up && s.workers != [] && Enabled(action, s.workers[0])
    ensures Step(cfg, s, action) == WorkerStep(cfg, s, action)
  {
    hide WorkerStep;
  }

  lemma {:induction false} NoStep(cfg: Config, s: State, action: Action)
    requires action !in {Start, StartUnqueued, Cancel, InvalidateResult, Crash, Restart}
    requires !(s.up && s.workers != [] && Enabled(action, s.workers[0]))
    ensures Step(cfg, s, action) == s
  {
    hide Enabled, BeginWorker, CompleteWorker, NextWorker, NextDurable;
  }

  lemma {:induction false} WorkerStepKeepsInv(cfg: Config, s: State, action: Action)
    requires ValidConfig(cfg) && Inv(cfg, s)
    requires s.up && s.workers != [] && Enabled(action, s.workers[0])
    ensures Inv(cfg, Step(cfg, s, action))
  {
    hide Inv, Step, ValidConfig, BeginWorker, CompleteWorker, NextDurable, NextWorker;
    StepOfHead(cfg, s, action);
    match action
    case Begin(eventPack, reading) => BeginKeepsInv(cfg, s, eventPack, reading);
    case Complete => CompleteKeepsInv(cfg, s);
    case Retire => RetireKeepsInv(cfg, s);
    case _ => NextKeepsInv(cfg, s, action);
  }

  lemma {:induction false} StartKeepsInv(cfg: Config, s: State)
    requires Inv(cfg, s)
    ensures Inv(cfg, Step(cfg, s, Start))
  {
    hide DurableInv, ResultInv;
    ControlKeepsInv(cfg, s.durable);
  }

  lemma {:induction false} ControlStepKeepsInv(cfg: Config, s: State, action: Action)
    requires Inv(cfg, s)
    requires action in {StartUnqueued, Cancel, InvalidateResult, Crash, Restart}
    ensures Inv(cfg, Step(cfg, s, action))
  {
    hide DurableInv, ResultInv, WorkerInv;
    ControlKeepsInv(cfg, s.durable);
    if s.workers != [] {
      ControlKeepsWorker(cfg, s);
    }
  }

  lemma {:induction false} ControlKeepsWorker(cfg: Config, s: State)
    requires Inv(cfg, s) && s.workers != []
    ensures WorkerInv(cfg, Claim(s.durable), s.workers[0])
    ensures WorkerInv(cfg, RequestCancel(s.durable), s.workers[0])
    ensures WorkerInv(cfg, Invalidate(s.durable), s.workers[0])
  {
    hide DurableInv, ResultInv, MigrateInv, ResumeInv, FreshInv, CountedInv, UncountedInv;
  }

  lemma {:induction false} RetireKeepsInv(cfg: Config, s: State)
    requires Inv(cfg, s) && s.workers != [] && s.workers[0].pc == Done
    ensures Inv(cfg, s.(workers := s.workers[1..]))
  {
    hide DurableInv, ResultInv;
  }

  /*** Theorems over every schedule ***/

  lemma {:induction false} ReachableInv(cfg: Config, s: State, actions: seq<Action>)
    requires ValidConfig(cfg) && Initial(cfg, s)
    ensures Inv(cfg, Execute(cfg, s, actions))
  {
    if actions != [] {
      ReachableInv(cfg, s, actions[..|actions| - 1]);
      StepKeepsInv(cfg, Execute(cfg, s, actions[..|actions| - 1]), actions[|actions| - 1]);
    }
  }

  // Crash and resume are invisible: whatever the schedule, a worker that reaches aggregation holds exactly the lists,
  // the decision and the stored pairs of one uninterrupted run under its frozen cognition, and so does every result.
  lemma {:induction false} CrashResumeEquivalence(cfg: Config, s0: State, actions: seq<Action>)
    requires ValidConfig(cfg) && Initial(cfg, s0)
    ensures EquivalentToUninterrupted(cfg, Execute(cfg, s0, actions))
  {
    hide Initial, Execute, DurableInv, CountedInv, UninterruptedResult, PairsOf;
    ReachableInv(cfg, s0, actions);
    var s := Execute(cfg, s0, actions);
    if s.workers != [] && s.workers[0].pc == Aggregate {
      LiveHead(cfg, s);
      CompletedRow(cfg, s.durable, s.workers[0]);
    }
  }

  // What is on disk between any two steps: rows are numbered without a gap and carry their seeds, the metadata counts
  // all of them but at most the last, the column agrees, and the counted rows were all run under the metadata's cognition.
  lemma {:induction false} DurableCheckpointInvariant(cfg: Config, s0: State, actions: seq<Action>)
    requires ValidConfig(cfg) && Initial(cfg, s0)
    ensures
      var d := Execute(cfg, s0, actions).durable;
      && (d.checkpoint.Some? && d.checkpoint.value.MetadataV2? ==>
            var c := d.checkpoint.value;
            && d.completedPairs == c.completedPairs <= |d.rows| <= c.completedPairs + 1
            && InOrder(cfg, d.rows)
            && d.rows[..c.completedPairs] == PairsOf(cfg, c.eventPackHash.preimage, c.cognition, c.completedPairs))
      && (d.checkpoint.None? ==> d.rows == [])
  {
    ReachableInv(cfg, s0, actions);
  }

  // The claim and the single executor thread admit at most one live worker, and only the head can be past submission.
  lemma {:induction false} OneLiveWorker(cfg: Config, s0: State, actions: seq<Action>, i: nat, j: nat)
    requires ValidConfig(cfg) && Initial(cfg, s0)
    requires i < j < |Execute(cfg, s0, actions).workers|
    ensures !Live(Execute(cfg, s0, actions).workers[i])
    ensures Execute(cfg, s0, actions).workers[j].pc in {Submitted, Done}
  {
    hide DurableInv, ResultInv, WorkerInv, Execute, Initial;
    ReachableInv(cfg, s0, actions);
  }

  /*** Counted pairs are never lost or rerun under another cognition ***/

  // What the row commits to once it counts at least one pair: the result's run, or the checkpoint's.
  datatype Commitment = Uncommitted | Committed(eventPack: EventPack, cognition: Cognition, pairs: nat)

  function CheckpointCommitment(checkpoint: Option<Checkpoint>): Commitment {
    match checkpoint
    case None => Uncommitted
    case Some(LegacyV1(_, eventPackHash, _, baselineRuns, _, cognition, _)) =>
      if baselineRuns == [] then Uncommitted else Committed(eventPackHash.preimage, cognition, |baselineRuns|)
    case Some(MetadataV2(_, eventPackHash, _, completedPairs, cognition, _)) =>
      if completedPairs == 0 then Uncommitted else Committed(eventPackHash.preimage, cognition, completedPairs)
  }

  function CommitmentOf(d: Durable): Commitment {
    match d.result
    case Some(r) => Committed(r.eventPack, r.cognition, |r.baselineRuns|)
    case None => CheckpointCommitment(d.checkpoint)
  }

  ghost predicate Extends(before: Commitment, after: Commitment) {
    before.Committed? ==>
      after.Committed? && after.eventPack == before.eventPack && after.cognition == before.cognition && after.pairs >= before.pairs
  }

  // A cancellation has thrown the counted pairs away; a failure of its audit event may have followed.
  predicate Discarded(d: Durable) {
    d.status in {Cancelled, FailedFinal} && d.checkpoint.None? && d.result.None?
  }

  // The one step that takes a row out of a final status: the audit event of the final write cannot be appended.
  predicate FailsInAudit(s: State, action: Action) {
    s.up && s.workers != [] && s.workers[0].pc == AuditEnding && action == FailFinal
  }

  // The one step that stores a result.
  predicate Completes(s: State, action: Action) {
    s.up && s.workers != [] && s.workers[0].pc == Aggregate && action == Complete
  }

  // Writing the metadata keeps the commitment or adds to it.
  lemma {:induction false} RecordExtends(cfg: Config, d: Durable, worker: Worker, action: Action)
    requires DurableInv(cfg, d) && ResultInv(cfg, d) && Active(d.status)
    requires WorkerInv(cfg, d, worker) && Enabled(action, worker)
    requires action in {Resume, Fresh, Commit} || action.CognitionPrepared?
    ensures
      var d' := NextDurable(cfg, d, worker, action);
      Extends(CommitmentOf(d), CommitmentOf(d')) && !Finished(d') && d'.result == d.result
  {
    hide WorkerFaithful, Mirrors, LegacyInv, MetadataInv, PairsOf, InOrder, FaithfulResult;
  }

  lemma {:induction false} NextExtends(cfg: Config, d: Durable, worker: Worker, action: Action)
    requires DurableInv(cfg, d) && ResultInv(cfg, d) && Active(d.status)
    requires WorkerInv(cfg, d, worker) && Enabled(action, worker)
    requires !action.Begin? && action != Complete && action != Retire
    ensures
      var d' := NextDurable(cfg, d, worker, action);
      && (Discarded(d') || Extends(CommitmentOf(d), CommitmentOf(d')))
      && (Finished(d') ==> action == FinishCancelled)
      && d'.result == d.result
  {
    hide DurableInv, WorkerInv, CheckpointCommitment, UpsertPair, MetadataFor, FaithfulResult;
    if action in {Resume, Fresh, Commit} || action.CognitionPrepared? {
      RecordExtends(cfg, d, worker, action);
    }
  }

  lemma {:induction false} AuditExtends(cfg: Config, d: Durable, worker: Worker, action: Action)
    requires DurableInv(cfg, d) && ResultInv(cfg, d) && Finished(d)
    requires worker.pc == AuditEnding && Enabled(action, worker)
    ensures
      var d' := NextDurable(cfg, d, worker, action);
      && d' == (if action == FailFinal then d.(status := FailedFinal) else d)
      && (Discarded(d') || Extends(CommitmentOf(d), CommitmentOf(d')))
  {
    hide CheckpointInv, FaithfulResult;
  }

  lemma {:induction false} CompleteExtends(cfg: Config, s: State)
    requires ValidConfig(cfg) && Inv(cfg, s) && s.workers != [] && s.workers[0].pc == Aggregate
    ensures
      var d' := CompleteWorker(cfg, s).durable;
      d'.status == Completed && d'.result.Some? && Extends(CommitmentOf(s.durable), CommitmentOf(d'))
  {
    hide DurableInv, FaithfulResult, WorkerFaithful, Mirrors;
    CompleteKeepsInv(cfg, s);
  }

  // One step never takes back a counted pair or changes its cognition, unless a cancellation discards it; a row leaves a
  // final status exactly when the audit event of that status cannot be appended; and the one step that writes a result
  // is completion, after which the result never changes.
  lemma {:induction false} StepExtends(cfg: Config, s: State, action: Action)
    requires ValidConfig(cfg) && Inv(cfg, s)
    ensures
      var s' := Step(cfg, s, action);
      && (Discarded(s'.durable) || Extends(CommitmentOf(s.durable), CommitmentOf(s'.durable)))
      && (Discarded(s.durable) ==> Discarded(s'.durable))
      && (Finished(s.durable) ==> (Finished(s'.durable) <==> !FailsInAudit(s, action)))
      && (FailsInAudit(s, action) ==> Finished(s.durable) && s'.durable == s.durable.(status := FailedFinal))
      && (s.durable.status == FailedFinal ==> s'.durable == s.durable)
      && (if Completes(s, action) then s.durable.result.None? && s'.durable.result.Some?
          else s'.durable.result == s.durable.result)
  {
    hide Inv, Step, ValidConfig, CommitmentOf, Extends, Discarded, Finished;
    if s.up && s.workers != [] && Enabled(action, s.workers[0]) {
      WorkerStepExtends(cfg, s, action);
    } else {
      ControlExtends(cfg, s, action);
    }
  }

  // A live head keeps the row in an active status until its final write, and in that status after it.
  lemma {:induction false} LiveHead(cfg: Config, s: State)
    requires Inv(cfg, s) && s.workers != [] && Live(s.workers[0])
    ensures if s.workers[0].pc == AuditEnding then Finished(s.durable) else Active(s.durable.status) && s.durable.result.None?
    ensures WorkerInv(cfg, s.durable, s.workers[0])
  {
    hide DurableInv, FaithfulResult, WorkerInv;
  }

  // What an action of the head does to the row.
  ghost predicate RowExtends(d: Durable, d': Durable, failsInAudit: bool, completes: bool) {
    && (Discarded(d') || Extends(CommitmentOf(d), CommitmentOf(d')))
    && (Discarded(d) ==> Discarded(d'))
    && (Finished(d) ==> (Finished(d') <==> !failsInAudit))
    && (failsInAudit ==> Finished(d) && d' == d.(status := FailedFinal))
    && (d.status == FailedFinal ==> d' == d)
    && (if completes then d.result.None? && d'.result.Some? else d'.result == d.result)
  }

  lemma {:induction false} WorkerStepExtends(cfg: Config, s: State, action: Action)
    requires ValidConfig(cfg) && Inv(cfg, s) && s.up && s.workers != [] && Enabled(action, s.workers[0])
    ensures RowExtends(s.durable, Step(cfg, s, action).durable, FailsInAudit(s, action), Completes(s, action))
  {
    hide Inv, Step, ValidConfig, DurableInv, ResultInv, WorkerInv, NextDurable, NextWorker, CompleteWorker, BeginWorker, CommitmentOf;
    var worker := s.workers[0];
    InvOfDurable(cfg, s);
    StepOfHead(cfg, s, action);
    if Live(worker) {
      LiveHead(cfg, s);
    }
    match action
    case Begin(eventPack, reading) => BeginExtends(cfg, s, eventPack, reading);
    case Complete => CompleteExtends(cfg, s);
    case Retire =>
    case _ => NextRowExtends(cfg, s, action);
  }

  lemma {:induction false} NextRowExtends(cfg: Config, s: State, action: Action)
    requires Inv(cfg, s) && s.workers != [] && Enabled(action, s.workers[0])
    requires !action.Begin? && action != Complete && action != Retire
    ensures
      var d' := NextDurable(cfg, s.durable, s.workers[0], action);
      RowExtends(s.durable, d', s.workers[0].pc == AuditEnding && action == FailFinal, false)
  {
    hide Inv, DurableInv, ResultInv, WorkerInv, NextDurable, CommitmentOf, Extends;
    InvOfDurable(cfg, s);
    LiveHead(cfg, s);
    if s.workers[0].pc == AuditEnding {
      AuditExtends(cfg, s.durable, s.workers[0], action);
    } else {
      NextExtends(cfg, s.durable, s.workers[0], action);
    }
  }

  lemma {:induction false} BeginExtends(cfg: Config, s: State, eventPack: EventPack, reading: Reading)
    requires s.workers != []
    ensures
      var d' := BeginWorker(cfg, s, eventPack, reading).durable;
      && (d' == s.durable || d' == s.durable.(status := FailedFinal))
      && CommitmentOf(d') == CommitmentOf(s.durable)
  {
    hide ReadCheckpoint, ResumedWorker, CheckpointCommitment;
  }

  lemma {:induction false} ControlExtends(cfg: Config, s: State, action: Action)
    requires Inv(cfg, s) && !(s.up && s.workers != [] && Enabled(action, s.workers[0]))
    ensures
      var d, d' := s.durable, Step(cfg, s, action).durable;
      && (Discarded(d') || Extends(CommitmentOf(d), CommitmentOf(d')))
      && (Discarded(d) ==> Discarded(d'))
      && (Finished(d) ==> Finished(d'))
      && (d.status == FailedFinal ==> d' == d)
      && d'.result == d.result
  {
    hide CheckpointInv, FaithfulResult, WorkerInv, QueueInv, Enabled, WorkerStep, CheckpointCommitment;
    if action !in {Start, StartUnqueued, Cancel, InvalidateResult, Crash, Restart} {
      NoStep(cfg, s, action);
    }
  }

  // Once a pair is counted, every later state of every schedule still counts it under the same event pack and
  // the same frozen cognition, in its checkpoint or in its result, unless a cancellation discards the run.
  lemma {:induction false} FrozenCognition(cfg: Config, s0: State, actions: seq<Action>, later: seq<Action>)
    requires ValidConfig(cfg) && Initial(cfg, s0)
    ensures
      var s, s' := Execute(cfg, s0, actions), Execute(cfg, s0, actions + later);
      || Discarded(s'.durable)
      || Extends(CommitmentOf(s.durable), CommitmentOf(s'.durable))
  {
    hide Inv, Initial, Step, CommitmentOf, Discarded, Finished, FailsInAudit, Completes;
    if later == [] {
      assert actions + later == actions;
    } else {
      var n := |later| - 1;
      FrozenCognition(cfg, s0, actions, later[..n]);
      assert (actions + later)[..|actions + later| - 1] == actions + later[..n];
      ReachableInv(cfg, s0, actions + later[..n]);
      StepExtends(cfg, Execute(cfg, s0, actions + later[..n]), later[n]);
    }
  }

  /*** Results and final statuses over every schedule ***/

  ghost predicate HasCompleted(cfg: Config, s0: State, actions: seq<Action>) {
    exists k :: 0 <= k < |actions| && Completes(Execute(cfg, s0, actions[..k]), actions[k])
  }

  lemma {:induction false} HasCompletedNext(cfg: Config, s0: State, actions: seq<Action>)
    requires actions != []
    ensures
      var front, last := actions[..|actions| - 1], actions[|actions| - 1];
      HasCompleted(cfg, s0, actions) <==> HasCompleted(cfg, s0, front) || Completes(Execute(cfg, s0, front), last)
  {
    hide Execute, Completes;
    var n := |actions| - 1;
    var front := actions[..n];
    assert forall k :: 0 <= k < n ==> front[..k] == actions[..k] && front[k] == actions[k];
    if HasCompleted(cfg, s0, front) {
      var k :| 0 <= k < n && Completes(Execute(cfg, s0, front[..k]), front[k]);
      assert Completes(Execute(cfg, s0, actions[..k]), actions[k]);
    }
  }

  // A result is stored exactly when the completing write has happened.
  lemma {:induction false} ResultMeansCompletion(cfg: Config, s0: State, actions: seq<Action>)
    requires ValidConfig(cfg) && Initial(cfg, s0)
    ensures Execute(cfg, s0, actions).durable.result.Some? <==> HasCompleted(cfg, s0, actions)
  {
    if actions != [] {
      hide Inv, Initial, Step, Completes, FailsInAudit, Discarded, CommitmentOf, Extends, Finished, HasCompleted;
      var front := actions[..|actions| - 1];
      ResultMeansCompletion(cfg, s0, front);
      ReachableInv(cfg, s0, front);
      StepExtends(cfg, Execute(cfg, s0, front), actions[|actions| - 1]);
      HasCompletedNext(cfg, s0, actions);
    }
  }

  // Whatever follows, a stored result stays as it is.
  lemma {:induction false} ResultIsPermanent(cfg: Config, s0: State, actions: seq<Action>, later: seq<Action>)
    requires ValidConfig(cfg) && Initial(cfg, s0)
    requires Execute(cfg, s0, actions).durable.result.Some?
    ensures Execute(cfg, s0, actions + later).durable.result == Execute(cfg, s0, actions).durable.result
  {
    hide Inv, Initial, Step, Completes, FailsInAudit, Discarded, CommitmentOf, Extends, Finished;
    if later == [] {
      assert actions + later == actions;
    } else {
      var n := |later| - 1;
      ResultIsPermanent(cfg, s0, actions, later[..n]);
      assert (actions + later)[..|actions + later| - 1] == actions + later[..n];
      ReachableInv(cfg, s0, actions + later[..n]);
      StepExtends(cfg, Execute(cfg, s0, actions + later[..n]), later[n]);
    }
  }

  lemma {:induction false} ExecuteNext(cfg: Config, s0: State, actions: seq<Action>, later: seq<Action>)
    requires later != []
    ensures
      var n := |later| - 1;
      Execute(cfg, s0, actions + later) == Step(cfg, Execute(cfg, s0, actions + later[..n]), later[n])
  {
    hide Step;
    assert (actions + later)[..|actions + later| - 1] == actions + later[..|later| - 1];
  }

  ghost predicate AuditNeverFails(cfg: Config, s0: State, actions: seq<Action>, later: seq<Action>) {
    forall k :: 0 <= k < |later| ==> !FailsInAudit(Execute(cfg, s0, actions + later[..k]), later[k])
  }

  lemma {:induction false} AuditNeverFailsNext(cfg: Config, s0: State, actions: seq<Action>, later: seq<Action>)
    requires later != []
    ensures
      var front, last := later[..|later| - 1], later[|later| - 1];
      AuditNeverFails(cfg, s0, actions, later) <==>
      AuditNeverFails(cfg, s0, actions, front) && !FailsInAudit(Execute(cfg, s0, actions + front), last)
  {
    hide Execute, FailsInAudit;
    var n := |later| - 1;
    var front := later[..n];
    assert forall k :: 0 <= k < n ==> front[..k] == later[..k] && front[k] == later[k];
  }

  // A row in a final status leaves it exactly when some later step fails in the audit of that status, and then fails for
  // good.
  lemma {:induction false} FinishedUnlessAuditFails(cfg: Config, s0: State, actions: seq<Action>, later: seq<Action>)
    requires ValidConfig(cfg) && Initial(cfg, s0) && Finished(Execute(cfg, s0, actions).durable)
    ensures
      var s' := Execute(cfg, s0, actions + later);
      && (Finished(s'.durable) <==> AuditNeverFails(cfg, s0, actions, later))
      && (Finished(s'.durable) || s'.durable.status == FailedFinal)
  {
    hide Inv, Initial, Step, Completes, FailsInAudit, Discarded, CommitmentOf, Extends, Execute;
    if later == [] {
      assert actions + later == actions;
    } else {
      hide AuditNeverFails;
      var front := later[..|later| - 1];
      FinishedUnlessAuditFails(cfg, s0, actions, front);
      AuditNeverFailsNext(cfg, s0, actions, later);
      ExecuteNext(cfg, s0, actions, later);
      ReachableInv(cfg, s0, actions + front);
      StepExtends(cfg, Execute(cfg, s0, actions + front), later[|later| - 1]);
    }
  }

  // A completed experiment whose audit event cannot be appended ends as failed, with the result of the uninterrupted run.
  lemma {:induction false} CompletionCanBeLost(cfg: Config, s0: State, actions: seq<Action>)
    requires ValidConfig(cfg) && Initial(cfg, s0)
    requires Completes(Execute(cfg, s0, actions), Complete)
    ensures
      var w := Execute(cfg, s0, actions).workers[0];
      var d := Execute(cfg, s0, actions + [Complete, FailFinal]).durable;
      && d.status == FailedFinal && d.checkpoint == None
      && d.result == Some(UninterruptedResult(cfg, w.eventPack, w.cognition))
      && d.completedPairs == |w.baselineRuns|
  {
    hide Inv, Initial, Execute, Uninterrupted, UninterruptedResult, Step;
    var s := Execute(cfg, s0, actions);
    ReachableInv(cfg, s0, actions);
    CompleteThenFail(cfg, s);
    ExecuteAppend(cfg, s0, actions, [Complete, FailFinal]);
    ExecuteOne(cfg, s, Complete);
    ExecuteOne(cfg, Step(cfg, s, Complete), FailFinal);
    ExecuteAppend(cfg, s, [Complete], [FailFinal]);
    assert [Complete] + [FailFinal] == [Complete, FailFinal];
  }

  lemma {:induction false} CompleteThenFail(cfg: Config, s: State)
    requires ValidConfig(cfg) && Inv(cfg, s) && s.up && s.workers != [] && s.workers[0].pc == Aggregate
    ensures
      var w := s.workers[0];
      var d := Step(cfg, Step(cfg, s, Complete), FailFinal).durable;
      && d.status == FailedFinal && d.checkpoint == None
      && d.result == Some(UninterruptedResult(cfg, w.eventPack, w.cognition))
      && d.completedPairs == |w.baselineRuns|
  {
    hide Inv, CompleteWorker, UninterruptedResult;
    CompletionStoresUninterrupted(cfg, s);
  }

  lemma {:induction false} CompletionStoresUninterrupted(cfg: Config, s: State)
    requires ValidConfig(cfg) && Inv(cfg, s) && s.workers != [] && s.workers[0].pc == Aggregate
    ensures
      var w, s' := s.workers[0], CompleteWorker(cfg, s);
      && s'.up == s.up && s'.workers != [] && s'.workers[0].pc == AuditEnding
      && s'.durable.status == Completed && s'.durable.checkpoint == None
      && s'.durable.result == Some(UninterruptedResult(cfg, w.eventPack, w.cognition))
      && s'.durable.completedPairs == |w.baselineRuns|
  {
    hide DurableInv, ResultInv, CountedInv, StoredPairsPresent, ResultOf, PairsOf, UninterruptedResult;
    CompletedRow(cfg, s.durable, s.workers[0]);
  }

  /*** The stopping rule over whole runs ***/

  lemma {:induction false} LimitIsTerminal(cfg: Config, baselineRuns: seq<Run>, interventionRuns: seq<Run>)
    requires ValidConfig(cfg) && |baselineRuns| == |interventionRuns|
    ensures |baselineRuns| == cfg.request.seedCount ==> Terminal(cfg.plan, baselineRuns, interventionRuns, |baselineRuns|)
  {
    assert baselineRuns[..|baselineRuns|] == baselineRuns && interventionRuns[..|baselineRuns|] == interventionRuns;
  }

  // The plain loop folds the rule over its own lists and stops at the first prefix where a terminal condition holds.
  lemma {:induction false} ContinueFoldsTheRule(
    cfg: Config, eventPack: EventPack, cognition: Cognition,
    baselineRuns: seq<Run>, interventionRuns: seq<Run>, decision: Decision)
    requires ValidConfig(cfg)
    requires |baselineRuns| == |interventionRuns| <= cfg.request.seedCount
    requires Folded(cfg, baselineRuns, interventionRuns, decision)
    ensures
      var o := Continue(cfg, eventPack, cognition, baselineRuns, interventionRuns, decision);
      && |o.interventionRuns| == |o.baselineRuns| <= cfg.request.seedCount
      && Folded(cfg, o.baselineRuns, o.interventionRuns, o.decision)
      && o.decision.triggered && Terminal(cfg.plan, o.baselineRuns, o.interventionRuns, |o.baselineRuns|)
    decreases cfg.request.seedCount - |baselineRuns|
  {
    hide Folded, ValidConfig, NextDecision, Terminal;
    var k := |baselineRuns|;
    FoldedAtLimit(cfg, baselineRuns, interventionRuns, decision);
    if !decision.triggered {
      var baselineRun := CompactRun(BaselineRun(cfg, eventPack, cognition, k));
      var interventionRun := CompactRun(InterventionRun(cfg, eventPack, cognition, k));
      var b, i := baselineRuns + [baselineRun], interventionRuns + [interventionRun];
      FoldOneMore(cfg, baselineRuns, interventionRuns, decision, baselineRun, interventionRun);
      ContinueFoldsTheRule(cfg, eventPack, cognition, b, i, NextDecision(cfg.plan, b, i, decision));
    }
  }

  lemma {:induction false} DecisionOfPrefix(plan: Plan, b: seq<Run>, i: seq<Run>, b': seq<Run>, i': seq<Run>, k: nat)
    requires |b| == |i| && k <= |b| && |b'| == |i'| && b <= b' && i <= i'
    ensures DecisionAfter(plan, b, i, k) == DecisionAfter(plan, b', i', k)
  {
    if k > 0 {
      DecisionOfPrefix(plan, b, i, b', i', k - 1);
      assert b[..k] == b'[..k] && i[..k] == i'[..k];
    }
  }

  // The outcome was stopped by its rule: between the minimum and the seed count, at the least prefix where a terminal
  // condition held, with the sample limit outranking the target, and with true first-satisfied pairs.
  ghost predicate StoppedByRule(cfg: Config, o: Outcome) {
    var k, rule := |o.baselineRuns|, cfg.plan.rule;
    && |o.interventionRuns| == k
    && rule.minimumPairs <= k <= cfg.request.seedCount
    && o.decision.triggered && o.decision.completedPairs == k
    && Terminal(cfg.plan, o.baselineRuns, o.interventionRuns, k)
    && (forall j :: 0 <= j < k ==> !Terminal(cfg.plan, o.baselineRuns, o.interventionRuns, j))
    && o.decision.reason == (if k == cfg.request.seedCount then LimitCode(rule) else TargetCiHalfWidthReached)
    && TrueEvaluations(cfg.plan, o.baselineRuns, o.interventionRuns, k, o.decision.conditionEvaluations)
    && RestsOn(cfg.plan, o.baselineRuns, o.interventionRuns, o.decision)
  }

  lemma {:induction false} InitialIsDecisionZero(plan: Plan)
    ensures DecisionAfter(plan, [], [], 0) == InitialDecision(plan)
  {
  }

  lemma {:induction false} UninterruptedIsStoppedByRule(cfg: Config, eventPack: EventPack, cognition: Cognition)
    requires ValidConfig(cfg)
    ensures StoppedByRule(cfg, Uninterrupted(cfg, eventPack, cognition))
  {
    hide DecisionAfter, Continue, TrueEvaluations, RestsOn;
    var o := Uninterrupted(cfg, eventPack, cognition);
    InitialIsDecisionZero(cfg.plan);
    ContinueFoldsTheRule(cfg, eventPack, cognition, [], [], InitialDecision(cfg.plan));
    TriggeredExactlyWhenTerminal(cfg.plan, o.baselineRuns, o.interventionRuns, |o.baselineRuns|);
    EvaluationsRecordFirstPairs(cfg.plan, o.baselineRuns, o.interventionRuns, |o.baselineRuns|);
    RunRestsOnItsPairs(cfg.plan, o.baselineRuns, o.interventionRuns);
  }

  lemma {:induction false} CompletedExperimentsWereStopped(cfg: Config, s0: State, actions: seq<Action>)
    requires ValidConfig(cfg) && Initial(cfg, s0)
    requires Execute(cfg, s0, actions).durable.result.Some?
    ensures
      var r := Execute(cfg, s0, actions).durable.result.value;
      && StoppedByRule(cfg, Outcome(r.baselineRuns, r.interventionRuns, r.decision))
      && |r.usedSeeds| == |r.representatives| == |r.baselineRuns|
  {
    hide StoppedByRule, Execute, Initial, Continue;
    CrashResumeEquivalence(cfg, s0, actions);
    var r := Execute(cfg, s0, actions).durable.result.value;
    UninterruptedIsStoppedByRule(cfg, r.eventPack, r.cognition);
    StoppedLength(cfg, Uninterrupted(cfg, r.eventPack, r.cognition));
  }

  lemma {:induction false} StoppedLength(cfg: Config, o: Outcome)
    requires StoppedByRule(cfg, o)
    ensures |o.baselineRuns| <= cfg.request.seedCount
  {
  }

  /*** The stopping rule in every stored decision ***/

  // The first k runs of each arm under one cognition, as they are kept in memory.
  function BaselineList(cfg: Config, eventPack: EventPack, cognition: Cognition, k: nat): seq<Run> {
    seq(k, i requires 0 <= i < k => CompactRun(BaselineRun(cfg, eventPack, cognition, i)))
  }

  function InterventionList(cfg: Config, eventPack: EventPack, cognition: Cognition, k: nat): seq<Run> {
    seq(k, i requires 0 <= i < k => CompactRun(InterventionRun(cfg, eventPack, cognition, i)))
  }

  // What the row records of a run: in its result once there is one, and in its checkpoint before.
  datatype Progress = Progress(eventPack: EventPack, cognition: Cognition, pairs: nat, decision: Decision)

  function ProgressOf(d: Durable): Option<Progress> {
    if d.result.Some? then
      var r := d.result.value;
      Some(Progress(r.eventPack, r.cognition, |r.baselineRuns|, r.decision))
    else if d.checkpoint.Some? then
      var c := d.checkpoint.value;
      Some(Progress(c.eventPackHash.preimage, c.cognition, if c.LegacyV1? then |c.baselineRuns| else c.completedPairs, c.decision))
    else None
  }

  // The recorded decision is the fold of the rule over the counted pairs, no earlier prefix was terminal, and each
  // evaluation tells whether its condition holds and the first pair at which it ever held.
  ghost predicate TrueProgress(cfg: Config, p: Progress) {
    var b := BaselineList(cfg, p.eventPack, p.cognition, p.pairs);
    var i := InterventionList(cfg, p.eventPack, p.cognition, p.pairs);
    && p.pairs <= cfg.request.seedCount
    && p.decision == DecisionAfter(cfg.plan, b, i, p.pairs)
    && (forall j :: 0 <= j < p.pairs ==> !Terminal(cfg.plan, b, i, j))
    && TrueEvaluations(cfg.plan, b, i, p.pairs, p.decision.conditionEvaluations)
    && RestsOn(cfg.plan, b, i, p.decision)
  }

  lemma {:induction false} StoredLists(cfg: Config, eventPack: EventPack, cognition: Cognition, k: nat)
    ensures Baselines(LoadPairs(PairsOf(cfg, eventPack, cognition, k))) == BaselineList(cfg, eventPack, cognition, k)
    ensures Interventions(LoadPairs(PairsOf(cfg, eventPack, cognition, k))) == InterventionList(cfg, eventPack, cognition, k)
  {
    forall i | 0 <= i < k
      ensures CompactRun(PairOf(cfg, eventPack, cognition, i).baselineRun) == CompactRun(BaselineRun(cfg, eventPack, cognition, i))
      ensures CompactRun(PairOf(cfg, eventPack, cognition, i).interventionRun) == CompactRun(InterventionRun(cfg, eventPack, cognition, i))
    {
      CompactAfterStorage(BaselineRun(cfg, eventPack, cognition, i));
      CompactAfterStorage(InterventionRun(cfg, eventPack, cognition, i));
    }
  }

  // The plain loop only ever extends its lists by the next runs.
  lemma {:induction false} ContinueLists(cfg: Config, eventPack: EventPack, cognition: Cognition, k: nat, decision: Decision)
    requires k <= cfg.request.seedCount
    ensures
      var b, i := BaselineList(cfg, eventPack, cognition, k), InterventionList(cfg, eventPack, cognition, k);
      var o := Continue(cfg, eventPack, cognition, b, i, decision);
      var n := |o.baselineRuns|;
      && n <= cfg.request.seedCount
      && o.baselineRuns == BaselineList(cfg, eventPack, cognition, n)
      && o.interventionRuns == InterventionList(cfg, eventPack, cognition, n)
    decreases cfg.request.seedCount - k
  {
    hide NextDecision;
    if !decision.triggered && k < cfg.request.seedCount {
      var b, i := BaselineList(cfg, eventPack, cognition, k + 1), InterventionList(cfg, eventPack, cognition, k + 1);
      assert b == BaselineList(cfg, eventPack, cognition, k) + [CompactRun(BaselineRun(cfg, eventPack, cognition, k))];
      assert i == InterventionList(cfg, eventPack, cognition, k) + [CompactRun(InterventionRun(cfg, eventPack, cognition, k))];
      ContinueLists(cfg, eventPack, cognition, k + 1, NextDecision(cfg.plan, b, i, decision));
    }
  }

  lemma {:induction false} FoldedIsTrue(cfg: Config, p: Progress)
    requires ValidConfig(cfg) && p.pairs <= cfg.request.seedCount
    requires Folded(cfg, BaselineList(cfg, p.eventPack, p.cognition, p.pairs), InterventionList(cfg, p.eventPack, p.cognition, p.pairs), p.decision)
    ensures TrueProgress(cfg, p)
  {
    hide DecisionAfter, Terminal, TrueEvaluations, RestsOn;
    RunRestsOnItsPairs(
      cfg.plan, BaselineList(cfg, p.eventPack, p.cognition, p.pairs), InterventionList(cfg, p.eventPack, p.cognition, p.pairs));
    EvaluationsRecordFirstPairs(
      cfg.plan, BaselineList(cfg, p.eventPack, p.cognition, p.pairs), InterventionList(cfg, p.eventPack, p.cognition, p.pairs), p.pairs);
  }

  lemma {:induction false} CheckpointProgress(cfg: Config, d: Durable)
    requires ValidConfig(cfg) && d.checkpoint.Some? && d.result.None?
    requires CheckpointInv(cfg, d.completedPairs, d.checkpoint, d.rows)
    ensures TrueProgress(cfg, ProgressOf(d).value)
  {
    hide Folded, Continue, PairsOf, MigratedRows, InOrder, HashesMatch, TrueProgress, BaselineList, InterventionList;
    var p := ProgressOf(d).value;
    StoredLists(cfg, p.eventPack, p.cognition, p.pairs);
    FoldedIsTrue(cfg, p);
  }

  lemma {:induction false} ResultProgress(cfg: Config, d: Durable)
    requires ValidConfig(cfg) && d.result.Some? && FaithfulResult(cfg, d.result.value, d.completedPairs)
    ensures TrueProgress(cfg, ProgressOf(d).value)
  {
    hide DecisionAfter, Continue, TrueEvaluations;
    var p := ProgressOf(d).value;
    InitialIsDecisionZero(cfg.plan);
    ContinueFoldsTheRule(cfg, p.eventPack, p.cognition, [], [], InitialDecision(cfg.plan));
    assert BaselineList(cfg, p.eventPack, p.cognition, 0) == [] && InterventionList(cfg, p.eventPack, p.cognition, 0) == [];
    ContinueLists(cfg, p.eventPack, p.cognition, 0, InitialDecision(cfg.plan));
    FoldedIsTrue(cfg, p);
  }

  lemma {:induction false} InvHasTrueProgress(cfg: Config, d: Durable)
    requires ValidConfig(cfg) && DurableInv(cfg, d) && ResultInv(cfg, d)
    ensures ProgressOf(d).Some? ==> TrueProgress(cfg, ProgressOf(d).value)
  {
    hide CheckpointInv, FaithfulResult, TrueProgress;
    if d.result.Some? {
      ResultProgress(cfg, d);
    } else if d.checkpoint.Some? {
      CheckpointProgress(cfg, d);
    }
  }

  // Every decision that is ever stored, between any two steps and across every resume, is the fold of the rule over
  // exactly the counted pairs.
  lemma {:induction false} StoredDecisionsFoldTheRule(cfg: Config, s0: State, actions: seq<Action>)
    requires ValidConfig(cfg) && Initial(cfg, s0)
    ensures
      var p := ProgressOf(Execute(cfg, s0, actions).durable);
      p.Some? ==> TrueProgress(cfg, p.value)
  {
    hide DurableInv, ResultInv, TrueProgress, ProgressOf, Execute, Initial;
    ReachableInv(cfg, s0, actions);
    InvHasTrueProgress(cfg, Execute(cfg, s0, actions).durable);
  }

  /*** Which arm is run on which seed, with which value ***/

  // The row of pair i: its own seed, the baseline value in the baseline run, the intervention value in the other.
  ghost predicate HoldsPair(cfg: Config, row: PairRow, i: nat, eventPack: EventPack, signals: seq<Json>) {
    var seed := cfg.request.seedRoot + 1009 * i;
    && row.pairIndex == i && row.seed == seed
    && row.baselineRun == PrepareRun(cfg.simulate(seed, cfg.request.baselineValue, eventPack, signals))
    && row.interventionRun == PrepareRun(cfg.simulate(seed, cfg.request.interventionValue, eventPack, signals))
  }

  // The seeds, both lists and the pairs of a result, run by run.
  ghost predicate TrueArms(cfg: Config, r: Result) {
    && |r.usedSeeds| == |r.interventionRuns| == |r.representatives| == |r.baselineRuns|
    && forall i :: 0 <= i < |r.baselineRuns| ==>
         var seed := cfg.request.seedRoot + 1009 * i;
         && r.usedSeeds[i] == seed
         && r.baselineRuns[i] == CompactRun(cfg.simulate(seed, cfg.request.baselineValue, r.eventPack, r.cognition.signals))
         && r.interventionRuns[i] == CompactRun(cfg.simulate(seed, cfg.request.interventionValue, r.eventPack, r.cognition.signals))
         && HoldsPair(cfg, r.representatives[i], i, r.eventPack, r.cognition.signals)
  }

  // The counted pairs of a checkpoint: rows of the table, or runs embedded by an earlier version.
  ghost predicate TrueCheckpoint(cfg: Config, c: Checkpoint, rows: seq<PairRow>) {
    var eventPack, signals := c.eventPackHash.preimage, c.cognition.signals;
    match c
    case MetadataV2(_, _, _, n, _, _) => n <= |rows| && forall i :: 0 <= i < n ==> HoldsPair(cfg, rows[i], i, eventPack, signals)
    case LegacyV1(_, _, _, b, v, _, _) =>
      && |b| == |v|
      && forall i :: 0 <= i < |b| ==>
           HoldsPair(cfg, PairRow(i, cfg.request.seedRoot + 1009 * i, PrepareRun(b[i]), PrepareRun(v[i])), i, eventPack, signals)
  }

  ghost predicate TrueStore(cfg: Config, d: Durable) {
    && (d.result.Some? ==> TrueArms(cfg, d.result.value))
    && (d.checkpoint.Some? ==> TrueCheckpoint(cfg, d.checkpoint.value, d.rows))
  }

  lemma {:induction false} PairHolds(cfg: Config, eventPack: EventPack, cognition: Cognition, i: nat)
    ensures HoldsPair(cfg, PairOf(cfg, eventPack, cognition, i), i, eventPack, cognition.signals)
  {
    hide PrepareRun;
  }

  lemma {:induction false} PairsHold(cfg: Config, eventPack: EventPack, cognition: Cognition, k: nat)
    ensures forall i :: 0 <= i < k ==> HoldsPair(cfg, PairsOf(cfg, eventPack, cognition, k)[i], i, eventPack, cognition.signals)
  {
    hide HoldsPair, PairOf;
    forall i | 0 <= i < k
      ensures HoldsPair(cfg, PairsOf(cfg, eventPack, cognition, k)[i], i, eventPack, cognition.signals)
    {
      PairHolds(cfg, eventPack, cognition, i);
    }
  }

  lemma {:induction false} CheckpointIsTrue(cfg: Config, c: Checkpoint, rows: seq<PairRow>)
    requires if c.LegacyV1? then LegacyInv(cfg, c, rows) else MetadataInv(cfg, c, rows)
    ensures TrueCheckpoint(cfg, c, rows)
  {
    hide HoldsPair, PairsOf, PrepareRun, FaithfulRows, InOrder, CarriesSeeds, HashesMatch;
    var eventPack := c.eventPackHash.preimage;
    if c.MetadataV2? {
      PairsHold(cfg, eventPack, c.cognition, c.completedPairs);
      assert forall i :: 0 <= i < c.completedPairs ==> rows[..c.completedPairs][i] == rows[i];
    } else {
      PairsHold(cfg, eventPack, c.cognition, |c.baselineRuns|);
      assert forall i :: 0 <= i < |c.baselineRuns| ==>
        MigratedRows(cfg, c.baselineRuns, c.interventionRuns)[i]
        == PairRow(i, cfg.request.seedRoot + 1009 * i, PrepareRun(c.baselineRuns[i]), PrepareRun(c.interventionRuns[i]));
    }
  }

  lemma {:induction false} ResultIsTrue(cfg: Config, eventPack: EventPack, cognition: Cognition)
    ensures TrueArms(cfg, UninterruptedResult(cfg, eventPack, cognition))
  {
    hide Continue, NextDecision, HoldsPair, PairOf, CompactRun, PrepareRun, InitialDecision;
    assert BaselineList(cfg, eventPack, cognition, 0) == [] && InterventionList(cfg, eventPack, cognition, 0) == [];
    ContinueLists(cfg, eventPack, cognition, 0, InitialDecision(cfg.plan));
    PairsHold(cfg, eventPack, cognition, |Uninterrupted(cfg, eventPack, cognition).baselineRuns|);
  }

  lemma {:induction false} StoreIsTrue(cfg: Config, d: Durable)
    requires DurableInv(cfg, d) && ResultInv(cfg, d)
    ensures TrueStore(cfg, d)
  {
    hide LegacyInv, MetadataInv, UninterruptedResult, TrueArms, TrueCheckpoint;
    if d.result.Some? {
      ResultIsTrue(cfg, d.result.value.eventPack, d.result.value.cognition);
    }
    if d.checkpoint.Some? {
      CheckpointIsTrue(cfg, d.checkpoint.value, d.rows);
    }
  }

  // In every state of every schedule, what is stored of pair i was simulated on the seed of pair i, the baseline with the
  // baseline value and the intervention with the intervention value, under one event pack and one frozen cognition.
  lemma {:induction false} EveryStoredRunIsOfItsArm(cfg: Config, s0: State, actions: seq<Action>)
    requires ValidConfig(cfg) && Initial(cfg, s0)
    ensures TrueStore(cfg, Execute(cfg, s0, actions).durable)
  {
    hide DurableInv, ResultInv, TrueStore, Execute, Initial;
    ReachableInv(cfg, s0, actions);
    StoreIsTrue(cfg, Execute(cfg, s0, actions).durable);
  }

  /*** A cancellation stops the work ***/

  // The head worker is not simulating a pair.
  predicate BetweenPairs(s: State) {
    s.workers != [] ==> s.workers[0].pc != RunPaths
  }

  lemma {:induction false} RetiredHead(cfg: Config, s: State)
    requires Inv(cfg, s) && |s.workers| > 1
    ensures s.workers[1].pc in {Submitted, Done}
  {
    hide DurableInv, ResultInv, WorkerInv;
  }

  lemma {:induction false} NextStartsNoPair(cfg: Config, d: Durable, worker: Worker, action: Action)
    requires d.cancelRequested && worker.pc != RunPaths && Enabled(action, worker)
    ensures NextDurable(cfg, d, worker, action).cancelRequested
    ensures !action.Begin? && action != Complete && action != Retire ==> NextWorker(cfg, d, worker, action).pc != RunPaths
  {
    hide MetadataFor, UpsertPair, NextDecision;
  }

  lemma {:induction false} BeginStartsNoPair(cfg: Config, s: State, eventPack: EventPack, reading: Reading)
    requires s.workers != [] && s.durable.cancelRequested
    ensures
      var s' := BeginWorker(cfg, s, eventPack, reading);
      s'.durable.cancelRequested && BetweenPairs(s')
  {
    hide ReadCheckpoint;
  }

  lemma {:induction false} CompleteStartsNoPair(cfg: Config, s: State)
    requires s.workers != [] && s.durable.cancelRequested
    ensures CompleteWorker(cfg, s).durable.cancelRequested && BetweenPairs(CompleteWorker(cfg, s))
  {
    hide ResultOf, StoredPairsPresent;
  }

  lemma {:induction false} HeadStartsNoPair(cfg: Config, s: State, action: Action)
    requires Inv(cfg, s) && s.workers != [] && Enabled(action, s.workers[0])
    requires s.durable.cancelRequested && BetweenPairs(s)
    ensures WorkerStep(cfg, s, action).durable.cancelRequested && BetweenPairs(WorkerStep(cfg, s, action))
  {
    hide Inv, Enabled, NextDurable, NextWorker, BeginWorker, CompleteWorker;
    match action
    case Begin(eventPack, reading) => BeginStartsNoPair(cfg, s, eventPack, reading);
    case Complete => CompleteStartsNoPair(cfg, s);
    case Retire =>
      if |s.workers| > 1 {
        RetiredHead(cfg, s);
      }
    case _ => NextStartsNoPair(cfg, s.durable, s.workers[0], action);
  }

  lemma {:induction false} StepStartsNoPair(cfg: Config, s: State, action: Action)
    requires Inv(cfg, s) && s.durable.cancelRequested && BetweenPairs(s)
    requires action !in {Start, StartUnqueued}
    ensures Step(cfg, s, action).durable.cancelRequested && BetweenPairs(Step(cfg, s, action))
  {
    hide Inv, WorkerStep, Enabled;
    if s.up && s.workers != [] && Enabled(action, s.workers[0]) {
      StepOfHead(cfg, s, action);
      HeadStartsNoPair(cfg, s, action);
    } else if action !in {Cancel, InvalidateResult, Crash, Restart} {
      NoStep(cfg, s, action);
    }
  }

  // Once a cancellation is recorded and no pair is being simulated, no schedule starts another pair before the experiment
  // is claimed anew.
  lemma {:induction false} NoPairAfterCancellation(cfg: Config, s0: State, actions: seq<Action>, later: seq<Action>)
    requires ValidConfig(cfg) && Initial(cfg, s0)
    requires Execute(cfg, s0, actions).durable.cancelRequested && BetweenPairs(Execute(cfg, s0, actions))
    requires forall i :: 0 <= i < |later| ==> later[i] !in {Start, StartUnqueued}
    ensures
      var s := Execute(cfg, s0, actions + later);
      s.durable.cancelRequested && BetweenPairs(s)
  {
    hide Inv, Initial, Step, BetweenPairs;
    if later == [] {
      assert actions + later == actions;
    } else {
      var n := |later| - 1;
      NoPairAfterCancellation(cfg, s0, actions, later[..n]);
      ExecuteNext(cfg, s0, actions, later);
      ReachableInv(cfg, s0, actions + later[..n]);
      StepStartsNoPair(cfg, Execute(cfg, s0, actions + later[..n]), later[n]);
    }
  }

  // At the head of its loop a worker obeys: unless its rule has just stopped it, the row ends cancelled and empty.
  lemma {:induction false} CancellationEndsTheLoop(cfg: Config, s: State)
    requires Inv(cfg, s) && s.up && s.workers != [] && s.workers[0].pc == PairLoop && s.durable.cancelRequested
    requires !s.workers[0].decision.triggered && |s.workers[0].baselineRuns| < cfg.request.seedCount
    ensures
      var d := Step(cfg, Step(cfg, s, LoopHead), FinishCancelled).durable;
      && d.status == Cancelled && d.checkpoint == None && d.rows == [] && d.result == s.durable.result
      && d.completedPairs == |s.workers[0].baselineRuns|
  {
    hide Inv, Step;
    StepOfHead(cfg, s, LoopHead);
    StepOfHead(cfg, Step(cfg, s, LoopHead), FinishCancelled);
  }

  // A failure before the final write changes the status alone, so that a retry finds every stored pair; a worker that dies
  // changes nothing.
  lemma {:induction false} FailuresKeepThePairs(cfg: Config, s: State)
    requires s.up && s.workers != [] && Working(s.workers[0])
    ensures
      var ended := WithHead(s, s.workers[0].(pc := Done));
      && Step(cfg, s, FailRetryable) == ended.(durable := s.durable.(status := FailedRetryable))
      && Step(cfg, s, FailFinal) == ended.(durable := s.durable.(status := FailedFinal))
      && Step(cfg, s, Die) == ended
  {
    hide Step, ReadCheckpoint, ResultOf;
    StepOfHead(cfg, s, FailRetryable);
    StepOfHead(cfg, s, FailFinal);
    StepOfHead(cfg, s, Die);
  }

  // Pairs counted under one event pack are never mixed with another: the worker gives up for good and keeps them.
  lemma {:induction false} ChangedPackIsRefused(cfg: Config, s: State, eventPack: EventPack, reading: Reading)
    requires Inv(cfg, s) && s.up && s.workers != [] && s.workers[0].pc == Submitted
    requires s.durable.completedPairs > 0 && s.durable.checkpoint.Some?
    requires eventPack != s.durable.checkpoint.value.eventPackHash.preimage
    ensures
      Step(cfg, s, Begin(eventPack, reading)) ==
      WithHead(s, s.workers[0].(pc := Done)).(durable := s.durable.(status := FailedFinal))
  {
    hide Inv, Step, LoadPairs, CarriesSeeds, Baselines, Interventions;
    StepOfHead(cfg, s, Begin(eventPack, reading));
  }

  lemma {:induction false} FirstHeldStays(
    plan: Plan, b: seq<Run>, i: seq<Run>, b': seq<Run>, i': seq<Run>, code: Code, k: nat)
    requires |b| == |i| && |b'| == |i'| && b <= b' && i <= i' && |b| <= k <= |b'|
    requires FirstHeld(plan, b, i, code, |b|).Some?
    ensures FirstHeld(plan, b', i', code, k) == FirstHeld(plan, b, i, code, |b|)
  {
    var first := FirstHeld(plan, b, i, code, |b|).value;
    var first' := FirstHeld(plan, b', i', code, k);
    hide FirstHeld, Holds;
    assert b[..first] == b'[..first] && i[..first] == i'[..first];
    forall j | 1 <= j < first
      ensures !Holds(plan, b'[..j], i'[..j], code)
    {
      assert b[..j] == b'[..j] && i[..j] == i'[..j];
    }
  }

  // A first-satisfied pair, once recorded, is the same in every later state of every schedule, unless a cancellation
  // discards the run.
  lemma {:induction false} FirstPairsNeverChange(cfg: Config, s0: State, actions: seq<Action>, later: seq<Action>, j: nat)
    requires ValidConfig(cfg) && Initial(cfg, s0)
    requires
      var p := ProgressOf(Execute(cfg, s0, actions).durable);
      && p.Some? && j < |p.value.decision.conditionEvaluations|
      && p.value.decision.conditionEvaluations[j].firstSatisfiedAtPair.Some?
    ensures
      var p := ProgressOf(Execute(cfg, s0, actions).durable).value;
      var d' := Execute(cfg, s0, actions + later).durable;
      || Discarded(d')
      || (&& ProgressOf(d').Some?
          && j < |ProgressOf(d').value.decision.conditionEvaluations|
          && ProgressOf(d').value.decision.conditionEvaluations[j].code == p.decision.conditionEvaluations[j].code
          && ProgressOf(d').value.decision.conditionEvaluations[j].firstSatisfiedAtPair
             == p.decision.conditionEvaluations[j].firstSatisfiedAtPair)
  {
    hide TrueProgress, ProgressOf, Execute, Initial, Discarded, CommitmentOf;
    StoredDecisionsFoldTheRule(cfg, s0, actions);
    StoredDecisionsFoldTheRule(cfg, s0, actions + later);
    FrozenCognition(cfg, s0, actions, later);
    var d, d' := Execute(cfg, s0, actions).durable, Execute(cfg, s0, actions + later).durable;
    CommittedProgress(d);
    CommittedProgress(d');
    RecordedMeansCounted(cfg, ProgressOf(d).value, j);
    if !Discarded(d') {
      ProgressKeepsFirst(cfg, ProgressOf(d).value, ProgressOf(d').value, j);
    }
  }

  lemma {:induction false} CommittedProgress(d: Durable)
    ensures
      var p, c := ProgressOf(d), CommitmentOf(d);
      && (p.Some? && p.value.pairs > 0 ==> c == Committed(p.value.eventPack, p.value.cognition, p.value.pairs))
      && (c.Committed? ==> p.Some? && c == Committed(p.value.eventPack, p.value.cognition, p.value.pairs))
  {
  }

  lemma {:induction false} RecordedMeansCounted(cfg: Config, p: Progress, j: nat)
    requires TrueProgress(cfg, p) && j < |p.decision.conditionEvaluations|
    requires p.decision.conditionEvaluations[j].firstSatisfiedAtPair.Some?
    ensures p.pairs > 0
  {
    hide DecisionAfter, Terminal;
  }

  lemma {:induction false} ProgressKeepsFirst(cfg: Config, p: Progress, p': Progress, j: nat)
    requires TrueProgress(cfg, p) && TrueProgress(cfg, p')
    requires p'.eventPack == p.eventPack && p'.cognition == p.cognition && p'.pairs >= p.pairs
    requires j < |p.decision.conditionEvaluations| && p.decision.conditionEvaluations[j].firstSatisfiedAtPair.Some?
    ensures j < |p'.decision.conditionEvaluations|
    ensures p'.decision.conditionEvaluations[j].code == p.decision.conditionEvaluations[j].code
    ensures p'.decision.conditionEvaluations[j].firstSatisfiedAtPair == p.decision.conditionEvaluations[j].firstSatisfiedAtPair
  {
    hide DecisionAfter, Terminal, FirstHeld;
    FirstHeldStays(
      cfg.plan,
      BaselineList(cfg, p.eventPack, p.cognition, p.pairs), InterventionList(cfg, p.eventPack, p.cognition, p.pairs),
      BaselineList(cfg, p.eventPack, p.cognition, p'.pairs), InterventionList(cfg, p.eventPack, p.cognition, p'.pairs),
      ConditionCodes(cfg.plan.rule)[j], p'.pairs);
  }

  /*** A retry can always finish ***/

  lemma {:induction false} PreparedSeed(cfg: Config, eventPack: EventPack, cognition: Cognition, i: nat)
    requires ValidConfig(cfg)
    ensures CarriesSeed(CompactRun(PairOf(cfg, eventPack, cognition, i).baselineRun), Seed(cfg, i))
    ensures CarriesSeed(CompactRun(PairOf(cfg, eventPack, cognition, i).interventionRun), Seed(cfg, i))
  {
    assert CarriesSeed(BaselineRun(cfg, eventPack, cognition, i), Seed(cfg, i));
    assert CarriesSeed(InterventionRun(cfg, eventPack, cognition, i), Seed(cfg, i));
  }

  lemma {:induction false} CountedRowsCarrySeeds(cfg: Config, eventPack: EventPack, cognition: Cognition, rows: seq<PairRow>, n: nat)
    requires ValidConfig(cfg) && n <= |rows| && n <= cfg.request.seedCount
    requires rows[..n] == PairsOf(cfg, eventPack, cognition, n)
    ensures CarriesSeeds(Baselines(LoadPairs(rows)[..n]), Seeds(cfg)) && CarriesSeeds(Interventions(LoadPairs(rows)[..n]), Seeds(cfg))
  {
    var seeds, stored := Seeds(cfg), LoadPairs(rows);
    forall i | 0 <= i < n
      ensures CarriesSeed(Baselines(stored[..n])[i], seeds[i]) && CarriesSeed(Interventions(stored[..n])[i], seeds[i])
    {
      PreparedSeed(cfg, eventPack, cognition, i);
      assert rows[..n][i] == PairOf(cfg, eventPack, cognition, i);
    }
  }

  // A checkpoint that a worker can have left behind is never refused while the event pack is unchanged.
  lemma {:induction false} CheckpointRestores(cfg: Config, d: Durable)
    requires ValidConfig(cfg) && CheckpointInv(cfg, d.completedPairs, d.checkpoint, d.rows) && d.checkpoint.Some?
    ensures
      var restored := ReadCheckpoint(cfg, d, d.checkpoint.value.eventPackHash.preimage, Readable);
      restored.Some? && |restored.value.baselineRuns| == |restored.value.interventionRuns| == d.completedPairs
  {
    hide FaithfulRows, PairsOf, MigratedRows, InOrder, CarriesSeeds;
    var c := d.checkpoint.value;
    if c.MetadataV2? {
      CountedRowsCarrySeeds(cfg, c.eventPackHash.preimage, c.cognition, d.rows, c.completedPairs);
    }
  }

  // The cognition a worker goes on with: the one frozen in a checkpoint of its event pack, or else the one it prepares.
  ghost function CognitionFor(checkpoint: Option<Checkpoint>, eventPack: EventPack, prepared: Cognition): Cognition {
    if checkpoint.Some? && checkpoint.value.eventPackHash == Sha256(eventPack) then checkpoint.value.cognition else prepared
  }

  // A worker that reads a checkpoint of its event pack resumes it, with its cognition, or gives up; it starts afresh only
  // without one.
  lemma {:induction false} CheckpointIsResumed(cfg: Config, d: Durable, eventPack: EventPack, reading: Reading, prepared: Cognition)
    requires ValidConfig(cfg) && CheckpointInv(cfg, d.completedPairs, d.checkpoint, d.rows)
    ensures
      var restored, frozen := ReadCheckpoint(cfg, d, eventPack, reading), CognitionFor(d.checkpoint, eventPack, prepared);
      && (restored.Some? ==> restored.value.cognition == frozen)
      && (restored.None? && !Corrupted(d, reading) ==> frozen == prepared)
  {
    hide CheckpointInv, Seeds, LoadPairs;
    if d.checkpoint.Some? && d.checkpoint.value.eventPackHash == Sha256(eventPack) {
      CheckpointRestores(cfg, d);
    }
  }

  /*** Where the recorded cognition and event pack come from ***/

  // A cognition that a worker prepared in the schedule, or that the checkpoint held from which the schedule starts.
  ghost predicate WasPrepared(s0: State, actions: seq<Action>, cognition: Cognition) {
    CognitionPrepared(cognition) in actions || (s0.durable.checkpoint.Some? && s0.durable.checkpoint.value.cognition == cognition)
  }

  // An event pack that a worker of the schedule was begun with, or that the checkpoint held from which it starts.
  ghost predicate WasBegun(s0: State, actions: seq<Action>, eventPack: EventPack) {
    || (exists reading :: Begin(eventPack, reading) in actions)
    || (s0.durable.checkpoint.Some? && s0.durable.checkpoint.value.eventPackHash == Sha256(eventPack))
  }

  ghost predicate Traced(s0: State, actions: seq<Action>, d: Durable) {
    && (d.checkpoint.Some? ==>
          WasPrepared(s0, actions, d.checkpoint.value.cognition) && WasBegun(s0, actions, d.checkpoint.value.eventPackHash.preimage))
    && (d.result.Some? ==> WasPrepared(s0, actions, d.result.value.cognition) && WasBegun(s0, actions, d.result.value.eventPack))
  }

  ghost predicate HeadTraced(s0: State, actions: seq<Action>, workers: seq<Worker>) {
    workers != [] && workers[0].pc != Submitted && Working(workers[0]) ==> WasBegun(s0, actions, workers[0].eventPack)
  }

  // A worker that records its own cognition has it from the checkpoint, unless it has just prepared it.
  lemma {:induction false} RecordTraced(cfg: Config, s0: State, earlier: seq<Action>, d: Durable, worker: Worker, action: Action)
    requires WorkerInv(cfg, d, worker) && Enabled(action, worker) && (action in {Resume, Commit} || action.CognitionPrepared?)
    requires Traced(s0, earlier, d) && HeadTraced(s0, earlier, [worker])
    ensures Traced(s0, earlier + [action], NextDurable(cfg, d, worker, action))
  {
    hide WorkerFaithful, Mirrors, InOrder, PairsOf, PairOf, Seeds;
    assert WasBegun(s0, earlier, worker.eventPack);
    GivenStays(s0, earlier, action);
    hide WasPrepared, WasBegun;
  }

  lemma {:induction false} NextTraced(cfg: Config, s0: State, earlier: seq<Action>, d: Durable, worker: Worker, action: Action)
    requires Working(worker) ==> WorkerInv(cfg, d, worker)
    requires Enabled(action, worker) && action !in {Complete, Retire} && !action.Begin?
    requires Traced(s0, earlier, d) && HeadTraced(s0, earlier, [worker])
    ensures Traced(s0, earlier + [action], NextDurable(cfg, d, worker, action))
    ensures HeadTraced(s0, earlier + [action], [NextWorker(cfg, d, worker, action)])
  {
    hide WorkerInv, UpsertPair, NextWorker, HeadTraced, MetadataFor;
    NextHeadTraced(cfg, s0, earlier, d, worker, action);
    if action in {Resume, Commit} || action.CognitionPrepared? {
      RecordTraced(cfg, s0, earlier, d, worker, action);
    } else {
      GivenStays(s0, earlier, action);
      hide WasPrepared, WasBegun;
    }
  }

  lemma {:induction false} NextHeadTraced(cfg: Config, s0: State, earlier: seq<Action>, d: Durable, worker: Worker, action: Action)
    requires Enabled(action, worker) && action !in {Complete, Retire} && !action.Begin? && HeadTraced(s0, earlier, [worker])
    ensures HeadTraced(s0, earlier + [action], [NextWorker(cfg, d, worker, action)])
  {
    hide PairOf, NextDecision, CompactRun;
    GivenStays(s0, earlier, action);
    hide WasPrepared, WasBegun;
  }

  lemma {:induction false} BeginTraced(
    cfg: Config, s0: State, earlier: seq<Action>, s: State, eventPack: EventPack, reading: Reading)
    requires s.workers != [] && Traced(s0, earlier, s.durable)
    ensures
      var actions, s' := earlier + [Begin(eventPack, reading)], BeginWorker(cfg, s, eventPack, reading);
      Traced(s0, actions, s'.durable) && HeadTraced(s0, actions, s'.workers)
  {
    hide ReadCheckpoint, CompactAll, PrepareAll, MigratedRows;
    GivenStays(s0, earlier, Begin(eventPack, reading));
    hide WasPrepared, WasBegun;
  }

  lemma {:induction false} CompleteTraced(cfg: Config, s0: State, earlier: seq<Action>, s: State)
    requires s.workers != [] && s.workers[0].pc == Aggregate
    requires CountedInv(cfg, s.durable.checkpoint, s.durable.rows, s.workers[0])
    requires Traced(s0, earlier, s.durable) && HeadTraced(s0, earlier, s.workers)
    ensures
      var actions, s' := earlier + [Complete], CompleteWorker(cfg, s);
      Traced(s0, actions, s'.durable) && HeadTraced(s0, actions, s'.workers)
  {
    hide StoredPairsPresent, WorkerFaithful, Mirrors, Seeds;
    GivenStays(s0, earlier, Complete);
    hide WasPrepared, WasBegun;
  }

  // Control steps record nothing, and a worker that is started has not begun.
  lemma {:induction false} ControlTraced(cfg: Config, s0: State, earlier: seq<Action>, s: State, action: Action)
    requires Inv(cfg, s) && !(s.up && s.workers != [] && Enabled(action, s.workers[0]))
    requires Traced(s0, earlier, s.durable) && HeadTraced(s0, earlier, s.workers)
    ensures
      var actions, s' := earlier + [action], Step(cfg, s, action);
      Traced(s0, actions, s'.durable) && HeadTraced(s0, actions, s'.workers)
  {
    hide DurableInv, ResultInv, WorkerInv, WorkerStep;
    GivenStays(s0, earlier, action);
    hide WasPrepared, WasBegun;
    if action !in {Start, StartUnqueued, Cancel, InvalidateResult, Crash, Restart} {
      hide Step;
      NoStep(cfg, s, action);
    }
  }

  // The worker that comes to the head has not begun.
  lemma {:induction false} RetireTraced(cfg: Config, s0: State, earlier: seq<Action>, s: State)
    requires Inv(cfg, s) && s.up && s.workers != [] && Enabled(Retire, s.workers[0])
    requires Traced(s0, earlier, s.durable)
    ensures
      var actions, s' := earlier + [Retire], Step(cfg, s, Retire);
      Traced(s0, actions, s'.durable) && HeadTraced(s0, actions, s'.workers)
  {
    hide DurableInv, ResultInv, WorkerInv, NextDurable, NextWorker, BeginWorker, CompleteWorker, Step;
    GivenStays(s0, earlier, Retire);
    StepOfHead(cfg, s, Retire);
    hide WasPrepared, WasBegun;
  }

  lemma {:induction false} StartTraced(cfg: Config, s0: State)
    requires Initial(cfg, s0)
    ensures Traced(s0, [], s0.durable) && HeadTraced(s0, [], s0.workers)
  {
    hide LegacyInv;
  }

  // In every state of every schedule, cognition and event pack of a checkpoint or a result are ones that were prepared and
  // begun with in that schedule, or that the checkpoint held with which the schedule started.
  lemma {:induction false} NothingElseIsRecorded(cfg: Config, s0: State, actions: seq<Action>)
    requires ValidConfig(cfg) && Initial(cfg, s0)
    ensures Traced(s0, actions, Execute(cfg, s0, actions).durable)
    ensures HeadTraced(s0, actions, Execute(cfg, s0, actions).workers)
  {
    hide Inv, Initial, Step, Traced, HeadTraced;
    if actions == [] {
      StartTraced(cfg, s0);
    } else {
      var n := |actions| - 1;
      NothingElseIsRecorded(cfg, s0, actions[..n]);
      ReachableInv(cfg, s0, actions[..n]);
      assert actions == actions[..n] + [actions[n]];
      StepTraced(cfg, s0, actions[..n], Execute(cfg, s0, actions[..n]), actions[n]);
    }
  }

  lemma {:induction false} StepTraced(cfg: Config, s0: State, earlier: seq<Action>, s: State, action: Action)
    requires Inv(cfg, s) && Traced(s0, earlier, s.durable) && HeadTraced(s0, earlier, s.workers)
    ensures
      var actions, s' := earlier + [action], Step(cfg, s, action);
      Traced(s0, actions, s'.durable) && HeadTraced(s0, actions, s'.workers)
  {
    hide Inv, Step, Traced, HeadTraced;
    if s.up && s.workers != [] && Enabled(action, s.workers[0]) {
      WorkerTraced(cfg, s0, earlier, s, action);
    } else {
      ControlTraced(cfg, s0, earlier, s, action);
    }
  }

  lemma {:induction false} WorkerTraced(cfg: Config, s0: State, earlier: seq<Action>, s: State, action: Action)
    requires Inv(cfg, s) && s.up && s.workers != [] && Enabled(action, s.workers[0])
    requires Traced(s0, earlier, s.durable) && HeadTraced(s0, earlier, s.workers)
    ensures
      var actions, s' := earlier + [action], Step(cfg, s, action);
      Traced(s0, actions, s'.durable) && HeadTraced(s0, actions, s'.workers)
  {
    hide Inv, DurableInv, Step, Traced, WasBegun, CountedInv, BeginWorker, CompleteWorker, NextDurable, NextWorker;
    if action == Retire {
      RetireTraced(cfg, s0, earlier, s);
      return;
    }
    StepOfHead(cfg, s, action);
    LiveHead(cfg, s);
    if action.Begin? {
      BeginTraced(cfg, s0, earlier, s, action.eventPack, action.reading);
    } else if action == Complete {
      CompleteTraced(cfg, s0, earlier, s);
    } else {
      NextTraced(cfg, s0, earlier, s.durable, s.workers[0], action);
    }
  }

  lemma {:induction false} GivenStays(s0: State, earlier: seq<Action>, action: Action)
    ensures forall cognition :: WasPrepared(s0, earlier, cognition) ==> WasPrepared(s0, earlier + [action], cognition)
    ensures forall eventPack :: WasBegun(s0, earlier, eventPack) ==> WasBegun(s0, earlier + [action], eventPack)
    ensures forall cognition :: action == CognitionPrepared(cognition) ==> WasPrepared(s0, earlier + [action], cognition)
    ensures forall eventPack, reading :: action == Begin(eventPack, reading) ==> WasBegun(s0, earlier + [action], eventPack)
  {
    assert forall other :: other in earlier ==> other in earlier + [action];
    assert action in earlier + [action];
  }

  lemma {:induction false} ExecuteAppend(cfg: Config, s: State, first: seq<Action>, rest: seq<Action>)
    ensures Execute(cfg, s, first + rest) == Execute(cfg, Execute(cfg, s, first), rest)
  {
    if rest == [] {
      assert first + rest == first;
    } else {
      assert (first + rest)[..|first + rest| - 1] == first + rest[..|rest| - 1];
      ExecuteAppend(cfg, s, first, rest[..|rest| - 1]);
    }
  }

  lemma {:induction false} ExecuteOne(cfg: Config, s: State, action: Action)
    ensures Execute(cfg, s, [action]) == Step(cfg, s, action)
  {
    assert [action][..0] == [];
    assert Execute(cfg, s, []) == s;
  }

  ghost predicate AtLoopHead(cfg: Config, s: State) {
    s.up && Inv(cfg, s) && s.workers != [] && s.workers[0].pc == PairLoop && !s.durable.cancelRequested
  }

  lemma {:induction false} SimulatePair(cfg: Config, s: State)
    requires ValidConfig(cfg) && AtLoopHead(cfg, s)
    requires !Terminated(cfg, s.workers[0])
    ensures
      var s' := Step(cfg, Step(cfg, s, LoopHead), PathsFinished);
      && s'.up && Inv(cfg, s') && s'.workers != [] && s'.workers[0].pc == SavePair && !s'.durable.cancelRequested
      && |s'.workers[0].baselineRuns| == |s.workers[0].baselineRuns| + 1
  {
    hide DurableInv, ResultInv, Faithful, Mirrors, Synced, PairOf, NextDecision;
    var s1 := Step(cfg, s, LoopHead);
    StepKeepsInv(cfg, s, LoopHead);
    StepKeepsInv(cfg, s1, PathsFinished);
  }

  lemma {:induction false} StorePair(cfg: Config, s: State)
    requires ValidConfig(cfg) && s.up && Inv(cfg, s)
    requires s.workers != [] && s.workers[0].pc == SavePair && !s.durable.cancelRequested
    ensures
      var s' := Step(cfg, Step(cfg, s, Save), Commit);
      AtLoopHead(cfg, s') && s'.workers[0].baselineRuns == s.workers[0].baselineRuns
  {
    hide Inv, Step, UpsertPair, MetadataFor, ValidConfig;
    SavingHasPending(cfg, s);
    var s1 := Step(cfg, s, Save);
    StepOfHead(cfg, s, Save);
    StepKeepsInv(cfg, s, Save);
    StepOfHead(cfg, s1, Commit);
    StepKeepsInv(cfg, s1, Commit);
  }

  lemma {:induction false} SavingHasPending(cfg: Config, s: State)
    requires Inv(cfg, s) && s.workers != [] && s.workers[0].pc == SavePair
    ensures s.workers[0].pending != []
  {
    hide DurableInv, ResultInv, UncountedInv;
  }

  // One trip round the loop: simulate both arms, save the row, commit the metadata.
  lemma {:induction false} RunOnePair(cfg: Config, s: State)
    requires ValidConfig(cfg) && AtLoopHead(cfg, s)
    requires !Terminated(cfg, s.workers[0])
    ensures
      var s' := Step(cfg, Step(cfg, Step(cfg, Step(cfg, s, LoopHead), PathsFinished), Save), Commit);
      AtLoopHead(cfg, s') && |s'.workers[0].baselineRuns| == |s.workers[0].baselineRuns| + 1
  {
    hide Inv, Step;
    SimulatePair(cfg, s);
    StorePair(cfg, Step(cfg, Step(cfg, s, LoopHead), PathsFinished));
  }

  // A run that its rule has stopped is completed, also when a cancellation has been recorded meanwhile.
  lemma {:induction false} StoppedRunsComplete(cfg: Config, s: State)
    requires ValidConfig(cfg) && Inv(cfg, s) && s.up && s.workers != [] && s.workers[0].pc == PairLoop
    requires Terminated(cfg, s.workers[0])
    ensures
      var d := Step(cfg, Step(cfg, Step(cfg, s, LoopHead), EnterAggregation), Complete).durable;
      d.status == Completed && d.result.Some? && d.completedPairs == |s.workers[0].baselineRuns|
  {
    hide Inv, Step, ValidConfig, CompleteWorker;
    var s1 := Step(cfg, s, LoopHead);
    StepOfHead(cfg, s, LoopHead);
    StepKeepsInv(cfg, s, LoopHead);
    var s2 := Step(cfg, s1, EnterAggregation);
    StepOfHead(cfg, s1, EnterAggregation);
    StepKeepsInv(cfg, s1, EnterAggregation);
    StepOfHead(cfg, s2, Complete);
    CompletionStoresUninterrupted(cfg, s2);
  }

  lemma {:induction false} LoopCompletes(cfg: Config, s: State) returns (actions: seq<Action>)
    requires ValidConfig(cfg) && AtLoopHead(cfg, s)
    ensures Execute(cfg, s, actions).durable.status == Completed
    decreases cfg.request.seedCount - |s.workers[0].baselineRuns|
  {
    hide DurableInv, ResultInv, Step, Continue;
    if Terminated(cfg, s.workers[0]) {
      StoppedRunsComplete(cfg, s);
      actions := [LoopHead, EnterAggregation, Complete];
      ExecuteThree(cfg, s, LoopHead, EnterAggregation, Complete);
    } else {
      RunOnePair(cfg, s);
      var s3 := Step(cfg, Step(cfg, Step(cfg, s, LoopHead), PathsFinished), Save);
      var rest := LoopCompletes(cfg, Step(cfg, s3, Commit));
      ExecuteThree(cfg, s, LoopHead, PathsFinished, Save);
      ExecuteOne(cfg, s3, Commit);
      ExecuteAppend(cfg, s3, [Commit], rest);
      actions := [LoopHead, PathsFinished, Save] + ([Commit] + rest);
      ExecuteAppend(cfg, s, [LoopHead, PathsFinished, Save], [Commit] + rest);
    }
  }

  lemma {:induction false} ExecuteThree(cfg: Config, s: State, a: Action, b: Action, c: Action)
    ensures Execute(cfg, s, [a, b, c]) == Step(cfg, Step(cfg, Step(cfg, s, a), b), c)
  {
    ExecuteOne(cfg, s, a);
    ExecuteOne(cfg, Step(cfg, s, a), b);
    ExecuteOne(cfg, Step(cfg, Step(cfg, s, a), b), c);
    ExecuteAppend(cfg, s, [a], [b]);
    assert [a] + [b] == [a, b];
    ExecuteAppend(cfg, s, [a, b], [c]);
    assert [a, b] + [c] == [a, b, c];
  }

  // The event pack under which a retry resumes; an experiment without a checkpoint may use any.
  function ResumePack(d: Durable, fallback: EventPack): EventPack {
    if d.checkpoint.Some? then d.checkpoint.value.eventPackHash.preimage else fallback
  }

  lemma {:induction false} ClaimAndBegin(cfg: Config, s: State, eventPack: EventPack)
    requires ValidConfig(cfg) && Inv(cfg, s)
    requires s.up && s.workers == [] && s.durable.status == FailedRetryable
    requires eventPack == ResumePack(s.durable, eventPack)
    ensures
      var s' := Step(cfg, Step(cfg, s, Start), Begin(eventPack, Readable));
      && s'.up && Inv(cfg, s') && |s'.workers| == 1 && !s'.durable.cancelRequested
      && s'.workers[0].pc == (if s.durable.checkpoint.None? then WriteFresh
                              else if s.durable.checkpoint.value.LegacyV1? then MigrateLegacy else WriteResume)
  {
    hide Inv, CheckpointInv, ReadCheckpoint, ValidConfig, Step, BeginWorker;
    var s1 := Step(cfg, s, Start);
    StartClaims(cfg, s);
    StepKeepsInv(cfg, s, Start);
    SubmittedFinds(cfg, s1);
    BeginReads(cfg, s1, eventPack);
    StepOfHead(cfg, s1, Begin(eventPack, Readable));
    StepKeepsInv(cfg, s1, Begin(eventPack, Readable));
  }

  lemma {:induction false} StartClaims(cfg: Config, s: State)
    requires s.up && s.workers == [] && s.durable.status == FailedRetryable
    ensures Step(cfg, s, Start) == State(true, s.durable.(status := Queued, cancelRequested := false), [NewWorker(cfg)])
  {
  }

  lemma {:induction false} BeginReads(cfg: Config, s: State, eventPack: EventPack)
    requires ValidConfig(cfg) && s.workers != []
    requires CheckpointInv(cfg, s.durable.completedPairs, s.durable.checkpoint, s.durable.rows)
    requires eventPack == ResumePack(s.durable, eventPack)
    ensures
      var s' := BeginWorker(cfg, s, eventPack, Readable);
      && s'.up == s.up && |s'.workers| == |s.workers| && s'.durable == s.durable
      && s'.workers[0].pc == (if s.durable.checkpoint.None? then WriteFresh
                              else if s.durable.checkpoint.value.LegacyV1? then MigrateLegacy else WriteResume)
  {
    hide LegacyInv, MetadataInv, ReadCheckpoint, ValidConfig;
    if s.durable.checkpoint.Some? {
      CheckpointRestores(cfg, s.durable);
      ReadRestoresKind(cfg, s.durable, eventPack);
    } else {
      NothingToRead(cfg, s.durable, eventPack);
    }
  }

  lemma {:induction false} ReadRestoresKind(cfg: Config, d: Durable, eventPack: EventPack)
    requires ReadCheckpoint(cfg, d, eventPack, Readable).Some?
    ensures d.checkpoint.Some? && ReadCheckpoint(cfg, d, eventPack, Readable).value.legacy == d.checkpoint.value.LegacyV1?
  {
  }

  lemma {:induction false} NothingToRead(cfg: Config, d: Durable, eventPack: EventPack)
    requires d.checkpoint == None
    ensures ReadCheckpoint(cfg, d, eventPack, Readable).None?
  {
  }

  lemma {:induction false} ReachLoopHead(cfg: Config, s: State, cognition: Cognition) returns (actions: seq<Action>)
    requires ValidConfig(cfg) && Inv(cfg, s) && s.up && |s.workers| == 1 && !s.durable.cancelRequested
    requires s.workers[0].pc in {WriteFresh, MigrateLegacy, WriteResume}
    ensures AtLoopHead(cfg, Execute(cfg, s, actions))
  {
    hide Inv, MetadataFor;
    var pc := s.workers[0].pc;
    var first := if pc == WriteFresh then Fresh else if pc == MigrateLegacy then Migrate else Resume;
    var s1 := Step(cfg, s, first);
    StepKeepsInv(cfg, s, first);
    ExecuteOne(cfg, s, first);
    actions := [first];
    if pc != WriteResume {
      var second := if pc == WriteFresh then CognitionPrepared(cognition) else Resume;
      StepKeepsInv(cfg, s1, second);
      ExecuteOne(cfg, s1, second);
      ExecuteAppend(cfg, s, [first], [second]);
      actions := [first] + [second];
    }
  }

  // No crash, restart or storage failure leaves an experiment stuck: from any retryable state that a schedule can reach,
  // a schedule without further faults ends in a completed experiment.
  lemma {:induction false} RetryCompletes(cfg: Config, s0: State, past: seq<Action>, fallback: EventPack, cognition: Cognition)
    returns (future: seq<Action>)
    requires ValidConfig(cfg) && Initial(cfg, s0)
    requires
      var s := Execute(cfg, s0, past);
      s.up && s.workers == [] && s.durable.status == FailedRetryable
    ensures Execute(cfg, s0, past + future).durable.status == Completed
  {
    hide Inv, Initial, Step, AtLoopHead;
    var s := Execute(cfg, s0, past);
    var eventPack := ResumePack(s.durable, fallback);
    assert Inv(cfg, s) by { ReachableInv(cfg, s0, past); }
    ClaimAndBegin(cfg, s, eventPack);
    var s1 := Step(cfg, Step(cfg, s, Start), Begin(eventPack, Readable));
    ExecuteOne(cfg, s, Start);
    ExecuteOne(cfg, Step(cfg, s, Start), Begin(eventPack, Readable));
    ExecuteAppend(cfg, s, [Start], [Begin(eventPack, Readable)]);
    var begin := [Start] + [Begin(eventPack, Readable)];
    var enter := ReachLoopHead(cfg, s1, cognition);
    var loop := LoopCompletes(cfg, Execute(cfg, s1, enter));
    ExecuteAppend(cfg, s1, enter, loop);
    ExecuteAppend(cfg, s, begin, enter + loop);
    future := begin + (enter + loop);
    ExecuteAppend(cfg, s0, past, future);
  }

  // Whatever has happened to its worker, an experiment in an active status is retryable after a restart.
  lemma {:induction false} RestartMakesRetryable(cfg: Config, s0: State, past: seq<Action>)
    requires ValidConfig(cfg) && Initial(cfg, s0) && Active(Execute(cfg, s0, past).durable.status)
    ensures
      var s, s' := Execute(cfg, s0, past), Execute(cfg, s0, past + [Crash, Restart]);
      s'.up && s'.workers == [] && s'.durable == s.durable.(status := FailedRetryable)
  {
    hide Inv, Initial, Step, Execute;
    var s := Execute(cfg, s0, past);
    ReachableInv(cfg, s0, past);
    ExecuteAppend(cfg, s0, past, [Crash, Restart]);
    ExecuteOne(cfg, s, Crash);
    ExecuteOne(cfg, Step(cfg, s, Crash), Restart);
    ExecuteAppend(cfg, s, [Crash], [Restart]);
    assert [Crash] + [Restart] == [Crash, Restart];
    CrashThenRestart(cfg, s);
  }

  lemma {:induction false} CrashThenRestart(cfg: Config, s: State)
    requires Inv(cfg, s) && Active(s.durable.status)
    ensures Step(cfg, Step(cfg, s, Crash), Restart) == State(true, s.durable.(status := FailedRetryable), [])
  {
    hide DurableInv, ResultInv, WorkerInv;
  }
}
