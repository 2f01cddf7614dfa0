// The worker body in its own form: one method that appends to run lists, calls the database after every pair,
// and may be interrupted anywhere by a crash, a failure or a cancellation.

module ExperimentService {
  import opened Json
  import opened StoppingRule
  import opened ExperimentRecord
  import opened ExperimentRunner

  datatype Fault = NoFault | CrashNow | RetryableError | FatalError

  // `Crashed` also covers a failure that cannot be recorded: the worker then ends without a write.
  datatype Ending = RanToCompletion | RanToCancellation | EndedRetryable | EndedFatally | Crashed

  ghost predicate StoreInv(cfg: Config, d: Durable) {
    DurableInv(cfg, d) && ResultInv(cfg, d)
  }

  // What other threads may do to the row between two statements of the worker: nothing, cancel, or invalidate.
  ghost predicate Disturbed(d: Durable, d': Durable) {
    d' == d || d' == RequestCancel(d) || d' == Invalidate(d)
  }

  // A disturbance touches neither the checkpoint nor the rows nor the result, and an active row stays active.
  lemma {:induction false} DisturbedStore(cfg: Config, d: Durable, d': Durable)
    requires StoreInv(cfg, d) && Disturbed(d, d')
    ensures StoreInv(cfg, d')
    ensures Active(d.status) ==> Active(d'.status) && d' == d.(status := d'.status, cancelRequested := d'.cancelRequested)
    ensures d.cancelRequested ==> d'.cancelRequested
  {
    hide DurableInv, ResultInv;
    ControlKeepsInv(cfg, d);
  }

  // Whatever other threads, storage and the operating system do between two statements of the worker.
  method Interlude(ghost cfg: Config, table: ExperimentTable) returns (fault: Fault)
    requires StoreInv(cfg, table.Contents())
    modifies table
    ensures Disturbed(old(table.Contents()), table.Contents()) && StoreInv(cfg, table.Contents())
    ensures Active(old(table.status)) ==>
      && Active(table.status) && table.result == old(table.result)
      && table.completedPairs == old(table.completedPairs)
      && table.checkpoint == old(table.checkpoint) && table.rows == old(table.rows)
    ensures old(table.cancelRequested) ==> table.cancelRequested
  {
    hide StoreInv;
    var cancelled: bool, invalidated: bool := *, *;
    if cancelled {
      table.CancelExperiment();
    } else if invalidated {
      table.InvalidateCompletedExperiment();
    }
    fault := *;
    DisturbedStore(cfg, old(table.Contents()), table.Contents());
  }

  // What a restart finds: a crash leaves the row as it was, a failure leaves it claimable or final.
  ghost predicate EndsWith(ending: Ending, status: Status) {
    match ending
    case RanToCompletion => status in {Completed, Invalidated}
    case RanToCancellation => status == Cancelled
    case EndedRetryable => status == FailedRetryable
    case EndedFatally => status == FailedFinal
    case Crashed => Active(status) || status in {Completed, Invalidated, Cancelled}
  }

  // A failure before the final write is recorded in the row, unless that write fails too.
  method Stop(cfg: Config, table: ExperimentTable, fault: Fault) returns (ending: Ending)
    requires StoreInv(cfg, table.Contents()) && Active(table.status) && fault != NoFault
    modifies table
    ensures StoreInv(cfg, table.Contents()) && EndsWith(ending, table.status) && table.result == None
    ensures ending in {EndedRetryable, EndedFatally, Crashed}
    ensures Active(table.status) || table.status in {FailedRetryable, FailedFinal}
  {
    hide LegacyInv, MetadataInv, FaithfulResult;
    var recorded: bool := *;
    if fault == CrashNow || !recorded {
      ending := Crashed;
    } else if fault == RetryableError {
      table.UpdateStatus(FailedRetryable);
      ending := EndedRetryable;
    } else {
      table.UpdateStatus(FailedFinal);
      ending := EndedFatally;
    }
  }

  // The audit event of a final status is a second transaction. When it cannot be appended the row is overwritten as
  // failed: the status is lost, and nothing else is.
  method AuditEnding(cfg: Config, table: ExperimentTable, ended: Ending) returns (ending: Ending)
    requires StoreInv(cfg, table.Contents())
    requires ended in {RanToCompletion, RanToCancellation} && EndsWith(ended, table.status)
    modifies table
    ensures StoreInv(cfg, table.Contents()) && EndsWith(ending, table.status)
    ensures table.Contents() == old(table.Contents()).(status := table.status)
    ensures ending in {ended, EndedFatally, Crashed}
    ensures ending == Crashed ==> EndsWith(ended, table.status)
  {
    hide CheckpointInv, FaithfulResult;
    var fault := Interlude(cfg, table);
    var recorded: bool := *;
    if fault == NoFault {
      ending := ended;
    } else if fault == CrashNow || !recorded {
      ending := Crashed;
    } else {
      table.UpdateStatus(FailedFinal);
      ending := EndedFatally;
    }
  }

  // Save the row of the pair that was just run, then count it; the store is sound between the two writes.
  method StorePair(cfg: Config, table: ExperimentTable, ghost worker: Worker, row: PairRow, metadata: Checkpoint)
    returns (fault: Fault)
    requires StoreInv(cfg, table.Contents()) && Active(table.status)
    requires UncountedInv(cfg, table.checkpoint, table.rows, worker)
    requires row == PairOf(cfg, worker.eventPack, worker.cognition, |worker.baselineRuns| - 1)
    requires metadata == MetadataFor(cfg, worker)
    modifies table
    ensures StoreInv(cfg, table.Contents()) && Active(table.status)
    ensures old(table.cancelRequested) ==> table.cancelRequested
    ensures fault == NoFault ==> CountedInv(cfg, table.checkpoint, table.rows, worker.(pc := PairLoop))
  {
    hide Disturbed, Faithful, PairsOf, PairOf, Baselines, Interventions, LoadPairs, LegacyInv, MetadataInv, Mirrors, UpsertPair, FaithfulResult;
    fault := Interlude(cfg, table);
    if fault != NoFault { return; }
    SaveKeepsInv(cfg, table.checkpoint.value, table.rows, worker);
    table.SaveExperimentCheckpointPair(row);
    fault := Interlude(cfg, table);
    if fault != NoFault { return; }
    CommitKeepsInv(cfg, table.checkpoint.value, table.rows, worker.(pc := WriteMetadata));
    table.UpdateCheckpoint(metadata.completedPairs, metadata);
  }

  // Resume a restored checkpoint: migrate an embedded one to pair rows, then record the resumed run.
  method ResumeStored(cfg: Config, table: ExperimentTable, restored: Worker) returns (fault: Fault)
    requires StoreInv(cfg, table.Contents()) && Active(table.status)
    requires restored.pc in {MigrateLegacy, WriteResume} && WorkerInv(cfg, table.Contents(), restored)
    modifies table
    ensures StoreInv(cfg, table.Contents()) && Active(table.status)
    ensures old(table.cancelRequested) ==> table.cancelRequested
    ensures fault == NoFault ==> CountedInv(cfg, table.checkpoint, table.rows, restored.(pc := PairLoop))
  {
    hide Disturbed, LegacyInv, MetadataInv, Faithful, Mirrors, PairsOf, InOrder, FaithfulResult;
    if restored.pc == MigrateLegacy {
      fault := Interlude(cfg, table);
      if fault != NoFault { return; }
      MigrateKeepsInv(cfg, table.checkpoint.value, table.rows, restored);
      table.ReplaceExperimentCheckpointPairs(restored.pending);
    }
    ghost var resumed := restored.(pc := WriteResume);
    assert ResumeInv(cfg, table.completedPairs, table.checkpoint, table.rows, resumed);
    fault := Interlude(cfg, table);
    if fault != NoFault { return; }
    ResumeKeepsInv(cfg, table.completedPairs, table.checkpoint, table.rows, resumed);
    table.ResumeRunning(|restored.baselineRuns|, MetadataFor(cfg, restored));
  }

  // Start from scratch: record the start, prepare cognition, then freeze it with zero pairs.
  method StartStored(cfg: Config, table: ExperimentTable, started: Worker) returns (fault: Fault)
    requires StoreInv(cfg, table.Contents()) && Active(table.status)
    requires FreshInv(cfg, table.completedPairs, started)
    modifies table
    ensures StoreInv(cfg, table.Contents()) && Active(table.status)
    ensures old(table.cancelRequested) ==> table.cancelRequested
    ensures fault == NoFault ==> CountedInv(cfg, table.checkpoint, table.rows, started.(pc := PairLoop))
  {
    hide Disturbed, LegacyInv, MetadataInv, Faithful, Mirrors, PairsOf, InOrder, FaithfulResult;
    fault := Interlude(cfg, table);
    if fault != NoFault { return; }
    table.StartFresh();
    fault := Interlude(cfg, table);
    if fault != NoFault { return; }
    PreparedKeepsInv(cfg, table.checkpoint, table.rows, started);
    table.UpdateCheckpoint(0, MetadataFor(cfg, started));
  }

  // Bring a claimed experiment to the head of its loop: resume a verified checkpoint or start fresh,
  // and refuse when counted pairs have no matching checkpoint.
  method EnterLoop(cfg: Config, table: ExperimentTable, eventPack: EventPack, reading: Reading, prepared: Cognition)
    returns (fault: Fault, worker: Worker)
    requires ValidConfig(cfg) && StoreInv(cfg, table.Contents()) && Active(table.status)
    modifies table
    ensures StoreInv(cfg, table.Contents()) && Active(table.status)
    ensures old(table.cancelRequested) ==> table.cancelRequested
    ensures fault == NoFault ==> CountedInv(cfg, table.checkpoint, table.rows, worker) && worker.eventPack == eventPack
    ensures fault == NoFault ==> |worker.baselineRuns| == old(table.completedPairs)
    ensures fault == NoFault ==> worker.cognition == CognitionFor(old(table.checkpoint), eventPack, prepared)
  {
    hide LegacyInv, MetadataInv, Faithful, ReadCheckpoint, CountedInv, FaithfulResult, CognitionFor, ValidConfig;
    CheckpointIsResumed(cfg, table.Contents(), eventPack, reading, prepared);
    var restored := ReadCheckpoint(cfg, table.Contents(), eventPack, reading);
    worker := NewWorker(cfg).(eventPack := eventPack, cognition := prepared);
    if restored.Some? {
      RestoredKeepsInv(cfg, table.Contents(), eventPack, reading);
      worker := ResumedWorker(cfg, eventPack, restored.value);
      fault := ResumeStored(cfg, table, worker);
    } else if Corrupted(table.Contents(), reading) || table.completedPairs > 0 {
      fault := FatalError;
    } else {
      fault := StartStored(cfg, table, worker);
    }
    worker := worker.(pc := PairLoop);
  }

  // Aggregate and finish: the stored pairs are all there, and the result is that of an uninterrupted run.
  method FinishStored(cfg: Config, table: ExperimentTable, worker: Worker) returns (fault: Fault)
    requires ValidConfig(cfg)
    requires StoreInv(cfg, table.Contents()) && Active(table.status)
    requires CountedInv(cfg, table.checkpoint, table.rows, worker) && Terminated(cfg, worker)
    modifies table
    ensures StoreInv(cfg, table.Contents())
    ensures fault == NoFault ==> table.status == Completed && table.checkpoint == None && table.result.Some?
                                 && table.result.value.cognition == worker.cognition
                                 && |table.result.value.baselineRuns| == |worker.baselineRuns|
                                 && table.result.value == UninterruptedResult(cfg, worker.eventPack, worker.cognition)
    ensures fault != NoFault ==> Active(table.status)
  {
    hide Disturbed, CheckpointInv, CountedInv, FaithfulResult, UninterruptedResult;
    fault := Interlude(cfg, table);
    if fault != NoFault { return; }
    table.UpdateStatus(Aggregating);
    fault := Interlude(cfg, table);
    if fault != NoFault { return; }
    var k := |worker.baselineRuns|;
    CompletedRow(cfg, table.Contents(), worker);
    var result := ResultOf(cfg, worker.eventPack, worker.cognition,
                           Outcome(worker.baselineRuns, worker.interventionRuns, worker.decision), table.rows[..k]);
    table.FinishExperiment(Completed, k, Some(result));
  }

  // Both arms of the next pair, the rule on the longer lists, then the two writes of the pair.
  method RunNextPair(cfg: Config, table: ExperimentTable, worker: Worker) returns (fault: Fault, next: Worker)
    requires ValidConfig(cfg) && StoreInv(cfg, table.Contents()) && Active(table.status)
    requires CountedInv(cfg, table.checkpoint, table.rows, worker)
    requires |worker.baselineRuns| < cfg.request.seedCount && !worker.decision.triggered
    modifies table
    ensures StoreInv(cfg, table.Contents()) && Active(table.status)
    ensures old(table.cancelRequested) ==> table.cancelRequested
    ensures fault == NoFault ==> CountedInv(cfg, table.checkpoint, table.rows, next)
    ensures next.eventPack == worker.eventPack && next.cognition == worker.cognition && |next.baselineRuns| == |worker.baselineRuns| + 1
  {
    hide StoreInv, Faithful, Mirrors, Synced, NextDecision, UncountedInv, CountedInv;
    assert |worker.baselineRuns| == |worker.interventionRuns| by { CountedIsPaired(cfg, table.checkpoint, table.rows, worker); }
    PathsKeepInv(cfg, table.checkpoint, table.rows, worker);
    var pair := PairOf(cfg, worker.eventPack, worker.cognition, |worker.baselineRuns|);
    var baselineRuns := worker.baselineRuns + [CompactRun(pair.baselineRun)];
    var interventionRuns := worker.interventionRuns + [CompactRun(pair.interventionRun)];
    var decision := StoppingDecision(cfg.plan, baselineRuns, interventionRuns, worker.decision);
    next := worker.(pc := SavePair, baselineRuns := baselineRuns, interventionRuns := interventionRuns,
                    decision := decision, pending := [pair]);
    fault := StorePair(cfg, table, next, pair, MetadataFor(cfg, next));
    next := next.(pc := PairLoop);
  }

  lemma {:induction false} CountedIsPaired(cfg: Config, checkpoint: Option<Checkpoint>, rows: seq<PairRow>, worker: Worker)
    requires CountedInv(cfg, checkpoint, rows, worker)
    ensures |worker.baselineRuns| == |worker.interventionRuns| <= cfg.request.seedCount
  {
    hide Faithful, Mirrors, Synced;
  }

  // A cancellation that the worker has seen: a final status without checkpoint, rows or result, then its audit event.
  method EndCancelled(cfg: Config, table: ExperimentTable, pairs: nat) returns (ending: Ending)
    requires StoreInv(cfg, table.Contents()) && Active(table.status)
    modifies table
    ensures StoreInv(cfg, table.Contents()) && EndsWith(ending, table.status)
    ensures ending in {RanToCancellation, EndedFatally, Crashed}
    ensures table.checkpoint == None && table.rows == [] && table.result == None
  {
    hide DurableInv, FaithfulResult;
    CancelledRow(cfg, table.Contents(), pairs);
    table.FinishExperiment(Cancelled, pairs, None);
    ending := AuditEnding(cfg, table, RanToCancellation);
  }

  // The body of the worker. A cancellation recorded before it starts leaves the pairs at those already counted.
  method RunWorker(cfg: Config, table: ExperimentTable, eventPack: EventPack, reading: Reading, prepared: Cognition)
    returns (ending: Ending)
    requires ValidConfig(cfg)
    requires StoreInv(cfg, table.Contents()) && Active(table.status)
    modifies table
    ensures StoreInv(cfg, table.Contents())
    ensures EndsWith(ending, table.status)
    ensures ending == RanToCompletion ==> table.result.Some?
    ensures table.result.Some? ==>
      && table.status in {Completed, Invalidated, FailedFinal} && table.checkpoint == None
      && table.result.value == UninterruptedResult(cfg, eventPack, CognitionFor(old(table.checkpoint), eventPack, prepared))
    ensures table.status == Cancelled ==> table.checkpoint == None && table.rows == [] && table.result == None
    ensures old(table.cancelRequested) && ending == RanToCompletion ==> |table.result.value.baselineRuns| == old(table.completedPairs)
  {
    hide StoreInv, Disturbed, CountedInv, UninterruptedResult, ValidConfig, CognitionFor;
    var fault, worker := EnterLoop(cfg, table, eventPack, reading, prepared);
    if fault != NoFault {
      ending := Stop(cfg, table, fault);
      return;
    }
    while !worker.decision.triggered && |worker.baselineRuns| < cfg.request.seedCount
      invariant StoreInv(cfg, table.Contents()) && Active(table.status)
      invariant CountedInv(cfg, table.checkpoint, table.rows, worker) && worker.eventPack == eventPack
      invariant worker.cognition == CognitionFor(old(table.checkpoint), eventPack, prepared)
      invariant old(table.cancelRequested) ==> table.cancelRequested && |worker.baselineRuns| == old(table.completedPairs)
      decreases cfg.request.seedCount - |worker.baselineRuns|
    {
      fault := Interlude(cfg, table);
      if fault != NoFault {
        ending := Stop(cfg, table, fault);
        return;
      }
      if table.cancelRequested {
        ending := EndCancelled(cfg, table, |worker.baselineRuns|);
        return;
      }
      // Both paths are simulated; a cancellation that arrives meanwhile may or may not be polled in time.
      fault := Interlude(cfg, table);
      if fault != NoFault {
        ending := Stop(cfg, table, fault);
        return;
      }
      var polled: bool := *;
      if polled && table.cancelRequested {
        ending := EndCancelled(cfg, table, |worker.baselineRuns|);
        return;
      }
      fault, worker := RunNextPair(cfg, table, worker);
      if fault != NoFault {
        ending := Stop(cfg, table, fault);
        return;
      }
    }
    CountedIsPaired(cfg, table.checkpoint, table.rows, worker);
    fault := FinishStored(cfg, table, worker);
    if fault != NoFault {
      ending := Stop(cfg, table, fault);
      return;
    }
    ending := AuditEnding(cfg, table, RanToCompletion);
  }

  // One run of the worker on a claimed experiment. However it ends, the store is sound: what is stored of a pair was run
  // on its own seed with each arm's own value, and a result is that of an uninterrupted run under the cognition that was
  // frozen in the checkpoint, or else prepared, even when the completed row was afterwards overwritten as failed.
  method RunExperiment(cfg: Config, table: ExperimentTable, eventPack: EventPack, reading: Reading, prepared: Cognition)
    returns (ending: Ending)
    requires ValidConfig(cfg)
    requires StoreInv(cfg, table.Contents()) && Active(table.status)
    modifies table
    ensures StoreInv(cfg, table.Contents())
    ensures EndsWith(ending, table.status)
    ensures ending == RanToCompletion ==> table.result.Some?
    ensures table.result.Some? ==>
      && table.status in {Completed, Invalidated, FailedFinal} && table.checkpoint == None
      && table.result.value == UninterruptedResult(cfg, eventPack, CognitionFor(old(table.checkpoint), eventPack, prepared))
    ensures table.status == Cancelled ==> table.checkpoint == None && table.rows == [] && table.result == None
    ensures TrueStore(cfg, table.Contents())
    ensures old(table.cancelRequested) && ending == RanToCompletion ==> |table.result.value.baselineRuns| == old(table.completedPairs)
  {
    ending := RunWorker(cfg, table, eventPack, reading, prepared);
    StoreIsTrue(cfg, table.Contents());
  }
}
