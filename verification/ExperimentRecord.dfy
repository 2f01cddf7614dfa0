// The durable side of one experiment: its row, its checkpoint metadata, its stored pairs, and the
// transactions that change them. A transaction either happens completely or not at all.

module ExperimentRecord {
  import opened Json
  import opened StoppingRule

  datatype EventPack = EventPack(content: string)

  datatype Request = Request(seedRoot: int, seedCount: nat, baselineValue: Json, interventionValue: Json, body: string)

  // The outcome of cognition preparation; the signals are frozen for every later pair.
  datatype Cognition = Cognition(signals: seq<Json>, metadata: Json)

  datatype Status =
    | Ready | Queued | Running | Aggregating | CancelRequested
    | Completed | FailedRetryable | FailedFinal | Cancelled | Invalidated

  datatype PairRow = PairRow(pairIndex: nat, seed: int, baselineRun: Run, interventionRun: Run)

  // Version 1 embedded the runs; version 2 keeps one row per pair and only the metadata here.
  datatype Checkpoint =
    | LegacyV1(
        requestHash: Digest<Request>, eventPackHash: Digest<EventPack>, seedListHash: Digest<seq<int>>,
        baselineRuns: seq<Run>, interventionRuns: seq<Run>, cognition: Cognition, decision: Decision)
    | MetadataV2(
        requestHash: Digest<Request>, eventPackHash: Digest<EventPack>, seedListHash: Digest<seq<int>>,
        completedPairs: nat, cognition: Cognition, decision: Decision)

  // Everything aggregation and report building read.
  datatype Result = Result(
    eventPack: EventPack,
    usedSeeds: seq<int>,
    baselineRuns: seq<Run>,
    interventionRuns: seq<Run>,
    representatives: seq<PairRow>,
    cognition: Cognition,
    decision: Decision)

  datatype Durable = Durable(
    status: Status,
    completedPairs: nat,
    cancelRequested: bool,
    checkpoint: Option<Checkpoint>,
    rows: seq<PairRow>,
    result: Option<Result>)

  /*** What is kept of a run ***/

  // The per-run statistics that stay in memory; the bulky diagnostics are dropped.
  function CompactRun(run: Run): Run {
    map key | key in run && key !in {"traces", "orderExecutionSummary"} :: run[key]
  }

  predicate Truthy(value: Json) {
    match value
    case Null => false
    case Bool(b) => b
    case Num(n) => n != 0.0
    case Str(s) => s != ""
    case Arr(items) => items != []
    case Obj(fields) => fields != map[]
  }

  predicate Identified(trace: Json) {
    trace.Obj? && "traceId" in trace.fields && trace.fields["traceId"].Str?
  }

  function ImportantTraces(traces: seq<Json>): seq<Json> {
    if traces == [] then []
    else
      var rest := ImportantTraces(traces[1..]);
      if traces[0].Obj? && Truthy(Get(traces[0].fields, "important")) then [traces[0]] + rest else rest
  }

  // Dictionary insertion: a known identifier keeps its place and takes the new value.
  function InsertTrace(entries: seq<(string, Json)>, id: string, trace: Json): seq<(string, Json)> {
    if entries == [] then [(id, trace)]
    else if entries[0].0 == id then [(id, trace)] + entries[1..]
    else [entries[0]] + InsertTrace(entries[1..], id, trace)
  }

  function DeduplicateTraces(traces: seq<Json>): seq<(string, Json)> {
    if traces == [] then []
    else
      var last := traces[|traces| - 1];
      var earlier := DeduplicateTraces(traces[..|traces| - 1]);
      if Identified(last) then InsertTrace(earlier, last.fields["traceId"].s, last) else earlier
  }

  function Take<T>(s: seq<T>, n: nat): seq<T> {
    if |s| <= n then s else s[..n]
  }

  function Considered(traces: seq<Json>): seq<Json> {
    Take(traces, 40) + ImportantTraces(traces)
  }

  function PublicTraces(traces: seq<Json>): seq<Json> {
    var entries := Take(DeduplicateTraces(Considered(traces)), 80);
    seq(|entries|, i requires 0 <= i < |entries| => entries[i].1)
  }

  // The form of a run that is written to a pair row.
  function PrepareRun(run: Run): Run {
    var traces := Get(run, "traces");
    run["traces" := Arr(if traces.Arr? then PublicTraces(traces.items) else [])]
  }

  // Storing and reloading a run loses nothing that aggregation keeps in memory.
  lemma {:induction false} CompactAfterStorage(run: Run)
    ensures CompactRun(CompactRun(PrepareRun(run))) == CompactRun(PrepareRun(run)) == CompactRun(run)
  {
    assert forall key :: key in PrepareRun(run) <==> key in run || key == "traces";
  }

  // Exactly the two bulky diagnostics are dropped from what is kept in memory, and a stored run differs in its traces alone.
  lemma {:induction false} CompactKeeps(run: Run, key: string)
    ensures key in CompactRun(run) <==> key in run && key != "traces" && key != "orderExecutionSummary"
    ensures key in CompactRun(run) ==> CompactRun(run)[key] == run[key]
    ensures key != "traces" ==> (key in PrepareRun(run) <==> key in run) && (key in run ==> PrepareRun(run)[key] == run[key])
  {
  }

  function IdOf(trace: Json): string
    requires Identified(trace)
  {
    trace.fields["traceId"].s
  }

  // Traces of the list under distinct identifiers, and every identifier of the list.
  ghost predicate Entries(entries: seq<(string, Json)>, traces: seq<Json>) {
    && DistinctIds(entries)
    && (forall i :: 0 <= i < |entries| ==>
          && entries[i].1 in traces && Identified(entries[i].1) && IdOf(entries[i].1) == entries[i].0
          && IsLast(traces, entries[i].1))
    && (forall trace :: trace in traces && Identified(trace) ==> Listed(entries, IdOf(trace)))
  }

  // No trace with its identifier comes after it.
  predicate IsLast(traces: seq<Json>, trace: Json)
    requires Identified(trace)
  {
    traces != [] &&
    var last := traces[|traces| - 1];
    if Identified(last) && IdOf(last) == IdOf(trace) then last == trace else IsLast(traces[..|traces| - 1], trace)
  }

  ghost predicate DistinctIds(entries: seq<(string, Json)>) {
    forall i, j :: 0 <= i < j < |entries| ==> entries[i].0 != entries[j].0
  }

  ghost predicate Listed(entries: seq<(string, Json)>, id: string) {
    exists i :: 0 <= i < |entries| && entries[i].0 == id
  }

  // Identifiers keep their places, and a new one comes last.
  lemma {:induction false} InsertTraceInPlace(entries: seq<(string, Json)>, id: string, trace: Json)
    ensures
      var n, after := |entries|, InsertTrace(entries, id, trace);
      && |after| == (if Listed(entries, id) then n else n + 1)
      && (forall i :: 0 <= i < n ==> after[i].0 == entries[i].0)
      && (forall i :: 0 <= i < |after| ==> after[i] == (id, trace) || (i < n && after[i] == entries[i]))
      && (!Listed(entries, id) ==> after[n] == (id, trace))
  {
    if entries != [] && entries[0].0 != id {
      InsertTraceInPlace(entries[1..], id, trace);
      ListedBelow(entries, id);
      hide Listed;
    } else {
      hide InsertTrace;
      assert InsertTrace(entries, id, trace) == if entries == [] then [(id, trace)] else [(id, trace)] + entries[1..] by {
        InsertFirst(entries, id, trace);
      }
    }
  }

  lemma {:induction false} InsertFirst(entries: seq<(string, Json)>, id: string, trace: Json)
    requires entries == [] || entries[0].0 == id
    ensures InsertTrace(entries, id, trace) == if entries == [] then [(id, trace)] else [(id, trace)] + entries[1..]
  {
  }

  lemma {:induction false} ListedBelow(entries: seq<(string, Json)>, id: string)
    requires entries != [] && entries[0].0 != id
    ensures Listed(entries, id) <==> Listed(entries[1..], id)
  {
    assert forall i :: 1 <= i < |entries| ==> entries[i] == entries[1..][i - 1];
    if Listed(entries[1..], id) {
      var i :| 0 <= i < |entries[1..]| && entries[1..][i].0 == id;
      assert entries[i + 1].0 == id;
    }
  }

  // What stands under the identifier afterwards is the trace that was inserted.
  lemma {:induction false} InsertReplaces(entries: seq<(string, Json)>, id: string, trace: Json, i: nat)
    requires DistinctIds(entries) && i < |InsertTrace(entries, id, trace)| && InsertTrace(entries, id, trace)[i].0 == id
    ensures InsertTrace(entries, id, trace)[i].1 == trace
  {
    if entries != [] && entries[0].0 != id {
      InsertReplaces(entries[1..], id, trace, i - 1);
    }
  }

  lemma {:induction false} InsertKeepsDistinct(entries: seq<(string, Json)>, id: string, trace: Json)
    requires DistinctIds(entries)
    ensures DistinctIds(InsertTrace(entries, id, trace))
  {
    InsertTraceInPlace(entries, id, trace);
    hide InsertTrace;
  }

  lemma {:induction false} InsertKeepsEntries(entries: seq<(string, Json)>, traces: seq<Json>, trace: Json)
    requires Entries(entries, traces) && Identified(trace)
    ensures Entries(InsertTrace(entries, IdOf(trace), trace), traces + [trace])
  {
    hide Identified, InsertTrace, Listed, DistinctIds, IdOf;
    InsertKeepsDistinct(entries, IdOf(trace), trace);
    InsertTraceInPlace(entries, IdOf(trace), trace);
    forall i | 0 <= i < |InsertTrace(entries, IdOf(trace), trace)| && InsertTrace(entries, IdOf(trace), trace)[i].0 == IdOf(trace)
      ensures InsertTrace(entries, IdOf(trace), trace)[i].1 == trace
    {
      InsertReplaces(entries, IdOf(trace), trace, i);
    }
    InsertLists(entries, IdOf(trace), trace);
  }

  lemma {:induction false} InsertLists(entries: seq<(string, Json)>, id: string, trace: Json)
    ensures Listed(InsertTrace(entries, id, trace), id)
    ensures forall other :: Listed(entries, other) ==> Listed(InsertTrace(entries, id, trace), other)
  {
    var after := InsertTrace(entries, id, trace);
    InsertTraceInPlace(entries, id, trace);
    hide InsertTrace;
    forall other | Listed(entries, other)
      ensures Listed(after, other)
    {
      var i :| 0 <= i < |entries| && entries[i].0 == other;
      assert after[i].0 == other;
    }
    assert !Listed(entries, id) ==> after[|entries|].0 == id;
  }

  lemma {:induction false} DeduplicatedEntries(traces: seq<Json>)
    ensures Entries(DeduplicateTraces(traces), traces) && |DeduplicateTraces(traces)| <= |traces|
  {
    if traces != [] {
      var front, last := traces[..|traces| - 1], traces[|traces| - 1];
      DeduplicatedEntries(front);
      assert traces == front + [last];
      if Identified(last) {
        InsertKeepsEntries(DeduplicateTraces(front), front, last);
        InsertTraceInPlace(DeduplicateTraces(front), IdOf(last), last);
      } else {
        hide Identified;
      }
    }
  }

  // The identifiers of the first traces come first, whatever follows.
  lemma {:induction false} EarlierComeFirst(a: seq<Json>, b: seq<Json>)
    ensures |DeduplicateTraces(a)| <= |DeduplicateTraces(a + b)|
    ensures forall i :: 0 <= i < |DeduplicateTraces(a)| ==> DeduplicateTraces(a + b)[i].0 == DeduplicateTraces(a)[i].0
  {
    if b == [] {
      assert a + b == a;
    } else {
      hide Identified, InsertTrace;
      var front, last := b[..|b| - 1], b[|b| - 1];
      EarlierComeFirst(a, front);
      assert (a + b)[..|a + b| - 1] == a + front;
      if Identified(last) {
        InsertTraceInPlace(DeduplicateTraces(a + front), IdOf(last), last);
      }
    }
  }

  // A trace of the first forty, or one that is marked as important.
  predicate Kept(traces: seq<Json>, trace: Json) {
    trace in Take(traces, 40) || (trace in traces && trace.Obj? && Truthy(Get(trace.fields, "important")))
  }

  // A stored run keeps at most eighty traces under distinct identifiers: none but those of the first forty and the important
  // ones; every identifier of the first forty; and, unless eighty are kept, every identifier of an important one.
  // Of those with one identifier the last is kept.
  lemma {:induction false} StoredTraces(traces: seq<Json>)
    ensures
      var kept := PublicTraces(traces);
      && |kept| <= 80
      && (forall i :: 0 <= i < |kept| ==> Kept(traces, kept[i]) && Identified(kept[i]) && IsLast(Considered(traces), kept[i]))
      && (forall i, j :: 0 <= i < j < |kept| ==> IdOf(kept[i]) != IdOf(kept[j]))
      && (forall trace :: Kept(traces, trace) && Identified(trace) && (trace in Take(traces, 40) || |kept| < 80) ==>
            exists i :: 0 <= i < |kept| && IdOf(kept[i]) == IdOf(trace))
  {
    hide Identified, DeduplicateTraces, Considered, PublicTraces, IdOf, Listed, Take, Kept, IsLast;
    var entries, kept := DeduplicateTraces(Considered(traces)), PublicTraces(traces);
    PublicEntries(traces);
    KeptAreTaken(traces);
    forall trace | Kept(traces, trace) && Identified(trace) && (trace in Take(traces, 40) || |kept| < 80)
      ensures exists i :: 0 <= i < |kept| && IdOf(kept[i]) == IdOf(trace)
    {
      var i;
      if trace in Take(traces, 40) {
        i := FirstFortyStay(traces, trace);
      } else {
        i := ListedAt(entries, IdOf(trace));
      }
      assert IdOf(kept[i]) == entries[i].0;
    }
  }

  lemma {:induction false} PublicEntries(traces: seq<Json>)
    ensures
      var entries, kept := DeduplicateTraces(Considered(traces)), PublicTraces(traces);
      && |kept| == (if |entries| < 80 then |entries| else 80)
      && (forall i :: 0 <= i < |kept| ==>
            kept[i] in Considered(traces) && Identified(kept[i]) && IdOf(kept[i]) == entries[i].0
            && IsLast(Considered(traces), kept[i]))
      && (forall i, j :: 0 <= i < j < |kept| ==> IdOf(kept[i]) != IdOf(kept[j]))
      && (forall trace :: trace in Considered(traces) && Identified(trace) ==> Listed(entries, IdOf(trace)))
  {
    hide Identified, DeduplicateTraces, Considered, IdOf, DistinctIds, Listed, Take, IsLast;
    DeduplicatedEntries(Considered(traces));
    TakePrefix(DeduplicateTraces(Considered(traces)), 80);
    IdsDiffer(DeduplicateTraces(Considered(traces)));
  }

  lemma {:induction false} TakePrefix<T>(s: seq<T>, n: nat)
    ensures |Take(s, n)| == (if |s| < n then |s| else n) && forall i :: 0 <= i < |Take(s, n)| ==> Take(s, n)[i] == s[i]
  {
  }

  lemma {:induction false} ListedAt(entries: seq<(string, Json)>, id: string) returns (i: nat)
    requires Listed(entries, id)
    ensures i < |entries| && entries[i].0 == id
  {
    i :| 0 <= i < |entries| && entries[i].0 == id;
  }

  lemma {:induction false} IdsDiffer(entries: seq<(string, Json)>)
    requires DistinctIds(entries)
    ensures forall i, j :: 0 <= i < j < |entries| ==> entries[i].0 != entries[j].0
  {
  }

  lemma {:induction false} FirstFortyStay(traces: seq<Json>, trace: Json) returns (i: nat)
    requires trace in Take(traces, 40) && Identified(trace)
    ensures
      var entries := DeduplicateTraces(Considered(traces));
      i < |entries| && i < 40 && entries[i].0 == IdOf(trace)
  {
    hide Identified, InsertTrace, DeduplicateTraces, ImportantTraces, IdOf, DistinctIds;
    var first := Take(traces, 40);
    DeduplicatedEntries(first);
    EarlierComeFirst(first, ImportantTraces(traces));
    i := ListedAt(DeduplicateTraces(first), IdOf(trace));
  }

  lemma {:induction false} KeptAreTaken(traces: seq<Json>)
    ensures forall trace :: Kept(traces, trace) <==> trace in Considered(traces)
  {
    hide Take;
    ImportantOnes(traces);
  }

  lemma {:induction false} ImportantOnes(traces: seq<Json>)
    ensures forall trace :: trace in ImportantTraces(traces) <==>
              trace in traces && trace.Obj? && Truthy(Get(trace.fields, "important"))
  {
    if traces != [] {
      hide Truthy;
      ImportantOnes(traces[1..]);
      assert forall trace :: trace in traces <==> trace == traces[0] || trace in traces[1..];
    }
  }

  /*** Pair rows, ordered by pair index ***/

  // Insert or update on the key (experiment, pair index).
  function UpsertPair(rows: seq<PairRow>, row: PairRow): seq<PairRow> {
    if rows == [] || row.pairIndex < rows[0].pairIndex then [row] + rows
    else if rows[0].pairIndex == row.pairIndex then [row] + rows[1..]
    else [rows[0]] + UpsertPair(rows[1..], row)
  }

  predicate NumberedFrom(rows: seq<PairRow>, start: nat) {
    forall i :: 0 <= i < |rows| ==> rows[i].pairIndex == start + i
  }

  lemma {:induction false} UpsertIntoNumbered(rows: seq<PairRow>, row: PairRow, start: nat)
    requires NumberedFrom(rows, start)
    requires start <= row.pairIndex <= start + |rows|
    ensures
      var k := row.pairIndex - start;
      UpsertPair(rows, row) == if k < |rows| then rows[k := row] else rows + [row]
  {
    if rows != [] && rows[0].pairIndex != row.pairIndex {
      UpsertIntoNumbered(rows[1..], row, start + 1);
    }
  }

  lemma {:induction false} UpsertAt(rows: seq<PairRow>, row: PairRow, i: nat)
    requires i <= |rows|
    requires forall j :: 0 <= j < i ==> rows[j].pairIndex < row.pairIndex
    requires i < |rows| ==> row.pairIndex <= rows[i].pairIndex
    ensures UpsertPair(rows, row)
         == if i < |rows| && rows[i].pairIndex == row.pairIndex then rows[..i] + [row] + rows[i + 1..]
            else rows[..i] + [row] + rows[i..]
  {
    if i > 0 {
      UpsertAt(rows[1..], row, i - 1);
      assert [rows[0]] + rows[1..][..i - 1] == rows[..i];
    }
  }

  // The row as it is read back without run details.
  function LoadPair(row: PairRow): PairRow {
    row.(baselineRun := CompactRun(row.baselineRun), interventionRun := CompactRun(row.interventionRun))
  }

  function LoadPairs(rows: seq<PairRow>): seq<PairRow> {
    seq(|rows|, i requires 0 <= i < |rows| => LoadPair(rows[i]))
  }

  function Baselines(rows: seq<PairRow>): seq<Run> {
    seq(|rows|, i requires 0 <= i < |rows| => rows[i].baselineRun)
  }

  function Interventions(rows: seq<PairRow>): seq<Run> {
    seq(|rows|, i requires 0 <= i < |rows| => rows[i].interventionRun)
  }

  /*** Transactions ***/

  predicate Claimable(d: Durable) {
    d.status in {Ready, FailedRetryable}
  }

  function Claim(d: Durable): Durable {
    if !Claimable(d) then d
    else if d.status == Ready then
      d.(status := Queued, cancelRequested := false, completedPairs := 0, checkpoint := None, rows := [])
    else d.(status := Queued, cancelRequested := false)
  }

  function RequestCancel(d: Durable): Durable {
    if d.status in {Completed, FailedFinal, Cancelled, Invalidated} then d
    else if d.status == Ready then d.(status := Cancelled, cancelRequested := true)
    else d.(status := CancelRequested, cancelRequested := true)
  }

  // At process start, every experiment that was active is made retryable.
  function Recover(d: Durable): Durable {
    if d.status in {Queued, Running, Aggregating, CancelRequested} then d.(status := FailedRetryable) else d
  }

  function Invalidate(d: Durable): Durable {
    if d.status == Completed && d.result.Some? then d.(status := Invalidated) else d
  }

  // Clearing the checkpoint removes the pair rows in the same transaction.
  function Finish(d: Durable, status: Status, completedPairs: nat, result: Option<Result>): Durable {
    d.(status := status, completedPairs := completedPairs, checkpoint := None, rows := [],
       result := if result.Some? then result else d.result)
  }

  // The database row of one experiment, changed in place by its transactions.
  class ExperimentTable {
    var status: Status
    var completedPairs: nat
    var cancelRequested: bool
    var checkpoint: Option<Checkpoint>
    var rows: seq<PairRow>
    var result: Option<Result>

    function Contents(): Durable
      reads this
    {
      Durable(status, completedPairs, cancelRequested, checkpoint, rows, result)
    }

    constructor ()
      ensures Contents() == Durable(Ready, 0, false, None, [], None)
    {
      status, completedPairs, cancelRequested := Ready, 0, false;
      checkpoint, rows, result := None, [], None;
    }

    method ClaimExperimentForQueue() returns (claimed: bool)
      modifies this
      ensures claimed == Claimable(old(Contents()))
      ensures Contents() == Claim(old(Contents()))
      ensures claimed <==> old(status) == Ready || old(status) == FailedRetryable
      ensures !claimed ==> Contents() == old(Contents())
      ensures claimed ==> status == Queued && !cancelRequested && result == old(result)
      ensures claimed && old(status) == Ready ==> completedPairs == 0 && checkpoint == None && rows == []
      ensures claimed && old(status) == FailedRetryable ==>
        completedPairs == old(completedPairs) && checkpoint == old(checkpoint) && rows == old(rows)
    {
      claimed := status in {Ready, FailedRetryable};
      if claimed {
        if status == Ready {
          completedPairs, checkpoint, rows := 0, None, [];
        }
        status, cancelRequested := Queued, false;
      }
    }

    method SaveExperimentCheckpointPair(row: PairRow)
      modifies this
      ensures Contents() == old(Contents()).(rows := UpsertPair(old(rows), row))
    {
      var i := 0;
      while i < |rows| && rows[i].pairIndex < row.pairIndex
        invariant 0 <= i <= |rows|
        invariant unchanged(this)
        invariant forall j :: 0 <= j < i ==> rows[j].pairIndex < row.pairIndex
      {
        i := i + 1;
      }
      UpsertAt(rows, row, i);
      if i < |rows| && rows[i].pairIndex == row.pairIndex {
        rows := rows[..i] + [row] + rows[i + 1..];
      } else {
        rows := rows[..i] + [row] + rows[i..];
      }
    }

    method ReplaceExperimentCheckpointPairs(replacement: seq<PairRow>)
      modifies this
      ensures Contents() == old(Contents()).(rows := replacement)
    {
      rows := replacement;
    }

    method UpdateStatus(newStatus: Status)
      modifies this
      ensures Contents() == old(Contents()).(status := newStatus)
    {
      status := newStatus;
    }

    method UpdateCheckpoint(pairs: nat, metadata: Checkpoint)
      modifies this
      ensures Contents() == old(Contents()).(completedPairs := pairs, checkpoint := Some(metadata))
    {
      completedPairs, checkpoint := pairs, Some(metadata);
    }

    method ResumeRunning(pairs: nat, metadata: Checkpoint)
      modifies this
      ensures Contents() == old(Contents()).(status := Running, completedPairs := pairs, checkpoint := Some(metadata))
    {
      status, completedPairs, checkpoint := Running, pairs, Some(metadata);
    }

    method StartFresh()
      modifies this
      ensures Contents() == old(Contents()).(status := Running, completedPairs := 0)
    {
      status, completedPairs := Running, 0;
    }

    method FinishExperiment(finalStatus: Status, pairs: nat, finalResult: Option<Result>)
      modifies this
      ensures Contents() == Finish(old(Contents()), finalStatus, pairs, finalResult)
      ensures status == finalStatus && completedPairs == pairs && checkpoint == None && rows == []
      ensures result == (if finalResult.Some? then finalResult else old(result)) && cancelRequested == old(cancelRequested)
    {
      status, completedPairs, checkpoint, rows := finalStatus, pairs, None, [];
      if finalResult.Some? {
        result := finalResult;
      }
    }

    method CancelExperiment()
      modifies this
      ensures Contents() == RequestCancel(old(Contents()))
      ensures old(status) in {Completed, FailedFinal, Cancelled, Invalidated} ==> Contents() == old(Contents())
      ensures old(status) !in {Completed, FailedFinal, Cancelled, Invalidated} ==>
        cancelRequested && status == (if old(status) == Ready then Cancelled else CancelRequested)
      ensures completedPairs == old(completedPairs) && checkpoint == old(checkpoint) && rows == old(rows) && result == old(result)
    {
      if status in {Completed, FailedFinal, Cancelled, Invalidated} {
        return;
      }
      status, cancelRequested := if status == Ready then Cancelled else CancelRequested, true;
    }

    method InvalidateCompletedExperiment()
      modifies this
      ensures Contents() == Invalidate(old(Contents()))
      ensures Contents() == old(Contents()).(status := status)
      ensures status == if old(status) == Completed && old(result).Some? then Invalidated else old(status)
    {
      if status == Completed && result.Some? {
        status := Invalidated;
      }
    }

    method Initialize()
      modifies this
      ensures Contents() == Recover(old(Contents()))
      ensures Contents() == old(Contents()).(status := status)
      ensures status == if old(status) in {Queued, Running, Aggregating, CancelRequested} then FailedRetryable else old(status)
    {
      if status in {Queued, Running, Aggregating, CancelRequested} {
        status := FailedRetryable;
      }
    }
  }

  /*** Restoring a checkpoint ***/

  datatype Restored = Restored(
    baselineRuns: seq<Run>, interventionRuns: seq<Run>, cognition: Cognition, decision: Decision, legacy: bool)

  predicate CarriesSeed(run: Run, seed: int) {
    "seed" in run && run["seed"] == Num(seed as real)
  }

  predicate CarriesSeeds(runs: seq<Run>, seeds: seq<int>)
    requires |runs| <= |seeds|
  {
    forall i :: 0 <= i < |runs| ==> CarriesSeed(runs[i], seeds[i])
  }

  function RestoreCheckpoint(
    checkpoint: Option<Checkpoint>, storedPairs: seq<PairRow>,
    requestHash: Digest<Request>, eventPackHash: Digest<EventPack>, seedListHash: Digest<seq<int>>, seeds: seq<int>)
    : Option<Restored>
  {
    if checkpoint.None? then None
    else
      var c := checkpoint.value;
      if c.requestHash != requestHash || c.eventPackHash != eventPackHash || c.seedListHash != seedListHash then None
      else if c.MetadataV2? && |storedPairs| < c.completedPairs then None
      else
        var baselineRuns := if c.LegacyV1? then c.baselineRuns else Baselines(storedPairs[..c.completedPairs]);
        var interventionRuns := if c.LegacyV1? then c.interventionRuns else Interventions(storedPairs[..c.completedPairs]);
        if |baselineRuns| != |interventionRuns| || |baselineRuns| > |seeds| then None
        else if !CarriesSeeds(baselineRuns, seeds) || !CarriesSeeds(interventionRuns, seeds) then None
        else Some(Restored(baselineRuns, interventionRuns, c.cognition, c.decision, c.LegacyV1?))
  }

  predicate OnSeed(baselineRun: Run, interventionRun: Run, seed: int) {
    CarriesSeed(baselineRun, seed) && CarriesSeed(interventionRun, seed)
  }

  // A checkpoint of this request, event pack and seed list, both runs of whose every counted pair carry the pair's seed.
  ghost predicate Verified(
    c: Checkpoint, storedPairs: seq<PairRow>,
    requestHash: Digest<Request>, eventPackHash: Digest<EventPack>, seedListHash: Digest<seq<int>>, seeds: seq<int>)
  {
    && c.requestHash == requestHash && c.eventPackHash == eventPackHash && c.seedListHash == seedListHash
    && match c
       case LegacyV1(_, _, _, b, v, _, _) => |b| == |v| <= |seeds| && forall i :: 0 <= i < |b| ==> OnSeed(b[i], v[i], seeds[i])
       case MetadataV2(_, _, _, n, _, _) =>
         && n <= |storedPairs| && n <= |seeds|
         && forall i :: 0 <= i < n ==> OnSeed(storedPairs[i].baselineRun, storedPairs[i].interventionRun, seeds[i])
  }

  // A checkpoint is accepted exactly when it is verified; it then brings its own cognition and decision, and the runs of its
  // counted pairs, in order.
  lemma {:induction false} AcceptedExactlyWhenVerified(
    checkpoint: Option<Checkpoint>, storedPairs: seq<PairRow>,
    requestHash: Digest<Request>, eventPackHash: Digest<EventPack>, seedListHash: Digest<seq<int>>, seeds: seq<int>)
    ensures
      var restored := RestoreCheckpoint(checkpoint, storedPairs, requestHash, eventPackHash, seedListHash, seeds);
      && (restored.Some? <==> checkpoint.Some? && Verified(checkpoint.value, storedPairs, requestHash, eventPackHash, seedListHash, seeds))
      && (restored.Some? ==>
            var c, r := checkpoint.value, restored.value;
            && r.cognition == c.cognition && r.decision == c.decision && r.legacy == c.LegacyV1?
            && (c.LegacyV1? ==> r.baselineRuns == c.baselineRuns && r.interventionRuns == c.interventionRuns)
            && (c.MetadataV2? ==>
                  && |r.baselineRuns| == |r.interventionRuns| == c.completedPairs
                  && forall i :: 0 <= i < c.completedPairs ==>
                       r.baselineRuns[i] == storedPairs[i].baselineRun && r.interventionRuns[i] == storedPairs[i].interventionRun))
  {
    hide CarriesSeed;
    if checkpoint.Some? && checkpoint.value.MetadataV2? && checkpoint.value.completedPairs <= |storedPairs| {
      var n := checkpoint.value.completedPairs;
      assert forall i :: 0 <= i < n ==> Baselines(storedPairs[..n])[i] == storedPairs[i].baselineRun
                                        && Interventions(storedPairs[..n])[i] == storedPairs[i].interventionRun;
    }
  }
}
