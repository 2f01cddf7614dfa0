// The stored questions and answers about an experiment: idempotent saves, permanent deletion markers, and retention.

module InterpretationStore {
  import opened Json

  const MAX_PER_OWNER: nat := 300
  const MAX_STORED: nat := 5000
  const RETENTION: int := 90 * 24 * 3600

  // `content` is the language, the question and the checked answer. Times are seconds.
  datatype Exchange = Exchange(
    id: nat, owner: string, experiment: string, conversation: string, request: string, requestHash: string, content: string,
    createdAt: int, updatedAt: int)

  datatype Tombstone = Tombstone(owner: string, experiment: string, conversationHash: Digest<string>)

  datatype Experiment = Experiment(owner: string, completed: bool)

  // `issued` holds every experiment id ever given out: they are never given out again. `nextId` is the row counter.
  datatype Store = Store(
    rows: seq<Exchange>, tombstones: set<Tombstone>, experiments: map<string, Experiment>, issued: set<string>, nextId: nat)

  // `wellFormed` is the verdict of the field checks and of the secret scan.
  datatype Request = Request(
    owner: string, experiment: string, conversation: string, request: string, requestHash: string, content: string, wellFormed: bool)

  datatype Outcome =
    | Saved(row: Exchange, created: bool)
    | InvalidRequest
    | NoCompletedExperiment
    | ConversationDeleted
    | RequestConflict

  /*** Retention ***/

  // The database's ordering of rows, newest first.
  predicate Above(a: Exchange, b: Exchange) {
    a.updatedAt > b.updatedAt || (a.updatedAt == b.updatedAt && a.id > b.id)
  }

  // The place of a row when all the owner's rows (or, with no owner, all rows) are listed newest first.
  function Rank(rows: seq<Exchange>, owner: Option<string>, row: Exchange): nat {
    if rows == [] then 0
    else Rank(rows[1..], owner, row) + (if Counts(owner, rows[0]) && Above(rows[0], row) then 1 else 0)
  }

  predicate Counts(owner: Option<string>, row: Exchange) {
    owner == None || owner == Some(row.owner)
  }

  function Keep(rows: seq<Exchange>, keep: Exchange -> bool): seq<Exchange> {
    if rows == [] then []
    else if keep(rows[0]) then [rows[0]] + Keep(rows[1..], keep)
    else Keep(rows[1..], keep)
  }

  function NotExpired(now: int): Exchange -> bool {
    (row: Exchange) => row.updatedAt >= now - RETENTION
  }

  // Of the owner's rows only the newest `cap` stay; rows of others are not concerned.
  function AmongNewest(rows: seq<Exchange>, owner: Option<string>, cap: nat): Exchange -> bool {
    (row: Exchange) => Counts(owner, row) ==> Rank(rows, owner, row) < cap
  }

  function KeepNewest(rows: seq<Exchange>, owner: Option<string>, cap: nat): seq<Exchange> {
    Keep(rows, AmongNewest(rows, owner, cap))
  }

  function PruneOwner(rows: seq<Exchange>, owner: string, now: int): seq<Exchange> {
    KeepNewest(KeepNewest(Keep(rows, NotExpired(now)), Some(owner), MAX_PER_OWNER), None, MAX_STORED)
  }

  function KeepNewestOfEach(rows: seq<Exchange>, owners: seq<string>): seq<Exchange>
    decreases |owners|
  {
    if owners == [] then rows else KeepNewestOfEach(KeepNewest(rows, Some(owners[0]), MAX_PER_OWNER), owners[1..])
  }

  // The owners that have rows, each once.
  function Owners(rows: seq<Exchange>): seq<string> {
    if rows == [] then []
    else if rows[0].owner in Owners(rows[1..]) then Owners(rows[1..])
    else [rows[0].owner] + Owners(rows[1..])
  }

  function PruneAll(rows: seq<Exchange>, now: int): seq<Exchange> {
    var current := Keep(rows, NotExpired(now));
    KeepNewest(KeepNewestOfEach(current, Owners(current)), None, MAX_STORED)
  }

  /*** Operations ***/

  predicate Matches(row: Exchange, request: Request) {
    row.owner == request.owner && row.experiment == request.experiment && row.request == request.request
  }

  function Find(rows: seq<Exchange>, request: Request): Option<Exchange> {
    if rows == [] then None
    else if Matches(rows[0], request) then Some(rows[0])
    else Find(rows[1..], request)
  }

  function StoneFor(owner: string, experiment: string, conversation: string): Tombstone {
    Tombstone(owner, experiment, Sha256(conversation))
  }

  function NewRow(s: Store, request: Request, now: int): Exchange {
    Exchange(s.nextId, request.owner, request.experiment, request.conversation, request.request, request.requestHash,
             request.content, now, now)
  }

  // One transaction: an error rolls everything back, the first prune included. `stamped` is read before the transaction,
  // `now` at each prune.
  function Save(s: Store, request: Request, stamped: int, now: int): (Store, Outcome) {
    if !request.wellFormed then (s, InvalidRequest)
    else
      var rows := PruneOwner(s.rows, request.owner, now);
      if request.experiment !in s.experiments || s.experiments[request.experiment] != Experiment(request.owner, true) then
        (s, NoCompletedExperiment)
      else if StoneFor(request.owner, request.experiment, request.conversation) in s.tombstones then (s, ConversationDeleted)
      else match Find(rows, request)
        case Some(existing) =>
          if existing.requestHash != request.requestHash then (s, RequestConflict)
          else (s.(rows := rows), Saved(existing, false))
        case None =>
          var row := NewRow(s, request, stamped);
          (s.(rows := PruneOwner(rows + [row], request.owner, now), nextId := s.nextId + 1), Saved(row, true))
  }

  predicate InConversation(row: Exchange, owner: string, experiment: string, conversation: string) {
    row.owner == owner && row.experiment == experiment && row.conversation == conversation
  }

  function Outside(owner: string, experiment: string, conversation: string): Exchange -> bool {
    (row: Exchange) => !InConversation(row, owner, experiment, conversation)
  }

  // A marker is only written for a conversation that had rows.
  function DeleteConversation(s: Store, owner: string, experiment: string, conversation: string): (Store, bool) {
    var kept := Keep(s.rows, Outside(owner, experiment, conversation));
    var deleted := |kept| < |s.rows|;
    (s.(rows := kept, tombstones := if deleted then s.tombstones + {StoneFor(owner, experiment, conversation)} else s.tombstones),
     deleted)
  }

  function NotOf(experiment: string): Exchange -> bool {
    (row: Exchange) => row.experiment != experiment
  }

  // Deleting an experiment cascades to its rows and its markers.
  function DeleteExperiment(s: Store, experiment: string): Store {
    s.(experiments := s.experiments - {experiment}, rows := Keep(s.rows, NotOf(experiment)),
       tombstones := set stone | stone in s.tombstones && stone.experiment != experiment)
  }

  function AddExperiment(s: Store, experiment: string, owner: string): Store {
    if experiment in s.issued then s
    else s.(experiments := s.experiments[experiment := Experiment(owner, false)], issued := s.issued + {experiment})
  }

  function SetCompleted(s: Store, experiment: string, completed: bool): Store {
    if experiment !in s.experiments then s
    else s.(experiments := s.experiments[experiment := s.experiments[experiment].(completed := completed)])
  }

  datatype Operation =
    | SaveExchange(request: Request, stamped: int, now: int)
    | DeleteOne(owner: string, experiment: string, conversation: string)
    | EnforceRetention(prunedAt: int)
    | AddOne(newExperiment: string, newOwner: string)
    | FinishOne(finished: string, completed: bool)
    | DropExperiment(dropped: string)

  function Step(s: Store, operation: Operation): Store {
    match operation
    case SaveExchange(request, stamped, now) => Save(s, request, stamped, now).0
    case DeleteOne(owner, experiment, conversation) => DeleteConversation(s, owner, experiment, conversation).0
    case EnforceRetention(now) => s.(rows := PruneAll(s.rows, now))
    case AddOne(experiment, owner) => AddExperiment(s, experiment, owner)
    case FinishOne(experiment, completed) => SetCompleted(s, experiment, completed)
    case DropExperiment(experiment) => DeleteExperiment(s, experiment)
  }

  function Run(operations: seq<Operation>): Store {
    if operations == [] then Store([], {}, map[], {}, 1)
    else Step(Run(operations[..|operations| - 1]), operations[|operations| - 1])
  }

  /*** Row selections ***/

  lemma {:induction false} KeepIsSubset(rows: seq<Exchange>, keep: Exchange -> bool)
    ensures forall row :: row in Keep(rows, keep) <==> row in rows && keep(row)
    ensures |Keep(rows, keep)| <= |rows|
  {
    if rows != [] {
      KeepIsSubset(rows[1..], keep);
      assert forall row :: row in rows <==> row == rows[0] || row in rows[1..];
    }
  }

  // Row ids increase along the table.
  ghost predicate Ascending(rows: seq<Exchange>) {
    forall i, j :: 0 <= i < j < |rows| ==> rows[i].id < rows[j].id
  }

  lemma {:induction false} KeepAscends(rows: seq<Exchange>, keep: Exchange -> bool)
    requires Ascending(rows)
    ensures Ascending(Keep(rows, keep))
  {
    if rows != [] {
      KeepAscends(rows[1..], keep);
      KeepIsSubset(rows[1..], keep);
      forall row | row in Keep(rows[1..], keep)
        ensures rows[0].id < row.id
      {
        assert row in rows[1..];
      }
    }
  }

  lemma {:induction false} KeepRank(rows: seq<Exchange>, keep: Exchange -> bool, owner: Option<string>, row: Exchange)
    ensures Rank(Keep(rows, keep), owner, row) <= Rank(rows, owner, row)
  {
    if rows != [] {
      KeepRank(rows[1..], keep, owner, row);
    }
  }

  /*** Every cap keeps the newest rows, and no more ***/

  // The row that all others outrank.
  lemma {:induction false} OldestRow(rows: seq<Exchange>, owner: Option<string>) returns (oldest: Exchange)
    requires Ascending(rows) && exists row :: row in rows && Counts(owner, row)
    ensures oldest in rows && Counts(owner, oldest)
    ensures forall row :: row in rows && Counts(owner, row) && row != oldest ==> Above(row, oldest)
  {
    if exists row :: row in rows[1..] && Counts(owner, row) {
      oldest := OldestRow(rows[1..], owner);
      if Counts(owner, rows[0]) && !Above(rows[0], oldest) {
        oldest := rows[0];
      }
    } else {
      oldest := rows[0];
    }
  }

  function CountOf(rows: seq<Exchange>, owner: Option<string>): nat {
    if rows == [] then 0 else CountOf(rows[1..], owner) + (if Counts(owner, rows[0]) then 1 else 0)
  }

  lemma {:induction false} RankOfOldest(rows: seq<Exchange>, owner: Option<string>, oldest: Exchange)
    requires Ascending(rows)
    requires forall row :: row in rows && Counts(owner, row) && row != oldest ==> Above(row, oldest)
    ensures Rank(rows, owner, oldest) >= CountOf(rows, owner) - (if oldest in rows then 1 else 0)
  {
    if rows != [] {
      RankOfOldest(rows[1..], owner, oldest);
      assert rows[0] == oldest ==> oldest !in rows[1..];
    }
  }

  lemma {:induction false} NewestWithinCap(rows: seq<Exchange>, owner: Option<string>, cap: nat)
    requires Ascending(rows)
    ensures CountOf(KeepNewest(rows, owner, cap), owner) <= cap
  {
    var kept := KeepNewest(rows, owner, cap);
    KeepIsSubset(rows, AmongNewest(rows, owner, cap));
    KeepAscends(rows, AmongNewest(rows, owner, cap));
    if exists row :: row in kept && Counts(owner, row) {
      var oldest := OldestRow(kept, owner);
      RankOfOldest(kept, owner, oldest);
      KeepRank(rows, AmongNewest(rows, owner, cap), owner, oldest);
    } else {
      NoneCounted(kept, owner);
    }
  }

  lemma {:induction false} NoneCounted(rows: seq<Exchange>, owner: Option<string>)
    requires forall row :: row in rows ==> !Counts(owner, row)
    ensures CountOf(rows, owner) == 0
  {
    if rows != [] {
      NoneCounted(rows[1..], owner);
    }
  }

  lemma {:induction false} KeepCount(rows: seq<Exchange>, keep: Exchange -> bool, owner: Option<string>)
    ensures CountOf(Keep(rows, keep), owner) <= CountOf(rows, owner)
  {
    if rows != [] {
      KeepCount(rows[1..], keep, owner);
    }
  }

  lemma {:induction false} RankBelow(rows: seq<Exchange>, owner: Option<string>, upper: Exchange, lower: Exchange)
    requires Above(upper, lower)
    ensures Rank(rows, owner, upper) + (if upper in rows && Counts(owner, upper) then 1 else 0) <= Rank(rows, owner, lower)
  {
    if rows != [] {
      RankBelow(rows[1..], owner, upper, lower);
    }
  }

  // A row that the cap drops is outranked by every row of its owner that the cap keeps, and the cap is then used up.
  lemma {:induction false} DroppedAreOlder(rows: seq<Exchange>, owner: Option<string>, cap: nat, dropped: Exchange, kept: Exchange)
    requires Ascending(rows) && dropped in rows && kept in rows && Counts(owner, dropped) && Counts(owner, kept)
    requires dropped !in KeepNewest(rows, owner, cap) && kept in KeepNewest(rows, owner, cap)
    ensures Above(kept, dropped)
  {
    KeepIsSubset(rows, AmongNewest(rows, owner, cap));
    if !Above(kept, dropped) {
      assert Above(dropped, kept) by {
        if kept.id == dropped.id {
          SameIdSameRow(rows, kept, dropped);
        }
      }
      RankBelow(rows, owner, dropped, kept);
    }
  }

  lemma {:induction false} SameIdSameRow(rows: seq<Exchange>, a: Exchange, b: Exchange)
    requires Ascending(rows) && a in rows && b in rows && a.id == b.id
    ensures a == b
  {
    var i :| 0 <= i < |rows| && rows[i] == a;
    var j :| 0 <= j < |rows| && rows[j] == b;
    assert !(i < j) && !(j < i);
  }

  lemma {:induction false} NewestRow(rows: seq<Exchange>) returns (newest: Exchange)
    requires Ascending(rows) && rows != []
    ensures newest in rows && forall row :: row in rows && row != newest ==> Above(newest, row)
  {
    newest := rows[0];
    assert forall row :: row in rows <==> row == rows[0] || row in rows[1..];
    if |rows| > 1 {
      var rest := NewestRow(rows[1..]);
      if !Above(newest, rest) {
        newest := rest;
      }
    }
  }

  lemma {:induction false} RankWithin(rows: seq<Exchange>, keep: Exchange -> bool, owner: Option<string>, row: Exchange)
    requires forall other :: other in rows && Counts(owner, other) && Above(other, row) ==> keep(other)
    ensures Rank(rows, owner, row) <= CountOf(Keep(rows, keep), owner)
  {
    if rows != [] {
      RankWithin(rows[1..], keep, owner, row);
    }
  }

  lemma {:induction false} KeepEvery(rows: seq<Exchange>, keep: Exchange -> bool)
    requires forall row :: row in rows ==> keep(row)
    ensures Keep(rows, keep) == rows
  {
    if rows != [] {
      KeepEvery(rows[1..], keep);
    }
  }

  function Not(keep: Exchange -> bool): Exchange -> bool {
    (row: Exchange) => !keep(row)
  }

  // A cap drops nothing below its limit, and otherwise leaves exactly as many rows as it allows.
  lemma {:induction false} CapIsExact(rows: seq<Exchange>, owner: Option<string>, cap: nat)
    requires Ascending(rows)
    ensures
      var kept := KeepNewest(rows, owner, cap);
      if CountOf(rows, owner) <= cap then kept == rows else CountOf(kept, owner) == cap
  {
    var keep := AmongNewest(rows, owner, cap);
    var dropped := Keep(rows, Not(keep));
    KeepIsSubset(rows, Not(keep));
    NewestWithinCap(rows, owner, cap);
    if dropped == [] {
      forall row | row in rows
        ensures keep(row)
      {
        assert !keep(row) ==> row in dropped;
      }
      KeepEvery(rows, keep);
    } else {
      KeepAscends(rows, Not(keep));
      var first := NewestRow(dropped);
      assert first in rows && !keep(first);
      forall other | other in rows && Above(other, first)
        ensures keep(other)
      {
        assert !keep(other) ==> other in dropped;
      }
      RankWithin(rows, keep, owner, first);
      RankBelowCount(rows, owner, first);
    }
  }

  lemma {:induction false} RankBelowCount(rows: seq<Exchange>, owner: Option<string>, row: Exchange)
    ensures Rank(rows, owner, row) + (if row in rows && Counts(owner, row) then 1 else 0) <= CountOf(rows, owner)
  {
    if rows != [] {
      RankBelowCount(rows[1..], owner, row);
    }
  }

  /*** Every operation keeps the table in order ***/

  ghost predicate UniqueRequests(rows: seq<Exchange>) {
    forall a, b :: a in rows && b in rows && a.owner == b.owner && a.experiment == b.experiment && a.request == b.request ==> a == b
  }

  ghost predicate WithinCaps(rows: seq<Exchange>) {
    (forall owner: string :: CountOf(rows, Some(owner)) <= MAX_PER_OWNER) && CountOf(rows, None) <= MAX_STORED
  }

  ghost predicate RowsInv(rows: seq<Exchange>, nextId: nat) {
    Ascending(rows) && UniqueRequests(rows) && forall row :: row in rows ==> row.id < nextId
  }

  ghost predicate StoreInv(s: Store) {
    && RowsInv(s.rows, s.nextId)
    && WithinCaps(s.rows)
    && (forall row :: row in s.rows ==> row.experiment in s.experiments)
    && (forall stone :: stone in s.tombstones ==> stone.experiment in s.experiments)
    && s.experiments.Keys <= s.issued
    && (forall row :: row in s.rows ==> StoneFor(row.owner, row.experiment, row.conversation) !in s.tombstones)
  }

  lemma {:induction false} SubsetKeepsRows(rows: seq<Exchange>, keep: Exchange -> bool, nextId: nat)
    requires RowsInv(rows, nextId)
    ensures RowsInv(Keep(rows, keep), nextId)
  {
    KeepIsSubset(rows, keep);
    KeepAscends(rows, keep);
  }

  lemma {:induction false} SubsetKeepsCaps(rows: seq<Exchange>, keep: Exchange -> bool)
    requires WithinCaps(rows)
    ensures WithinCaps(Keep(rows, keep))
  {
    forall owner: string
      ensures CountOf(Keep(rows, keep), Some(owner)) <= MAX_PER_OWNER
    {
      KeepCount(rows, keep, Some(owner));
    }
    KeepCount(rows, keep, None);
  }

  // What any pruning leaves: some of the rows, still in order.
  ghost predicate Remains(rows: seq<Exchange>, kept: seq<Exchange>, nextId: nat) {
    RowsInv(kept, nextId) && forall row :: row in kept ==> row in rows
  }

  lemma {:induction false} PruneOwnerRemains(rows: seq<Exchange>, owner: string, now: int, nextId: nat)
    requires RowsInv(rows, nextId)
    ensures Remains(rows, PruneOwner(rows, owner, now), nextId)
  {
    hide RowsInv;
    var current := Keep(rows, NotExpired(now));
    var own := KeepNewest(current, Some(owner), MAX_PER_OWNER);
    SubsetKeepsRows(rows, NotExpired(now), nextId);
    SubsetKeepsRows(current, AmongNewest(current, Some(owner), MAX_PER_OWNER), nextId);
    SubsetKeepsRows(own, AmongNewest(own, None, MAX_STORED), nextId);
    KeepIsSubset(rows, NotExpired(now));
    KeepIsSubset(current, AmongNewest(current, Some(owner), MAX_PER_OWNER));
    KeepIsSubset(own, AmongNewest(own, None, MAX_STORED));
  }

  lemma {:induction false} RowsAscend(rows: seq<Exchange>, nextId: nat)
    requires RowsInv(rows, nextId)
    ensures Ascending(rows)
  {
  }

  // Afterwards the owner and the whole table are within their caps, and nobody has more rows than before.
  lemma {:induction false} PruneOwnerCaps(rows: seq<Exchange>, owner: string, now: int, other: string)
    requires Ascending(rows)
    ensures
      var kept := PruneOwner(rows, owner, now);
      && CountOf(kept, Some(owner)) <= MAX_PER_OWNER && CountOf(kept, None) <= MAX_STORED
      && CountOf(kept, Some(other)) <= CountOf(rows, Some(other))
  {
    hide Ascending, Rank, Keep, CountOf;
    var current := Keep(rows, NotExpired(now));
    var own := KeepNewest(current, Some(owner), MAX_PER_OWNER);
    KeepAscends(rows, NotExpired(now));
    KeepAscends(current, AmongNewest(current, Some(owner), MAX_PER_OWNER));
    NewestWithinCap(current, Some(owner), MAX_PER_OWNER);
    NewestWithinCap(own, None, MAX_STORED);
    KeepCount(own, AmongNewest(own, None, MAX_STORED), Some(owner));
    KeepCount(rows, NotExpired(now), Some(other));
    KeepCount(current, AmongNewest(current, Some(owner), MAX_PER_OWNER), Some(other));
    KeepCount(own, AmongNewest(own, None, MAX_STORED), Some(other));
  }

  lemma {:induction false} CountAppend(rows: seq<Exchange>, row: Exchange, owner: Option<string>)
    ensures CountOf(rows + [row], owner) == CountOf(rows, owner) + (if Counts(owner, row) then 1 else 0)
  {
    if rows == [] {
      assert rows + [row] == [row] && [row][1..] == [];
    } else {
      assert (rows + [row])[1..] == rows[1..] + [row];
      CountAppend(rows[1..], row, owner);
    }
  }

  lemma {:induction false} PruneKeepsCaps(rows: seq<Exchange>, owner: string, now: int)
    requires Ascending(rows) && WithinCaps(rows)
    ensures WithinCaps(PruneOwner(rows, owner, now))
  {
    forall other: string
      ensures CountOf(PruneOwner(rows, owner, now), Some(other)) <= MAX_PER_OWNER
    {
      PruneOwnerCaps(rows, owner, now, other);
    }
    PruneOwnerCaps(rows, owner, now, owner);
  }

  lemma {:induction false} InsertKeepsCaps(rows: seq<Exchange>, row: Exchange, now: int)
    requires Ascending(rows) && WithinCaps(rows) && Ascending(rows + [row])
    ensures WithinCaps(PruneOwner(rows + [row], row.owner, now))
  {
    hide Ascending, PruneOwner, CountOf;
    forall other: string
      ensures CountOf(PruneOwner(rows + [row], row.owner, now), Some(other)) <= MAX_PER_OWNER
    {
      PruneOwnerCaps(rows + [row], row.owner, now, other);
      CountAppend(rows, row, Some(other));
    }
    PruneOwnerCaps(rows + [row], row.owner, now, row.owner);
  }

  lemma {:induction false} FindFinds(rows: seq<Exchange>, request: Request)
    ensures Find(rows, request).Some? ==> Find(rows, request).value in rows && Matches(Find(rows, request).value, request)
    ensures Find(rows, request) == None ==> forall row :: row in rows ==> !Matches(row, request)
  {
    if rows != [] && !Matches(rows[0], request) {
      FindFinds(rows[1..], request);
    }
  }

  lemma {:induction false} InsertKeepsRows(rows: seq<Exchange>, row: Exchange, request: Request, nextId: nat)
    requires RowsInv(rows, nextId) && row.id == nextId && Matches(row, request) && Find(rows, request) == None
    ensures RowsInv(rows + [row], nextId + 1)
  {
    FindFinds(rows, request);
  }

  ghost predicate SameButRows(s: Store, s': Store) {
    s'.tombstones == s.tombstones && s'.experiments == s.experiments && s'.issued == s.issued
  }

  lemma {:induction false} FewerRowsKeepInv(s: Store, s': Store)
    requires StoreInv(s) && SameButRows(s, s') && Remains(s.rows, s'.rows, s'.nextId) && WithinCaps(s'.rows)
    ensures StoreInv(s')
  {
    hide RowsInv, WithinCaps;
  }

  lemma {:induction false} SaveKeepsInv(s: Store, request: Request, stamped: int, now: int)
    requires StoreInv(s)
    ensures StoreInv(Save(s, request, stamped, now).0)
  {
    hide RowsInv, WithinCaps, PruneOwner, Matches;
    RowsAscend(s.rows, s.nextId);
    var rows := PruneOwner(s.rows, request.owner, now);
    PruneOwnerRemains(s.rows, request.owner, now, s.nextId);
    PruneKeepsCaps(s.rows, request.owner, now);
    FewerRowsKeepInv(s, s.(rows := rows));
    var (s', outcome) := Save(s, request, stamped, now);
    if outcome.Saved? && outcome.created {
      var row := NewRow(s, request, stamped);
      assert Matches(row, request) by { NewRowMatches(s, request, stamped); }
      InsertKeepsRows(rows, row, request, s.nextId);
      RowsAscend(rows, s.nextId);
      RowsAscend(rows + [row], s.nextId + 1);
      InsertKeepsCaps(rows, row, now);
      PruneOwnerRemains(rows + [row], request.owner, now, s.nextId + 1);
    }
  }

  lemma {:induction false} NewRowMatches(s: Store, request: Request, stamped: int)
    ensures Matches(NewRow(s, request, stamped), request)
  {
  }

  lemma {:induction false} PruneEachKeeps(rows: seq<Exchange>, owners: seq<string>, nextId: nat)
    requires RowsInv(rows, nextId) && WithinCaps(rows)
    ensures Remains(rows, KeepNewestOfEach(rows, owners), nextId) && WithinCaps(KeepNewestOfEach(rows, owners))
    decreases |owners|
  {
    if owners != [] {
      hide RowsInv, WithinCaps;
      var keep := AmongNewest(rows, Some(owners[0]), MAX_PER_OWNER);
      SubsetKeepsRows(rows, keep, nextId);
      SubsetKeepsCaps(rows, keep);
      KeepIsSubset(rows, keep);
      PruneEachKeeps(KeepNewest(rows, Some(owners[0]), MAX_PER_OWNER), owners[1..], nextId);
    }
  }

  lemma {:induction false} PruneAllKeeps(rows: seq<Exchange>, now: int, nextId: nat)
    requires RowsInv(rows, nextId) && WithinCaps(rows)
    ensures Remains(rows, PruneAll(rows, now), nextId) && WithinCaps(PruneAll(rows, now))
  {
    hide RowsInv, WithinCaps;
    var current := Keep(rows, NotExpired(now));
    SubsetKeepsRows(rows, NotExpired(now), nextId);
    SubsetKeepsCaps(rows, NotExpired(now));
    KeepIsSubset(rows, NotExpired(now));
    PruneEachKeeps(current, Owners(current), nextId);
    var each := KeepNewestOfEach(current, Owners(current));
    SubsetKeepsRows(each, AmongNewest(each, None, MAX_STORED), nextId);
    SubsetKeepsCaps(each, AmongNewest(each, None, MAX_STORED));
    KeepIsSubset(each, AmongNewest(each, None, MAX_STORED));
  }

  lemma {:induction false} SelectionKeepsInv(s: Store, keep: Exchange -> bool)
    requires StoreInv(s)
    ensures StoreInv(s.(rows := Keep(s.rows, keep)))
  {
    hide RowsInv, WithinCaps;
    SubsetKeepsRows(s.rows, keep, s.nextId);
    SubsetKeepsCaps(s.rows, keep);
    KeepIsSubset(s.rows, keep);
  }

  lemma {:induction false} DeleteKeepsInv(s: Store, owner: string, experiment: string, conversation: string)
    requires StoreInv(s)
    ensures StoreInv(DeleteConversation(s, owner, experiment, conversation).0)
  {
    hide RowsInv, WithinCaps;
    var keep := Outside(owner, experiment, conversation);
    SelectionKeepsInv(s, keep);
    KeepIsSubset(s.rows, keep);
    if |Keep(s.rows, keep)| < |s.rows| {
      SomeRowGoes(s.rows, keep);
      var gone :| gone in s.rows && !keep(gone);
      assert gone.experiment == experiment;
    }
  }

  lemma {:induction false} SomeRowGoes(rows: seq<Exchange>, keep: Exchange -> bool)
    requires |Keep(rows, keep)| < |rows|
    ensures exists row :: row in rows && !keep(row)
  {
    if forall row :: row in rows ==> keep(row) {
      KeepEvery(rows, keep);
    }
  }

  lemma {:induction false} DropKeepsInv(s: Store, experiment: string)
    requires StoreInv(s)
    ensures StoreInv(DeleteExperiment(s, experiment))
  {
    hide RowsInv, WithinCaps;
    SelectionKeepsInv(s, NotOf(experiment));
    KeepIsSubset(s.rows, NotOf(experiment));
  }

  lemma {:induction false} StepKeepsInv(s: Store, operation: Operation)
    requires StoreInv(s)
    ensures StoreInv(Step(s, operation))
  {
    hide RowsInv, WithinCaps, Save, DeleteConversation, DeleteExperiment, PruneAll;
    match operation
    case SaveExchange(request, stamped, now) => SaveKeepsInv(s, request, stamped, now);
    case DeleteOne(owner, experiment, conversation) => DeleteKeepsInv(s, owner, experiment, conversation);
    case EnforceRetention(now) =>
      PruneAllKeeps(s.rows, now, s.nextId);
      FewerRowsKeepInv(s, s.(rows := PruneAll(s.rows, now)));
    case AddOne(_, _) =>
    case FinishOne(_, _) =>
    case DropExperiment(experiment) => DropKeepsInv(s, experiment);
  }

  // At every moment of every run: one row per request, no row of a deleted conversation, and all caps hold.
  lemma {:induction false} RunInv(operations: seq<Operation>)
    ensures StoreInv(Run(operations))
  {
    if operations != [] {
      hide StoreInv, Step;
      RunInv(operations[..|operations| - 1]);
      StepKeepsInv(Run(operations[..|operations| - 1]), operations[|operations| - 1]);
    }
  }

  /*** Deletion is permanent, saves are idempotent ***/

  // Nothing of the conversation is stored, and nothing of it can be: its marker stands, or its experiment is gone for good.
  ghost predicate Barred(s: Store, owner: string, experiment: string, conversation: string) {
    && (forall row :: row in s.rows ==> !InConversation(row, owner, experiment, conversation))
    && (StoneFor(owner, experiment, conversation) in s.tombstones
        || (experiment !in s.experiments && experiment in s.issued))
  }

  lemma {:induction false} DeletedIsBarred(s: Store, owner: string, experiment: string, conversation: string)
    requires DeleteConversation(s, owner, experiment, conversation).1
    ensures Barred(DeleteConversation(s, owner, experiment, conversation).0, owner, experiment, conversation)
  {
    KeepIsSubset(s.rows, Outside(owner, experiment, conversation));
  }

  // The rows after a step are rows from before, or the one new row of a successful save.
  ghost predicate NoNewRows(s: Store, s': Store, operation: Operation) {
    forall row :: row in s'.rows ==> row in s.rows || (operation.SaveExchange? && Saves(s, operation.request)
                                                       && row == NewRow(s, operation.request, operation.stamped))
  }

  predicate Saves(s: Store, request: Request) {
    && request.experiment in s.experiments
    && StoneFor(request.owner, request.experiment, request.conversation) !in s.tombstones
  }

  lemma {:induction false} SaveAddsOneRow(s: Store, request: Request, stamped: int, now: int)
    requires StoreInv(s)
    ensures
      var s' := Save(s, request, stamped, now).0;
      && SameButRows(s, s') && s.nextId <= s'.nextId
      && NoNewRows(s, s', SaveExchange(request, stamped, now))
      && (s'.nextId == s.nextId ==> forall row :: row in s'.rows ==> row in s.rows)
  {
    hide RowsInv, WithinCaps, PruneOwner, Matches;
    PruneOwnerRemains(s.rows, request.owner, now, s.nextId);
    var rows := PruneOwner(s.rows, request.owner, now);
    var row := NewRow(s, request, stamped);
    if Find(rows, request) == None {
      assert Matches(row, request) by { NewRowMatches(s, request, stamped); }
      InsertKeepsRows(rows, row, request, s.nextId);
      PruneOwnerRemains(rows + [row], request.owner, now, s.nextId + 1);
    }
  }

  lemma {:induction false} StepAddsOneRow(s: Store, operation: Operation)
    requires StoreInv(s)
    ensures NoNewRows(s, Step(s, operation), operation)
  {
    hide RowsInv, WithinCaps, Save, PruneAll, StoneFor, NewRow;
    match operation
    case SaveExchange(request, stamped, now) => SaveAddsOneRow(s, request, stamped, now);
    case DeleteOne(owner, experiment, conversation) => KeepIsSubset(s.rows, Outside(owner, experiment, conversation));
    case EnforceRetention(now) => PruneAllKeeps(s.rows, now, s.nextId);
    case AddOne(_, _) =>
    case FinishOne(_, _) =>
    case DropExperiment(experiment) => KeepIsSubset(s.rows, NotOf(experiment));
  }

  lemma {:induction false} StepKeepsMarker(s: Store, operation: Operation, stone: Tombstone)
    requires stone in s.tombstones || (stone.experiment !in s.experiments && stone.experiment in s.issued)
    requires StoreInv(s)
    ensures
      var s' := Step(s, operation);
      stone in s'.tombstones || (stone.experiment !in s'.experiments && stone.experiment in s'.issued)
  {
    hide RowsInv, WithinCaps, Save, PruneAll;
    if operation.SaveExchange? {
      SaveAddsOneRow(s, operation.request, operation.stamped, operation.now);
    }
  }

  lemma {:induction false} StepKeepsBar(s: Store, operation: Operation, owner: string, experiment: string, conversation: string)
    requires StoreInv(s) && Barred(s, owner, experiment, conversation)
    ensures Barred(Step(s, operation), owner, experiment, conversation)
  {
    hide StoreInv, Step;
    StepAddsOneRow(s, operation);
    StepKeepsMarker(s, operation, StoneFor(owner, experiment, conversation));
  }

  // Once a conversation has been deleted, no later step of any run brings one of its rows back.
  lemma {:induction false} DeletionIsPermanent(
    operations: seq<Operation>, more: seq<Operation>, owner: string, experiment: string, conversation: string)
    requires DeleteConversation(Run(operations), owner, experiment, conversation).1
    ensures
      var later := Run(operations + [DeleteOne(owner, experiment, conversation)] + more);
      forall row :: row in later.rows ==> !InConversation(row, owner, experiment, conversation)
  {
    StaysBarred(operations, more, owner, experiment, conversation);
  }

  lemma {:induction false} StaysBarred(
    operations: seq<Operation>, more: seq<Operation>, owner: string, experiment: string, conversation: string)
    requires DeleteConversation(Run(operations), owner, experiment, conversation).1
    ensures Barred(Run(operations + [DeleteOne(owner, experiment, conversation)] + more), owner, experiment, conversation)
  {
    hide Barred, DeleteConversation;
    var deletion := operations + [DeleteOne(owner, experiment, conversation)];
    if more == [] {
      assert deletion + more == deletion && deletion[..|deletion| - 1] == operations;
      DeletedIsBarred(Run(operations), owner, experiment, conversation);
    } else {
      hide Step;
      var front := more[..|more| - 1];
      assert (deletion + more)[..|deletion + more| - 1] == deletion + front;
      StaysBarred(operations, front, owner, experiment, conversation);
      RunInv(deletion + front);
      StepKeepsBar(Run(deletion + front), more[|more| - 1], owner, experiment, conversation);
    }
  }

  // Rows are never changed, and their ids never given to another row.
  lemma {:induction false} RowsNeverChange(operations: seq<Operation>, more: seq<Operation>, row: Exchange, later: Exchange)
    requires row in Run(operations).rows && later in Run(operations + more).rows && later.id == row.id
    ensures later == row
  {
    hide StoreInv, Step;
    if more == [] {
      assert operations + more == operations;
      RunInv(operations);
      StoreIds(Run(operations), row, later);
    } else {
      var front := more[..|more| - 1];
      assert (operations + more)[..|operations + more| - 1] == operations + front;
      var s := Run(operations + front);
      RunInv(operations + front);
      StepAddsOneRow(s, more[|more| - 1]);
      IdsAreIssued(operations, front);
      RunInv(operations);
      assert row.id < Run(operations).nextId by { StoreIds(Run(operations), row, row); }
      assert later in s.rows;
      RowsNeverChange(operations, front, row, later);
    }
  }

  lemma {:induction false} StoreIds(s: Store, a: Exchange, b: Exchange)
    requires StoreInv(s) && a in s.rows && b in s.rows
    ensures a.id < s.nextId && (a.id == b.id ==> a == b)
  {
    if a.id == b.id {
      SameIdSameRow(s.rows, a, b);
    }
  }

  lemma {:induction false} StepIssuesIds(s: Store, operation: Operation)
    requires StoreInv(s)
    ensures s.nextId <= Step(s, operation).nextId
  {
    hide StoreInv;
    if operation.SaveExchange? {
      SaveAddsOneRow(s, operation.request, operation.stamped, operation.now);
    }
  }

  lemma {:induction false} IdsAreIssued(operations: seq<Operation>, more: seq<Operation>)
    ensures Run(operations).nextId <= Run(operations + more).nextId
  {
    hide StoreInv, Step;
    if more == [] {
      assert operations + more == operations;
    } else {
      var front := more[..|more| - 1];
      assert (operations + more)[..|operations + more| - 1] == operations + front;
      IdsAreIssued(operations, front);
      RunInv(operations + front);
      StepIssuesIds(Run(operations + front), more[|more| - 1]);
    }
  }

  // While a request's row survives the prune, saving the request again returns that row and stores nothing.
  lemma {:induction false} SaveIsIdempotent(operations: seq<Operation>, row: Exchange, request: Request, stamped: int, now: int)
    requires row in PruneOwner(Run(operations).rows, request.owner, now) && Matches(row, request)
    requires row.requestHash == request.requestHash && request.wellFormed
    ensures
      var s := Run(operations);
      var (s', outcome) := Save(s, request, stamped, now);
      && outcome != RequestConflict
      && (outcome.Saved? ==> outcome == Saved(row, false) && s' == s.(rows := PruneOwner(s.rows, request.owner, now)))
  {
    var s := Run(operations);
    RunInv(operations);
    hide PruneOwner, Run;
    PruneOwnerRemains(s.rows, request.owner, now, s.nextId);
    FindFinds(PruneOwner(s.rows, request.owner, now), request);
  }

  /*** What a save and a deletion answer ***/

  predicate Open(s: Store, request: Request) {
    && request.wellFormed
    && request.experiment in s.experiments && s.experiments[request.experiment] == Experiment(request.owner, true)
    && Tombstone(request.owner, request.experiment, Sha256(request.conversation)) !in s.tombstones
  }

  // The row of an earlier save under the same request id.
  ghost predicate Stored(rows: seq<Exchange>, request: Request, row: Exchange) {
    row in rows && row.owner == request.owner && row.experiment == request.experiment && row.request == request.request
  }

  // The row holds what the request brought, under a new id.
  predicate Holds(row: Exchange, request: Request, id: nat, stamped: int) {
    && row.id == id && row.owner == request.owner && row.experiment == request.experiment
    && row.conversation == request.conversation && row.request == request.request
    && row.requestHash == request.requestHash && row.content == request.content
    && row.createdAt == stamped && row.updatedAt == stamped
  }

  // Every answer of a save and what it leaves behind. An error leaves the store as it was.
  ghost predicate SaveAnswers(s: Store, request: Request, stamped: int, now: int, s': Store, outcome: Outcome) {
    var rows := PruneOwner(s.rows, request.owner, now);
    && SameButRows(s, s')
    && (outcome == InvalidRequest <==> !request.wellFormed)
    && (outcome == NoCompletedExperiment <==>
          request.wellFormed
          && !(request.experiment in s.experiments && s.experiments[request.experiment] == Experiment(request.owner, true)))
    && (outcome.Saved? || outcome == RequestConflict <==> Open(s, request))
    && (!outcome.Saved? ==> s' == s)
    && (outcome == RequestConflict ==> exists row :: Stored(rows, request, row) && row.requestHash != request.requestHash)
    && (outcome.Saved? && !outcome.created ==>
          Stored(rows, request, outcome.row) && outcome.row.requestHash == request.requestHash && s' == s.(rows := rows))
    && (outcome.Saved? && outcome.created ==>
          && (forall row :: !Stored(rows, request, row)) && Holds(outcome.row, request, s.nextId, stamped)
          && s'.nextId == s.nextId + 1 && s'.rows == PruneOwner(rows + [outcome.row], request.owner, now))
  }

  lemma {:induction false} SaveIsAnswered(s: Store, request: Request, stamped: int, now: int)
    ensures
      var (s', outcome) := Save(s, request, stamped, now);
      SaveAnswers(s, request, stamped, now, s', outcome)
  {
    hide PruneOwner;
    FindFinds(PruneOwner(s.rows, request.owner, now), request);
  }

  // Pruning drops only what has expired, or has the cap's number of newer rows of its owner, or of all; nothing expired stays.
  lemma {:induction false} PruneDropsOnly(rows: seq<Exchange>, owner: string, now: int, row: Exchange)
    requires row in rows
    ensures row in PruneOwner(rows, owner, now) ==> row.updatedAt >= now - 90 * 24 * 3600
    ensures row !in PruneOwner(rows, owner, now) ==>
      || row.updatedAt < now - 90 * 24 * 3600
      || (row.owner == owner && Rank(rows, Some(owner), row) >= 300)
      || Rank(rows, None, row) >= 5000
  {
    hide Rank;
    var current := Keep(rows, NotExpired(now));
    var own := KeepNewest(current, Some(owner), MAX_PER_OWNER);
    KeepIsSubset(rows, NotExpired(now));
    KeepIsSubset(current, AmongNewest(current, Some(owner), MAX_PER_OWNER));
    KeepIsSubset(own, AmongNewest(own, None, MAX_STORED));
    KeepRank(rows, NotExpired(now), Some(owner), row);
    KeepRank(rows, NotExpired(now), None, row);
    KeepRank(current, AmongNewest(current, Some(owner), MAX_PER_OWNER), None, row);
  }

  lemma {:induction false} EachDropsOnly(rows: seq<Exchange>, owners: seq<string>, row: Exchange)
    requires row in rows && row !in KeepNewestOfEach(rows, owners)
    ensures Rank(rows, Some(row.owner), row) >= MAX_PER_OWNER
    decreases |owners|
  {
    hide Rank;
    var keep := AmongNewest(rows, Some(owners[0]), MAX_PER_OWNER);
    KeepIsSubset(rows, keep);
    if keep(row) {
      EachDropsOnly(Keep(rows, keep), owners[1..], row);
      KeepRank(rows, keep, Some(row.owner), row);
    }
  }

  lemma {:induction false} EachKeepsRank(rows: seq<Exchange>, owners: seq<string>, row: Exchange)
    ensures Rank(KeepNewestOfEach(rows, owners), None, row) <= Rank(rows, None, row)
    ensures row in KeepNewestOfEach(rows, owners) ==> row in rows
    decreases |owners|
  {
    if owners != [] {
      hide Rank;
      var keep := AmongNewest(rows, Some(owners[0]), MAX_PER_OWNER);
      KeepIsSubset(rows, keep);
      KeepRank(rows, keep, None, row);
      EachKeepsRank(Keep(rows, keep), owners[1..], row);
    }
  }

  // The caps hold in every reachable state, so retention removes exactly what has expired.
  lemma {:induction false} RetentionRemovesExactlyTheExpired(operations: seq<Operation>, now: int, row: Exchange)
    ensures row in Step(Run(operations), EnforceRetention(now)).rows <==>
            row in Run(operations).rows && row.updatedAt >= now - 90 * 24 * 3600
  {
    RunInv(operations);
    hide Run, Rank, CountOf, KeepNewestOfEach, Owners;
    var rows := Run(operations).rows;
    var current := Keep(rows, NotExpired(now));
    var each := KeepNewestOfEach(current, Owners(current));
    KeepIsSubset(rows, NotExpired(now));
    EachKeepsRank(current, Owners(current), row);
    KeepIsSubset(each, AmongNewest(each, None, MAX_STORED));
    if row in current {
      KeepRank(rows, NotExpired(now), Some(row.owner), row);
      KeepRank(rows, NotExpired(now), None, row);
      RankBelowCount(rows, Some(row.owner), row);
      RankBelowCount(rows, None, row);
      if row !in each {
        EachDropsOnly(current, Owners(current), row);
      }
    }
  }

  // The rows of the conversation go and no other, a marker is written exactly when there were any, and the answer says so.
  ghost predicate Deletes(s: Store, owner: string, experiment: string, conversation: string, s': Store, deleted: bool) {
    && (forall row :: row in s'.rows <==>
          row in s.rows && !(row.owner == owner && row.experiment == experiment && row.conversation == conversation))
    && (deleted <==> exists row :: row in s.rows && row.owner == owner && row.experiment == experiment && row.conversation == conversation)
    && s'.tombstones == s.tombstones + (if deleted then {Tombstone(owner, experiment, Sha256(conversation))} else {})
    && s'.experiments == s.experiments && s'.issued == s.issued && s'.nextId == s.nextId
  }

  lemma {:induction false} DeletionDeletes(s: Store, owner: string, experiment: string, conversation: string)
    ensures
      var (s', deleted) := DeleteConversation(s, owner, experiment, conversation);
      Deletes(s, owner, experiment, conversation, s', deleted)
  {
    var keep := Outside(owner, experiment, conversation);
    KeepIsSubset(s.rows, keep);
    if forall row :: row in s.rows ==> keep(row) {
      KeepEvery(s.rows, keep);
    }
    if |Keep(s.rows, keep)| < |s.rows| {
      SomeRowGoes(s.rows, keep);
    } else {
      NoRowGoes(s.rows, keep);
    }
  }

  lemma {:induction false} NoRowGoes(rows: seq<Exchange>, keep: Exchange -> bool)
    requires |Keep(rows, keep)| == |rows|
    ensures forall row :: row in rows ==> keep(row)
  {
    if rows != [] {
      KeepIsSubset(rows[1..], keep);
      NoRowGoes(rows[1..], keep);
      assert forall row :: row in rows <==> row == rows[0] || row in rows[1..];
    }
  }

  // The state after a save in a run, and any steps after it.
  function AfterSave(operations: seq<Operation>, request: Request, stamped: int, now: int, more: seq<Operation>): Store {
    Run(operations + [SaveExchange(request, stamped, now)] + more)
  }

  // While the row of a created save survives the prune and its experiment stays completed, saving the request again
  // answers with that very row, with nothing created, whatever happened in between.
  lemma {:induction false} RetriedSaveReturnsTheRow(
    operations: seq<Operation>, request: Request, stamped: int, now: int, more: seq<Operation>, restamped: int, later: int)
    requires
      var outcome := Save(Run(operations), request, stamped, now).1;
      && outcome.Saved? && outcome.created
      && outcome.row in PruneOwner(AfterSave(operations, request, stamped, now, more).rows, request.owner, later)
    requires
      var s := AfterSave(operations, request, stamped, now, more);
      request.experiment in s.experiments && s.experiments[request.experiment] == Experiment(request.owner, true)
    ensures
      var s, row := AfterSave(operations, request, stamped, now, more), Save(Run(operations), request, stamped, now).1.row;
      Save(s, request, restamped, later) == (s.(rows := PruneOwner(s.rows, request.owner, later)), Saved(row, false))
  {
    var history := operations + [SaveExchange(request, stamped, now)] + more;
    var s, row := AfterSave(operations, request, stamped, now, more), Save(Run(operations), request, stamped, now).1.row;
    SaveIsAnswered(Run(operations), request, stamped, now);
    RunInv(history);
    hide Run, AfterSave, PruneOwner, Save;
    PruneOwnerRemains(s.rows, request.owner, later, s.nextId);
    SaveIsAnswered(s, request, restamped, later);
    SavedOrConflict(s, request, restamped, later, row);
  }

  // Another question under a used request id is refused while the first row survives, and changes nothing.
  lemma {:induction false} OtherQuestionIsRefused(
    operations: seq<Operation>, request: Request, stamped: int, now: int, more: seq<Operation>, other: Request,
    restamped: int, later: int)
    requires
      var outcome := Save(Run(operations), request, stamped, now).1;
      && outcome.Saved? && outcome.created
      && outcome.row in PruneOwner(AfterSave(operations, request, stamped, now, more).rows, request.owner, later)
    requires other.owner == request.owner && other.experiment == request.experiment && other.request == request.request
    requires other.requestHash != request.requestHash && Open(AfterSave(operations, request, stamped, now, more), other)
    ensures
      var s := AfterSave(operations, request, stamped, now, more);
      Save(s, other, restamped, later) == (s, RequestConflict)
  {
    var history := operations + [SaveExchange(request, stamped, now)] + more;
    var s, row := AfterSave(operations, request, stamped, now, more), Save(Run(operations), request, stamped, now).1.row;
    SaveIsAnswered(Run(operations), request, stamped, now);
    RunInv(history);
    hide Run, AfterSave, PruneOwner, Save;
    PruneOwnerRemains(s.rows, request.owner, later, s.nextId);
    SaveIsAnswered(s, other, restamped, later);
    SavedOrConflict(s, other, restamped, later, row);
  }

  // A surviving row of the request id decides the answer: its own hash is answered with it, any other is refused.
  lemma {:induction false} SavedOrConflict(s: Store, request: Request, stamped: int, now: int, row: Exchange)
    requires StoreInv(s) && Stored(PruneOwner(s.rows, request.owner, now), request, row)
    requires Remains(s.rows, PruneOwner(s.rows, request.owner, now), s.nextId)
    requires Open(s, request) || (row.conversation == request.conversation && request.wellFormed && request.experiment in s.experiments
                                  && s.experiments[request.experiment] == Experiment(request.owner, true))
    ensures Save(s, request, stamped, now) ==
            if row.requestHash == request.requestHash then
              (s.(rows := PruneOwner(s.rows, request.owner, now)), Saved(row, false))
            else (s, RequestConflict)
  {
    hide PruneOwner, WithinCaps, Save;
    SaveIsAnswered(s, request, stamped, now);
  }

  /*** A new row survives its own prune ***/

  lemma {:induction false} NewestHasRankZero(rows: seq<Exchange>, owner: Option<string>, row: Exchange)
    requires forall other :: other in rows ==> !Above(other, row)
    ensures Rank(rows, owner, row) == 0
  {
    if rows != [] {
      NewestHasRankZero(rows[1..], owner, row);
    }
  }

  lemma {:induction false} NewestSurvivesItsPrune(rows: seq<Exchange>, row: Exchange, now: int)
    requires row in rows && row.updatedAt >= now - RETENTION && forall other :: other in rows ==> !Above(other, row)
    ensures row in PruneOwner(rows, row.owner, now)
  {
    var current := Keep(rows, NotExpired(now));
    var own := KeepNewest(current, Some(row.owner), MAX_PER_OWNER);
    KeepIsSubset(rows, NotExpired(now));
    NewestHasRankZero(current, Some(row.owner), row);
    KeepIsSubset(current, AmongNewest(current, Some(row.owner), MAX_PER_OWNER));
    NewestHasRankZero(own, None, row);
    KeepIsSubset(own, AmongNewest(own, None, MAX_STORED));
  }

  // No save so far was stamped after the given time.
  ghost predicate StampedBy(operations: seq<Operation>, time: int) {
    forall i :: 0 <= i < |operations| ==> operations[i].SaveExchange? ==> operations[i].stamped <= time
  }

  lemma {:induction false} RowsAreStamped(operations: seq<Operation>, time: int)
    requires StampedBy(operations, time)
    ensures forall row :: row in Run(operations).rows ==> row.updatedAt <= time
  {
    if operations != [] {
      var front := operations[..|operations| - 1];
      RowsAreStamped(front, time);
      RunInv(front);
      hide StoreInv, Step;
      StepAddsOneRow(Run(front), operations[|operations| - 1]);
    }
  }

  // When saves are stamped in order and the prune runs within the retention period, the row just saved is still there.
  lemma {:induction false} SavedRowSurvives(operations: seq<Operation>, request: Request, stamped: int, now: int)
    requires StampedBy(operations, stamped) && stamped >= now - RETENTION
    requires Save(Run(operations), request, stamped, now).1.Saved? && Save(Run(operations), request, stamped, now).1.created
    ensures
      var (s', outcome) := Save(Run(operations), request, stamped, now);
      outcome.row in s'.rows
  {
    var s := Run(operations);
    RunInv(operations);
    RowsAreStamped(operations, stamped);
    var rows, row := PruneOwner(s.rows, request.owner, now), NewRow(s, request, stamped);
    PruneOwnerRemains(s.rows, request.owner, now, s.nextId);
    hide PruneOwner, Run;
    NewestSurvivesItsPrune(rows + [row], row, now);
  }

  /*** The table object ***/

  lemma {:induction false} KeepNext(rows: seq<Exchange>, keep: Exchange -> bool, i: nat)
    requires i < |rows|
    ensures Keep(rows[i..], keep) == (if keep(rows[i]) then [rows[i]] else []) + Keep(rows[i + 1..], keep)
  {
    assert rows[i..][1..] == rows[i + 1..];
  }

  lemma {:induction false} KeepEnds(rows: seq<Exchange>, keep: Exchange -> bool)
    ensures Keep(rows[|rows|..], keep) == [] && rows[0..] == rows
  {
  }

  class InterpretationHistory {
    var rows: seq<Exchange>
    var tombstones: set<Tombstone>
    var experiments: map<string, Experiment>
    var issued: set<string>
    var nextId: nat

    function Snapshot(): Store
      reads this
    {
      Store(rows, tombstones, experiments, issued, nextId)
    }

    constructor ()
      ensures Snapshot() == Run([])
    {
      rows, tombstones, experiments, issued, nextId := [], {}, map[], {}, 1;
    }

    method DeleteExpired(now: int)
      modifies this`rows
      ensures rows == Keep(old(rows), NotExpired(now))
    {
      hide Keep;
      KeepEnds(rows, NotExpired(now));
      var kept: seq<Exchange> := [];
      var i := 0;
      while i < |rows|
        invariant 0 <= i <= |rows| && rows == old(rows)
        invariant Keep(rows, NotExpired(now)) == kept + Keep(rows[i..], NotExpired(now))
      {
        KeepNext(rows, NotExpired(now), i);
        if rows[i].updatedAt >= now - RETENTION {
          kept := kept + [rows[i]];
        }
        i := i + 1;
      }
      rows := kept;
    }

    method RankOf(owner: Option<string>, row: Exchange) returns (rank: nat)
      ensures rank == Rank(rows, owner, row)
    {
      rank := 0;
      var i := |rows|;
      while i > 0
        invariant 0 <= i <= |rows| && rank == Rank(rows[i..], owner, row)
      {
        i := i - 1;
        assert rows[i..][1..] == rows[i + 1..];
        if Counts(owner, rows[i]) && Above(rows[i], row) {
          rank := rank + 1;
        }
      }
      assert rows[0..] == rows;
    }

    // Delete all but the newest rows, of one owner or of all.
    method DeleteBeyond(owner: Option<string>, cap: nat)
      modifies this`rows
      ensures rows == KeepNewest(old(rows), owner, cap)
    {
      hide Keep, Rank, Counts;
      KeepEnds(rows, AmongNewest(rows, owner, cap));
      var kept: seq<Exchange> := [];
      var i := 0;
      while i < |rows|
        invariant 0 <= i <= |rows| && rows == old(rows)
        invariant KeepNewest(rows, owner, cap) == kept + Keep(rows[i..], AmongNewest(rows, owner, cap))
      {
        KeepNext(rows, AmongNewest(rows, owner, cap), i);
        var rank := RankOf(owner, rows[i]);
        if !Counts(owner, rows[i]) || rank < cap {
          kept := kept + [rows[i]];
        }
        i := i + 1;
      }
      rows := kept;
    }

    method Prune(owner: string, now: int)
      modifies this`rows
      ensures rows == PruneOwner(old(rows), owner, now)
    {
      DeleteExpired(now);
      DeleteBeyond(Some(owner), MAX_PER_OWNER);
      DeleteBeyond(None, MAX_STORED);
    }

    method FindRow(request: Request) returns (found: Option<Exchange>)
      ensures found == Find(rows, request)
    {
      var i := 0;
      while i < |rows|
        invariant 0 <= i <= |rows| && Find(rows, request) == Find(rows[i..], request)
      {
        if Matches(rows[i], request) {
          return Some(rows[i]);
        }
        assert rows[i..][1..] == rows[i + 1..];
        i := i + 1;
      }
      return None;
    }

    method SaveExchange(request: Request, stamped: int, now: int) returns (outcome: Outcome)
      modifies this
      ensures (Snapshot(), outcome) == Save(old(Snapshot()), request, stamped, now)
      ensures SaveAnswers(old(Snapshot()), request, stamped, now, Snapshot(), outcome)
    {
      hide SaveAnswers, PruneOwner;
      SaveIsAnswered(Snapshot(), request, stamped, now);
      if !request.wellFormed {
        return InvalidRequest;
      }
      var before := rows;
      Prune(request.owner, now);
      if request.experiment !in experiments || experiments[request.experiment] != Experiment(request.owner, true) {
        rows := before;
        return NoCompletedExperiment;
      }
      if StoneFor(request.owner, request.experiment, request.conversation) in tombstones {
        rows := before;
        return ConversationDeleted;
      }
      var existing := FindRow(request);
      if existing.Some? {
        if existing.value.requestHash != request.requestHash {
          rows := before;
          return RequestConflict;
        }
        return Saved(existing.value, false);
      }
      var row := Exchange(nextId, request.owner, request.experiment, request.conversation, request.request,
                          request.requestHash, request.content, stamped, stamped);
      rows := rows + [row];
      nextId := nextId + 1;
      Prune(request.owner, now);
      return Saved(row, true);
    }

    method Delete(owner: string, experiment: string, conversation: string) returns (deleted: bool)
      modifies this
      ensures (Snapshot(), deleted) == DeleteConversation(old(Snapshot()), owner, experiment, conversation)
      ensures Deletes(old(Snapshot()), owner, experiment, conversation, Snapshot(), deleted)
    {
      hide Deletes, Keep, InConversation;
      DeletionDeletes(Snapshot(), owner, experiment, conversation);
      KeepEnds(rows, Outside(owner, experiment, conversation));
      var existing := StoneFor(owner, experiment, conversation) in tombstones;
      var kept: seq<Exchange> := [];
      var i := 0;
      while i < |rows|
        invariant 0 <= i <= |rows| && Snapshot() == old(Snapshot())
        invariant Keep(rows, Outside(owner, experiment, conversation)) == kept + Keep(rows[i..], Outside(owner, experiment, conversation))
      {
        KeepNext(rows, Outside(owner, experiment, conversation), i);
        if !InConversation(rows[i], owner, experiment, conversation) {
          kept := kept + [rows[i]];
        }
        i := i + 1;
      }
      assert kept == Keep(rows, Outside(owner, experiment, conversation));
      deleted := |kept| < |rows|;
      rows := kept;
      ghost var stone := StoneFor(owner, experiment, conversation);
      assert existing ==> tombstones == tombstones + {stone};
      if deleted && !existing {
        tombstones := tombstones + {StoneFor(owner, experiment, conversation)};
      }
    }
  }
}
