// The hash-chained audit log: one chain per session, interleaved in one table, with a verifier per account.

module AuditChain {
  import opened Json
  import opened Text

  // `owner` is absent on rows written before accounts existed, until an account claims them.
  datatype Row = Row(
    id: nat, chain: string, owner: Option<string>, entityType: string, entityId: string, action: string, payload: string,
    previousHash: Option<string>, eventHash: string, createdAt: string)

  datatype Event = Event(entityType: string, entityId: string, action: string, payload: string, createdAt: string)

  function OrEmpty(hash: Option<string>): string {
    if hash.Some? then hash.value else ""
  }

  function Joined(chain: string, event: Event, previousHash: Option<string>): string {
    chain + "|" + (event.entityType + "|" + (event.entityId + "|" + (event.action + "|" +
      ((event.payload + "|" + OrEmpty(previousHash)) + "|" + event.createdAt))))
  }

  function EventOf(row: Row): Event {
    Event(row.entityType, row.entityId, row.action, row.payload, row.createdAt)
  }

  function Material(row: Row): string {
    Joined(row.chain, EventOf(row), row.previousHash)
  }

  // What is assumed of the digest: no collisions, and a non-empty text of hexadecimal digits.
  ghost predicate GoodHash(hash: string -> string) {
    && (forall a, b :: hash(a) == hash(b) ==> a == b)
    && (forall a :: hash(a) != "" && NoBar(hash(a)))
  }

  predicate NoBar(s: string) {
    Free(s, '|')
  }

  // Only the payload may contain the separator.
  predicate BarOnlyInPayload(row: Row) {
    NoBar(row.chain) && NoBar(row.entityType) && NoBar(row.entityId) && NoBar(row.action) && NoBar(row.createdAt)
  }

  /*** The log ***/

  // The rows that pass a test, in order.
  function Keep(rows: seq<Row>, keep: Row -> bool): seq<Row> {
    if rows == [] then []
    else
      var rest := Keep(rows[..|rows| - 1], keep);
      if keep(rows[|rows| - 1]) then rest + [rows[|rows| - 1]] else rest
  }

  function InChain(chain: string): Row -> bool {
    (row: Row) => row.chain == chain
  }

  function ChainOf(rows: seq<Row>, chain: string): seq<Row> {
    Keep(rows, InChain(chain))
  }

  function Head(chain: seq<Row>): Option<string> {
    if chain == [] then None else Some(chain[|chain| - 1].eventHash)
  }

  function NextRow(hash: string -> string, rows: seq<Row>, id: nat, chain: string, owner: Option<string>, event: Event): Row {
    var previous := Head(ChainOf(rows, chain));
    Row(id, chain, owner, event.entityType, event.entityId, event.action, event.payload, previous,
        hash(Joined(chain, event, previous)), event.createdAt)
  }

  // Every row carries its predecessor's hash and the hash of its own material.
  ghost predicate Linked(hash: string -> string, chain: seq<Row>) {
    forall i :: 0 <= i < |chain| ==>
      chain[i].previousHash == Head(chain[..i]) && chain[i].eventHash == hash(Material(chain[i]))
  }

  ghost predicate AllLinked(hash: string -> string, rows: seq<Row>) {
    forall chain :: Linked(hash, ChainOf(rows, chain))
  }

  // The account that sees a row.
  function Viewer(row: Row): string {
    if row.owner.Some? then row.owner.value else row.chain
  }

  function SeenBy(account: string): Row -> bool {
    (row: Row) => Viewer(row) == account
  }

  function Visible(rows: seq<Row>, account: string): seq<Row> {
    Keep(rows, SeenBy(account))
  }

  // Whole-chain retention: a chain goes when its newest row is older than the cutoff.
  predicate Stale(rows: seq<Row>, chain: string, cutoff: string) {
    forall row :: row in rows && row.chain == chain ==> Less(row.createdAt, cutoff)
  }

  function Current(rows: seq<Row>, cutoff: string): Row -> bool {
    (row: Row) => !Stale(rows, row.chain, cutoff)
  }

  function Retained(rows: seq<Row>, cutoff: string): seq<Row> {
    Keep(rows, Current(rows, cutoff))
  }

  predicate Unowned(row: Row) {
    row.owner == None || row.owner == Some("")
  }

  function ClaimRow(row: Row, account: string): Row {
    if Unowned(row) then row.(owner := Some(account)) else row
  }

  function Claimed(rows: seq<Row>, account: string): seq<Row> {
    seq(|rows|, i requires 0 <= i < |rows| => ClaimRow(rows[i], account))
  }

  function NotOwnedBy(account: string): Row -> bool {
    (row: Row) => row.owner != Some(account)
  }

  function Erased(rows: seq<Row>, account: string): seq<Row> {
    Keep(rows, NotOwnedBy(account))
  }

  // Retention waits until every row of every table is owned; `unownedElsewhere` speaks of the other tables.
  predicate Blocked(rows: seq<Row>, unownedElsewhere: bool) {
    unownedElsewhere || exists row :: row in rows && Unowned(row)
  }

  datatype Operation =
    | Append(session: string, event: Event)
    | EnforceRetention(cutoff: string, unownedElsewhere: bool)
    | ClaimLegacy(account: string)
    | EraseAccount(account: string)

  datatype Log = Log(rows: seq<Row>, nextId: nat)

  ghost function Step(hash: string -> string, log: Log, operation: Operation): Log {
    match operation
    case Append(session, event) =>
      Log(log.rows + [NextRow(hash, log.rows, log.nextId, session, Some(session), event)], log.nextId + 1)
    case EnforceRetention(cutoff, unownedElsewhere) =>
      if Blocked(log.rows, unownedElsewhere) then log else log.(rows := Retained(log.rows, cutoff))
    case ClaimLegacy(account) => if account == "" then log else log.(rows := Claimed(log.rows, account))
    case EraseAccount(account) => log.(rows := Erased(log.rows, account))
  }

  // A run of the service on a log that earlier versions may have written.
  ghost function Run(hash: string -> string, start: Log, operations: seq<Operation>): Log {
    if operations == [] then start
    else Step(hash, Run(hash, start, operations[..|operations| - 1]), operations[|operations| - 1])
  }

  /*** Appending and dropping whole chains keeps every chain linked ***/

  lemma {:induction false} KeepAppend(rows: seq<Row>, row: Row, keep: Row -> bool)
    ensures Keep(rows + [row], keep) == Keep(rows, keep) + (if keep(row) then [row] else [])
  {
    assert (rows + [row])[..|rows|] == rows;
  }

  lemma {:induction false} KeepIsSubset(rows: seq<Row>, keep: Row -> bool)
    ensures forall row :: row in Keep(rows, keep) <==> row in rows && keep(row)
  {
    if rows != [] {
      KeepIsSubset(rows[..|rows| - 1], keep);
      assert forall row :: row in rows <==> row in rows[..|rows| - 1] || row == rows[|rows| - 1];
    }
  }

  lemma {:induction false} KeepAllOrNone(rows: seq<Row>, keep: Row -> bool, all: bool)
    requires forall row :: row in rows ==> keep(row) == all
    ensures Keep(rows, keep) == if all then rows else []
  {
    if rows != [] {
      KeepAllOrNone(rows[..|rows| - 1], keep, all);
    }
  }

  lemma {:induction false} KeepsCommute(rows: seq<Row>, keep: Row -> bool, keep': Row -> bool)
    ensures Keep(Keep(rows, keep), keep') == Keep(Keep(rows, keep'), keep)
  {
    if rows != [] {
      var row := rows[|rows| - 1];
      KeepsCommute(rows[..|rows| - 1], keep, keep');
      KeepAppend(Keep(rows[..|rows| - 1], keep), row, keep');
      KeepAppend(Keep(rows[..|rows| - 1], keep'), row, keep);
    }
  }

  lemma {:induction false} AppendKeepsLinks(hash: string -> string, rows: seq<Row>, id: nat, chain: string, owner: Option<string>, event: Event)
    requires AllLinked(hash, rows)
    ensures AllLinked(hash, rows + [NextRow(hash, rows, id, chain, owner, event)])
  {
    var row := NextRow(hash, rows, id, chain, owner, event);
    forall other
      ensures Linked(hash, ChainOf(rows + [row], other))
    {
      KeepAppend(rows, row, InChain(other));
      var before := ChainOf(rows, other);
      assert Linked(hash, before);
      if other == chain {
        assert Material(row) == Joined(chain, event, Head(before));
        assert (before + [row])[..|before|] == before;
        assert forall i :: 0 <= i < |before| ==> (before + [row])[..i] == before[..i];
      }
    }
  }

  // Keeping or dropping each chain as a whole keeps the survivors linked.
  lemma {:induction false} WholeChainsKeepLinks(hash: string -> string, rows: seq<Row>, keep: Row -> bool)
    requires AllLinked(hash, rows)
    requires forall a, b :: a in rows && b in rows && a.chain == b.chain ==> keep(a) == keep(b)
    ensures AllLinked(hash, Keep(rows, keep))
  {
    forall chain
      ensures Linked(hash, ChainOf(Keep(rows, keep), chain))
    {
      var whole := ChainOf(rows, chain);
      KeepsCommute(rows, keep, InChain(chain));
      KeepIsSubset(rows, InChain(chain));
      assert Linked(hash, whole);
      KeepAllOrNone(whole, keep, whole != [] && keep(whole[0]));
    }
  }

  lemma {:induction false} RetentionKeepsLinks(hash: string -> string, rows: seq<Row>, cutoff: string)
    requires AllLinked(hash, rows)
    ensures AllLinked(hash, Retained(rows, cutoff))
  {
    WholeChainsKeepLinks(hash, rows, Current(rows, cutoff));
  }

  lemma {:induction false} ClaimKeepsChain(rows: seq<Row>, account: string, chain: string)
    ensures ChainOf(Claimed(rows, account), chain) == Claimed(ChainOf(rows, chain), account)
  {
    if rows != [] {
      var row := rows[|rows| - 1];
      ClaimKeepsChain(rows[..|rows| - 1], account, chain);
      assert Claimed(rows, account)[..|rows| - 1] == Claimed(rows[..|rows| - 1], account);
    }
  }

  // Claiming rows rewrites no hashed field.
  lemma {:induction false} ClaimKeepsLinks(hash: string -> string, rows: seq<Row>, account: string)
    requires AllLinked(hash, rows)
    ensures AllLinked(hash, Claimed(rows, account))
  {
    forall chain
      ensures Linked(hash, ChainOf(Claimed(rows, account), chain))
    {
      ClaimKeepsChain(rows, account, chain);
      var whole := ChainOf(rows, chain);
      assert Linked(hash, whole);
      forall i | 0 <= i < |whole|
        ensures Claimed(whole, account)[i].previousHash == Head(Claimed(whole, account)[..i])
        ensures Claimed(whole, account)[i].eventHash == hash(Material(Claimed(whole, account)[i]))
      {
        assert Claimed(whole, account)[..i] == Claimed(whole[..i], account);
      }
    }
  }

  /*** What each operation records ***/

  // The hash of the last row of the session, if it has one.
  ghost predicate NewestHash(rows: seq<Row>, session: string, hash: Option<string>) {
    match hash
    case None => forall row :: row in rows ==> row.chain != session
    case Some(value) => exists i :: 0 <= i < |rows| && IsNewest(rows, session, i) && rows[i].eventHash == value
  }

  ghost predicate IsNewest(rows: seq<Row>, session: string, i: nat)
    requires i < |rows|
  {
    rows[i].chain == session && forall j :: i < j < |rows| ==> rows[j].chain != session
  }

  // One row is added, which holds the event as it was given, the session as chain and owner, the newest hash of that
  // session, and the digest of the seven fields joined by the separator.
  ghost predicate Records(hash: string -> string, before: Log, session: string, event: Event, after: Log) {
    && after.nextId == before.nextId + 1
    && |after.rows| == |before.rows| + 1 && before.rows <= after.rows
    && var row := after.rows[|before.rows|];
       && row.id == before.nextId && row.chain == session && row.owner == Some(session)
       && row.entityType == event.entityType && row.entityId == event.entityId && row.action == event.action
       && row.payload == event.payload && row.createdAt == event.createdAt
       && NewestHash(before.rows, session, row.previousHash)
       && row.eventHash == hash(JoinedBy(
            [session, event.entityType, event.entityId, event.action, event.payload, OrEmpty(row.previousHash), event.createdAt], '|'))
  }

  lemma {:induction false} HeadIsNewest(rows: seq<Row>, session: string)
    ensures NewestHash(rows, session, Head(ChainOf(rows, session)))
  {
    if rows != [] {
      var front, row := rows[..|rows| - 1], rows[|rows| - 1];
      HeadIsNewest(front, session);
      assert front + [row] == rows;
      KeepAppend(front, row, InChain(session));
      if row.chain == session {
        assert IsNewest(rows, session, |rows| - 1);
      } else if Head(ChainOf(front, session)).Some? {
        var i :| 0 <= i < |front| && IsNewest(front, session, i) && front[i].eventHash == Head(ChainOf(front, session)).value;
        assert IsNewest(rows, session, i);
      }
    }
  }

  lemma {:induction false} JoinedCons(part: string, rest: seq<string>)
    requires rest != []
    ensures JoinedBy([part] + rest, '|') == part + "|" + JoinedBy(rest, '|')
  {
    assert ([part] + rest)[1..] == rest;
  }

  lemma {:induction false} JoinedFields(chain: string, event: Event, previous: Option<string>)
    ensures Joined(chain, event, previous) == JoinedBy(
      [chain, event.entityType, event.entityId, event.action, event.payload, OrEmpty(previous), event.createdAt], '|')
  {
    hide JoinedBy, OrEmpty;
    var hash, at := OrEmpty(previous), event.createdAt;
    JoinedCons(hash, [at]);
    JoinedCons(event.payload, [hash, at]);
    JoinedCons(event.action, [event.payload, hash, at]);
    JoinedCons(event.entityId, [event.action, event.payload, hash, at]);
    JoinedCons(event.entityType, [event.entityId, event.action, event.payload, hash, at]);
    JoinedCons(chain, [event.entityType, event.entityId, event.action, event.payload, hash, at]);
    assert [hash] + [at] == [hash, at];
    assert [event.payload] + [hash, at] == [event.payload, hash, at];
    assert [event.action] + [event.payload, hash, at] == [event.action, event.payload, hash, at];
    assert [event.entityId] + [event.action, event.payload, hash, at] == [event.entityId, event.action, event.payload, hash, at];
    assert [event.entityType] + [event.entityId, event.action, event.payload, hash, at]
        == [event.entityType, event.entityId, event.action, event.payload, hash, at];
    assert [chain] + [event.entityType, event.entityId, event.action, event.payload, hash, at]
        == [chain, event.entityType, event.entityId, event.action, event.payload, hash, at];
    JoinedOne(at);
    assert event.payload + "|" + (hash + "|" + at) == (event.payload + "|" + hash) + "|" + at;
  }

  lemma {:induction false} JoinedOne(part: string)
    ensures JoinedBy([part], '|') == part
  {
  }

  lemma {:induction false} AppendRecords(hash: string -> string, log: Log, session: string, event: Event)
    ensures Records(hash, log, session, event, Step(hash, log, Append(session, event)))
  {
    hide NewestHash, Joined, JoinedBy;
    HeadIsNewest(log.rows, session);
    JoinedFields(session, event, Head(ChainOf(log.rows, session)));
  }

  // Claiming changes the owner of the rows that have none, and nothing else.
  ghost predicate Claims(before: seq<Row>, account: string, after: seq<Row>) {
    |after| == |before| && forall i :: 0 <= i < |before| ==>
      after[i] == before[i].(owner := if before[i].owner == None || before[i].owner == Some("") then Some(account) else before[i].owner)
  }

  // Retention leaves exactly the rows whose chain has a row that is not older than the cutoff, and each chain as it was.
  ghost predicate Enforces(before: seq<Row>, cutoff: string, unownedElsewhere: bool, after: seq<Row>) {
    if unownedElsewhere || exists row :: row in before && (row.owner == None || row.owner == Some("")) then after == before
    else
      && (forall row :: row in after <==>
            row in before && exists newer :: newer in before && newer.chain == row.chain && !Less(newer.createdAt, cutoff))
      && (forall chain :: ChainOf(after, chain) == ChainOf(before, chain) || ChainOf(after, chain) == [])
  }

  lemma {:induction false} RetentionEnforces(hash: string -> string, log: Log, cutoff: string, unownedElsewhere: bool)
    ensures Enforces(log.rows, cutoff, unownedElsewhere, Step(hash, log, EnforceRetention(cutoff, unownedElsewhere)).rows)
  {
    hide Less, Keep;
    var rows := log.rows;
    if !Blocked(rows, unownedElsewhere) {
      KeepIsSubset(rows, Current(rows, cutoff));
      forall chain
        ensures ChainOf(Retained(rows, cutoff), chain) == ChainOf(rows, chain) || ChainOf(Retained(rows, cutoff), chain) == []
      {
        KeepsCommute(rows, Current(rows, cutoff), InChain(chain));
        KeepIsSubset(rows, InChain(chain));
        KeepAllOrNone(ChainOf(rows, chain), Current(rows, cutoff), !Stale(rows, chain, cutoff));
      }
    }
  }

  lemma {:induction false} ErasureTakesOwn(hash: string -> string, log: Log, account: string)
    ensures forall row :: row in Step(hash, log, EraseAccount(account)).rows <==> row in log.rows && row.owner != Some(account)
  {
    KeepIsSubset(log.rows, NotOwnedBy(account));
  }

  // An account sees the rows it owns, and the unowned rows of its own session.
  lemma {:induction false} VisibleExactly(rows: seq<Row>, account: string)
    ensures forall row :: row in Visible(rows, account) <==>
              row in rows && (row.owner == Some(account) || (row.owner == None && row.chain == account))
  {
    KeepIsSubset(rows, SeenBy(account));
  }

  function EventsOf(rows: seq<Row>): seq<Event> {
    seq(|rows|, i requires 0 <= i < |rows| => EventOf(rows[i]))
  }

  // The events that a run was asked to append under a session.
  function Asked(operations: seq<Operation>, session: string): seq<Event> {
    if operations == [] then []
    else
      var earlier, last := Asked(operations[..|operations| - 1], session), operations[|operations| - 1];
      if last.Append? && last.session == session then earlier + [last.event] else earlier
  }

  // As long as nothing is retired or erased, the chain of a session holds exactly the events appended under it, in order,
  // whatever is appended in between and whatever is claimed.
  lemma {:induction false} ChainHoldsWhatWasAsked(hash: string -> string, start: Log, operations: seq<Operation>, session: string)
    requires forall i :: 0 <= i < |operations| ==> operations[i].Append? || operations[i].ClaimLegacy?
    ensures EventsOf(ChainOf(Run(hash, start, operations).rows, session))
         == EventsOf(ChainOf(start.rows, session)) + Asked(operations, session)
  {
    hide Step, ChainOf, EventsOf;
    if operations != [] {
      var front, last := operations[..|operations| - 1], operations[|operations| - 1];
      ChainHoldsWhatWasAsked(hash, start, front, session);
      var log := Run(hash, start, front);
      match last
      case Append(other, event) => AppendExtendsChain(hash, log, other, event, session);
      case ClaimLegacy(account) => ClaimKeepsEvents(hash, log, account, session);
    }
  }

  lemma {:induction false} AppendExtendsChain(hash: string -> string, log: Log, other: string, event: Event, session: string)
    ensures EventsOf(ChainOf(Step(hash, log, Append(other, event)).rows, session))
         == EventsOf(ChainOf(log.rows, session)) + (if other == session then [event] else [])
  {
    var row := NextRow(hash, log.rows, log.nextId, other, Some(other), event);
    KeepAppend(log.rows, row, InChain(session));
    assert EventOf(row) == event;
  }

  lemma {:induction false} ClaimKeepsEvents(hash: string -> string, log: Log, account: string, session: string)
    ensures EventsOf(ChainOf(Step(hash, log, ClaimLegacy(account)).rows, session)) == EventsOf(ChainOf(log.rows, session))
  {
    ClaimKeepsChain(log.rows, account, session);
  }

  /*** What the verifier computes ***/

  // A stable sort by session: the table is in id order, so this is the order by session and id.
  function Insert(rows: seq<Row>, row: Row): seq<Row> {
    if rows == [] then [row]
    else if Less(row.chain, rows[0].chain) then [row] + rows
    else [rows[0]] + Insert(rows[1..], row)
  }

  function BySession(rows: seq<Row>): seq<Row> {
    if rows == [] then [] else Insert(BySession(rows[..|rows| - 1]), rows[|rows| - 1])
  }

  // A row breaks when it does not carry the hash of the row before it in its chain, or of its own material.
  predicate Breaks(hash: string -> string, rows: seq<Row>, i: nat)
    requires i < |rows|
  {
    var previous := Head(ChainOf(rows[..i], rows[i].chain));
    rows[i].previousHash != previous || rows[i].eventHash != hash(Joined(rows[i].chain, EventOf(rows[i]), previous))
  }

  // Rows are sorted by session: none is followed by a row of a lesser session.
  ghost predicate Sorted(rows: seq<Row>) {
    forall i, j :: 0 <= i < j < |rows| ==> !Less(rows[j].chain, rows[i].chain)
  }

  lemma {:induction false} LaterSessions(rows: seq<Row>, row: Row)
    requires Sorted(rows) && rows != [] && Less(row.chain, rows[0].chain)
    ensures forall other :: other in rows ==> Less(row.chain, other.chain)
  {
    forall i | 0 <= i < |rows|
      ensures Less(row.chain, rows[i].chain)
    {
      LessTotal(rows[0].chain, rows[i].chain);
      if i > 0 && Less(rows[0].chain, rows[i].chain) {
        LessTransitive(row.chain, rows[0].chain, rows[i].chain);
      }
    }
  }

  lemma {:induction false} InsertKeepsRows(rows: seq<Row>, row: Row)
    ensures forall other :: other in Insert(rows, row) <==> other in rows || other == row
  {
    if rows != [] && !Less(row.chain, rows[0].chain) {
      InsertKeepsRows(rows[1..], row);
      assert forall other :: other in rows <==> other == rows[0] || other in rows[1..];
    }
  }

  lemma {:induction false} InsertSorts(rows: seq<Row>, row: Row)
    requires Sorted(rows)
    ensures Sorted(Insert(rows, row))
  {
    if rows != [] {
      if Less(row.chain, rows[0].chain) {
        LaterSessions(rows, row);
        forall other | other in rows
          ensures !Less(other.chain, row.chain)
        {
          LessAsymmetric(row.chain, other.chain);
        }
      } else {
        InsertSorts(rows[1..], row);
        InsertKeepsRows(rows[1..], row);
        assert forall other :: other in rows[1..] ==> !Less(other.chain, rows[0].chain);
      }
    }
  }

  lemma {:induction false} PrependKeep(row: Row, rows: seq<Row>, keep: Row -> bool)
    ensures Keep([row] + rows, keep) == (if keep(row) then [row] else []) + Keep(rows, keep)
  {
    if rows == [] {
      assert [row] + rows == [] + [row];
      KeepAppend([], row, keep);
    } else {
      var last := rows[|rows| - 1];
      PrependKeep(row, rows[..|rows| - 1], keep);
      assert [row] + rows == [row] + rows[..|rows| - 1] + [last];
      KeepAppend([row] + rows[..|rows| - 1], last, keep);
    }
  }

  lemma {:induction false} InsertAppendsToChain(rows: seq<Row>, row: Row, chain: string)
    requires Sorted(rows)
    ensures ChainOf(Insert(rows, row), chain) == ChainOf(rows, chain) + (if row.chain == chain then [row] else [])
  {
    if rows == [] {
      KeepAppend([], row, InChain(chain));
      assert [] + [row] == [row];
    } else if Less(row.chain, rows[0].chain) {
      PrependKeep(row, rows, InChain(chain));
      if row.chain == chain {
        LaterSessions(rows, row);
        LessIrreflexive(chain);
        KeepAllOrNone(rows, InChain(chain), false);
      }
    } else {
      InsertAppendsToChain(rows[1..], row, chain);
      PrependKeep(rows[0], rows[1..], InChain(chain));
      PrependKeep(rows[0], Insert(rows[1..], row), InChain(chain));
      assert rows == [rows[0]] + rows[1..];
    }
  }

  // Sorting by session keeps every chain as it is.
  lemma {:induction false} SortingKeepsChains(rows: seq<Row>, chain: string)
    ensures Sorted(BySession(rows)) && ChainOf(BySession(rows), chain) == ChainOf(rows, chain)
    ensures |BySession(rows)| == |rows|
  {
    if rows != [] {
      var front, row := rows[..|rows| - 1], rows[|rows| - 1];
      SortingKeepsChains(front, chain);
      InsertSorts(BySession(front), row);
      InsertAppendsToChain(BySession(front), row, chain);
      InsertLength(BySession(front), row);
    }
  }

  lemma {:induction false} InsertLength(rows: seq<Row>, row: Row)
    ensures |Insert(rows, row)| == |rows| + 1
  {
    if rows != [] && !Less(row.chain, rows[0].chain) {
      InsertLength(rows[1..], row);
    }
  }

  // Scanning rows of several chains finds no break exactly when every chain is linked.
  lemma {:induction false} NoBreaksMeansLinked(hash: string -> string, rows: seq<Row>)
    ensures (forall i :: 0 <= i < |rows| ==> !Breaks(hash, rows, i)) <==> AllLinked(hash, rows)
  {
    if rows == [] {
      assert forall chain :: ChainOf(rows, chain) == [];
    } else {
      hide Breaks, AllLinked;
      var front, row := rows[..|rows| - 1], rows[|rows| - 1];
      NoBreaksMeansLinked(hash, front);
      assert front + [row] == rows;
      forall i | 0 <= i < |front|
        ensures Breaks(hash, rows, i) == Breaks(hash, front, i)
      {
        BreaksEarlier(hash, front, row, i);
      }
      LastRowLinks(hash, front, row);
      BreaksLast(hash, front, row);
    }
  }

  lemma {:induction false} BreaksEarlier(hash: string -> string, front: seq<Row>, row: Row, i: nat)
    requires i < |front|
    ensures Breaks(hash, front + [row], i) == Breaks(hash, front, i)
  {
    assert (front + [row])[..i] == front[..i];
  }

  lemma {:induction false} BreaksLast(hash: string -> string, front: seq<Row>, row: Row)
    ensures
      var previous := Head(ChainOf(front, row.chain));
      Breaks(hash, front + [row], |front|) <==>
      row.previousHash != previous || row.eventHash != hash(Joined(row.chain, EventOf(row), previous))
  {
    assert (front + [row])[..|front|] == front;
  }

  lemma {:induction false} LinkedAppend(hash: string -> string, chain: seq<Row>, row: Row)
    ensures Linked(hash, chain + [row]) <==>
            Linked(hash, chain) && row.previousHash == Head(chain) && row.eventHash == hash(Material(row))
  {
    var whole := chain + [row];
    assert whole[..|chain|] == chain && whole[|chain|] == row;
    assert forall i :: 0 <= i < |chain| ==> whole[..i] == chain[..i] && whole[i] == chain[i];
  }

  lemma {:induction false} LastRowLinks(hash: string -> string, front: seq<Row>, row: Row)
    ensures
      var previous := Head(ChainOf(front, row.chain));
      AllLinked(hash, front + [row]) <==>
      AllLinked(hash, front) && row.previousHash == previous && row.eventHash == hash(Joined(row.chain, EventOf(row), previous))
  {
    hide Linked;
    var rows := front + [row];
    forall chain
      ensures ChainOf(rows, chain) == ChainOf(front, chain) + (if row.chain == chain then [row] else [])
    {
      KeepAppend(front, row, InChain(chain));
    }
    LinkedAppend(hash, ChainOf(front, row.chain), row);
    if AllLinked(hash, rows) {
      forall chain
        ensures Linked(hash, ChainOf(front, chain))
      {
        assert Linked(hash, ChainOf(rows, chain));
      }
      assert Linked(hash, ChainOf(rows, row.chain));
    }
    if AllLinked(hash, front) {
      assert Linked(hash, ChainOf(front, row.chain));
    }
  }

  /*** The log object ***/

  // `chains` are the newest hashes the scan has collected. The number of chains is left out of a valid report on one chain.
  datatype Verification = Verification(
    valid: bool, eventCount: nat, firstInvalidEventId: Option<nat>, headHash: Option<string>, chainCount: Option<nat>,
    chains: map<string, string>)

  function HeadLine(chain: string, head: string): string {
    chain + ":" + head
  }

  function HeadLines(heads: map<string, string>, chains: seq<string>): seq<string>
    requires forall chain :: chain in chains ==> chain in heads
  {
    seq(|chains|, i requires 0 <= i < |chains| => HeadLine(chains[i], heads[chains[i]]))
  }

  // One chain is represented by its own head, several by the digest of all heads in the order of their sessions.
  ghost function AggregateHead(hash: string -> string, heads: map<string, string>): Option<string> {
    var chains := Text.Sorted(heads.Keys);
    if heads == map[] then None
    else if |chains| == 1 then Some(heads[chains[0]])
    else Some(hash(JoinedBy(HeadLines(heads, chains), '|')))
  }

  function ChainNames(rows: seq<Row>): set<string> {
    set row | row in rows :: row.chain
  }

  class AuditLog {
    const hash: string -> string
    var rows: seq<Row>
    var nextId: nat

    constructor (hash: string -> string)
      ensures this.hash == hash && Log(rows, nextId) == Log([], 1)
    {
      this.hash := hash;
      rows, nextId := [], 1;
    }

    // The newest event hash of a chain.
    method LatestHash(chain: string) returns (previous: Option<string>)
      ensures previous == Head(ChainOf(rows, chain))
    {
      var i := |rows|;
      assert rows[..i] == rows;
      while i > 0 && rows[i - 1].chain != chain
        invariant 0 <= i <= |rows|
        invariant ChainOf(rows, chain) == ChainOf(rows[..i], chain)
      {
        assert rows[..i][..i - 1] == rows[..i - 1];
        i := i - 1;
      }
      if i == 0 {
        return None;
      }
      assert rows[..i][..i - 1] == rows[..i - 1];
      return Some(rows[i - 1].eventHash);
    }

    method AppendAuditEvent(session: string, event: Event)
      modifies this
      ensures Log(rows, nextId) == Step(hash, old(Log(rows, nextId)), Append(session, event))
      ensures Records(hash, old(Log(rows, nextId)), session, event, Log(rows, nextId))
    {
      AppendRecords(hash, Log(rows, nextId), session, event);
      var previous := LatestHash(session);
      var eventHash := hash(Joined(session, event, previous));
      rows := rows + [Row(nextId, session, Some(session), event.entityType, event.entityId, event.action, event.payload,
                          previous, eventHash, event.createdAt)];
      nextId := nextId + 1;
    }

    // Delete the chains whose newest row is older than the cutoff, each as a whole, unless some row is not owned yet.
    method Enforce(cutoff: string, unownedElsewhere: bool)
      modifies this`rows
      ensures Log(rows, nextId) == Step(hash, old(Log(rows, nextId)), EnforceRetention(cutoff, unownedElsewhere))
      ensures Enforces(old(rows), cutoff, unownedElsewhere, rows)
    {
      hide Enforces, Stale;
      RetentionEnforces(hash, Log(rows, nextId), cutoff, unownedElsewhere);
      if Blocked(rows, unownedElsewhere) {
        return;
      }
      var kept: seq<Row> := [];
      var i := 0;
      while i < |rows|
        invariant 0 <= i <= |rows| && rows == old(rows)
        invariant kept == Keep(rows[..i], Current(rows, cutoff))
      {
        KeepAppend(rows[..i], rows[i], Current(rows, cutoff));
        assert rows[..i + 1] == rows[..i] + [rows[i]];
        if !Stale(rows, rows[i].chain, cutoff) {
          kept := kept + [rows[i]];
        }
        i := i + 1;
      }
      assert rows[..i] == rows;
      rows := kept;
    }

    // Give every unowned row to the account; the name of an account is not empty.
    method ClaimLegacyRecords(account: string) returns (claimed: nat)
      modifies this`rows
      ensures Log(rows, nextId) == Step(hash, old(Log(rows, nextId)), ClaimLegacy(account))
      ensures claimed == if account == "" then 0 else |Keep(old(rows), (row: Row) => Unowned(row))|
      ensures if account == "" then rows == old(rows) else Claims(old(rows), account, rows)
    {
      claimed := 0;
      if account == "" {
        return;
      }
      var after: seq<Row> := [];
      for i := 0 to |rows|
        invariant rows == old(rows) && after == Claimed(rows[..i], account)
        invariant claimed == |Keep(rows[..i], (row: Row) => Unowned(row))|
      {
        KeepAppend(rows[..i], rows[i], (row: Row) => Unowned(row));
        assert rows[..i + 1] == rows[..i] + [rows[i]];
        if Unowned(rows[i]) {
          claimed := claimed + 1;
        }
        after := after + [ClaimRow(rows[i], account)];
      }
      assert rows[..|rows|] == rows;
      rows := after;
    }

    // The head that stands for all chains, and their number.
    method CombineHeads(heads: map<string, string>) returns (head: Option<string>, count: nat)
      ensures head == AggregateHead(hash, heads) && count == |heads|
    {
      hide Text.Sorted;
      var names := Text.SortedKeys(heads.Keys);
      SortedCounts(heads.Keys);
      count := |names|;
      if count == 0 {
        return None, 0;
      }
      if count == 1 {
        return Some(heads[names[0]]), 1;
      }
      var lines: seq<string> := [];
      for n := 0 to |names|
        invariant lines == HeadLines(heads, names)[..n]
      {
        lines := lines + [HeadLine(names[n], heads[names[n]])];
      }
      assert lines == HeadLines(heads, names);
      head := Some(hash(JoinedBy(lines, '|')));
    }

    // Recompute every chain the account sees. The scan keeps one previous hash per chain.
    method VerifyAuditChain(account: string) returns (report: Verification)
      ensures Reports(hash, BySession(Visible(rows, account)), report)
      ensures report.valid <==> AllLinked(hash, Visible(rows, account))
      ensures report.eventCount == |Visible(rows, account)|
    {
      SortingKeepsChains(Visible(rows, account), account);
      hide Breaks, AllLinked, Keep;
      var visible := BySession(Visible(rows, account));
      ValidMeansLinked(hash, Visible(rows, account));
      var previousByChain: map<string, string> := map[];
      var i := 0;
      NoHeads(visible);
      while i < |visible|
        invariant 0 <= i <= |visible|
        invariant forall j :: 0 <= j < i ==> !Breaks(hash, visible, j)
        invariant Heads(visible[..i], previousByChain)
      {
        var row := visible[i];
        var previous := if row.chain in previousByChain then Some(previousByChain[row.chain]) else None;
        BreaksExactly(hash, visible, i, previous);
        if row.previousHash != previous || row.eventHash != hash(Joined(row.chain, EventOf(row), previous)) {
          return Verification(false, |visible|, Some(row.id), previous, Some(|ChainNames(visible)|), previousByChain);
        }
        HeadsAfter(visible, i, previousByChain);
        previousByChain := previousByChain[row.chain := row.eventHash];
        i := i + 1;
      }
      assert visible[..i] == visible;
      var head, count := CombineHeads(previousByChain);
      return Verification(true, |visible|, None, head, if count > 1 then Some(count) else None, previousByChain);
    }
  }

  // The newest hash of every chain that has rows.
  ghost predicate Heads(rows: seq<Row>, heads: map<string, string>) {
    forall chain :: Head(ChainOf(rows, chain)) == if chain in heads then Some(heads[chain]) else None
  }

  // Either nothing breaks and the heads are reported, or the first row that breaks is named.
  ghost predicate Reports(hash: string -> string, rows: seq<Row>, report: Verification) {
    && report.eventCount == |rows|
    && if report.valid then
         && report.firstInvalidEventId == None && Heads(rows, report.chains)
         && report.headHash == AggregateHead(hash, report.chains)
         && report.chainCount == (if |report.chains| > 1 then Some(|report.chains|) else None)
         && forall i :: 0 <= i < |rows| ==> !Breaks(hash, rows, i)
       else
         && report.chainCount == Some(|ChainNames(rows)|)
         && (exists i: nat ::
               && i < |rows| && Breaks(hash, rows, i) && report.firstInvalidEventId == Some(rows[i].id)
               && report.headHash == Head(ChainOf(rows[..i], rows[i].chain))
               && forall j :: 0 <= j < i ==> !Breaks(hash, rows, j))
  }

  lemma {:induction false} SortedCounts(keys: set<string>)
    ensures |Text.Sorted(keys)| == |keys|
  {
    var sorted := Text.Sorted(keys);
    if keys != {} {
      SortedCounts(keys - {sorted[0]});
      Text.SortedFirst(keys, []);
    }
  }

  lemma {:induction false} NoHeads(rows: seq<Row>)
    ensures Heads(rows[..0], map[])
  {
  }

  lemma {:induction false} BreaksExactly(hash: string -> string, rows: seq<Row>, i: nat, previous: Option<string>)
    requires i < |rows| && previous == Head(ChainOf(rows[..i], rows[i].chain))
    ensures
      Breaks(hash, rows, i) <==>
      rows[i].previousHash != previous || rows[i].eventHash != hash(Joined(rows[i].chain, EventOf(rows[i]), previous))
  {
  }

  lemma {:induction false} ValidMeansLinked(hash: string -> string, rows: seq<Row>)
    ensures (forall i :: 0 <= i < |BySession(rows)| ==> !Breaks(hash, BySession(rows), i)) <==> AllLinked(hash, rows)
  {
    NoBreaksMeansLinked(hash, BySession(rows));
    SortedIsLinked(hash, rows);
  }

  lemma {:induction false} HeadsAfter(rows: seq<Row>, i: nat, heads: map<string, string>)
    requires i < |rows| && Heads(rows[..i], heads)
    ensures Heads(rows[..i + 1], heads[rows[i].chain := rows[i].eventHash])
  {
    assert rows[..i + 1] == rows[..i] + [rows[i]];
    forall chain
      ensures Head(ChainOf(rows[..i + 1], chain)) ==
              if chain == rows[i].chain then Some(rows[i].eventHash) else Head(ChainOf(rows[..i], chain))
    {
      KeepAppend(rows[..i], rows[i], InChain(chain));
    }
  }

  lemma {:induction false} SortedIsLinked(hash: string -> string, rows: seq<Row>)
    ensures AllLinked(hash, BySession(rows)) <==> AllLinked(hash, rows)
  {
    hide Linked;
    forall chain
      ensures ChainOf(BySession(rows), chain) == ChainOf(rows, chain)
    {
      SortingKeepsChains(rows, chain);
    }
    if AllLinked(hash, BySession(rows)) {
      forall chain
        ensures Linked(hash, ChainOf(rows, chain))
      {
        assert Linked(hash, ChainOf(BySession(rows), chain));
      }
    }
  }

  /*** What a verified chain proves ***/

  // The joined material determines every field, as long as only the payload contains the separator.
  lemma {:induction false} MaterialIsDecodable(a: Row, b: Row)
    requires BarOnlyInPayload(a) && BarOnlyInPayload(b) && NoBar(OrEmpty(a.previousHash)) && NoBar(OrEmpty(b.previousHash))
    requires Material(a) == Material(b)
    ensures a.chain == b.chain && EventOf(a) == EventOf(b) && OrEmpty(a.previousHash) == OrEmpty(b.previousHash)
  {
    hide Free, OrEmpty;
    var endA := (a.payload + "|" + OrEmpty(a.previousHash)) + "|" + a.createdAt;
    var endB := (b.payload + "|" + OrEmpty(b.previousHash)) + "|" + b.createdAt;
    var restA, restB := a.entityId + "|" + (a.action + "|" + endA), b.entityId + "|" + (b.action + "|" + endB);
    SplitAtFirst(a.chain, a.entityType + "|" + restA, b.chain, b.entityType + "|" + restB, '|');
    SplitAtFirst(a.entityType, restA, b.entityType, restB, '|');
    SplitAtFirst(a.entityId, a.action + "|" + endA, b.entityId, b.action + "|" + endB, '|');
    SplitAtFirst(a.action, endA, b.action, endB, '|');
    SplitAtLast(a.payload + "|" + OrEmpty(a.previousHash), a.createdAt, b.payload + "|" + OrEmpty(b.previousHash), b.createdAt, '|');
    SplitAtLast(a.payload, OrEmpty(a.previousHash), b.payload, OrEmpty(b.previousHash), '|');
  }

  // With a separator in an identifier, two different rows have one material, and so one hash.
  lemma {:induction false} MaterialIsAmbiguousOtherwise(row: Row, a: string, b: string)
    ensures
      var first, second := row.(entityId := "x|y", action := "z"), row.(entityId := "x", action := "y|z");
      first != second && Material(first) == Material(second)
  {
    var first, second := row.(entityId := "x|y", action := "z"), row.(entityId := "x", action := "y|z");
    var rest := (row.payload + "|" + OrEmpty(row.previousHash)) + "|" + row.createdAt;
    assert "x|y" + "|" + ("z" + "|" + rest) == "x" + "|" + ("y|z" + "|" + rest);
    assert first.entityId != second.entityId;
  }

  ghost predicate Readable(chain: seq<Row>) {
    forall row :: row in chain ==> BarOnlyInPayload(row)
  }

  // Equal hashes in linked chains come from equal rows with equal predecessors.
  lemma {:induction false} EqualHashesEqualRows(hash: string -> string, a: seq<Row>, i: nat, b: seq<Row>, j: nat)
    requires GoodHash(hash) && Linked(hash, a) && Linked(hash, b) && Readable(a) && Readable(b)
    requires i < |a| && j < |b| && a[i].eventHash == b[j].eventHash
    ensures a[i] == b[j].(id := a[i].id, owner := a[i].owner)
    ensures Head(a[..i]) == Head(b[..j])
  {
    hide Material, BarOnlyInPayload, NoBar;
    assert Material(a[i]) == Material(b[j]);
    HeadIsPlain(hash, a, i);
    HeadIsPlain(hash, b, j);
    MaterialIsDecodable(a[i], b[j]);
  }

  lemma {:induction false} HeadIsPlain(hash: string -> string, chain: seq<Row>, i: nat)
    requires GoodHash(hash) && Linked(hash, chain) && i <= |chain|
    ensures NoBar(OrEmpty(Head(chain[..i]))) && (Head(chain[..i]).Some? ==> OrEmpty(Head(chain[..i])) != "")
  {
  }

  // Two verifying chains with the same head are the same chain, row for row: same length, and every row equal in all its
  // hashed fields and both hashes.
  lemma {:induction false} EqualHeadsMeanEqualChains(hash: string -> string, a: seq<Row>, b: seq<Row>)
    requires GoodHash(hash) && Linked(hash, a) && Linked(hash, b) && Readable(a) && Readable(b)
    requires Head(a) == Head(b)
    ensures |a| == |b| && forall i :: 0 <= i < |a| ==> a[i] == b[i].(id := a[i].id, owner := a[i].owner)
  {
    hide Linked, GoodHash, Readable;
    if a != [] && b != [] {
      var m, n := |a| - 1, |b| - 1;
      EqualHashesEqualRows(hash, a, m, b, n);
      PrefixIsLinked(hash, a, m);
      PrefixIsLinked(hash, b, n);
      PrefixIsReadable(a, m);
      PrefixIsReadable(b, n);
      EqualHeadsMeanEqualChains(hash, a[..m], b[..n]);
    }
  }

  lemma {:induction false} PrefixIsReadable(chain: seq<Row>, n: nat)
    requires Readable(chain) && n <= |chain|
    ensures Readable(chain[..n])
  {
  }

  lemma {:induction false} PrefixIsLinked(hash: string -> string, chain: seq<Row>, n: nat)
    requires Linked(hash, chain) && n <= |chain|
    ensures Linked(hash, chain[..n])
  {
    assert forall i :: 0 <= i < n ==> chain[..n][..i] == chain[..i];
  }

  // The names and hashes of the heads of several chains are determined by their combined digest.
  lemma {:induction false} AggregateDeterminesHeads(hash: string -> string, a: map<string, string>, b: map<string, string>)
    requires GoodHash(hash) && PlainHeads(a) && PlainHeads(b) && |a| > 1 && |b| > 1
    requires AggregateHead(hash, a) == AggregateHead(hash, b)
    ensures a == b
  {
    hide Text.Sorted, JoinedBy, HeadLine, PlainHeads, Free;
    SortedCounts(a.Keys);
    SortedCounts(b.Keys);
    var x, y := Text.Sorted(a.Keys), Text.Sorted(b.Keys);
    LinesHaveNoBar(a, x);
    LinesHaveNoBar(b, y);
    assert JoinedBy(HeadLines(a, x), '|') == JoinedBy(HeadLines(b, y), '|');
    JoinedIsDecodable(HeadLines(a, x), HeadLines(b, y), '|');
    LinesAreDecodable(a, x, b, y);
  }

  lemma {:induction false} LinesAreDecodable(a: map<string, string>, x: seq<string>, b: map<string, string>, y: seq<string>)
    requires PlainHeads(a) && PlainHeads(b)
    requires (forall chain :: chain in x <==> chain in a) && (forall chain :: chain in y <==> chain in b)
    requires HeadLines(a, x) == HeadLines(b, y)
    ensures a == b
  {
    hide NoBar, Free;
    assert |x| == |HeadLines(a, x)| == |HeadLines(b, y)| == |y|;
    forall i | 0 <= i < |x|
      ensures x[i] == y[i] && a[x[i]] == b[y[i]]
    {
      assert HeadLines(a, x)[i] == HeadLines(b, y)[i];
      SplitAtLast(x[i], a[x[i]], y[i], b[y[i]], ':');
    }
    assert x == y;
  }

  // A single chain is represented by its own head, and no chain by none.
  lemma {:induction false} SingleHeadStands(hash: string -> string, heads: map<string, string>, chain: string)
    ensures heads == map[] ==> AggregateHead(hash, heads) == None
    ensures heads.Keys == {chain} ==> AggregateHead(hash, heads) == Some(heads[chain])
  {
    if heads.Keys == {chain} {
      SortedCounts(heads.Keys);
      assert Text.Sorted(heads.Keys)[0] in heads.Keys;
    }
  }

  // No separator in the names, and hashes of hexadecimal digits.
  ghost predicate PlainHeads(heads: map<string, string>) {
    forall chain :: chain in heads ==> NoBar(chain) && NoBar(heads[chain]) && Free(heads[chain], ':')
  }

  lemma {:induction false} LinesHaveNoBar(heads: map<string, string>, chains: seq<string>)
    requires PlainHeads(heads) && forall chain :: chain in chains ==> chain in heads
    ensures forall line :: line in HeadLines(heads, chains) ==> NoBar(line)
  {
  }

  // Two verifying views of several chains with one combined digest hold the same chains, row for row.
  lemma {:induction false} EqualAggregatesMeanEqualChains(
    hash: string -> string, rows: seq<Row>, heads: map<string, string>, rows': seq<Row>, heads': map<string, string>, chain: string)
    requires GoodHash(hash) && AllLinked(hash, rows) && AllLinked(hash, rows') && Readable(rows) && Readable(rows')
    requires Heads(rows, heads) && Heads(rows', heads') && PlainHeads(heads) && PlainHeads(heads') && |heads| > 1 && |heads'| > 1
    requires AggregateHead(hash, heads) == AggregateHead(hash, heads')
    ensures
      var a, b := ChainOf(rows, chain), ChainOf(rows', chain);
      |a| == |b| && forall i :: 0 <= i < |a| ==> a[i] == b[i].(id := a[i].id, owner := a[i].owner)
  {
    hide GoodHash, Linked, AggregateHead, PlainHeads;
    AggregateDeterminesHeads(hash, heads, heads');
    KeepIsSubset(rows, InChain(chain));
    KeepIsSubset(rows', InChain(chain));
    EqualHeadsMeanEqualChains(hash, ChainOf(rows, chain), ChainOf(rows', chain));
  }

  // No hash occurs twice in a chain.
  lemma {:induction false} HashesAreDistinct(hash: string -> string, chain: seq<Row>, i: nat, j: nat)
    requires GoodHash(hash) && Linked(hash, chain) && Readable(chain) && i < j < |chain|
    ensures chain[i].eventHash != chain[j].eventHash
  {
    hide GoodHash, Linked, Readable;
    if chain[i].eventHash == chain[j].eventHash {
      EqualHashesEqualRows(hash, chain, i, chain, j);
      if i > 0 {
        HashesAreDistinct(hash, chain, i - 1, j - 1);
      }
    }
  }

  lemma {:induction false} HeadsAreDistinct(hash: string -> string, chain: seq<Row>, i: nat, j: nat)
    requires GoodHash(hash) && Linked(hash, chain) && Readable(chain) && i <= |chain| && j <= |chain|
    requires Head(chain[..i]) == Head(chain[..j])
    ensures i == j
  {
    hide GoodHash, Linked, Readable;
    if 0 < i < j {
      HashesAreDistinct(hash, chain, i - 1, j - 1);
    } else if 0 < j < i {
      HashesAreDistinct(hash, chain, j - 1, i - 1);
    }
  }

  // However rows of a chain are selected, repeated or rearranged, they verify exactly when they are a prefix of it: only
  // the newest rows can go missing unnoticed, and part of a chain cannot be retired without breaking the rest.
  lemma {:induction false} OnlyPrefixesVerify(hash: string -> string, chain: seq<Row>, rows: seq<Row>)
    requires GoodHash(hash) && Linked(hash, chain) && Readable(chain) && forall row :: row in rows ==> row in chain
    ensures Linked(hash, rows) <==> rows <= chain
  {
    hide GoodHash, Linked, Readable;
    if rows <= chain {
      PrefixIsLinked(hash, chain, |rows|);
      assert chain[..|rows|] == rows;
    }
    if Linked(hash, rows) {
      VerifyingIsPrefix(hash, chain, rows);
    }
  }

  lemma {:induction false} VerifyingIsPrefix(hash: string -> string, chain: seq<Row>, rows: seq<Row>)
    requires GoodHash(hash) && Linked(hash, chain) && Readable(chain) && forall row :: row in rows ==> row in chain
    requires Linked(hash, rows)
    ensures rows <= chain
  {
    hide GoodHash, Linked, Readable;
    if rows != [] {
      var j := |rows| - 1;
      PrefixIsLinked(hash, rows, j);
      assert forall row :: row in rows[..j] ==> row in rows;
      VerifyingIsPrefix(hash, chain, rows[..j]);
      NextOfPrefix(hash, chain, rows, j);
      assert rows == rows[..j] + [rows[j]] && chain[..j + 1] == chain[..j] + [chain[j]];
    }
  }

  lemma {:induction false} NextOfPrefix(hash: string -> string, chain: seq<Row>, rows: seq<Row>, j: nat)
    requires GoodHash(hash) && Linked(hash, chain) && Linked(hash, rows) && Readable(chain)
    requires j < |rows| && rows[..j] <= chain && rows[j] in chain
    ensures j < |chain| && rows[j] == chain[j]
  {
    hide GoodHash, Linked, Readable;
    var m :| 0 <= m < |chain| && chain[m] == rows[j];
    PreviousIsHead(hash, rows, j);
    PreviousIsHead(hash, chain, m);
    assert rows[..j] == chain[..j];
    HeadsAreDistinct(hash, chain, m, j);
  }

  lemma {:induction false} PreviousIsHead(hash: string -> string, chain: seq<Row>, i: nat)
    requires Linked(hash, chain) && i < |chain|
    ensures chain[i].previousHash == Head(chain[..i])
  {
  }

  // An account's chains verify exactly when it sees a prefix of each.
  lemma {:induction false} AccountVerifiesExactlyPrefixes(hash: string -> string, rows: seq<Row>, account: string)
    requires GoodHash(hash) && AllLinked(hash, rows) && Readable(rows)
    ensures AllLinked(hash, Visible(rows, account)) <==>
            forall chain :: ChainOf(Visible(rows, account), chain) <= ChainOf(rows, chain)
  {
    hide Linked, GoodHash, BarOnlyInPayload, SeenBy;
    KeepIsSubset(rows, SeenBy(account));
    forall chain
      ensures Linked(hash, ChainOf(Visible(rows, account), chain)) <==> ChainOf(Visible(rows, account), chain) <= ChainOf(rows, chain)
    {
      KeepIsSubset(rows, InChain(chain));
      KeepIsSubset(Visible(rows, account), InChain(chain));
      assert Linked(hash, ChainOf(rows, chain));
      OnlyPrefixesVerify(hash, ChainOf(rows, chain), ChainOf(Visible(rows, account), chain));
    }
  }

  /*** Every account's chains, over whole runs ***/

  ghost predicate AllVerify(hash: string -> string, rows: seq<Row>) {
    forall account :: AllLinked(hash, Visible(rows, account))
  }

  // Each chain is seen by one account only.
  ghost predicate OneViewer(rows: seq<Row>) {
    forall a, b :: a in rows && b in rows && a.chain == b.chain ==> Viewer(a) == Viewer(b)
  }

  lemma {:induction false} FirstKept(chain: seq<Row>, keep: Row -> bool) returns (i: nat)
    requires Keep(chain, keep) != []
    ensures i < |chain| && keep(chain[i]) && Keep(chain, keep)[0] == chain[i]
  {
    var front := Keep(chain[..|chain| - 1], keep);
    if front == [] {
      i := |chain| - 1;
    } else {
      i := FirstKept(chain[..|chain| - 1], keep);
    }
  }

  // An account that does not see the first row of a chain cannot verify the rest of it.
  lemma {:induction false} MissingFirstRowFails(hash: string -> string, rows: seq<Row>, row: Row)
    requires AllLinked(hash, rows) && row in rows
    requires Viewer(ChainStart(rows, row)) != Viewer(row)
    ensures !AllLinked(hash, Visible(rows, Viewer(row)))
  {
    var account := Viewer(row);
    var whole := ChainOf(rows, row.chain);
    KeepIsSubset(rows, InChain(row.chain));
    KeepIsSubset(whole, SeenBy(account));
    KeepsCommute(rows, InChain(row.chain), SeenBy(account));
    var seen := ChainOf(Visible(rows, account), row.chain);
    assert seen == Keep(whole, SeenBy(account)) && row in seen;
    var i := FirstKept(whole, SeenBy(account));
    assert Linked(hash, whole);
    assert i > 0 && whole[i].previousHash.Some?;
    assert seen[..0] == [];
    assert !Linked(hash, seen);
  }

  function ChainStart(rows: seq<Row>, row: Row): Row
    requires row in rows
  {
    KeepIsSubset(rows, InChain(row.chain));
    ChainOf(rows, row.chain)[0]
  }

  // In a linked log every account verifies exactly when each chain is seen by one account only.
  lemma {:induction false} VerifyExactlyWithOneViewer(hash: string -> string, rows: seq<Row>)
    requires AllLinked(hash, rows)
    ensures AllVerify(hash, rows) <==> OneViewer(rows)
  {
    hide AllLinked, Keep;
    if OneViewer(rows) {
      forall account
        ensures AllLinked(hash, Visible(rows, account))
      {
        WholeChainsKeepLinks(hash, rows, SeenBy(account));
      }
    }
    if AllVerify(hash, rows) {
      forall a, b | a in rows && b in rows && a.chain == b.chain
        ensures Viewer(a) == Viewer(b)
      {
        assert ChainStart(rows, a) == ChainStart(rows, b);
        if Viewer(ChainStart(rows, a)) != Viewer(a) {
          MissingFirstRowFails(hash, rows, a);
        }
        if Viewer(ChainStart(rows, b)) != Viewer(b) {
          MissingFirstRowFails(hash, rows, b);
        }
      }
    }
  }

  // What a claim must not find: a chain that mixes unowned rows with rows of another account, or rows of two accounts.
  ghost predicate Unmixed(rows: seq<Row>, account: string) {
    && (forall a, b :: a in rows && b in rows && a.chain == b.chain && Unowned(a) && !Unowned(b) ==> b.owner == Some(account))
    && (forall a, b :: a in rows && b in rows && a.chain == b.chain && !Unowned(a) && !Unowned(b) ==> a.owner == b.owner)
  }

  lemma {:induction false} ClaimedHasOneViewer(rows: seq<Row>, account: string)
    requires account != ""
    ensures OneViewer(Claimed(rows, account)) <==> Unmixed(rows, account)
  {
    var claimed := Claimed(rows, account);
    if OneViewer(claimed) {
      forall a, b | a in rows && b in rows && a.chain == b.chain
        ensures Viewer(ClaimRow(a, account)) == Viewer(ClaimRow(b, account))
      {
        assert ClaimRow(a, account) in claimed && ClaimRow(b, account) in claimed by {
          ClaimedHas(rows, account, a);
          ClaimedHas(rows, account, b);
        }
      }
    }
    if Unmixed(rows, account) {
      forall a, b | a in claimed && b in claimed && a.chain == b.chain
        ensures Viewer(a) == Viewer(b)
      {
        var i :| 0 <= i < |claimed| && claimed[i] == a;
        var j :| 0 <= j < |claimed| && claimed[j] == b;
        assert rows[i] in rows && rows[j] in rows;
      }
    }
  }

  lemma {:induction false} ClaimedHas(rows: seq<Row>, account: string, row: Row)
    requires row in rows
    ensures ClaimRow(row, account) in Claimed(rows, account)
  {
    var i :| 0 <= i < |rows| && rows[i] == row;
    assert Claimed(rows, account)[i] == ClaimRow(row, account);
  }

  // Claiming the unowned rows of any linked log leaves every account verifying exactly when no chain is mixed before.
  lemma {:induction false} ClaimVerifiesExactlyUnmixed(hash: string -> string, rows: seq<Row>, account: string)
    requires AllLinked(hash, rows) && account != ""
    ensures AllVerify(hash, Claimed(rows, account)) <==> Unmixed(rows, account)
  {
    hide AllLinked, AllVerify, OneViewer, Unmixed;
    ClaimKeepsLinks(hash, rows, account);
    VerifyExactlyWithOneViewer(hash, Claimed(rows, account));
    ClaimedHasOneViewer(rows, account);
  }

  // Rows without an owner were written before accounts existed, so in every chain they come first.
  ghost predicate LegacyFirst(rows: seq<Row>) {
    forall i, j :: 0 <= i < j < |rows| && rows[i].chain == rows[j].chain && Unowned(rows[j]) ==> Unowned(rows[i])
  }

  lemma {:induction false} KeepsLegacyFirst(rows: seq<Row>, keep: Row -> bool)
    requires LegacyFirst(rows)
    ensures LegacyFirst(Keep(rows, keep))
  {
    if rows != [] {
      var front, last := rows[..|rows| - 1], rows[|rows| - 1];
      KeepsLegacyFirst(front, keep);
      KeepIsSubset(front, keep);
      var kept := Keep(front, keep);
      forall i | 0 <= i < |kept| && kept[i].chain == last.chain && Unowned(last)
        ensures Unowned(kept[i])
      {
        assert kept[i] in front;
      }
    }
  }

  lemma {:induction false} KeepPrefix(rows: seq<Row>, keep: Row -> bool)
    requires forall i, j :: 0 <= i < j < |rows| && keep(rows[j]) ==> keep(rows[i])
    ensures Keep(rows, keep) <= rows
  {
    if rows != [] {
      KeepPrefix(rows[..|rows| - 1], keep);
      if keep(rows[|rows| - 1]) {
        KeepAllOrNone(rows[..|rows| - 1], keep, true);
      }
    }
  }

  // Erasing an account retires its chains, except for rows of the same session that were never claimed; those come first.
  lemma {:induction false} EraseKeepsLinks(hash: string -> string, rows: seq<Row>, account: string)
    requires AllLinked(hash, rows) && OneViewer(rows) && LegacyFirst(rows) && account != ""
    ensures AllLinked(hash, Erased(rows, account))
  {
    hide Linked;
    forall chain
      ensures Linked(hash, ChainOf(Erased(rows, account), chain))
    {
      EraseKeepsChain(hash, rows, account, chain);
    }
  }

  lemma {:induction false} EraseKeepsChain(hash: string -> string, rows: seq<Row>, account: string, chain: string)
    requires AllLinked(hash, rows) && OneViewer(rows) && LegacyFirst(rows) && account != ""
    ensures Linked(hash, ChainOf(Erased(rows, account), chain))
  {
    hide Linked, Keep, LegacyFirst;
    var whole := ChainOf(rows, chain);
    assert Linked(hash, whole);
    KeepsCommute(rows, NotOwnedBy(account), InChain(chain));
    KeepIsSubset(rows, InChain(chain));
    KeepsLegacyFirst(rows, InChain(chain));
    ErasedIsPrefix(whole, chain, account);
    var kept := Keep(whole, NotOwnedBy(account));
    PrefixIsLinked(hash, whole, |kept|);
    assert whole[..|kept|] == kept;
  }

  lemma {:induction false} ErasedIsPrefix(whole: seq<Row>, chain: string, account: string)
    requires LegacyFirst(whole) && account != "" && forall row :: row in whole ==> row.chain == chain
    requires OneViewer(whole)
    ensures Keep(whole, NotOwnedBy(account)) <= whole
  {
    forall i, j | 0 <= i < j < |whole| && NotOwnedBy(account)(whole[j])
      ensures NotOwnedBy(account)(whole[i])
    {
      assert whole[i] in whole && whole[j] in whole;
      assert Viewer(whole[i]) == Viewer(whole[j]);
    }
    KeepPrefix(whole, NotOwnedBy(account));
  }

  // A log in which everybody's chains verify, and go on verifying.
  ghost predicate Sound(hash: string -> string, rows: seq<Row>) {
    AllLinked(hash, rows) && OneViewer(rows) && LegacyFirst(rows)
  }

  // What can be checked before an operation: a session continues only a chain that it sees, and a claim finds no mixed
  // chain.
  ghost predicate Safe(rows: seq<Row>, operation: Operation) {
    match operation
    case Append(session, _) => forall row :: row in rows && row.chain == session ==> Viewer(row) == session
    case ClaimLegacy(account) => account == "" || Unmixed(rows, account)
    case _ => true
  }

  predicate Named(operation: Operation) {
    match operation
    case Append(session, _) => session != ""
    case EraseAccount(account) => account != ""
    case _ => true
  }

  lemma {:induction false} SafeStepIsSound(hash: string -> string, log: Log, operation: Operation)
    requires Sound(hash, log.rows) && Named(operation) && Safe(log.rows, operation)
    ensures Sound(hash, Step(hash, log, operation).rows)
  {
    hide AllLinked;
    match operation
    case Append(session, event) => AppendKeepsLinks(hash, log.rows, log.nextId, session, Some(session), event);
    case EnforceRetention(cutoff, _) =>
      RetentionKeepsLinks(hash, log.rows, cutoff);
      KeepIsSubset(log.rows, Current(log.rows, cutoff));
      KeepsLegacyFirst(log.rows, Current(log.rows, cutoff));
    case ClaimLegacy(account) =>
      ClaimKeepsLinks(hash, log.rows, account);
      if account != "" {
        ClaimedHasOneViewer(log.rows, account);
      }
    case EraseAccount(account) =>
      EraseKeepsLinks(hash, log.rows, account);
      KeepIsSubset(log.rows, NotOwnedBy(account));
      KeepsLegacyFirst(log.rows, NotOwnedBy(account));
  }

  lemma {:induction false} UnsafeStepFails(hash: string -> string, log: Log, operation: Operation)
    requires AllLinked(hash, log.rows) && Named(operation) && !Safe(log.rows, operation)
    ensures !AllVerify(hash, Step(hash, log, operation).rows)
  {
    hide AllLinked, AllVerify, Unmixed;
    match operation
    case Append(session, event) =>
      AppendKeepsLinks(hash, log.rows, log.nextId, session, Some(session), event);
      var rows := Step(hash, log, operation).rows;
      var row :| row in log.rows && row.chain == session && Viewer(row) != session;
      assert row in rows && rows[|log.rows|] in rows && Viewer(rows[|log.rows|]) == session;
      VerifyExactlyWithOneViewer(hash, rows);
    case ClaimLegacy(account) => ClaimVerifiesExactlyUnmixed(hash, log.rows, account);
  }

  ghost predicate SafeRun(hash: string -> string, start: Log, operations: seq<Operation>) {
    forall k :: 0 <= k < |operations| ==> Safe(Run(hash, start, operations[..k]).rows, operations[k])
  }

  ghost predicate AlwaysVerifies(hash: string -> string, start: Log, operations: seq<Operation>) {
    forall k :: 0 <= k <= |operations| ==> AllVerify(hash, Run(hash, start, operations[..k]).rows)
  }

  lemma {:induction false} SafeRunNext(hash: string -> string, start: Log, operations: seq<Operation>)
    requires operations != []
    ensures
      var front, last := operations[..|operations| - 1], operations[|operations| - 1];
      SafeRun(hash, start, operations) <==> SafeRun(hash, start, front) && Safe(Run(hash, start, front).rows, last)
  {
    hide Run, Safe;
    var front := operations[..|operations| - 1];
    assert forall k :: 0 <= k < |front| ==> front[..k] == operations[..k] && front[k] == operations[k];
  }

  lemma {:induction false} AlwaysVerifiesNext(hash: string -> string, start: Log, operations: seq<Operation>)
    requires operations != []
    ensures
      var front := operations[..|operations| - 1];
      AlwaysVerifies(hash, start, operations) <==>
      AlwaysVerifies(hash, start, front) && AllVerify(hash, Run(hash, start, operations).rows)
  {
    hide Run, AllVerify;
    var front := operations[..|operations| - 1];
    assert forall k :: 0 <= k <= |front| ==> front[..k] == operations[..k];
    assert operations[..|operations|] == operations;
  }

  lemma {:induction false} SafeRunIsSound(hash: string -> string, start: Log, operations: seq<Operation>)
    requires Sound(hash, start.rows) && (forall i :: 0 <= i < |operations| ==> Named(operations[i]))
    requires SafeRun(hash, start, operations)
    ensures Sound(hash, Run(hash, start, operations).rows)
  {
    if operations != [] {
      hide Sound, Safe, Step, SafeRun;
      SafeRunNext(hash, start, operations);
      SafeRunIsSound(hash, start, operations[..|operations| - 1]);
      SafeStepIsSound(hash, Run(hash, start, operations[..|operations| - 1]), operations[|operations| - 1]);
    }
  }

  // Over every run from every linked log, with rows of any owner and rows without one, whatever is appended over however
  // many sessions, retired by age, claimed or erased: every account verifies in every state exactly when each chain has
  // one viewer at the start and every append and claim is safe.
  lemma {:induction false} EveryRunVerifies(hash: string -> string, start: Log, operations: seq<Operation>)
    requires AllLinked(hash, start.rows) && LegacyFirst(start.rows)
    requires forall i :: 0 <= i < |operations| ==> Named(operations[i])
    ensures AlwaysVerifies(hash, start, operations) <==> OneViewer(start.rows) && SafeRun(hash, start, operations)
  {
    hide AllLinked, LegacyFirst, OneViewer, Step, Safe;
    if operations == [] {
      VerifyExactlyWithOneViewer(hash, start.rows);
      hide AllVerify;
      assert operations[..0] == operations;
    } else {
      hide AllVerify, AlwaysVerifies, SafeRun;
      var front, last := operations[..|operations| - 1], operations[|operations| - 1];
      EveryRunVerifies(hash, start, front);
      SafeRunNext(hash, start, operations);
      AlwaysVerifiesNext(hash, start, operations);
      if OneViewer(start.rows) && SafeRun(hash, start, front) {
        SafeRunIsSound(hash, start, front);
        var log := Run(hash, start, front);
        if Safe(log.rows, last) {
          SafeStepIsSound(hash, log, last);
          VerifyExactlyWithOneViewer(hash, Step(hash, log, last).rows);
        } else {
          UnsafeStepFails(hash, log, last);
        }
      }
    }
  }

  ghost predicate AllOwned(rows: seq<Row>) {
    forall row :: row in rows ==> row.owner == Some(row.chain) && row.chain != ""
  }

  lemma {:induction false} OwnedStepIsSafe(hash: string -> string, log: Log, operation: Operation)
    requires AllOwned(log.rows) && Named(operation)
    ensures Safe(log.rows, operation) && AllOwned(Step(hash, log, operation).rows)
  {
    match operation
    case Append(_, _) =>
    case EnforceRetention(cutoff, _) => KeepIsSubset(log.rows, Current(log.rows, cutoff));
    case ClaimLegacy(account) =>
    case EraseAccount(account) => KeepIsSubset(log.rows, NotOwnedBy(account));
  }

  // Without rows from before accounts existed, nothing a run does is unsafe.
  lemma {:induction false} FreshRunsAreSafe(hash: string -> string, operations: seq<Operation>)
    requires forall i :: 0 <= i < |operations| ==> Named(operations[i])
    ensures SafeRun(hash, Log([], 1), operations) && AllOwned(Run(hash, Log([], 1), operations).rows)
  {
    if operations != [] {
      hide AllOwned, Safe, Step, SafeRun;
      SafeRunNext(hash, Log([], 1), operations);
      FreshRunsAreSafe(hash, operations[..|operations| - 1]);
      OwnedStepIsSafe(hash, Run(hash, Log([], 1), operations[..|operations| - 1]), operations[|operations| - 1]);
    }
  }

  // A chain begun before accounts existed.
  function LegacyLog(hash: string -> string, session: string, old': Event): Log {
    Log([NextRow(hash, [], 1, session, None, old')], 2)
  }

  lemma {:induction false} LegacyLogIsSound(hash: string -> string, session: string, old': Event)
    ensures Sound(hash, LegacyLog(hash, session, old').rows)
  {
    assert AllLinked(hash, []) by {
      assert forall chain :: Linked(hash, ChainOf([], chain));
    }
    AppendKeepsLinks(hash, [], 1, session, None, old');
    assert [] + LegacyLog(hash, session, old').rows == LegacyLog(hash, session, old').rows;
  }

  // Two runs from a legacy log after which some account no longer verifies: the session continues its chain and another
  // account claims the beginning, or the claim comes first and the session continues afterwards.
  lemma {:induction false} ClaimingPartOfAChainBreaksIt(
    hash: string -> string, session: string, account: string, old': Event, recent: Event)
    requires account != session && account != "" && session != ""
    ensures
      var start := LegacyLog(hash, session, old');
      && AllVerify(hash, Run(hash, start, [Append(session, recent)]).rows)
      && !AllVerify(hash, Run(hash, start, [Append(session, recent), ClaimLegacy(account)]).rows)
      && AllVerify(hash, Run(hash, start, [ClaimLegacy(account)]).rows)
      && !AllVerify(hash, Run(hash, start, [ClaimLegacy(account), Append(session, recent)]).rows)
  {
    hide AllVerify, AllLinked, Keep, NextRow;
    var start := LegacyLog(hash, session, old');
    LegacyLogIsSound(hash, session, old');
    var append, claim := Append(session, recent), ClaimLegacy(account);
    LegacyRow(hash, session, old');
    RunOne(hash, start, append);
    RunOne(hash, start, claim);
    RunTwo(hash, start, append, claim);
    RunTwo(hash, start, claim, append);
    SafeStepIsSound(hash, start, append);
    SafeStepIsSound(hash, start, claim);
    VerifyExactlyWithOneViewer(hash, Step(hash, start, append).rows);
    VerifyExactlyWithOneViewer(hash, Step(hash, start, claim).rows);
    UnsafeAfterAppend(hash, session, account, old', recent);
    UnsafeAfterClaim(hash, session, account, old', recent);
    UnsafeStepFails(hash, Step(hash, start, append), claim);
    UnsafeStepFails(hash, Step(hash, start, claim), append);
  }

  lemma {:induction false} LegacyRow(hash: string -> string, session: string, old': Event)
    ensures
      var rows := LegacyLog(hash, session, old').rows;
      |rows| == 1 && rows[0].chain == session && rows[0].owner == None
  {
  }

  lemma {:induction false} RunOne(hash: string -> string, start: Log, a: Operation)
    ensures Run(hash, start, [a]) == Step(hash, start, a)
  {
    assert [a][..0] == [];
    assert Run(hash, start, []) == start;
  }

  lemma {:induction false} RunTwo(hash: string -> string, start: Log, a: Operation, b: Operation)
    ensures Run(hash, start, [a, b]) == Step(hash, Step(hash, start, a), b)
  {
    assert [a, b][..1] == [a];
    RunOne(hash, start, a);
  }

  lemma {:induction false} UnsafeAfterAppend(hash: string -> string, session: string, account: string, old': Event, recent: Event)
    requires account != session && account != "" && session != ""
    ensures !Safe(Step(hash, LegacyLog(hash, session, old'), Append(session, recent)).rows, ClaimLegacy(account))
  {
    hide Keep;
    var rows := Step(hash, LegacyLog(hash, session, old'), Append(session, recent)).rows;
    assert rows[0] in rows && rows[1] in rows;
    assert Unowned(rows[0]) && rows[1].owner == Some(session);
  }

  lemma {:induction false} UnsafeAfterClaim(hash: string -> string, session: string, account: string, old': Event, recent: Event)
    requires account != session && account != "" && session != ""
    ensures !Safe(Step(hash, LegacyLog(hash, session, old'), ClaimLegacy(account)).rows, Append(session, recent))
  {
    hide Keep;
    var rows := Step(hash, LegacyLog(hash, session, old'), ClaimLegacy(account)).rows;
    assert rows[0] in rows && Viewer(rows[0]) == account;
  }
}
