// The sliding-window limiter: pruned in-memory buckets and a pruned table stand for the full admission history.

module RateLimiter {
  import opened Json

  datatype Rule = Rule(key: string, limit: int, windowSeconds: real, protected: bool)

  datatype Row = Row(bucketHash: Digest<string>, occurredAt: real, expiresAt: real)

  // `order` lists the keys of `buckets` as the dictionary iterates over them.
  datatype Limiter = Limiter(order: seq<string>, buckets: map<string, seq<real>>, protectedKeys: set<string>, store: seq<Row>)

  datatype Config = Config(maxBuckets: nat, persistent: bool)

  // EmptyBucketError: a limit below one reads the head of an empty bucket. EvictionError: see BoundMemory.
  datatype Outcome = Admitted | Exceeded(retryAfter: int) | EmptyBucketError | EvictionError

  /*** Specification of one check ***/

  function Bucket(s: Limiter, key: string): seq<real> {
    if key in s.buckets then s.buckets[key] else []
  }

  function Prune(bucket: seq<real>, cutoff: real): seq<real> {
    if bucket == [] || bucket[0] > cutoff then bucket else Prune(bucket[1..], cutoff)
  }

  function Ceil(x: real): int {
    -((-x).Floor)
  }

  function RetryAfter(window: real, now: real, oldest: real): int {
    var wait := Ceil(window - (now - oldest));
    if wait < 1 then 1 else wait
  }

  // Looking a bucket up creates it, remembers protection, and prunes it: all of that outlives a rejection.
  function Touch(s: Limiter, rule: Rule, now: real): Limiter {
    s.(order := if rule.key in s.buckets then s.order else s.order + [rule.key],
       buckets := s.buckets[rule.key := Prune(Bucket(s, rule.key), now - rule.windowSeconds)],
       protectedKeys := if rule.protected then s.protectedKeys + {rule.key} else s.protectedKeys)
  }

  function Verdict(bucket: seq<real>, rule: Rule, now: real): Outcome {
    if |bucket| < rule.limit then Admitted
    else if bucket == [] then EmptyBucketError
    else Exceeded(RetryAfter(rule.windowSeconds, now, bucket[0]))
  }

  function MemoryPass(s: Limiter, rules: seq<Rule>, now: real): (Limiter, Outcome)
    decreases |rules|
  {
    if rules == [] then (s, Admitted)
    else
      var touched := Touch(s, rules[0], now);
      var verdict := Verdict(touched.buckets[rules[0].key], rules[0], now);
      if verdict != Admitted then (touched, verdict) else MemoryPass(touched, rules[1..], now)
  }

  // The occurrence times of a bucket's rows after the cutoff, in insertion order.
  function Counted(rows: seq<Row>, hash: Digest<string>, cutoff: real): seq<real> {
    if rows == [] then []
    else
      var rest := Counted(rows[1..], hash, cutoff);
      if rows[0].bucketHash == hash && rows[0].occurredAt > cutoff then [rows[0].occurredAt] + rest else rest
  }

  function Unexpired(rows: seq<Row>, now: real): seq<Row> {
    if rows == [] then []
    else if rows[0].expiresAt <= now then Unexpired(rows[1..], now)
    else [rows[0]] + Unexpired(rows[1..], now)
  }

  function Minimum(times: seq<real>): real
    requires times != []
  {
    if |times| == 1 then times[0]
    else var rest := Minimum(times[1..]); if times[0] < rest then times[0] else rest
  }

  function StoreVerdict(times: seq<real>, rule: Rule, now: real): Outcome {
    if |times| < rule.limit then Admitted
    else Exceeded(RetryAfter(rule.windowSeconds, now, if times == [] then now else Minimum(times)))
  }

  function StorePass(rows: seq<Row>, rules: seq<Rule>, now: real): Outcome {
    if rules == [] then Admitted
    else
      var verdict := StoreVerdict(Counted(rows, Sha256(rules[0].key), now - rules[0].windowSeconds), rules[0], now);
      if verdict != Admitted then verdict else StorePass(rows, rules[1..], now)
  }

  function Charge(s: Limiter, rules: seq<Rule>, now: real): Limiter
    decreases |rules|
  {
    if rules == [] then s
    else
      Charge(s.(buckets := s.buckets[rules[0].key := Bucket(s, rules[0].key) + [now]]), rules[1..], now)
  }

  function RowsFor(rules: seq<Rule>, now: real): seq<Row> {
    if rules == [] then [] else [Row(Sha256(rules[0].key), now, now + rules[0].windowSeconds)] + RowsFor(rules[1..], now)
  }

  function Select(rules: seq<Rule>, durable: bool, persistent: bool): seq<Rule> {
    if rules == [] then []
    else
      var rest := Select(rules[1..], durable, persistent);
      if (rules[0].protected && persistent) == durable then [rules[0]] + rest else rest
  }

  // The table is only touched when a durable rule applies, and a rejection rolls the transaction back.
  function Decide(config: Config, s: Limiter, rules: seq<Rule>, now: real, storeNow: real): (Limiter, Outcome) {
    var memory, durable := Select(rules, false, config.persistent), Select(rules, true, config.persistent);
    var (touched, verdict) := MemoryPass(s, memory, now);
    if verdict != Admitted then (touched, verdict)
    else
      var rows := if durable == [] then s.store else Unexpired(s.store, storeNow);
      var stored := StorePass(rows, durable, storeNow);
      if stored != Admitted then (touched, stored)
      else (Charge(touched, memory, now).(store := rows + RowsFor(durable, storeNow)), Admitted)
  }

  function Checked(config: Config, s: Limiter, rules: seq<Rule>, now: real, storeNow: real): (Limiter, Outcome) {
    var (decided, outcome) := Decide(config, s, rules, now, storeNow);
    if outcome != Admitted then (decided, outcome)
    else
      var (bounded, raised) := BoundMemory(config, decided);
      (bounded, if raised then EvictionError else Admitted)
  }

  /*** Bounding the memory ***/

  predicate Droppable(s: Limiter, key: string) {
    Bucket(s, key) == [] && key !in s.protectedKeys
  }

  function Retained(s: Limiter, order: seq<string>): seq<string> {
    if order == [] then []
    else if Droppable(s, order[0]) then Retained(s, order[1..])
    else [order[0]] + Retained(s, order[1..])
  }

  function Restrict(s: Limiter, order: seq<string>): Limiter {
    s.(order := order, buckets := map key | key in s.buckets && key in order :: s.buckets[key])
  }

  // The limiter without its empty, unprotected buckets.
  function Packed(s: Limiter): Limiter {
    Restrict(s, Retained(s, s.order))
  }

  function Evict(s: Limiter, i: nat): Limiter
    requires i < |s.order|
  {
    Restrict(s, s.order[..i] + s.order[i + 1..])
  }

  // The index of the first key that may be evicted, or the length when every key is protected.
  function FirstEvictable(order: seq<string>, protectedKeys: set<string>): (first: nat)
    ensures first <= |order|
  {
    if order == [] || order[0] !in protectedKeys then 0 else 1 + FirstEvictable(order[1..], protectedKeys)
  }

  // Over the limit, empty buckets go first; then the keys are drawn from a live iterator over the dictionary. Popping a
  // key invalidates that iterator, so a second draw in the same call raises.
  function BoundMemory(config: Config, s: Limiter): (Limiter, bool) {
    if |s.buckets| <= config.maxBuckets then (s, false)
    else
      var kept := Packed(s);
      var first := FirstEvictable(kept.order, kept.protectedKeys);
      if |kept.buckets| <= config.maxBuckets || first >= |kept.order| then (kept, false)
      else
        var evicted := Evict(kept, first);
        (evicted, |evicted.buckets| > config.maxBuckets)
  }

  /*** The full history that the pruned buckets stand for ***/

  // Every charge ever made to a bucket, in memory since the bucket was last evicted, and in the table.
  datatype History = History(memory: map<string, seq<real>>, durable: map<string, seq<real>>)

  function Times(m: map<string, seq<real>>, key: string): seq<real> {
    if key in m then m[key] else []
  }

  // The events after the cutoff.
  function Live(times: seq<real>, cutoff: real): seq<real> {
    if times == [] then []
    else if times[0] > cutoff then [times[0]] + Live(times[1..], cutoff)
    else Live(times[1..], cutoff)
  }

  // The same decision, made by counting all admitted events in the window that ends now.
  function Judge(times: seq<real>, rule: Rule, now: real): Outcome {
    Verdict(Live(times, now - rule.windowSeconds), rule, now)
  }

  function JudgeAll(history: map<string, seq<real>>, rules: seq<Rule>, now: real): Outcome {
    if rules == [] then Admitted
    else
      var verdict := Judge(Times(history, rules[0].key), rules[0], now);
      if verdict != Admitted then verdict else JudgeAll(history, rules[1..], now)
  }

  function JudgeStored(history: map<string, seq<real>>, rules: seq<Rule>, now: real): Outcome {
    if rules == [] then Admitted
    else
      var verdict := StoreVerdict(Live(Times(history, rules[0].key), now - rules[0].windowSeconds), rules[0], now);
      if verdict != Admitted then verdict else JudgeStored(history, rules[1..], now)
  }

  function Add(history: map<string, seq<real>>, rules: seq<Rule>, now: real): map<string, seq<real>>
    decreases |rules|
  {
    if rules == [] then history
    else Add(history[rules[0].key := Times(history, rules[0].key) + [now]], rules[1..], now)
  }

  // One check against the full history: all rules pass and all are charged, or none is charged.
  function HistoryDecide(config: Config, h: History, rules: seq<Rule>, now: real, storeNow: real): (History, Outcome) {
    var memory, durable := Select(rules, false, config.persistent), Select(rules, true, config.persistent);
    var verdict := JudgeAll(h.memory, memory, now);
    var stored := JudgeStored(h.durable, durable, storeNow);
    if verdict != Admitted then (h, verdict)
    else if stored != Admitted then (h, stored)
    else (History(Add(h.memory, memory, now), Add(h.durable, durable, storeNow)), Admitted)
  }

  // An eviction forgets the history of a bucket that still held events.
  function Forget(h: History, before: Limiter, after: Limiter): History {
    h.(memory := map key | key in h.memory && (Bucket(before, key) == [] || key in after.buckets) :: h.memory[key])
  }

  ghost predicate Ascending(times: seq<real>, clock: real) {
    && (forall i, j :: 0 <= i < j < |times| ==> times[i] <= times[j])
    && (forall i :: 0 <= i < |times| ==> times[i] <= clock)
  }

  // A bucket agrees with its history on every window that can still be asked about.
  ghost predicate SameWindows(bucket: seq<real>, times: seq<real>, window: real, clock: real) {
    forall cutoff :: cutoff >= clock - window ==> Live(bucket, cutoff) == Live(times, cutoff)
  }

  ghost predicate BucketRelated(bucket: seq<real>, times: seq<real>, window: real, clock: real) {
    Ascending(bucket, clock) && Ascending(times, clock) && SameWindows(bucket, times, window, clock)
  }

  ghost predicate MemoryRelated(s: Limiter, history: map<string, seq<real>>, windows: string -> real, clock: real) {
    forall key :: BucketRelated(Bucket(s, key), Times(history, key), windows(key), clock)
  }

  // Every row expires one window of its key after it occurred.
  ghost predicate RowsOk(rows: seq<Row>, windows: string -> real) {
    forall row :: row in rows ==> row.expiresAt == row.occurredAt + windows(row.bucketHash.preimage)
  }

  ghost predicate RowsRelated(rows: seq<Row>, times: seq<real>, key: string, window: real, clock: real) {
    && Ascending(times, clock)
    && forall cutoff :: cutoff >= clock - window ==> Counted(rows, Sha256(key), cutoff) == Live(times, cutoff)
  }

  ghost predicate StoreRelated(rows: seq<Row>, history: map<string, seq<real>>, windows: string -> real, clock: real) {
    RowsOk(rows, windows) && forall key :: RowsRelated(rows, Times(history, key), key, windows(key), clock)
  }

  // The keys of `buckets`, each once, in dictionary order.
  ghost predicate OrderInv(s: Limiter) {
    && (forall i, j :: 0 <= i < j < |s.order| ==> s.order[i] != s.order[j])
    && (forall key :: key in s.order <==> key in s.buckets)
  }

  ghost predicate Windowed(rules: seq<Rule>, windows: string -> real) {
    forall i :: 0 <= i < |rules| ==> rules[i].windowSeconds == windows(rules[i].key)
  }

  /*** Pruning loses nothing that can still be counted ***/

  lemma {:induction false} PruneIsLive(bucket: seq<real>, cutoff: real, clock: real)
    requires Ascending(bucket, clock)
    ensures Prune(bucket, cutoff) == Live(bucket, cutoff)
    ensures Ascending(Prune(bucket, cutoff), clock)
  {
    if bucket != [] {
      if bucket[0] > cutoff {
        LiveAll(bucket, cutoff);
      } else {
        PruneIsLive(bucket[1..], cutoff, clock);
      }
    }
  }

  lemma {:induction false} LiveAll(times: seq<real>, cutoff: real)
    requires forall i :: 0 <= i < |times| ==> times[i] > cutoff
    ensures Live(times, cutoff) == times
  {
    if times != [] {
      LiveAll(times[1..], cutoff);
      assert times == [times[0]] + times[1..];
    }
  }

  lemma {:induction false} LiveNone(times: seq<real>, cutoff: real)
    requires forall i :: 0 <= i < |times| ==> times[i] <= cutoff
    ensures Live(times, cutoff) == []
  {
    if times != [] {
      LiveNone(times[1..], cutoff);
    }
  }

  lemma {:induction false} LiveTwice(times: seq<real>, earlier: real, later: real)
    requires earlier <= later
    ensures Live(Live(times, earlier), later) == Live(times, later)
  {
    if times != [] {
      LiveTwice(times[1..], earlier, later);
      if times[0] > earlier {
        assert Live(times, earlier)[1..] == Live(times[1..], earlier);
      }
    }
  }

  lemma {:induction false} LiveAppend(times: seq<real>, now: real, cutoff: real)
    ensures Live(times + [now], cutoff) == Live(times, cutoff) + (if now > cutoff then [now] else [])
  {
    if times == [] {
      assert times + [now] == [now];
      assert Live([now], cutoff) == (if now > cutoff then [now] else []);
    } else {
      assert (times + [now])[1..] == times[1..] + [now];
      LiveAppend(times[1..], now, cutoff);
    }
  }

  lemma {:induction false} PruneKeepsRelation(bucket: seq<real>, times: seq<real>, window: real, clock: real)
    requires BucketRelated(bucket, times, window, clock)
    ensures BucketRelated(Prune(bucket, clock - window), times, window, clock)
    ensures Prune(bucket, clock - window) == Live(times, clock - window)
  {
    PruneIsLive(bucket, clock - window, clock);
    forall later | later >= clock - window
      ensures Live(Prune(bucket, clock - window), later) == Live(times, later)
    {
      LiveTwice(bucket, clock - window, later);
    }
  }

  lemma {:induction false} TouchKeepsRelation(
    s: Limiter, history: map<string, seq<real>>, windows: string -> real, rule: Rule, clock: real)
    requires MemoryRelated(s, history, windows, clock) && rule.windowSeconds == windows(rule.key)
    ensures MemoryRelated(Touch(s, rule, clock), history, windows, clock)
    ensures Touch(s, rule, clock).buckets[rule.key] == Live(Times(history, rule.key), clock - rule.windowSeconds)
  {
    hide BucketRelated, Prune, Live;
    assert BucketRelated(Bucket(s, rule.key), Times(history, rule.key), windows(rule.key), clock);
    PruneKeepsRelation(Bucket(s, rule.key), Times(history, rule.key), rule.windowSeconds, clock);
    var touched := Touch(s, rule, clock);
    forall key
      ensures BucketRelated(Bucket(touched, key), Times(history, key), windows(key), clock)
    {
      assert BucketRelated(Bucket(s, key), Times(history, key), windows(key), clock);
    }
  }

  lemma {:induction false} PassUnfolds(s: Limiter, rules: seq<Rule>, now: real)
    requires rules != []
    ensures
      var touched := Touch(s, rules[0], now);
      var verdict := Verdict(touched.buckets[rules[0].key], rules[0], now);
      MemoryPass(s, rules, now) == if verdict != Admitted then (touched, verdict) else MemoryPass(touched, rules[1..], now)
  {
    hide Verdict;
  }

  lemma {:induction false} JudgeUnfolds(history: map<string, seq<real>>, rules: seq<Rule>, now: real)
    requires rules != []
    ensures
      var verdict := Verdict(Live(Times(history, rules[0].key), now - rules[0].windowSeconds), rules[0], now);
      JudgeAll(history, rules, now) == if verdict != Admitted then verdict else JudgeAll(history, rules[1..], now)
  {
    hide Verdict, Live;
  }

  lemma {:induction false} MemoryPassRefines(
    s: Limiter, history: map<string, seq<real>>, windows: string -> real, rules: seq<Rule>, clock: real)
    requires MemoryRelated(s, history, windows, clock) && Windowed(rules, windows)
    ensures MemoryRelated(MemoryPass(s, rules, clock).0, history, windows, clock)
    ensures MemoryPass(s, rules, clock).1 == JudgeAll(history, rules, clock)
    decreases |rules|
  {
    if rules != [] {
      hide MemoryRelated, Touch, Live, Verdict, Windowed;
      TailIsWindowed(rules, windows);
      HeadIsWindowed(rules, windows);
      TouchKeepsRelation(s, history, windows, rules[0], clock);
      PassUnfolds(s, rules, clock);
      JudgeUnfolds(history, rules, clock);
      hide MemoryPass, JudgeAll;
      MemoryPassRefines(Touch(s, rules[0], clock), history, windows, rules[1..], clock);
    }
  }

  lemma {:induction false} StorePassRefines(
    rows: seq<Row>, history: map<string, seq<real>>, windows: string -> real, rules: seq<Rule>, clock: real)
    requires StoreRelated(rows, history, windows, clock) && Windowed(rules, windows)
    ensures StorePass(rows, rules, clock) == JudgeStored(history, rules, clock)
  {
    if rules != [] {
      assert RowsRelated(rows, Times(history, rules[0].key), rules[0].key, windows(rules[0].key), clock);
      StorePassRefines(rows, history, windows, rules[1..], clock);
    }
  }

  lemma {:induction false} PurgeKeepsCounts(rows: seq<Row>, windows: string -> real, clock: real, key: string, cutoff: real)
    requires RowsOk(rows, windows) && cutoff >= clock - windows(key)
    ensures Counted(Unexpired(rows, clock), Sha256(key), cutoff) == Counted(rows, Sha256(key), cutoff)
  {
    if rows != [] {
      PurgeKeepsCounts(rows[1..], windows, clock, key, cutoff);
    }
  }

  lemma {:induction false} UnexpiredAreRows(rows: seq<Row>, clock: real)
    ensures forall row :: row in Unexpired(rows, clock) ==> row in rows
  {
    if rows != [] {
      UnexpiredAreRows(rows[1..], clock);
    }
  }

  lemma {:induction false} PurgeKeepsRelation(
    rows: seq<Row>, history: map<string, seq<real>>, windows: string -> real, clock: real)
    requires StoreRelated(rows, history, windows, clock)
    ensures StoreRelated(Unexpired(rows, clock), history, windows, clock)
  {
    UnexpiredAreRows(rows, clock);
    forall key
      ensures RowsRelated(Unexpired(rows, clock), Times(history, key), key, windows(key), clock)
    {
      assert RowsRelated(rows, Times(history, key), key, windows(key), clock);
      forall cutoff | cutoff >= clock - windows(key)
        ensures Counted(Unexpired(rows, clock), Sha256(key), cutoff) == Live(Times(history, key), cutoff)
      {
        PurgeKeepsCounts(rows, windows, clock, key, cutoff);
      }
    }
  }

  lemma {:induction false} AppendKeepsRelation(bucket: seq<real>, times: seq<real>, window: real, clock: real)
    requires BucketRelated(bucket, times, window, clock)
    ensures BucketRelated(bucket + [clock], times + [clock], window, clock)
  {
    forall cutoff | cutoff >= clock - window
      ensures Live(bucket + [clock], cutoff) == Live(times + [clock], cutoff)
    {
      LiveAppend(bucket, clock, cutoff);
      LiveAppend(times, clock, cutoff);
    }
  }

  lemma {:induction false} ChargeOneKeepsRelation(
    s: Limiter, history: map<string, seq<real>>, windows: string -> real, key: string, clock: real)
    requires MemoryRelated(s, history, windows, clock)
    ensures
      MemoryRelated(s.(buckets := s.buckets[key := Bucket(s, key) + [clock]]), history[key := Times(history, key) + [clock]],
                    windows, clock)
  {
    hide BucketRelated;
    var bucket, times := Bucket(s, key), Times(history, key);
    var s1, history1 := s.(buckets := s.buckets[key := bucket + [clock]]), history[key := times + [clock]];
    assert BucketRelated(bucket, times, windows(key), clock);
    AppendKeepsRelation(bucket, times, windows(key), clock);
    forall other
      ensures BucketRelated(Bucket(s1, other), Times(history1, other), windows(other), clock)
    {
      assert BucketRelated(Bucket(s, other), Times(history, other), windows(other), clock);
    }
  }

  lemma {:induction false} ChargeKeepsRelation(
    s: Limiter, history: map<string, seq<real>>, windows: string -> real, rules: seq<Rule>, clock: real)
    requires MemoryRelated(s, history, windows, clock)
    ensures MemoryRelated(Charge(s, rules, clock), Add(history, rules, clock), windows, clock)
    decreases |rules|
  {
    if rules != [] {
      var key := rules[0].key;
      hide MemoryRelated;
      ChargeOneKeepsRelation(s, history, windows, key, clock);
      ChargeKeepsRelation(s.(buckets := s.buckets[key := Bucket(s, key) + [clock]]),
                          history[key := Times(history, key) + [clock]], windows, rules[1..], clock);
    }
  }

  lemma {:induction false} CountedAppend(rows: seq<Row>, more: seq<Row>, hash: Digest<string>, cutoff: real)
    ensures Counted(rows + more, hash, cutoff) == Counted(rows, hash, cutoff) + Counted(more, hash, cutoff)
  {
    if rows == [] {
      assert rows + more == more;
    } else {
      assert (rows + more)[1..] == rows[1..] + more;
      CountedAppend(rows[1..], more, hash, cutoff);
    }
  }

  lemma {:induction false} InsertOneKeepsRelation(
    rows: seq<Row>, history: map<string, seq<real>>, windows: string -> real, key: string, clock: real)
    requires StoreRelated(rows, history, windows, clock)
    ensures StoreRelated(rows + [Row(Sha256(key), clock, clock + windows(key))], history[key := Times(history, key) + [clock]],
                         windows, clock)
  {
    var row, times := Row(Sha256(key), clock, clock + windows(key)), Times(history, key);
    var history1 := history[key := times + [clock]];
    forall other
      ensures RowsRelated(rows + [row], Times(history1, other), other, windows(other), clock)
    {
      assert RowsRelated(rows, Times(history, other), other, windows(other), clock);
      forall cutoff | cutoff >= clock - windows(other)
        ensures Counted(rows + [row], Sha256(other), cutoff) == Live(Times(history1, other), cutoff)
      {
        CountedAppend(rows, [row], Sha256(other), cutoff);
        CountedOne(row, Sha256(other), cutoff);
        LiveAppend(times, clock, cutoff);
      }
    }
  }

  lemma {:induction false} CountedOne(row: Row, hash: Digest<string>, cutoff: real)
    ensures Counted([row], hash, cutoff) == if row.bucketHash == hash && row.occurredAt > cutoff then [row.occurredAt] else []
  {
    assert Counted([row][1..], hash, cutoff) == [];
  }

  lemma {:induction false} InsertKeepsRelation(
    rows: seq<Row>, history: map<string, seq<real>>, windows: string -> real, rules: seq<Rule>, clock: real)
    requires StoreRelated(rows, history, windows, clock) && Windowed(rules, windows)
    ensures StoreRelated(rows + RowsFor(rules, clock), Add(history, rules, clock), windows, clock)
    decreases |rules|
  {
    hide StoreRelated, RowsFor, Windowed;
    if rules == [] {
      assert rows + RowsFor(rules, clock) == rows by { NoRows(rules, clock); }
    } else {
      var key := rules[0].key;
      InsertOneKeepsRelation(rows, history, windows, key, clock);
      TailIsWindowed(rules, windows);
      var rows1 := rows + [Row(Sha256(key), clock, clock + windows(key))];
      InsertKeepsRelation(rows1, history[key := Times(history, key) + [clock]], windows, rules[1..], clock);
      assert rows + RowsFor(rules, clock) == rows1 + RowsFor(rules[1..], clock) by { RowsForFirst(rows, rules, windows, clock); }
    }
  }

  lemma {:induction false} NoRows(rules: seq<Rule>, clock: real)
    requires rules == []
    ensures RowsFor(rules, clock) == []
  {
  }

  lemma {:induction false} HeadIsWindowed(rules: seq<Rule>, windows: string -> real)
    requires rules != [] && Windowed(rules, windows)
    ensures rules[0].windowSeconds == windows(rules[0].key)
  {
  }

  lemma {:induction false} TailIsWindowed(rules: seq<Rule>, windows: string -> real)
    requires rules != [] && Windowed(rules, windows)
    ensures Windowed(rules[1..], windows)
  {
  }

  lemma {:induction false} RowsForFirst(rows: seq<Row>, rules: seq<Rule>, windows: string -> real, clock: real)
    requires rules != [] && Windowed(rules, windows)
    ensures
      var row := Row(Sha256(rules[0].key), clock, clock + windows(rules[0].key));
      rows + RowsFor(rules, clock) == rows + [row] + RowsFor(rules[1..], clock)
  {
  }

  lemma {:induction false} LaterClock(
    s: Limiter, h: History, windows: string -> real, clock: real, storeClock: real, now: real, storeNow: real)
    requires MemoryRelated(s, h.memory, windows, clock) && StoreRelated(s.store, h.durable, windows, storeClock)
    requires clock <= now && storeClock <= storeNow
    ensures MemoryRelated(s, h.memory, windows, now) && StoreRelated(s.store, h.durable, windows, storeNow)
  {
    forall key
      ensures BucketRelated(Bucket(s, key), Times(h.memory, key), windows(key), now)
    {
      assert BucketRelated(Bucket(s, key), Times(h.memory, key), windows(key), clock);
    }
    forall key
      ensures RowsRelated(s.store, Times(h.durable, key), key, windows(key), storeNow)
    {
      assert RowsRelated(s.store, Times(h.durable, key), key, windows(key), storeClock);
    }
  }

  lemma {:induction false} SelectKeepsWindows(rules: seq<Rule>, windows: string -> real, durable: bool, persistent: bool)
    requires Windowed(rules, windows)
    ensures Windowed(Select(rules, durable, persistent), windows)
  {
    if rules != [] {
      SelectKeepsWindows(rules[1..], windows, durable, persistent);
    }
  }

  lemma {:induction false} PassKeepsStore(s: Limiter, rules: seq<Rule>, now: real)
    ensures MemoryPass(s, rules, now).0.store == s.store && Charge(s, rules, now).store == s.store
    decreases |rules|
  {
    if rules != [] {
      PassKeepsStore(Touch(s, rules[0], now), rules[1..], now);
      PassKeepsStore(s.(buckets := s.buckets[rules[0].key := Bucket(s, rules[0].key) + [now]]), rules[1..], now);
    }
  }

  // Deciding on the pruned buckets and the pruned table gives the same outcome, and stands for the same history, as
  // counting every event ever admitted; a rejection charges nothing.
  lemma {:induction false} RefinesFullHistory(
    config: Config, s: Limiter, h: History, windows: string -> real, rules: seq<Rule>, now: real, storeNow: real)
    requires MemoryRelated(s, h.memory, windows, now) && StoreRelated(s.store, h.durable, windows, storeNow)
    requires Windowed(rules, windows)
    ensures
      var (s', outcome) := Decide(config, s, rules, now, storeNow);
      var (h', judged) := HistoryDecide(config, h, rules, now, storeNow);
      && outcome == judged && (outcome != Admitted ==> h' == h && s'.store == s.store)
      && MemoryRelated(s', h'.memory, windows, now) && StoreRelated(s'.store, h'.durable, windows, storeNow)
  {
    hide MemoryRelated, StoreRelated, MemoryPass, StorePass, JudgeAll, JudgeStored, Unexpired, RowsFor, Charge, Add;
    var memory, durable := Select(rules, false, config.persistent), Select(rules, true, config.persistent);
    SelectKeepsWindows(rules, windows, false, config.persistent);
    SelectKeepsWindows(rules, windows, true, config.persistent);
    MemoryPassRefines(s, h.memory, windows, memory, now);
    PurgeKeepsRelation(s.store, h.durable, windows, storeNow);
    var rows := if durable == [] then s.store else Unexpired(s.store, storeNow);
    StorePassRefines(rows, h.durable, windows, durable, storeNow);
    InsertKeepsRelation(rows, h.durable, windows, durable, storeNow);
    var touched := MemoryPass(s, memory, now).0;
    ChargeKeepsRelation(touched, h.memory, windows, memory, now);
    PassKeepsStore(s, memory, now);
    PassKeepsStore(touched, memory, now);
    StoreIsNotMemory(Charge(touched, memory, now), rows + RowsFor(durable, storeNow), Add(h.memory, memory, now), windows, now);
  }

  lemma {:induction false} StoreIsNotMemory(
    s: Limiter, rows: seq<Row>, history: map<string, seq<real>>, windows: string -> real, clock: real)
    ensures MemoryRelated(s.(store := rows), history, windows, clock) <==> MemoryRelated(s, history, windows, clock)
  {
    hide BucketRelated;
    assert forall key :: Bucket(s.(store := rows), key) == Bucket(s, key);
  }

  /*** Whole runs ***/

  datatype Event = Event(rules: seq<Rule>, delay: real, storeDelay: real)

  datatype System = System(limiter: Limiter, history: History, clock: real, storeClock: real)

  // Both clocks are monotone.
  function Advance(clock: real, delay: real): real {
    if delay > 0.0 then clock + delay else clock
  }

  function Step(config: Config, y: System, event: Event): System {
    var now, storeNow := Advance(y.clock, event.delay), Advance(y.storeClock, event.storeDelay);
    var decided := Decide(config, y.limiter, event.rules, now, storeNow).0;
    var judged := HistoryDecide(config, y.history, event.rules, now, storeNow).0;
    var after := Checked(config, y.limiter, event.rules, now, storeNow).0;
    System(after, Forget(judged, decided, after), now, storeNow)
  }

  function Run(config: Config, events: seq<Event>): System {
    if events == [] then System(Limiter([], map[], {}, []), History(map[], map[]), 0.0, 0.0)
    else Step(config, Run(config, events[..|events| - 1]), events[|events| - 1])
  }

  // What the callers promise: each request names a key at most once, and a key always has the same window.
  ghost predicate GoodRules(rules: seq<Rule>, windows: string -> real, limits: string -> nat) {
    && Windowed(rules, windows)
    && (forall i :: 0 <= i < |rules| ==> 1 <= rules[i].limit <= limits(rules[i].key))
    && (forall i, j :: 0 <= i < j < |rules| ==> rules[i].key != rules[j].key)
  }

  ghost predicate GoodEvents(events: seq<Event>, windows: string -> real, limits: string -> nat) {
    forall i :: 0 <= i < |events| ==> GoodRules(events[i].rules, windows, limits)
  }

  // Any limit + 1 consecutive events span more than the half-open window.
  ghost predicate Spaced(times: seq<real>, limit: nat, window: real) {
    forall i :: 0 <= i < |times| - limit ==> times[i] <= times[i + limit] - window
  }

  ghost predicate AllSpaced(history: map<string, seq<real>>, windows: string -> real, limits: string -> nat) {
    forall key :: Spaced(Times(history, key), limits(key), windows(key))
  }

  lemma {:induction false} LiveLength(times: seq<real>, clock: real, cutoff: real, i: nat)
    requires Ascending(times, clock) && i < |times| && times[i] > cutoff
    ensures |Live(times, cutoff)| >= |times| - i
  {
    if times[0] > cutoff {
      LiveAll(times, cutoff);
    } else {
      LiveLength(times[1..], clock, cutoff, i - 1);
    }
  }

  lemma {:induction false} AppendKeepsSpacing(times: seq<real>, limit: nat, window: real, clock: real)
    requires Ascending(times, clock) && Spaced(times, limit, window) && |Live(times, clock - window)| < limit
    ensures Spaced(times + [clock], limit, window)
  {
    var i := |times| - limit;
    if 0 <= i && times[i] > clock - window {
      LiveLength(times, clock, clock - window, i);
    }
  }

  lemma {:induction false} AddOneKeepsSpacing(
    history: map<string, seq<real>>, windows: string -> real, limits: string -> nat, key: string, clock: real)
    requires AllSpaced(history, windows, limits) && Ascending(Times(history, key), clock)
    requires |Live(Times(history, key), clock - windows(key))| < limits(key)
    ensures AllSpaced(history[key := Times(history, key) + [clock]], windows, limits)
  {
    hide Spaced;
    AppendKeepsSpacing(Times(history, key), limits(key), windows(key), clock);
    var history1 := history[key := Times(history, key) + [clock]];
    forall other
      ensures Spaced(Times(history1, other), limits(other), windows(other))
    {
      assert Spaced(Times(history, other), limits(other), windows(other));
    }
  }

  ghost predicate HasRoom(history: map<string, seq<real>>, rules: seq<Rule>, windows: string -> real, clock: real) {
    forall i :: 0 <= i < |rules| ==>
      Ascending(Times(history, rules[i].key), clock)
      && |Live(Times(history, rules[i].key), clock - windows(rules[i].key))| < rules[i].limit
  }

  lemma {:induction false} RoomForTheRest(
    history: map<string, seq<real>>, windows: string -> real, limits: string -> nat, rules: seq<Rule>, clock: real)
    requires rules != [] && GoodRules(rules, windows, limits) && HasRoom(history, rules, windows, clock)
    ensures GoodRules(rules[1..], windows, limits)
    ensures HasRoom(history[rules[0].key := Times(history, rules[0].key) + [clock]], rules[1..], windows, clock)
  {
    hide Live, Ascending;
    var history1 := history[rules[0].key := Times(history, rules[0].key) + [clock]];
    assert forall i :: 1 <= i < |rules| ==> Times(history1, rules[i].key) == Times(history, rules[i].key);
  }

  lemma {:induction false} AddKeepsSpacing(
    history: map<string, seq<real>>, windows: string -> real, limits: string -> nat, rules: seq<Rule>, clock: real)
    requires AllSpaced(history, windows, limits) && GoodRules(rules, windows, limits)
    requires HasRoom(history, rules, windows, clock)
    ensures AllSpaced(Add(history, rules, clock), windows, limits)
    decreases |rules|
  {
    if rules != [] {
      var key := rules[0].key;
      var history1 := history[key := Times(history, key) + [clock]];
      hide AllSpaced;
      AddOneKeepsSpacing(history, windows, limits, key, clock);
      RoomForTheRest(history, windows, limits, rules, clock);
      hide HasRoom;
      AddKeepsSpacing(history1, windows, limits, rules[1..], clock);
    }
  }

  lemma {:induction false} JudgeFindsRoom(history: map<string, seq<real>>, windows: string -> real, rules: seq<Rule>, clock: real)
    requires Windowed(rules, windows) && forall key :: Ascending(Times(history, key), clock)
    requires JudgeAll(history, rules, clock) == Admitted || JudgeStored(history, rules, clock) == Admitted
    ensures HasRoom(history, rules, windows, clock)
  {
    hide Ascending, Times;
    forall i | 0 <= i < |rules|
      ensures |Live(Times(history, rules[i].key), clock - windows(rules[i].key))| < rules[i].limit
    {
      JudgedAt(history, rules, clock, i);
    }
  }

  lemma {:induction false} JudgedAt(history: map<string, seq<real>>, rules: seq<Rule>, clock: real, i: nat)
    requires i < |rules| && (JudgeAll(history, rules, clock) == Admitted || JudgeStored(history, rules, clock) == Admitted)
    ensures |Live(Times(history, rules[i].key), clock - rules[i].windowSeconds)| < rules[i].limit
  {
    hide Live, Times;
    if i > 0 {
      JudgedAt(history, rules[1..], clock, i - 1);
    }
  }

  lemma {:induction false} SelectIsSubsequence(rules: seq<Rule>, durable: bool, persistent: bool)
    ensures forall rule :: rule in Select(rules, durable, persistent) ==> rule in rules
  {
    if rules != [] {
      SelectIsSubsequence(rules[1..], durable, persistent);
    }
  }

  lemma {:induction false} SelectKeepsGood(rules: seq<Rule>, windows: string -> real, limits: string -> nat, durable: bool, persistent: bool)
    requires GoodRules(rules, windows, limits)
    ensures GoodRules(Select(rules, durable, persistent), windows, limits)
  {
    if rules != [] {
      GoodParts(rules, windows, limits);
      hide GoodRules;
      SelectKeepsGood(rules[1..], windows, limits, durable, persistent);
      SelectIsSubsequence(rules[1..], durable, persistent);
      GoodCons(rules[0], Select(rules[1..], durable, persistent), windows, limits);
    }
  }

  lemma {:induction false} GoodParts(rules: seq<Rule>, windows: string -> real, limits: string -> nat)
    requires rules != [] && GoodRules(rules, windows, limits)
    ensures GoodRules(rules[1..], windows, limits) && GoodRules([rules[0]], windows, limits)
    ensures forall rule :: rule in rules[1..] ==> rule.key != rules[0].key
  {
  }

  lemma {:induction false} GoodCons(rule: Rule, rest: seq<Rule>, windows: string -> real, limits: string -> nat)
    requires GoodRules([rule], windows, limits) && forall other :: other in rest ==> other.key != rule.key
    requires GoodRules(rest, windows, limits)
    ensures GoodRules([rule] + rest, windows, limits)
  {
    assert [rule][0] == rule;
  }

  lemma {:induction false} RelatedAscends(s: Limiter, h: History, windows: string -> real, now: real, storeNow: real)
    requires MemoryRelated(s, h.memory, windows, now) && StoreRelated(s.store, h.durable, windows, storeNow)
    ensures forall key :: Ascending(Times(h.memory, key), now)
    ensures forall key :: Ascending(Times(h.durable, key), storeNow)
  {
    hide Ascending, SameWindows;
    assert forall key :: BucketRelated(Bucket(s, key), Times(h.memory, key), windows(key), now);
    assert forall key :: RowsRelated(s.store, Times(h.durable, key), key, windows(key), storeNow);
  }

  lemma {:induction false} HistoryKeepsSpacing(
    config: Config, h: History, windows: string -> real, limits: string -> nat, rules: seq<Rule>, now: real, storeNow: real)
    requires AllSpaced(h.memory, windows, limits) && AllSpaced(h.durable, windows, limits)
    requires forall key :: Ascending(Times(h.memory, key), now)
    requires forall key :: Ascending(Times(h.durable, key), storeNow)
    requires GoodRules(rules, windows, limits)
    ensures
      var h' := HistoryDecide(config, h, rules, now, storeNow).0;
      AllSpaced(h'.memory, windows, limits) && AllSpaced(h'.durable, windows, limits)
  {
    hide AllSpaced, Ascending, JudgeAll, JudgeStored, Add, HasRoom;
    var memory, durable := Select(rules, false, config.persistent), Select(rules, true, config.persistent);
    SelectKeepsGood(rules, windows, limits, false, config.persistent);
    SelectKeepsGood(rules, windows, limits, true, config.persistent);
    if JudgeAll(h.memory, memory, now) == Admitted && JudgeStored(h.durable, durable, storeNow) == Admitted {
      JudgeFindsRoom(h.memory, windows, memory, now);
      JudgeFindsRoom(h.durable, windows, durable, storeNow);
      AddKeepsSpacing(h.memory, windows, limits, memory, now);
      AddKeepsSpacing(h.durable, windows, limits, durable, storeNow);
    }
  }

  // Bounding only ever removes whole buckets.
  ghost predicate Shrinks(before: Limiter, after: Limiter) {
    && after.store == before.store && after.protectedKeys == before.protectedKeys
    && forall key :: key in after.buckets ==> key in before.buckets && after.buckets[key] == before.buckets[key]
  }

  lemma {:induction false} BoundShrinks(config: Config, s: Limiter)
    ensures Shrinks(s, BoundMemory(config, s).0)
  {
  }

  lemma {:induction false} ForgetKeepsRelation(before: Limiter, after: Limiter, h: History, windows: string -> real, clock: real)
    requires MemoryRelated(before, h.memory, windows, clock) && Shrinks(before, after)
    ensures MemoryRelated(after, Forget(h, before, after).memory, windows, clock)
  {
    hide BucketRelated;
    forall key
      ensures BucketRelated(Bucket(after, key), Times(Forget(h, before, after).memory, key), windows(key), clock)
    {
      assert BucketRelated(Bucket(before, key), Times(h.memory, key), windows(key), clock);
      NothingIsRelated(windows(key), clock);
    }
  }

  lemma {:induction false} NothingIsRelated(window: real, clock: real)
    ensures BucketRelated([], [], window, clock)
  {
  }

  lemma {:induction false} ForgetKeepsSpacing(
    before: Limiter, after: Limiter, h: History, windows: string -> real, limits: string -> nat)
    requires AllSpaced(h.memory, windows, limits)
    ensures AllSpaced(Forget(h, before, after).memory, windows, limits)
  {
    forall key
      ensures Spaced(Times(Forget(h, before, after).memory, key), limits(key), windows(key))
    {
      assert Spaced(Times(h.memory, key), limits(key), windows(key));
    }
  }

  ghost predicate SystemInv(y: System, windows: string -> real, limits: string -> nat) {
    && MemoryRelated(y.limiter, y.history.memory, windows, y.clock)
    && StoreRelated(y.limiter.store, y.history.durable, windows, y.storeClock)
    && AllSpaced(y.history.memory, windows, limits)
    && AllSpaced(y.history.durable, windows, limits)
  }

  lemma {:induction false} StepKeepsInv(config: Config, y: System, windows: string -> real, limits: string -> nat, event: Event)
    requires SystemInv(y, windows, limits) && GoodRules(event.rules, windows, limits)
    ensures SystemInv(Step(config, y, event), windows, limits)
  {
    hide MemoryRelated, StoreRelated, AllSpaced, Ascending, Decide, HistoryDecide, BoundMemory, Shrinks, GoodRules;
    var now, storeNow := Advance(y.clock, event.delay), Advance(y.storeClock, event.storeDelay);
    LaterClock(y.limiter, y.history, windows, y.clock, y.storeClock, now, storeNow);
    assert Windowed(event.rules, windows) by { GoodAreWindowed(event.rules, windows, limits); }
    RefinesFullHistory(config, y.limiter, y.history, windows, event.rules, now, storeNow);
    RelatedAscends(y.limiter, y.history, windows, now, storeNow);
    HistoryKeepsSpacing(config, y.history, windows, limits, event.rules, now, storeNow);
    var decided := Decide(config, y.limiter, event.rules, now, storeNow).0;
    var judged := HistoryDecide(config, y.history, event.rules, now, storeNow).0;
    var after := Checked(config, y.limiter, event.rules, now, storeNow).0;
    BoundShrinks(config, decided);
    ShrinksSelf(decided);
    assert Shrinks(decided, after);
    ForgetKeepsRelation(decided, after, judged, windows, now);
    ForgetKeepsSpacing(decided, after, judged, windows, limits);
    assert after.store == decided.store by { ShrinksKeepsStore(decided, after); }
  }

  lemma {:induction false} GoodAreWindowed(rules: seq<Rule>, windows: string -> real, limits: string -> nat)
    requires GoodRules(rules, windows, limits)
    ensures Windowed(rules, windows)
  {
  }

  lemma {:induction false} ShrinksSelf(s: Limiter)
    ensures Shrinks(s, s)
  {
  }

  lemma {:induction false} ShrinksKeepsStore(before: Limiter, after: Limiter)
    requires Shrinks(before, after)
    ensures after.store == before.store
  {
  }

  lemma {:induction false} RunInv(config: Config, events: seq<Event>, windows: string -> real, limits: string -> nat)
    requires GoodEvents(events, windows, limits)
    ensures SystemInv(Run(config, events), windows, limits)
  {
    if events != [] {
      hide SystemInv, Step, GoodRules;
      RunInv(config, events[..|events| - 1], windows, limits);
      StepKeepsInv(config, Run(config, events[..|events| - 1]), windows, limits, events[|events| - 1]);
    }
  }

  // The events in the half-open window (from, until].
  function Within(times: seq<real>, from: real, until: real): seq<real> {
    if times == [] then []
    else if from < times[0] <= until then [times[0]] + Within(times[1..], from, until)
    else Within(times[1..], from, until)
  }

  lemma {:induction false} WithinPrefix(times: seq<real>, from: real, until: real, limit: nat)
    requires forall i :: limit <= i < |times| ==> times[i] > until
    ensures |Within(times, from, until)| <= limit
  {
    if times != [] {
      WithinPrefix(times[1..], from, until, if limit == 0 then 0 else limit - 1);
    }
  }

  lemma {:induction false} SpacedBoundsWindows(times: seq<real>, limit: nat, window: real, clock: real, from: real)
    requires Ascending(times, clock) && Spaced(times, limit, window)
    ensures |Within(times, from, from + window)| <= limit
  {
    if times != [] {
      if times[0] <= from {
        assert Spaced(times[1..], limit, window) by {
          forall i | 0 <= i < |times| - 1 - limit
            ensures times[1..][i] <= times[1..][i + limit] - window
          {
            assert times[i + 1] <= times[i + 1 + limit] - window;
          }
        }
        SpacedBoundsWindows(times[1..], limit, window, clock, from);
      } else {
        assert |times| > limit ==> times[0] <= times[limit] - window;
        WithinPrefix(times, from, from + window, limit);
      }
    }
  }

  // At every moment of every run, no window of a key's length ever holds more events than the key's largest limit; in
  // memory the count starts afresh when the bucket is evicted, in the table never.
  lemma {:induction false} NoWindowExceedsItsLimit(
    config: Config, events: seq<Event>, windows: string -> real, limits: string -> nat, key: string, from: real)
    requires GoodEvents(events, windows, limits)
    ensures
      var h := Run(config, events).history;
      && |Within(Times(h.memory, key), from, from + windows(key))| <= limits(key)
      && |Within(Times(h.durable, key), from, from + windows(key))| <= limits(key)
  {
    hide Within, Run, Ascending, Spaced;
    RunIsSpaced(config, events, windows, limits, key);
    var y := Run(config, events);
    SpacedBoundsWindows(Times(y.history.memory, key), limits(key), windows(key), y.clock, from);
    SpacedBoundsWindows(Times(y.history.durable, key), limits(key), windows(key), y.storeClock, from);
  }

  lemma {:induction false} RunIsSpaced(
    config: Config, events: seq<Event>, windows: string -> real, limits: string -> nat, key: string)
    requires GoodEvents(events, windows, limits)
    ensures
      var y := Run(config, events);
      && Spaced(Times(y.history.memory, key), limits(key), windows(key)) && Ascending(Times(y.history.memory, key), y.clock)
      && Spaced(Times(y.history.durable, key), limits(key), windows(key)) && Ascending(Times(y.history.durable, key), y.storeClock)
  {
    hide Run, MemoryRelated, StoreRelated, Ascending, Spaced;
    var y := Run(config, events);
    RunInv(config, events, windows, limits);
    RelatedAscends(y.limiter, y.history, windows, y.clock, y.storeClock);
  }

  /*** Retry-After ***/

  lemma {:induction false} LiveShort(times: seq<real>, clock: real, cutoff: real, i: nat)
    requires Ascending(times, clock) && i < |times| && times[i] <= cutoff
    ensures |Live(times, cutoff)| < |times| - i
  {
    if i > 0 {
      LiveShort(times[1..], clock, cutoff, i - 1);
    } else {
      LiveNotLonger(times[1..], cutoff);
    }
  }

  lemma {:induction false} LiveNotLonger(times: seq<real>, cutoff: real)
    ensures |Live(times, cutoff)| <= |times|
  {
    if times != [] {
      LiveNotLonger(times[1..], cutoff);
    }
  }

  lemma {:induction false} LiveIsLater(times: seq<real>, cutoff: real)
    ensures forall i :: 0 <= i < |Live(times, cutoff)| ==> Live(times, cutoff)[i] > cutoff
  {
    if times != [] {
      LiveIsLater(times[1..], cutoff);
    }
  }

  lemma {:induction false} CeilBounds(x: real)
    ensures Ceil(x) as real - 1.0 < x <= Ceil(x) as real
  {
  }

  // Waiting for the announced time admits the rule exactly when the event that fills the rule's quota leaves its window
  // within the same whole second as the oldest one, in particular when the window holds no more than the rule's own
  // limit; waiting over a second less never does.
  lemma {:induction false} RetryAfterExact(times: seq<real>, rule: Rule, now: real, wait: real)
    requires Ascending(times, now) && Judge(times, rule, now).Exceeded? && rule.limit >= 1
    ensures
      var retryAfter, window := Judge(times, rule, now).retryAfter, Live(times, now - rule.windowSeconds);
      && |window| >= rule.limit && retryAfter == Ceil(window[0] + rule.windowSeconds - now) >= 1
      && (wait == retryAfter as real ==>
            (Judge(times, rule, now + wait) == Admitted
             <==> Ceil(window[|window| - rule.limit] + rule.windowSeconds - now) == Ceil(window[0] + rule.windowSeconds - now)))
      && (wait == retryAfter as real && |window| == rule.limit ==> Judge(times, rule, now + wait) == Admitted)
      && (0.0 <= wait < retryAfter as real - 1.0 ==> Judge(times, rule, now + wait).Exceeded?)
  {
    hide Ascending, Live, Prune, RetryAfter, Ceil;
    var cutoff := now - rule.windowSeconds;
    var window := Live(times, cutoff);
    LiveIsLater(times, cutoff);
    LiveAscends(times, now, cutoff, |window| - rule.limit);
    WaitSuffices(rule.windowSeconds, now, window[0], window[|window| - rule.limit], wait);
    if wait >= 0.0 {
      LiveLater(times, rule, now, wait);
    }
  }

  // A wait of whole seconds for the oldest event lasts until a later one has left exactly when both leave within the same
  // second.
  lemma {:induction false} WaitSuffices(window: real, now: real, oldest: real, last: real, sooner: real)
    requires now - window < oldest <= last
    ensures
      var wait := RetryAfter(window, now, oldest);
      && wait == Ceil(oldest + window - now) >= 1
      && (last <= now + wait as real - window <==> Ceil(last + window - now) == Ceil(oldest + window - now))
      && (sooner < wait as real - 1.0 ==> last > now + sooner - window)
  {
    CeilBounds(last + window - now);
    CeilBounds(oldest + window - now);
    assert window - (now - oldest) == oldest + window - now;
    CeilMonotone(oldest + window - now, last + window - now);
  }

  lemma {:induction false} CeilMonotone(x: real, y: real)
    requires x <= y
    ensures Ceil(x) <= Ceil(y)
  {
  }

  lemma {:induction false} LiveAscends(times: seq<real>, now: real, cutoff: real, i: nat)
    requires Ascending(times, now) && i < |Live(times, cutoff)|
    ensures Live(times, cutoff)[0] <= Live(times, cutoff)[i]
  {
    PruneIsLive(times, cutoff, now);
    hide Live, Prune;
  }

  // A later window has room exactly when the event that fills the rule's quota has left it.
  lemma {:induction false} LiveLater(times: seq<real>, rule: Rule, now: real, wait: real)
    requires Ascending(times, now) && wait >= 0.0 && 1 <= rule.limit <= |Live(times, now - rule.windowSeconds)|
    ensures
      var window, later := Live(times, now - rule.windowSeconds), now + wait - rule.windowSeconds;
      |Live(times, later)| < rule.limit <==> window[|window| - rule.limit] <= later
  {
    hide Live, Prune, Ascending;
    var cutoff, later := now - rule.windowSeconds, now + wait - rule.windowSeconds;
    PruneIsLive(times, cutoff, now);
    LiveTwice(times, cutoff, later);
    LiveCount(Live(times, cutoff), now, later, rule.limit);
  }

  lemma {:induction false} LiveCount(times: seq<real>, clock: real, cutoff: real, limit: nat)
    requires Ascending(times, clock) && 1 <= limit <= |times|
    ensures |Live(times, cutoff)| < limit <==> times[|times| - limit] <= cutoff
  {
    hide Live, Ascending;
    var i := |times| - limit;
    if times[i] > cutoff {
      LiveLength(times, clock, cutoff, i);
    } else {
      LiveShort(times, clock, cutoff, i);
    }
  }

  // The rule behind a rejection.
  lemma {:induction false} JudgeRejects(history: map<string, seq<real>>, rules: seq<Rule>, now: real) returns (i: nat)
    requires JudgeAll(history, rules, now) != Admitted
    ensures i < |rules| && Judge(Times(history, rules[i].key), rules[i], now) == JudgeAll(history, rules, now)
  {
    if Judge(Times(history, rules[0].key), rules[0], now) != Admitted {
      i := 0;
    } else {
      i := JudgeRejects(history, rules[1..], now);
      i := i + 1;
    }
  }

  lemma {:induction false} MinimumIsFirst(times: seq<real>, clock: real)
    requires times != [] && Ascending(times, clock)
    ensures Minimum(times) == times[0]
  {
    if |times| > 1 {
      MinimumIsFirst(times[1..], clock);
    }
  }

  // In the table, the minimum of the counted times is the first of them.
  lemma {:induction false} StoredIsJudged(history: map<string, seq<real>>, rules: seq<Rule>, now: real)
    requires forall i :: 0 <= i < |rules| ==> rules[i].limit >= 1
    requires forall key :: Ascending(Times(history, key), now)
    ensures JudgeStored(history, rules, now) == JudgeAll(history, rules, now)
  {
    hide Ascending, StoreVerdict, Verdict;
    if rules != [] {
      StoredIsJudgedOnce(Times(history, rules[0].key), rules[0], now);
      StoredIsJudged(history, rules[1..], now);
    }
  }

  lemma {:induction false} StoredIsJudgedOnce(times: seq<real>, rule: Rule, now: real)
    requires rule.limit >= 1 && Ascending(times, now)
    ensures StoreVerdict(Live(times, now - rule.windowSeconds), rule, now) == Judge(times, rule, now)
  {
    PruneIsLive(times, now - rule.windowSeconds, now);
    if Live(times, now - rule.windowSeconds) != [] {
      MinimumIsFirst(Live(times, now - rule.windowSeconds), now);
    }
  }

  // Asked alone, one rule is decided by its own history.
  lemma {:induction false} OneRule(
    config: Config, s: Limiter, h: History, windows: string -> real, rule: Rule, now: real, storeNow: real)
    requires MemoryRelated(s, h.memory, windows, now) && StoreRelated(s.store, h.durable, windows, storeNow)
    requires rule.windowSeconds == windows(rule.key) && rule.limit >= 1
    ensures
      Decide(config, s, [rule], now, storeNow).1 ==
      if rule.protected && config.persistent then Judge(Times(h.durable, rule.key), rule, storeNow)
      else Judge(Times(h.memory, rule.key), rule, now)
  {
    hide MemoryRelated, StoreRelated, Ascending, Decide, Live, RetryAfter;
    RefinesFullHistory(config, s, h, windows, [rule], now, storeNow);
    RelatedAscends(s, h, windows, now, storeNow);
    SelectOne(rule, config.persistent);
    JudgeOne(h.memory, rule, now);
    JudgeOne(h.durable, rule, storeNow);
    StoredIsJudged(h.durable, [rule], storeNow);
    hide JudgeAll, JudgeStored, Select, Judge;
  }

  lemma {:induction false} SelectOne(rule: Rule, persistent: bool)
    ensures
      var durable := rule.protected && persistent;
      Select([rule], durable, persistent) == [rule] && Select([rule], !durable, persistent) == []
  {
    assert [rule][1..] == [];
  }

  lemma {:induction false} JudgeOne(history: map<string, seq<real>>, rule: Rule, now: real)
    ensures JudgeAll(history, [rule], now) == Judge(Times(history, rule.key), rule, now)
  {
    hide Judge;
    assert [rule][1..] == [];
    assert JudgeAll(history, [rule][1..], now) == Admitted;
  }

  // The rule whose bucket rejects the request.
  ghost predicate Rejects(config: Config, y: System, rules: seq<Rule>, i: nat) {
    && i < |rules|
    && Decide(config, y.limiter, rules, y.clock, y.storeClock).1 ==
       if rules[i].protected && config.persistent then Judge(Times(y.history.durable, rules[i].key), rules[i], y.storeClock)
       else Judge(Times(y.history.memory, rules[i].key), rules[i], y.clock)
  }

  // Some rule is behind every rejection.
  lemma {:induction false} SomeRuleRejects(
    config: Config, y: System, windows: string -> real, limits: string -> nat, rules: seq<Rule>) returns (i: nat)
    requires SystemInv(y, windows, limits) && GoodRules(rules, windows, limits)
    requires Decide(config, y.limiter, rules, y.clock, y.storeClock).1 != Admitted
    ensures Rejects(config, y, rules, i)
  {
    hide MemoryRelated, StoreRelated, AllSpaced, Ascending, Decide, JudgeAll, JudgeStored, Select, Judge;
    var h, memory, durable := y.history, Select(rules, false, config.persistent), Select(rules, true, config.persistent);
    assert Windowed(rules, windows);
    RefinesFullHistory(config, y.limiter, h, windows, rules, y.clock, y.storeClock);
    RelatedAscends(y.limiter, h, windows, y.clock, y.storeClock);
    var k: nat;
    if JudgeAll(h.memory, memory, y.clock) != Admitted {
      k := JudgeRejects(h.memory, memory, y.clock);
      i := SelectedFrom(rules, false, config.persistent, k);
    } else {
      SelectKeepsGood(rules, windows, limits, true, config.persistent);
      StoredIsJudged(h.durable, durable, y.storeClock);
      k := JudgeRejects(h.durable, durable, y.storeClock);
      i := SelectedFrom(rules, true, config.persistent, k);
    }
  }

  // When the rule that rejected a request carries its bucket's one limit and nothing else is admitted, it admits the
  // request after the announced wait, and still rejects it after any wait shorter by more than a second.
  lemma {:induction false} RetryAfterIsSoundAndTight(
    config: Config, y: System, windows: string -> real, limits: string -> nat, rules: seq<Rule>, i: nat, wait: real)
    requires SystemInv(y, windows, limits) && GoodRules(rules, windows, limits)
    requires Decide(config, y.limiter, rules, y.clock, y.storeClock).1.Exceeded?
    requires Rejects(config, y, rules, i) && rules[i].limit == limits(rules[i].key)
    ensures
      var (s, outcome) := Decide(config, y.limiter, rules, y.clock, y.storeClock);
      var later := Decide(config, s, [rules[i]], y.clock + wait, y.storeClock + wait).1;
      && (wait == outcome.retryAfter as real ==> later == Admitted)
      && (0.0 <= wait < outcome.retryAfter as real - 1.0 ==> later.Exceeded?)
  {
    hide MemoryRelated, StoreRelated, AllSpaced, Ascending, Decide, Select, Judge;
    var h := y.history;
    assert Windowed(rules, windows);
    RelatedAscends(y.limiter, h, windows, y.clock, y.storeClock);
    if rules[i].protected && config.persistent {
      RejectingRuleRetries(h.durable, windows, limits, rules[i], y.storeClock, wait);
    } else {
      RejectingRuleRetries(h.memory, windows, limits, rules[i], y.clock, wait);
    }
    if wait >= 0.0 {
      AskedAgain(config, y, windows, limits, rules, i, wait);
    }
  }

  // Nothing was charged by a rejection, so later the rule is judged by the same history.
  lemma {:induction false} AskedAgain(
    config: Config, y: System, windows: string -> real, limits: string -> nat, rules: seq<Rule>, i: nat, wait: real)
    requires SystemInv(y, windows, limits) && GoodRules(rules, windows, limits) && i < |rules| && wait >= 0.0
    requires Decide(config, y.limiter, rules, y.clock, y.storeClock).1 != Admitted
    ensures
      var s := Decide(config, y.limiter, rules, y.clock, y.storeClock).0;
      Decide(config, s, [rules[i]], y.clock + wait, y.storeClock + wait).1 ==
      if rules[i].protected && config.persistent then Judge(Times(y.history.durable, rules[i].key), rules[i], y.storeClock + wait)
      else Judge(Times(y.history.memory, rules[i].key), rules[i], y.clock + wait)
  {
    hide MemoryRelated, StoreRelated, AllSpaced, Ascending, Decide, HistoryDecide, Select, Judge;
    assert Windowed(rules, windows);
    RefinesFullHistory(config, y.limiter, y.history, windows, rules, y.clock, y.storeClock);
    var s := Decide(config, y.limiter, rules, y.clock, y.storeClock).0;
    LaterClock(s, y.history, windows, y.clock, y.storeClock, y.clock + wait, y.storeClock + wait);
    OneRule(config, s, y.history, windows, rules[i], y.clock + wait, y.storeClock + wait);
  }

  lemma {:induction false} SelectedFrom(rules: seq<Rule>, durable: bool, persistent: bool, k: nat) returns (i: nat)
    requires k < |Select(rules, durable, persistent)|
    ensures i < |rules| && rules[i] == Select(rules, durable, persistent)[k]
    ensures (rules[i].protected && persistent) == durable
  {
    if (rules[0].protected && persistent) == durable {
      if k == 0 {
        i := 0;
      } else {
        i := SelectedFrom(rules[1..], durable, persistent, k - 1);
        i := i + 1;
      }
    } else {
      i := SelectedFrom(rules[1..], durable, persistent, k);
      i := i + 1;
    }
  }

  // One limit per key keeps the window at the limit, which is when the announced wait suffices.
  lemma {:induction false} RejectingRuleRetries(
    history: map<string, seq<real>>, windows: string -> real, limits: string -> nat, rule: Rule, now: real, wait: real)
    requires AllSpaced(history, windows, limits) && Ascending(Times(history, rule.key), now)
    requires rule.windowSeconds == windows(rule.key) && 1 <= rule.limit == limits(rule.key)
    requires Judge(Times(history, rule.key), rule, now).Exceeded?
    ensures
      var times := Times(history, rule.key);
      var retryAfter := Judge(times, rule, now).retryAfter;
      && (wait == retryAfter as real ==> Judge(times, rule, now + wait) == Admitted && wait >= 0.0)
      && (0.0 <= wait < retryAfter as real - 1.0 ==> Judge(times, rule, now + wait).Exceeded?)
  {
    var times := Times(history, rule.key);
    assert Spaced(times, rule.limit, rule.windowSeconds);
    LiveWithin(times, now, rule.windowSeconds);
    SpacedBoundsWindows(times, rule.limit, rule.windowSeconds, now, now - rule.windowSeconds);
    RetryAfterExact(times, rule, now, wait);
  }

  lemma {:induction false} LiveWithin(times: seq<real>, now: real, window: real)
    requires Ascending(times, now)
    ensures Live(times, now - window) == Within(times, now - window, now - window + window)
  {
    if times != [] {
      LiveWithin(times[1..], now, window);
    }
  }

  /*** Bounding the memory ***/

  // Eviction over a snapshot of the keys: the oldest unprotected keys go until the limit is met.
  function EvictFromSnapshot(config: Config, s: Limiter): Limiter
    decreases |s.order|
  {
    var first := FirstEvictable(s.order, s.protectedKeys);
    if |s.buckets| <= config.maxBuckets || first >= |s.order| then s
    else EvictFromSnapshot(config, Evict(s, first))
  }

  lemma {:induction false} RetainedNext(s: Limiter, order: seq<string>, i: nat)
    requires i < |order|
    ensures Retained(s, order[i..]) == (if Droppable(s, order[i]) then [] else [order[i]]) + Retained(s, order[i + 1..])
  {
    hide Droppable;
    assert order[i..][1..] == order[i + 1..];
  }

  lemma {:induction false} NothingRetained(s: Limiter, order: seq<string>)
    ensures Retained(s, order[|order|..]) == []
  {
  }

  lemma {:induction false} RetainedKeys(s: Limiter, order: seq<string>)
    ensures forall key :: key in Retained(s, order) <==> key in order && !Droppable(s, key)
  {
    if order != [] {
      hide Droppable;
      RetainedKeys(s, order[1..]);
    }
  }

  lemma {:induction false} RetainedDistinct(s: Limiter, order: seq<string>)
    requires forall i, j :: 0 <= i < j < |order| ==> order[i] != order[j]
    ensures forall i, j :: 0 <= i < j < |Retained(s, order)| ==> Retained(s, order)[i] != Retained(s, order)[j]
  {
    if order != [] {
      hide Droppable;
      RetainedDistinct(s, order[1..]);
      RetainedKeys(s, order[1..]);
      assert order[0] !in order[1..];
    }
  }

  lemma {:induction false} FirstEvictableIs(order: seq<string>, protectedKeys: set<string>)
    ensures FirstEvictable(order, protectedKeys) <= |order|
    ensures FirstEvictable(order, protectedKeys) < |order| ==> order[FirstEvictable(order, protectedKeys)] !in protectedKeys
    ensures FirstEvictable(order, protectedKeys) == |order| <==> forall key :: key in order ==> key in protectedKeys
  {
    if order != [] && order[0] in protectedKeys {
      FirstEvictableIs(order[1..], protectedKeys);
      assert forall key :: key in order <==> key == order[0] || key in order[1..];
    }
  }

  lemma {:induction false} EvictOneSize(s: Limiter, first: nat)
    requires OrderInv(s) && first < |s.order|
    ensures
      var evicted := Evict(s, first);
      && (forall key :: key in evicted.buckets ==> evicted.buckets[key] == s.buckets[key])
      && evicted.protectedKeys == s.protectedKeys && |evicted.order| == |s.order| - 1
      && evicted.buckets.Keys == s.buckets.Keys - {s.order[first]} && |evicted.buckets| == |s.buckets| - 1
  {
    var order := s.order[..first] + s.order[first + 1..];
    forall key
      ensures key in order <==> key in s.order && key != s.order[first]
    {
      if key in s.order && key != s.order[first] {
        var i :| 0 <= i < |s.order| && s.order[i] == key;
        assert key in s.order[..first] || key in s.order[first + 1..];
      }
    }
    var evicted := Evict(s, first);
    assert evicted.buckets.Keys == s.buckets.Keys - {s.order[first]};
  }

  lemma {:induction false} PackedInOrder(s: Limiter)
    requires OrderInv(s)
    ensures OrderInv(Packed(s)) && Packed(s).protectedKeys == s.protectedKeys
    ensures forall key :: key in Packed(s).buckets <==> key in s.buckets && !Droppable(s, key)
  {
    RetainedKeys(s, s.order);
    RetainedDistinct(s, s.order);
  }

  // The eviction raises exactly when two or more keys are over the limit once the empty buckets are gone, and one of the
  // remaining keys is unprotected.
  lemma {:induction false} BoundRaisesExactly(config: Config, s: Limiter)
    requires OrderInv(s)
    ensures
      BoundMemory(config, s).1 <==>
      |s.buckets| > config.maxBuckets && |Packed(s).buckets| >= config.maxBuckets + 2
      && exists key :: key in Packed(s).buckets && key !in s.protectedKeys
  {
    hide OrderInv, Packed, FirstEvictable, Evict;
    var kept := Packed(s);
    PackedInOrder(s);
    SomeKeyEvictable(kept);
    var first := FirstEvictable(kept.order, kept.protectedKeys);
    if first < |kept.order| {
      EvictOneSize(kept, first);
    }
  }

  lemma {:induction false} SomeKeyEvictable(s: Limiter)
    requires OrderInv(s)
    ensures FirstEvictable(s.order, s.protectedKeys) < |s.order| <==> exists key :: key in s.buckets && key !in s.protectedKeys
  {
    hide FirstEvictable;
    var first := FirstEvictable(s.order, s.protectedKeys);
    FirstEvictableIs(s.order, s.protectedKeys);
    if first < |s.order| {
      assert s.order[first] in s.buckets;
    }
  }

  // When it does not raise, it leaves what the eviction over a snapshot leaves.
  lemma {:induction false} BoundMeetsSnapshot(config: Config, s: Limiter)
    requires OrderInv(s) && |s.buckets| > config.maxBuckets && !BoundMemory(config, s).1
    ensures BoundMemory(config, s).0 == EvictFromSnapshot(config, Packed(s))
  {
    hide Retained, Restrict, Evict, FirstEvictable;
    var kept := Packed(s);
    var first := FirstEvictable(kept.order, kept.protectedKeys);
    if |kept.buckets| > config.maxBuckets && first < |kept.order| {
      var evicted := Evict(kept, first);
      assert |evicted.buckets| <= config.maxBuckets;
      assert EvictFromSnapshot(config, evicted) == evicted;
    }
  }

  lemma {:induction false} EvictKeepsOrder(s: Limiter, first: nat)
    requires OrderInv(s) && first < |s.order|
    ensures OrderInv(Evict(s, first))
  {
    var order := s.order[..first] + s.order[first + 1..];
    assert forall key :: key in order ==> key in s.order;
  }

  // The snapshot eviction meets the limit or leaves only protected keys, and never drops a protected key.
  lemma {:induction false} SnapshotEvictionBounds(config: Config, s: Limiter)
    requires OrderInv(s)
    ensures
      var after := EvictFromSnapshot(config, s);
      && (|after.buckets| <= config.maxBuckets || forall key :: key in after.buckets ==> key in s.protectedKeys)
      && (forall key :: key in s.buckets && key in s.protectedKeys ==> key in after.buckets && after.buckets[key] == s.buckets[key])
    decreases |s.order|
  {
    hide FirstEvictable, Evict;
    var first := FirstEvictable(s.order, s.protectedKeys);
    FirstEvictableIs(s.order, s.protectedKeys);
    if |s.buckets| > config.maxBuckets && first < |s.order| {
      EvictOneSize(s, first);
      EvictKeepsOrder(s, first);
      SnapshotEvictionBounds(config, Evict(s, first));
    }
  }

  // No protected bucket is ever dropped, not even when the eviction raises.
  lemma {:induction false} ProtectedSurvive(config: Config, s: Limiter, key: string)
    requires OrderInv(s) && key in s.buckets && key in s.protectedKeys
    ensures key in BoundMemory(config, s).0.buckets && BoundMemory(config, s).0.buckets[key] == s.buckets[key]
  {
    hide Retained, FirstEvictable, Evict, OrderInv;
    var kept := Packed(s);
    PackedInOrder(s);
    var first := FirstEvictable(kept.order, kept.protectedKeys);
    FirstEvictableIs(kept.order, kept.protectedKeys);
    if first < |kept.order| {
      EvictOneSize(kept, first);
    }
  }

  /*** Which buckets are evicted ***/

  // A bucket with events that is gone although nobody asked for it to go.
  ghost predicate Evicted(before: Limiter, after: Limiter, key: string) {
    key in before.buckets && before.buckets[key] != [] && key !in after.buckets
  }

  // When a bucket with events goes, every older one that stays is protected.
  ghost predicate OldestFirst(before: Limiter, after: Limiter) {
    forall i, j :: 0 <= i < j < |before.order| && Evicted(before, after, before.order[j]) && before.order[i] in after.buckets ==>
      before.order[i] in before.protectedKeys
  }

  // Over the limit, empty buckets go first; one with events goes only when they do not suffice, no more than one at a time,
  // and then the oldest that is not protected. What stays is unchanged, and in the order in which it came.
  ghost predicate EvictsOldest(config: Config, before: Limiter, after: Limiter) {
    && Shrinks(before, after) && OldestFirst(before, after)
    && (|before.buckets| <= config.maxBuckets ==> after == before)
    && (|before.buckets| > config.maxBuckets ==>
          forall key :: key in after.buckets && key !in before.protectedKeys ==> before.buckets[key] != [])
    && (forall key :: key in before.buckets && key in before.protectedKeys ==> key in after.buckets)
    && (forall key :: Evicted(before, after, key) ==> |after.buckets| >= config.maxBuckets)
    && (forall a, b :: Evicted(before, after, a) && Evicted(before, after, b) ==> a == b)
    && SameOrder(before.order, after.order)
  }

  ghost predicate SameOrder(before: seq<string>, after: seq<string>) {
    forall p, q :: 0 <= p < q < |after| ==> Precedes(before, after[p], after[q])
  }

  ghost predicate Precedes(order: seq<string>, x: string, y: string) {
    exists i, j :: 0 <= i < j < |order| && order[i] == x && order[j] == y
  }

  lemma {:induction false} RetainedAt(s: Limiter, order: seq<string>, p: nat) returns (i: nat)
    requires p < |Retained(s, order)|
    ensures i < |order| && order[i] == Retained(s, order)[p]
  {
    hide Droppable;
    if Droppable(s, order[0]) {
      i := RetainedAt(s, order[1..], p);
      i := i + 1;
    } else if p == 0 {
      i := 0;
    } else {
      i := RetainedAt(s, order[1..], p - 1);
      i := i + 1;
    }
  }

  lemma {:induction false} RetainedInOrder(s: Limiter, order: seq<string>, p: nat, q: nat) returns (i: nat, j: nat)
    requires p < q < |Retained(s, order)|
    ensures i < j < |order| && order[i] == Retained(s, order)[p] && order[j] == Retained(s, order)[q]
  {
    hide Droppable;
    if Droppable(s, order[0]) {
      i, j := RetainedInOrder(s, order[1..], p, q);
      i, j := i + 1, j + 1;
    } else if p == 0 {
      i := 0;
      j := RetainedAt(s, order[1..], q - 1);
      j := j + 1;
    } else {
      i, j := RetainedInOrder(s, order[1..], p - 1, q - 1);
      i, j := i + 1, j + 1;
    }
  }

  lemma {:induction false} PackedSameOrder(s: Limiter)
    ensures SameOrder(s.order, Packed(s).order)
  {
    hide Retained;
    var kept := Retained(s, s.order);
    forall p, q | 0 <= p < q < |kept|
      ensures Precedes(s.order, kept[p], kept[q])
    {
      var i, j := RetainedInOrder(s, s.order, p, q);
    }
  }

  lemma {:induction false} NotBothWays(order: seq<string>, x: string, y: string)
    requires (forall a, b :: 0 <= a < b < |order| ==> order[a] != order[b]) && Precedes(order, x, y)
    ensures !Precedes(order, y, x)
  {
  }

  // Two keys that both stay stand in the same order as before.
  lemma {:induction false} OrderOfStaying(before: seq<string>, after: seq<string>, i: nat, j: nat) returns (p: nat, q: nat)
    requires forall a, b :: 0 <= a < b < |before| ==> before[a] != before[b]
    requires SameOrder(before, after) && i < j < |before| && before[i] in after && before[j] in after
    ensures p < q < |after| && after[p] == before[i] && after[q] == before[j]
  {
    p :| 0 <= p < |after| && after[p] == before[i];
    q :| 0 <= q < |after| && after[q] == before[j];
    assert Precedes(before, before[i], before[j]);
    NotBothWays(before, before[i], before[j]);
    hide Precedes;
  }

  lemma {:induction false} BeforeFirstEvictable(order: seq<string>, protectedKeys: set<string>, p: nat)
    requires p < FirstEvictable(order, protectedKeys)
    ensures p < |order| && order[p] in protectedKeys
  {
    if p > 0 {
      BeforeFirstEvictable(order[1..], protectedKeys, p - 1);
    }
  }

  lemma {:induction false} EvictSameOrder(s: Limiter, first: nat)
    requires first < |s.order|
    ensures SameOrder(s.order, Evict(s, first).order)
  {
    var after := Evict(s, first).order;
    forall p, q | 0 <= p < q < |after|
      ensures Precedes(s.order, after[p], after[q])
    {
      var i, j := if p < first then p else p + 1, if q < first then q else q + 1;
      assert s.order[i] == after[p] && s.order[j] == after[q];
    }
  }

  lemma {:induction false} SameOrderThrough(a: seq<string>, b: seq<string>, c: seq<string>)
    requires SameOrder(a, b) && SameOrder(b, c)
    ensures SameOrder(a, c)
  {
    forall p, q | 0 <= p < q < |c|
      ensures Precedes(a, c[p], c[q])
    {
      assert Precedes(b, c[p], c[q]);
    }
  }

  // Removing the first evictable key is right for every limiter whose remaining keys are the same.
  lemma {:induction false} FirstIsOldest(s: Limiter, kept: Limiter, first: nat)
    requires OrderInv(s) && OrderInv(kept) && SameOrder(s.order, kept.order) && Shrinks(s, kept)
    requires forall key :: key in s.buckets && s.buckets[key] != [] ==> key in kept.buckets
    requires first == FirstEvictable(kept.order, kept.protectedKeys) < |kept.order|
    ensures OldestFirst(s, Evict(kept, first))
  {
    hide FirstEvictable;
    var after := Evict(kept, first);
    EvictOneSize(kept, first);
    hide Evict;
    forall i, j | 0 <= i < j < |s.order| && Evicted(s, after, s.order[j]) && s.order[i] in after.buckets
      ensures s.order[i] in s.protectedKeys
    {
      assert s.order[j] in kept.buckets && s.order[j] == kept.order[first];
      var p, q := OrderOfStaying(s.order, kept.order, i, j);
      assert q == first;
      BeforeFirstEvictable(kept.order, kept.protectedKeys, p);
    }
  }

  // Dropping the empty buckets evicts nothing.
  lemma {:induction false} PackedEvictsNothing(s: Limiter)
    requires OrderInv(s)
    ensures
      var kept := Packed(s);
      && Shrinks(s, kept) && OldestFirst(s, kept) && SameOrder(s.order, kept.order) && OrderInv(kept)
      && (forall key :: key in s.buckets && (s.buckets[key] != [] || key in s.protectedKeys) ==> key in kept.buckets)
      && (forall key :: key in kept.buckets && key !in s.protectedKeys ==> s.buckets[key] != [])
  {
    hide Packed, SameOrder, OldestFirst, OrderInv;
    PackedInOrder(s);
    PackedSameOrder(s);
    PackedShrinks(s);
    NothingEvicted(s, Packed(s));
  }

  // Evicting one more is what is left to do, of the oldest unprotected key.
  lemma {:induction false} OneIsEvicted(config: Config, s: Limiter, kept: Limiter, first: nat)
    requires OrderInv(s) && OrderInv(kept) && SameOrder(s.order, kept.order) && Shrinks(s, kept)
    requires |s.buckets| > config.maxBuckets && |kept.buckets| > config.maxBuckets
    requires forall key :: key in s.buckets && (s.buckets[key] != [] || key in s.protectedKeys) ==> key in kept.buckets
    requires forall key :: key in kept.buckets && key !in s.protectedKeys ==> s.buckets[key] != []
    requires first == FirstEvictable(kept.order, kept.protectedKeys) < |kept.order|
    ensures EvictsOldest(config, s, Evict(kept, first))
  {
    hide FirstEvictable, Evict, SameOrder, OldestFirst, OrderInv;
    FirstEvictableIs(kept.order, kept.protectedKeys);
    EvictOneSize(kept, first);
    EvictSameOrder(kept, first);
    SameOrderThrough(s.order, kept.order, Evict(kept, first).order);
    FirstIsOldest(s, kept, first);
    EvictShrinks(kept, first);
  }

  lemma {:induction false} BoundEvictsOldest(config: Config, s: Limiter)
    requires OrderInv(s)
    ensures EvictsOldest(config, s, BoundMemory(config, s).0)
  {
    hide Packed, FirstEvictable, Evict, SameOrder, OldestFirst, OrderInv;
    var kept := Packed(s);
    if |s.buckets| <= config.maxBuckets {
      SameOrderSelf(s.order);
      NothingEvicted(s, s);
    } else {
      PackedEvictsNothing(s);
      var first := FirstEvictable(kept.order, kept.protectedKeys);
      if |kept.buckets| > config.maxBuckets && first < |kept.order| {
        hide EvictsOldest;
        OneIsEvicted(config, s, kept, first);
      }
    }
  }

  lemma {:induction false} PackedShrinks(s: Limiter)
    ensures Shrinks(s, Packed(s))
  {
    hide Retained;
  }

  lemma {:induction false} EvictShrinks(s: Limiter, first: nat)
    requires first < |s.order|
    ensures Shrinks(s, Evict(s, first))
  {
  }

  lemma {:induction false} SameOrderSelf(order: seq<string>)
    ensures SameOrder(order, order)
  {
  }

  lemma {:induction false} NothingEvicted(before: Limiter, after: Limiter)
    requires forall key :: key in before.buckets && before.buckets[key] != [] ==> key in after.buckets
    ensures OldestFirst(before, after)
  {
  }

  // The eviction over a snapshot, too, removes the oldest unprotected keys first, however many it removes.
  lemma {:induction false} SnapshotEvictsOldest(config: Config, s: Limiter)
    requires OrderInv(s)
    ensures OldestFirst(s, EvictFromSnapshot(config, s)) && Shrinks(s, EvictFromSnapshot(config, s))
    decreases |s.order|
  {
    hide FirstEvictable, Evict, OrderInv, SameOrder;
    var first := FirstEvictable(s.order, s.protectedKeys);
    NothingEvicted(s, s);
    if |s.buckets| > config.maxBuckets && first < |s.order| {
      var next := Evict(s, first);
      EvictOneSize(s, first);
      EvictKeepsOrder(s, first);
      EvictSameOrder(s, first);
      EvictShrinks(s, first);
      SameOrderSelf(s.order);
      SnapshotEvictsOldest(config, next);
      FirstIsOldest(s, s, first);
      OldestThenOldest(s, next, EvictFromSnapshot(config, next));
    }
  }

  lemma {:induction false} OldestThenOldest(s: Limiter, next: Limiter, after: Limiter)
    requires OrderInv(s) && OrderInv(next) && SameOrder(s.order, next.order)
    requires Shrinks(s, next) && Shrinks(next, after) && OldestFirst(s, next) && OldestFirst(next, after)
    ensures OldestFirst(s, after)
  {
    forall i, j | 0 <= i < j < |s.order| && Evicted(s, after, s.order[j]) && s.order[i] in after.buckets
      ensures s.order[i] in s.protectedKeys
    {
      if s.order[j] in next.buckets {
        var p, q := OrderOfStaying(s.order, next.order, i, j);
        assert Evicted(next, after, next.order[q]);
      } else {
        assert Evicted(s, next, s.order[j]);
      }
    }
  }

  lemma {:induction false} TouchKeepsOrder(s: Limiter, rule: Rule, now: real)
    requires OrderInv(s)
    ensures OrderInv(Touch(s, rule, now))
  {
    hide Prune;
    var touched := Touch(s, rule, now);
    if rule.key !in s.buckets {
      assert rule.key !in s.order;
      assert touched.order == s.order + [rule.key];
    }
  }

  lemma {:induction false} PassKeepsOrder(s: Limiter, rules: seq<Rule>, now: real)
    requires OrderInv(s)
    ensures
      var (touched, verdict) := MemoryPass(s, rules, now);
      && OrderInv(touched) && s.buckets.Keys <= touched.buckets.Keys
      && (verdict == Admitted ==> forall i :: 0 <= i < |rules| ==> rules[i].key in touched.buckets)
    decreases |rules|
  {
    if rules != [] {
      hide OrderInv, Touch, Verdict;
      var first := Touch(s, rules[0], now);
      TouchKeepsOrder(s, rules[0], now);
      TouchHasKey(s, rules[0], now);
      PassKeepsOrder(first, rules[1..], now);
      var (touched, verdict) := MemoryPass(first, rules[1..], now);
      if verdict == Admitted {
        RestTouched(rules, touched);
      }
    }
  }

  lemma {:induction false} TouchHasKey(s: Limiter, rule: Rule, now: real)
    ensures s.buckets.Keys + {rule.key} == Touch(s, rule, now).buckets.Keys
  {
    hide Prune;
  }

  lemma {:induction false} RestTouched(rules: seq<Rule>, touched: Limiter)
    requires rules != [] && rules[0].key in touched.buckets
    requires forall i :: 0 <= i < |rules[1..]| ==> rules[1..][i].key in touched.buckets
    ensures forall i :: 0 <= i < |rules| ==> rules[i].key in touched.buckets
  {
    assert forall i :: 1 <= i < |rules| ==> rules[i] == rules[1..][i - 1];
  }

  lemma {:induction false} ChargeKeepsOrder(s: Limiter, rules: seq<Rule>, now: real)
    requires OrderInv(s) && forall i :: 0 <= i < |rules| ==> rules[i].key in s.buckets
    ensures OrderInv(Charge(s, rules, now)) && Charge(s, rules, now).buckets.Keys == s.buckets.Keys
    decreases |rules|
  {
    if rules != [] {
      var charged := s.(buckets := s.buckets[rules[0].key := Bucket(s, rules[0].key) + [now]]);
      assert charged.buckets.Keys == s.buckets.Keys;
      ChargeKeepsOrder(charged, rules[1..], now);
    }
  }

  lemma {:induction false} DecideKeepsOrder(config: Config, s: Limiter, rules: seq<Rule>, now: real, storeNow: real)
    requires OrderInv(s)
    ensures OrderInv(Decide(config, s, rules, now, storeNow).0)
  {
    hide MemoryPass, Charge, StorePass, Select, Unexpired, RowsFor;
    var memory := Select(rules, false, config.persistent);
    PassKeepsOrder(s, memory, now);
    var (touched, verdict) := MemoryPass(s, memory, now);
    if verdict == Admitted {
      ChargeKeepsOrder(touched, memory, now);
    }
  }

  lemma {:induction false} CheckKeepsOrder(config: Config, s: Limiter, rules: seq<Rule>, now: real, storeNow: real)
    requires OrderInv(s)
    ensures OrderInv(Checked(config, s, rules, now, storeNow).0)
  {
    hide Decide, Retained;
    DecideKeepsOrder(config, s, rules, now, storeNow);
    var decided := Decide(config, s, rules, now, storeNow).0;
    var kept := Packed(decided);
    PackedInOrder(decided);
    var first := FirstEvictable(kept.order, kept.protectedKeys);
    if first < |kept.order| {
      EvictKeepsOrder(kept, first);
    }
  }

  // In every reachable state the dictionary order lists exactly the buckets, so what is proved above applies to every run.
  lemma {:induction false} RunKeepsOrder(config: Config, events: seq<Event>)
    ensures OrderInv(Run(config, events).limiter)
  {
    if events != [] {
      hide Checked, OrderInv, HistoryDecide, Forget;
      RunKeepsOrder(config, events[..|events| - 1]);
      var y, event := Run(config, events[..|events| - 1]), events[|events| - 1];
      CheckKeepsOrder(config, y.limiter, event.rules, Advance(y.clock, event.delay), Advance(y.storeClock, event.storeDelay));
    } else {
      assert Run(config, events).limiter.order == [];
    }
  }

  /*** What a check leaves behind ***/

  ghost predicate Unnamed(rules: seq<Rule>, key: string) {
    forall i :: 0 <= i < |rules| ==> rules[i].key != key
  }

  // The pass appends new keys, touches the buckets of its own rules and no other, and remembers protected keys.
  ghost predicate Passes(s: Limiter, rules: seq<Rule>, touched: Limiter, verdict: Outcome) {
    && s.order <= touched.order && s.protectedKeys <= touched.protectedKeys
    && (forall key :: Unnamed(rules, key) ==> SameBucket(s, touched, key))
    && (verdict == Admitted ==> forall i :: 0 <= i < |rules| ==>
          && rules[i].key in touched.buckets
          && (rules[i].key !in s.buckets ==> touched.buckets[rules[i].key] == [])
          && (rules[i].protected ==> rules[i].key in touched.protectedKeys))
  }

  ghost predicate SameBucket(s: Limiter, s': Limiter, key: string) {
    && (key in s'.buckets <==> key in s.buckets) && (key in s.buckets ==> s'.buckets[key] == s.buckets[key])
    && (key in s'.protectedKeys <==> key in s.protectedKeys)
  }

  ghost predicate DistinctKeys(rules: seq<Rule>) {
    forall i, j :: 0 <= i < j < |rules| ==> rules[i].key != rules[j].key
  }

  lemma {:induction false} TouchFrame(s: Limiter, rule: Rule, now: real)
    ensures
      var touched := Touch(s, rule, now);
      && s.order <= touched.order && s.protectedKeys <= touched.protectedKeys
      && (forall key :: key != rule.key ==> SameBucket(s, touched, key))
      && rule.key in touched.buckets && (rule.key !in s.buckets ==> touched.buckets[rule.key] == [])
      && (rule.protected ==> rule.key in touched.protectedKeys)
  {
  }

  lemma {:induction false} PassFrame(s: Limiter, rules: seq<Rule>, now: real)
    requires DistinctKeys(rules)
    ensures Passes(s, rules, MemoryPass(s, rules, now).0, MemoryPass(s, rules, now).1)
    decreases |rules|
  {
    if rules != [] {
      hide Touch, Verdict, Passes;
      var first := Touch(s, rules[0], now);
      TouchFrame(s, rules[0], now);
      PassFrame(first, rules[1..], now);
      var (touched, verdict) := MemoryPass(s, rules, now);
      if Verdict(first.buckets[rules[0].key], rules[0], now) == Admitted {
        PassesCons(s, rules, first, touched, verdict);
      } else {
        StopsAtFirst(s, rules, first, verdict);
      }
    } else {
      hide Touch, Verdict;
    }
  }

  lemma {:induction false} StopsAtFirst(s: Limiter, rules: seq<Rule>, first: Limiter, verdict: Outcome)
    requires rules != [] && verdict != Admitted && s.order <= first.order && s.protectedKeys <= first.protectedKeys
    requires forall key :: key != rules[0].key ==> SameBucket(s, first, key)
    ensures Passes(s, rules, first, verdict)
  {
    hide SameBucket;
  }

  lemma {:induction false} PassesCons(s: Limiter, rules: seq<Rule>, first: Limiter, touched: Limiter, verdict: Outcome)
    requires rules != [] && DistinctKeys(rules) && s.order <= first.order && s.protectedKeys <= first.protectedKeys
    requires forall key :: key != rules[0].key ==> SameBucket(s, first, key)
    requires rules[0].key in first.buckets && (rules[0].key !in s.buckets ==> first.buckets[rules[0].key] == [])
    requires rules[0].protected ==> rules[0].key in first.protectedKeys
    requires Passes(first, rules[1..], touched, verdict)
    ensures Passes(s, rules, touched, verdict)
  {
    forall key | Unnamed(rules, key)
      ensures SameBucket(s, touched, key)
    {
      assert Unnamed(rules[1..], key) && rules[0].key != key;
      assert SameBucket(s, first, key) && SameBucket(first, touched, key);
    }
    assert Unnamed(rules[1..], rules[0].key);
    assert SameBucket(first, touched, rules[0].key);
    if verdict == Admitted {
      forall i | 1 <= i < |rules|
        ensures rules[i].key in touched.buckets && (rules[i].key !in s.buckets ==> touched.buckets[rules[i].key] == [])
        ensures rules[i].protected ==> rules[i].key in touched.protectedKeys
      {
        assert rules[i] == rules[1..][i - 1] && rules[i].key != rules[0].key;
        assert SameBucket(s, first, rules[i].key);
      }
    }
  }

  // Charging adds the time to the bucket of every rule, and changes nothing else.
  lemma {:induction false} ChargeFrame(s: Limiter, rules: seq<Rule>, now: real)
    requires DistinctKeys(rules)
    ensures
      var charged := Charge(s, rules, now);
      && charged == s.(buckets := charged.buckets)
      && (forall key :: Unnamed(rules, key) ==> SameBucket(s, charged, key))
      && (forall i :: 0 <= i < |rules| ==>
            rules[i].key in charged.buckets && charged.buckets[rules[i].key] == Bucket(s, rules[i].key) + [now])
    decreases |rules|
  {
    if rules != [] {
      var first := s.(buckets := s.buckets[rules[0].key := Bucket(s, rules[0].key) + [now]]);
      ChargeFrame(first, rules[1..], now);
      hide Charge;
      var charged := Charge(first, rules[1..], now);
      forall key | Unnamed(rules, key)
        ensures SameBucket(s, charged, key)
      {
        assert Unnamed(rules[1..], key) && rules[0].key != key;
      }
      assert Unnamed(rules[1..], rules[0].key);
      forall i | 1 <= i < |rules|
        ensures rules[i].key in charged.buckets && charged.buckets[rules[i].key] == Bucket(s, rules[i].key) + [now]
      {
        assert rules[i] == rules[1..][i - 1] && rules[i].key != rules[0].key;
      }
    }
  }

  lemma {:induction false} SelectKeepsDistinct(rules: seq<Rule>, durable: bool, persistent: bool)
    requires DistinctKeys(rules)
    ensures DistinctKeys(Select(rules, durable, persistent))
    ensures forall key :: Unnamed(rules, key) ==> Unnamed(Select(rules, durable, persistent), key)
  {
    if rules != [] {
      SelectKeepsDistinct(rules[1..], durable, persistent);
      assert Unnamed(rules[1..], rules[0].key);
      forall key | Unnamed(rules, key)
        ensures Unnamed(rules[1..], key)
      {
      }
    }
  }

  lemma {:induction false} SelectedAt(rules: seq<Rule>, durable: bool, persistent: bool, i: nat) returns (k: nat)
    requires i < |rules| && (rules[i].protected && persistent) == durable
    ensures k < |Select(rules, durable, persistent)| && Select(rules, durable, persistent)[k] == rules[i]
  {
    if i == 0 {
      k := 0;
    } else {
      k := SelectedAt(rules[1..], durable, persistent, i - 1);
      if (rules[0].protected && persistent) == durable {
        k := k + 1;
      }
    }
  }

  // What an admitted check has done to the memory before the bound is applied.
  lemma {:induction false} DecideFrame(config: Config, s: Limiter, rules: seq<Rule>, now: real, storeNow: real, i: nat)
    requires DistinctKeys(rules) && Decide(config, s, rules, now, storeNow).1 == Admitted
    requires i < |rules| && !(rules[i].protected && config.persistent)
    ensures
      var decided := Decide(config, s, rules, now, storeNow).0;
      && s.order <= decided.order && s.protectedKeys <= decided.protectedKeys
      && (forall key :: Unnamed(rules, key) ==> SameBucket(s, decided, key))
      && rules[i].key in decided.buckets && decided.buckets[rules[i].key] != []
      && (rules[i].key !in s.buckets ==> decided.buckets[rules[i].key] == [now])
      && (rules[i].protected ==> rules[i].key in decided.protectedKeys)
  {
    hide Select, MemoryPass, Charge, StorePass, Unexpired, RowsFor, Unnamed;
    var memory := Select(rules, false, config.persistent);
    SelectKeepsDistinct(rules, false, config.persistent);
    var k := SelectedAt(rules, false, config.persistent, i);
    PassFrame(s, memory, now);
    ChargeFrame(MemoryPass(s, memory, now).0, memory, now);
  }

  // A rejected check evicts nothing and leaves the table as it was.
  lemma {:induction false} RejectionEvictsNothing(config: Config, s: Limiter, rules: seq<Rule>, now: real, storeNow: real)
    requires OrderInv(s) && Decide(config, s, rules, now, storeNow).1 != Admitted
    ensures
      var (after, outcome) := Checked(config, s, rules, now, storeNow);
      && outcome == Decide(config, s, rules, now, storeNow).1
      && s.buckets.Keys <= after.buckets.Keys && after.store == s.store && s.order <= after.order
  {
    hide Select, MemoryPass, Charge, StorePass, Unexpired, RowsFor, OrderInv, BoundMemory;
    var memory := Select(rules, false, config.persistent);
    PassKeepsOrder(s, memory, now);
    PassKeepsStore(s, memory, now);
    PassExtendsOrder(s, memory, now);
  }

  lemma {:induction false} PassExtendsOrder(s: Limiter, rules: seq<Rule>, now: real)
    ensures s.order <= MemoryPass(s, rules, now).0.order
    decreases |rules|
  {
    if rules != [] {
      hide Prune, Verdict;
      PassExtendsOrder(Touch(s, rules[0], now), rules[1..], now);
    }
  }

  // A bucket charged for the first time stays when an older, unprotected one with events could go instead.
  lemma {:induction false} FreshOutlivesOld(
    config: Config, s: Limiter, rules: seq<Rule>, now: real, storeNow: real, i: nat, older: string)
    requires OrderInv(s) && DistinctKeys(rules) && Decide(config, s, rules, now, storeNow).1 == Admitted
    requires i < |rules| && !(rules[i].protected && config.persistent) && rules[i].key !in s.buckets
    requires older in s.buckets && s.buckets[older] != [] && older !in s.protectedKeys && Unnamed(rules, older)
    ensures
      var after := Checked(config, s, rules, now, storeNow).0;
      rules[i].key in after.buckets && after.buckets[rules[i].key] == [now]
  {
    hide Decide, BoundMemory, SameOrder, Unnamed;
    var decided, newest := Decide(config, s, rules, now, storeNow).0, rules[i].key;
    DecideFrame(config, s, rules, now, storeNow, i);
    DecideKeepsOrder(config, s, rules, now, storeNow);
    BoundEvictsOldest(config, decided);
    var after := BoundMemory(config, decided).0;
    var a :| 0 <= a < |s.order| && s.order[a] == older;
    var b :| 0 <= b < |decided.order| && decided.order[b] == newest;
    assert forall x :: 0 <= x < |s.order| ==> decided.order[x] == s.order[x] && s.order[x] in s.buckets;
    assert SameBucket(s, decided, older);
    assert Evicted(decided, after, decided.order[b]) && decided.order[a] in after.buckets ==> older in decided.protectedKeys;
    assert Evicted(decided, after, older) && Evicted(decided, after, newest) ==> older == newest;
  }

  // Once a check reaches a protected memory rule, which it does when the rules before it admit the request, the key stays
  // protected and its bucket in memory, however the check ends and through whatever follows.
  lemma {:induction false} ProtectionIsRemembered(config: Config, events: seq<Event>, event: Event, i: nat, more: seq<Event>)
    requires i < |event.rules| && event.rules[i].protected && !config.persistent
    requires
      var y := Run(config, events);
      Decide(config, y.limiter, event.rules[..i], Advance(y.clock, event.delay), Advance(y.storeClock, event.storeDelay)).1 == Admitted
    ensures
      var s, key := Run(config, events + [event] + more).limiter, event.rules[i].key;
      key in s.protectedKeys && key in s.buckets
  {
    hide Run, Step, Decide;
    if more == [] {
      assert events + [event] + more == events + [event];
      RunStep(config, events, event);
      RunKeepsOrder(config, events);
      CheckProtects(config, Run(config, events), event, i);
    } else {
      var front, last := more[..|more| - 1], more[|more| - 1];
      ProtectionIsRemembered(config, events, event, i, front);
      assert events + [event] + more == (events + [event] + front) + [last];
      RunStep(config, events + [event] + front, last);
      RunKeepsOrder(config, events + [event] + front);
      StepKeepsProtection(config, Run(config, events + [event] + front), last, event.rules[i].key);
    }
  }

  lemma {:induction false} RunStep(config: Config, events: seq<Event>, event: Event)
    ensures Run(config, events + [event]) == Step(config, Run(config, events), event)
  {
    hide Step;
    assert (events + [event])[..|events|] == events;
  }

  lemma {:induction false} CheckProtects(config: Config, y: System, event: Event, i: nat)
    requires OrderInv(y.limiter) && i < |event.rules| && event.rules[i].protected && !config.persistent
    requires Decide(config, y.limiter, event.rules[..i], Advance(y.clock, event.delay), Advance(y.storeClock, event.storeDelay)).1 == Admitted
    ensures
      var s, key := Step(config, y, event).limiter, event.rules[i].key;
      key in s.protectedKeys && key in s.buckets
  {
    hide Decide, HistoryDecide, Forget, BoundMemory, SameOrder, OldestFirst, OrderInv;
    var now, storeNow := Advance(y.clock, event.delay), Advance(y.storeClock, event.storeDelay);
    DecideProtects(config, y.limiter, event.rules, now, storeNow, i);
    DecideKeepsOrder(config, y.limiter, event.rules, now, storeNow);
    BoundEvictsOldest(config, Decide(config, y.limiter, event.rules, now, storeNow).0);
  }

  lemma {:induction false} DecideProtects(config: Config, s: Limiter, rules: seq<Rule>, now: real, storeNow: real, i: nat)
    requires OrderInv(s) && i < |rules| && rules[i].protected && !config.persistent
    requires Decide(config, s, rules[..i], now, storeNow).1 == Admitted
    ensures
      var decided := Decide(config, s, rules, now, storeNow).0;
      rules[i].key in decided.protectedKeys && rules[i].key in decided.buckets
  {
    hide Select, MemoryPass, Charge, StorePass, Unexpired, RowsFor, OrderInv;
    SelectAll(rules);
    SelectAll(rules[..i]);
    PassProtects(s, rules, now, i);
    PassKeepsOrder(s, rules, now);
    var (touched, verdict) := MemoryPass(s, rules, now);
    if verdict == Admitted {
      ChargeKeepsOrder(touched, rules, now);
      ChargeKeepsProtection(touched, rules, now);
    }
  }

  lemma {:induction false} SelectAll(rules: seq<Rule>)
    ensures Select(rules, false, false) == rules && Select(rules, true, false) == []
  {
    if rules != [] {
      SelectAll(rules[1..]);
    }
  }

  lemma {:induction false} PassProtects(s: Limiter, rules: seq<Rule>, now: real, i: nat)
    requires OrderInv(s) && i < |rules| && rules[i].protected && MemoryPass(s, rules[..i], now).1 == Admitted
    ensures
      var touched := MemoryPass(s, rules, now).0;
      rules[i].key in touched.protectedKeys && rules[i].key in touched.buckets
    decreases |rules|
  {
    hide Prune, Verdict, OrderInv;
    var first := Touch(s, rules[0], now);
    TouchKeepsOrder(s, rules[0], now);
    if i == 0 {
      PassKeepsOrder(first, rules[1..], now);
      PassKeepsProtection(first, rules[1..], now, rules[0].key);
    } else {
      assert rules[..i][1..] == rules[1..][..i - 1];
      PassProtects(first, rules[1..], now, i - 1);
    }
  }

  lemma {:induction false} StepKeepsProtection(config: Config, y: System, event: Event, key: string)
    requires OrderInv(y.limiter) && key in y.limiter.protectedKeys && key in y.limiter.buckets
    ensures
      var s := Step(config, y, event).limiter;
      key in s.protectedKeys && key in s.buckets
  {
    hide Decide, HistoryDecide, Forget, BoundMemory, SameOrder, OldestFirst, OrderInv;
    var now, storeNow := Advance(y.clock, event.delay), Advance(y.storeClock, event.storeDelay);
    DecideKeepsProtection(config, y.limiter, event.rules, now, storeNow, key);
    DecideKeepsOrder(config, y.limiter, event.rules, now, storeNow);
    BoundEvictsOldest(config, Decide(config, y.limiter, event.rules, now, storeNow).0);
  }

  lemma {:induction false} DecideKeepsProtection(config: Config, s: Limiter, rules: seq<Rule>, now: real, storeNow: real, key: string)
    requires OrderInv(s) && key in s.protectedKeys && key in s.buckets
    ensures
      var decided := Decide(config, s, rules, now, storeNow).0;
      key in decided.protectedKeys && key in decided.buckets
  {
    hide Select, MemoryPass, Charge, StorePass, Unexpired, RowsFor, OrderInv;
    var memory := Select(rules, false, config.persistent);
    PassKeepsOrder(s, memory, now);
    PassKeepsProtection(s, memory, now, key);
    var (touched, verdict) := MemoryPass(s, memory, now);
    if verdict == Admitted {
      ChargeKeepsOrder(touched, memory, now);
      ChargeKeepsProtection(touched, memory, now);
    }
  }

  lemma {:induction false} PassKeepsProtection(s: Limiter, rules: seq<Rule>, now: real, key: string)
    requires key in s.protectedKeys
    ensures key in MemoryPass(s, rules, now).0.protectedKeys
    decreases |rules|
  {
    if rules != [] {
      hide Prune, Verdict;
      PassKeepsProtection(Touch(s, rules[0], now), rules[1..], now, key);
    }
  }

  lemma {:induction false} ChargeKeepsProtection(s: Limiter, rules: seq<Rule>, now: real)
    ensures Charge(s, rules, now).protectedKeys == s.protectedKeys
    decreases |rules|
  {
    if rules != [] {
      ChargeKeepsProtection(s.(buckets := s.buckets[rules[0].key := Bucket(s, rules[0].key) + [now]]), rules[1..], now);
    }
  }

  // The events of a bucket that the rule counts at the given time.
  function CountedNow(config: Config, y: System, rule: Rule): seq<real> {
    if rule.protected && config.persistent then
      Within(Times(y.history.durable, rule.key), y.storeClock - rule.windowSeconds, y.storeClock)
    else Within(Times(y.history.memory, rule.key), y.clock - rule.windowSeconds, y.clock)
  }

  lemma {:induction false} JudgeCounts(times: seq<real>, rule: Rule, now: real)
    requires Ascending(times, now)
    ensures Judge(times, rule, now) == Admitted <==> |Within(times, now - rule.windowSeconds, now)| < rule.limit
  {
    hide Ascending, Live;
    LiveWithin(times, now, rule.windowSeconds);
  }

  lemma {:induction false} JudgeAllAdmits(history: map<string, seq<real>>, rules: seq<Rule>, now: real)
    ensures JudgeAll(history, rules, now) == Admitted
            <==> forall i :: 0 <= i < |rules| ==> Judge(Times(history, rules[i].key), rules[i], now) == Admitted
  {
    if rules != [] {
      hide Judge;
      JudgeAllAdmits(history, rules[1..], now);
      assert forall i :: 1 <= i < |rules| ==> rules[i] == rules[1..][i - 1];
    }
  }

  // In every run a check is admitted exactly when each of its rules has room: fewer events were charged to its bucket in
  // the window that ends now than the rule allows.
  lemma {:induction false} AdmittedExactlyWithRoom(
    config: Config, y: System, windows: string -> real, limits: string -> nat, rules: seq<Rule>)
    requires SystemInv(y, windows, limits) && GoodRules(rules, windows, limits)
    ensures
      Decide(config, y.limiter, rules, y.clock, y.storeClock).1 == Admitted
      <==> forall i :: 0 <= i < |rules| ==> |CountedNow(config, y, rules[i])| < rules[i].limit
  {
    hide MemoryRelated, StoreRelated, AllSpaced, Ascending, Decide, JudgeAll, JudgeStored, Select, Judge, Add, Within;
    var memory, durable := Select(rules, false, config.persistent), Select(rules, true, config.persistent);
    assert Windowed(rules, windows);
    RefinesFullHistory(config, y.limiter, y.history, windows, rules, y.clock, y.storeClock);
    RelatedAscends(y.limiter, y.history, windows, y.clock, y.storeClock);
    SelectKeepsGood(rules, windows, limits, true, config.persistent);
    StoredIsJudged(y.history.durable, durable, y.storeClock);
    JudgeAllAdmits(y.history.memory, memory, y.clock);
    JudgeAllAdmits(y.history.durable, durable, y.storeClock);
    SelectedKind(rules, false, config.persistent);
    SelectedKind(rules, true, config.persistent);
    forall rule | rule in rules
      ensures |CountedNow(config, y, rule)| < rule.limit <==> RuleAdmits(config, y, rule)
    {
      JudgeCounts(Times(y.history.memory, rule.key), rule, y.clock);
      JudgeCounts(Times(y.history.durable, rule.key), rule, y.storeClock);
    }
    hide CountedNow, GoodRules;
    assert (forall rule :: rule in memory ==> Judge(Times(y.history.memory, rule.key), rule, y.clock) == Admitted)
      && (forall rule :: rule in durable ==> Judge(Times(y.history.durable, rule.key), rule, y.storeClock) == Admitted)
      <==> (forall rule :: rule in rules ==> RuleAdmits(config, y, rule));
  }

  ghost predicate RuleAdmits(config: Config, y: System, rule: Rule) {
    if rule.protected && config.persistent then Judge(Times(y.history.durable, rule.key), rule, y.storeClock) == Admitted
    else Judge(Times(y.history.memory, rule.key), rule, y.clock) == Admitted
  }

  lemma {:induction false} SelectedKind(rules: seq<Rule>, durable: bool, persistent: bool)
    ensures forall rule :: rule in Select(rules, durable, persistent) <==> rule in rules && (rule.protected && persistent) == durable
  {
    if rules != [] {
      SelectedKind(rules[1..], durable, persistent);
      assert forall rule :: rule in rules <==> rule == rules[0] || rule in rules[1..];
    }
  }

  // One of the rules counts in the bucket of this key, in memory or in the table.
  ghost predicate ChargedIn(rules: seq<Rule>, key: string, durable: bool, persistent: bool) {
    exists i :: 0 <= i < |rules| && rules[i].key == key && (rules[i].protected && persistent) == durable
  }

  // An admitted check adds its time to the history of each of its buckets, once; a rejected one adds nothing anywhere.
  lemma {:induction false} ChargesAllOrNone(config: Config, h: History, rules: seq<Rule>, now: real, storeNow: real, key: string)
    requires DistinctKeys(rules)
    ensures
      var (h', outcome) := HistoryDecide(config, h, rules, now, storeNow);
      && Times(h'.memory, key)
         == Times(h.memory, key) + (if outcome == Admitted && ChargedIn(rules, key, false, config.persistent) then [now] else [])
      && Times(h'.durable, key)
         == Times(h.durable, key) + (if outcome == Admitted && ChargedIn(rules, key, true, config.persistent) then [storeNow] else [])
  {
    hide JudgeAll, JudgeStored, Select, Add, Times, DistinctKeys, ChargedIn, Unnamed;
    var memory, durable := Select(rules, false, config.persistent), Select(rules, true, config.persistent);
    SelectKeepsDistinct(rules, false, config.persistent);
    SelectKeepsDistinct(rules, true, config.persistent);
    SelectedNames(rules, false, config.persistent, key);
    SelectedNames(rules, true, config.persistent, key);
    AddAdds(h.memory, memory, now, key);
    AddAdds(h.durable, durable, storeNow, key);
    assert Times(h.memory, key) + [] == Times(h.memory, key) && Times(h.durable, key) + [] == Times(h.durable, key);
  }

  lemma {:induction false} SelectedNames(rules: seq<Rule>, durable: bool, persistent: bool, key: string)
    ensures Unnamed(Select(rules, durable, persistent), key) <==> !ChargedIn(rules, key, durable, persistent)
  {
    hide Select;
    var chosen := Select(rules, durable, persistent);
    if ChargedIn(rules, key, durable, persistent) {
      var i :| 0 <= i < |rules| && rules[i].key == key && (rules[i].protected && persistent) == durable;
      var k := SelectedAt(rules, durable, persistent, i);
    }
    if !Unnamed(chosen, key) {
      var k :| 0 <= k < |chosen| && chosen[k].key == key;
      var i := SelectedFrom(rules, durable, persistent, k);
    }
  }

  lemma {:induction false} AddAdds(history: map<string, seq<real>>, rules: seq<Rule>, now: real, key: string)
    requires DistinctKeys(rules)
    ensures Times(Add(history, rules, now), key) == Times(history, key) + (if Unnamed(rules, key) then [] else [now])
    decreases |rules|
  {
    if rules != [] {
      var first := history[rules[0].key := Times(history, rules[0].key) + [now]];
      AddAdds(first, rules[1..], now, key);
      hide Add;
      UnnamedCons(rules, key);
      assert Unnamed(rules[1..], rules[0].key);
    }
  }

  lemma {:induction false} UnnamedCons(rules: seq<Rule>, key: string)
    requires rules != []
    ensures Unnamed(rules, key) <==> rules[0].key != key && Unnamed(rules[1..], key)
  {
    assert forall i :: 1 <= i < |rules| ==> rules[i] == rules[1..][i - 1];
  }

  // With every place taken by a bucket in use, a request under two new keys is charged and then fails.
  lemma {:induction false} TwoNewKeysAtCapacityFail(config: Config, s: Limiter, first: Rule, second: Rule, now: real, storeNow: real)
    requires OrderInv(s) && |s.buckets| == config.maxBuckets && forall key :: key in s.buckets ==> !Droppable(s, key)
    requires !first.protected && !second.protected && first.limit >= 1 && second.limit >= 1
    requires first.key != second.key && first.key !in s.buckets && second.key !in s.buckets
    requires first.key !in s.protectedKeys && second.key !in s.protectedKeys
    ensures Decide(config, s, [first, second], now, storeNow).1 == Admitted
    ensures Checked(config, s, [first, second], now, storeNow).1 == EvictionError
  {
    hide OrderInv, Droppable, Decide, Retained;
    var decided := TwoCharged(s, first, second, now);
    TwoNewKeysDecide(config, s, first, second, now, storeNow);
    DecideKeepsOrder(config, s, [first, second], now, storeNow);
    TwoMore(s.buckets, first.key, second.key, [now]);
    AllRetained(s, first, second, now);
    PackedInOrder(decided);
    assert Packed(decided).buckets.Keys == decided.buckets.Keys;
    assert |Packed(decided).buckets.Keys| == |decided.buckets|;
    BoundRaisesExactly(config, decided);
    assert first.key in Packed(decided).buckets;
  }

  lemma {:induction false} AllRetained(s: Limiter, first: Rule, second: Rule, now: real)
    requires forall key :: key in s.buckets ==> !Droppable(s, key)
    ensures
      var decided := TwoCharged(s, first, second, now);
      forall key :: key in decided.buckets ==> !Droppable(decided, key)
  {
    var decided := TwoCharged(s, first, second, now);
    forall key | key in decided.buckets
      ensures !Droppable(decided, key)
    {
      assert key in s.buckets ==> !Droppable(s, key);
    }
  }

  lemma {:induction false} TwoMore<V>(m: map<string, V>, first: string, second: string, value: V)
    requires first != second && first !in m && second !in m
    ensures |m[first := value][second := value]| == |m| + 2
  {
    assert m[first := value].Keys == m.Keys + {first};
    assert m[first := value][second := value].Keys == m.Keys + {first} + {second};
  }

  lemma {:induction false} TwoNewKeysDecide(config: Config, s: Limiter, first: Rule, second: Rule, now: real, storeNow: real)
    requires !first.protected && !second.protected && first.limit >= 1 && second.limit >= 1
    requires first.key != second.key && first.key !in s.buckets && second.key !in s.buckets
    ensures Decide(config, s, [first, second], now, storeNow) == (TwoCharged(s, first, second, now), Admitted)
  {
    var rules, charged := [first, second], TwoCharged(s, first, second, now);
    assert rules[1..] == [second] && [second][1..] == [];
    assert Select([second], false, config.persistent) == [second] && Select([second], true, config.persistent) == [];
    assert Select(rules, false, config.persistent) == rules && Select(rules, true, config.persistent) == [];
    TwoNewKeysPass(s, first, second, now);
    hide MemoryPass, Charge, Touch, Select;
    assert s.store + RowsFor([], storeNow) == s.store;
  }

  function TwoCharged(s: Limiter, first: Rule, second: Rule, now: real): Limiter {
    s.(order := s.order + [first.key] + [second.key], buckets := s.buckets[first.key := [now]][second.key := [now]])
  }

  lemma {:induction false} TwoNewKeysPass(s: Limiter, first: Rule, second: Rule, now: real)
    requires !first.protected && !second.protected && first.limit >= 1 && second.limit >= 1
    requires first.key != second.key && first.key !in s.buckets && second.key !in s.buckets
    ensures
      var (touched, verdict) := MemoryPass(s, [first, second], now);
      verdict == Admitted && Charge(touched, [first, second], now) == TwoCharged(s, first, second, now)
  {
    var s1 := Touch(s, first, now);
    var s2 := Touch(s1, second, now);
    assert Bucket(s, first.key) == [] && Bucket(s1, second.key) == [] && Prune([], now - second.windowSeconds) == [];
    assert s2 == s.(order := s.order + [first.key] + [second.key], buckets := s.buckets[first.key := []][second.key := []]);
    assert [first, second][1..] == [second] && [second][1..] == [];
    hide Touch, Prune;
    assert MemoryPass(s2, [second][1..], now) == (s2, Admitted);
    assert MemoryPass(s, [first, second], now) == MemoryPass(s1, [second], now) == (s2, Admitted);
    hide MemoryPass;
    ChargeNew(s2, first.key, [first, second], now);
    var s3 := s2.(buckets := s2.buckets[first.key := [now]]);
    ChargeNew(s3, second.key, [second], now);
    var s4 := s3.(buckets := s3.buckets[second.key := [now]]);
    assert Charge(s4, [second][1..], now) == s4;
    assert s4.buckets == s.buckets[first.key := [now]][second.key := [now]];
  }

  lemma {:induction false} ChargeNew(s: Limiter, key: string, rules: seq<Rule>, now: real)
    requires rules != [] && rules[0].key == key && Bucket(s, key) == []
    ensures Charge(s, rules, now) == Charge(s.(buckets := s.buckets[key := [now]]), rules[1..], now)
  {
    assert [] + [now] == [now];
  }

  /*** The limiter object ***/

  class SlidingWindowRateLimiter {
    const config: Config
    var order: seq<string>
    var buckets: map<string, seq<real>>
    var protectedKeys: set<string>
    var store: seq<Row>

    function Snapshot(): Limiter
      reads this
    {
      Limiter(order, buckets, protectedKeys, store)
    }

    constructor (config: Config)
      ensures this.config == config && Snapshot() == Run(config, []).limiter
    {
      this.config := config;
      order, buckets, protectedKeys, store := [], map[], {}, [];
    }

    method PruneBucket(bucket: seq<real>, cutoff: real) returns (pruned: seq<real>)
      ensures pruned == Prune(bucket, cutoff)
    {
      pruned := bucket;
      while pruned != [] && pruned[0] <= cutoff
        invariant Prune(bucket, cutoff) == Prune(pruned, cutoff)
        decreases |pruned|
      {
        pruned := pruned[1..];
      }
    }

    method TouchBucket(rule: Rule, now: real)
      modifies this`order, this`buckets, this`protectedKeys
      ensures Snapshot() == Touch(old(Snapshot()), rule, now)
    {
      if rule.protected {
        protectedKeys := protectedKeys + {rule.key};
      }
      if rule.key !in buckets {
        buckets := buckets[rule.key := []];
        order := order + [rule.key];
      }
      var bucket := PruneBucket(buckets[rule.key], now - rule.windowSeconds);
      buckets := buckets[rule.key := bucket];
      assert buckets == old(buckets)[rule.key := bucket];
    }

    method PassMemory(rules: seq<Rule>, now: real) returns (verdict: Outcome)
      modifies this
      ensures (Snapshot(), verdict) == MemoryPass(old(Snapshot()), rules, now)
    {
      var i := 0;
      while i < |rules|
        invariant i <= |rules|
        invariant MemoryPass(old(Snapshot()), rules, now) == MemoryPass(Snapshot(), rules[i..], now)
      {
        assert rules[i..][1..] == rules[i + 1..];
        assert rules[i].key in Touch(Snapshot(), rules[i], now).buckets;
        hide Touch, RetryAfter;
        TouchBucket(rules[i], now);
        verdict := Verdict(buckets[rules[i].key], rules[i], now);
        if verdict != Admitted {
          return;
        }
        i := i + 1;
      }
      verdict := Admitted;
    }

    method PassStore(rows: seq<Row>, rules: seq<Rule>, now: real) returns (verdict: Outcome)
      ensures verdict == StorePass(rows, rules, now)
    {
      var i := 0;
      while i < |rules|
        invariant i <= |rules|
        invariant StorePass(rows, rules, now) == StorePass(rows, rules[i..], now)
      {
        verdict := StoreVerdict(Counted(rows, Sha256(rules[i].key), now - rules[i].windowSeconds), rules[i], now);
        assert rules[i..][1..] == rules[i + 1..];
        if verdict != Admitted {
          return;
        }
        i := i + 1;
      }
      verdict := Admitted;
    }

    method ChargeMemory(rules: seq<Rule>, now: real)
      modifies this`buckets
      ensures Snapshot() == Charge(old(Snapshot()), rules, now)
    {
      var i := 0;
      while i < |rules|
        invariant i <= |rules|
        invariant Charge(old(Snapshot()), rules, now) == Charge(Snapshot(), rules[i..], now)
      {
        assert rules[i..][1..] == rules[i + 1..];
        buckets := buckets[rules[i].key := (if rules[i].key in buckets then buckets[rules[i].key] else []) + [now]];
        i := i + 1;
      }
    }

    method KeepOnly(kept: seq<string>)
      modifies this`order, this`buckets
      ensures Snapshot() == Restrict(old(Snapshot()), kept)
    {
      order := kept;
      buckets := map key | key in buckets && key in kept :: buckets[key];
    }

    method DropEmpty()
      modifies this`order, this`buckets
      ensures Snapshot() == Packed(old(Snapshot()))
    {
      hide Retained;
      ghost var before := Snapshot();
      var kept: seq<string> := [];
      var i := 0;
      assert order[0..] == order;
      while i < |order|
        invariant i <= |order| && Snapshot() == before
        invariant Retained(before, order) == kept + Retained(before, order[i..])
      {
        RetainedNext(before, order, i);
        var key := order[i];
        if (if key in buckets then buckets[key] else []) != [] || key in protectedKeys {
          kept := kept + [key];
        }
        i := i + 1;
      }
      NothingRetained(before, order);
      assert kept == Retained(before, before.order);
      KeepOnly(kept);
    }

    method FindEvictable() returns (first: nat)
      ensures first == FirstEvictable(order, protectedKeys)
    {
      first := 0;
      while first < |order| && order[first] in protectedKeys
        invariant first <= |order|
        invariant FirstEvictable(order, protectedKeys) == first + FirstEvictable(order[first..], protectedKeys)
      {
        assert order[first..][1..] == order[first + 1..];
        first := first + 1;
      }
    }

    // One draw from the live iterator is all the loop ever completes: the next one raises.
    method Bound() returns (raised: bool)
      modifies this`order, this`buckets
      ensures (Snapshot(), raised) == BoundMemory(config, old(Snapshot()))
      ensures OrderInv(old(Snapshot())) ==> EvictsOldest(config, old(Snapshot()), Snapshot())
    {
      if OrderInv(Snapshot()) {
        BoundEvictsOldest(config, Snapshot());
      }
      hide Packed, FirstEvictable, Restrict;
      if |buckets| <= config.maxBuckets {
        return false;
      }
      DropEmpty();
      ghost var kept := Snapshot();
      if |buckets| <= config.maxBuckets {
        return false;
      }
      var first := FindEvictable();
      if first == |order| {
        return false;
      }
      KeepOnly(order[..first] + order[first + 1..]);
      assert Snapshot() == Evict(kept, first);
      raised := |buckets| > config.maxBuckets;
    }

    method Check(rules: seq<Rule>, now: real, storeNow: real) returns (outcome: Outcome)
      modifies this
      ensures (Snapshot(), outcome) == Checked(config, old(Snapshot()), rules, now, storeNow)
    {
      var memory, durable := Select(rules, false, config.persistent), Select(rules, true, config.persistent);
      outcome := PassMemory(memory, now);
      PassKeepsStore(old(Snapshot()), memory, now);
      if outcome != Admitted {
        return;
      }
      var rows := store;
      if durable != [] {
        rows := Unexpired(store, storeNow);
      }
      outcome := PassStore(rows, durable, storeNow);
      if outcome != Admitted {
        return;
      }
      ChargeMemory(memory, now);
      store := rows + RowsFor(durable, storeNow);
      var raised := Bound();
      outcome := if raised then EvictionError else Admitted;
    }
  }
}
