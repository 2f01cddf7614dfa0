// Moving the firewall's one internal-port rule to the current container network, with every command allowed to fail.

module FirewallMigration {
  import opened Json

  // A rule as its list of words.
  type Rule = seq<string>

  const INTERNAL_PORT := "18080"
  const RULE_COMMENT := "EventShock-Caddy-Nginx"

  datatype Scope = Scope(bridgeInterface: string, trustedNetwork: string, listenAddress: string)

  function ScopedRule(scope: Scope): Rule {
    ["ufw", "allow", "in", "on", scope.bridgeInterface, "from", scope.trustedNetwork, "to", scope.listenAddress,
     "port", INTERNAL_PORT, "proto", "tcp", "comment", RULE_COMMENT]
  }

  // The checks on the interface name and the two addresses: a bridge, a private network of at least 16 prefix bits, and
  // the listening address itself.
  datatype Checks = Checks(narrow: (string, string, string, string) -> bool)

  // A rule this program created: exactly its words, around a narrow scope.
  predicate Owned(checks: Checks, rule: Rule, listenAddress: string) {
    && |rule| == 15
    && rule == ScopedRule(Scope(rule[4], rule[6], rule[8]))
    && checks.narrow(rule[4], rule[6], rule[8], listenAddress)
  }

  predicate AllOwned(checks: Checks, rules: seq<Rule>, listenAddress: string) {
    forall rule :: rule in rules ==> Owned(checks, rule, listenAddress)
  }

  // The words by position: what a rule says after each of its keywords, and which rules the program takes for its own.
  lemma {:induction false} RuleByWords(checks: Checks, rule: Rule, listenAddress: string, scope: Scope)
    ensures Owned(checks, rule, listenAddress) <==>
      && |rule| == 15 && rule[..4] == ["ufw", "allow", "in", "on"] && rule[5] == "from" && rule[7] == "to"
      && rule[9..] == ["port", "18080", "proto", "tcp", "comment", "EventShock-Caddy-Nginx"]
      && checks.narrow(rule[4], rule[6], rule[8], listenAddress)
    ensures
      var words := ScopedRule(scope);
      && |words| == 15 && words[3] == "on" && words[4] == scope.bridgeInterface && words[5] == "from"
      && words[6] == scope.trustedNetwork && words[7] == "to" && words[8] == scope.listenAddress
  {
    if |rule| == 15 {
      SameWords(rule, ScopedRule(Scope(rule[4], rule[6], rule[8])));
    }
  }

  lemma {:induction false} SameWords(a: Rule, b: Rule)
    requires |a| == |b| == 15 && a[4] == b[4] && a[6] == b[6] && a[8] == b[8]
    ensures a == b <==> a[..4] == b[..4] && a[5] == b[5] && a[7] == b[7] && a[9..] == b[9..]
  {
    assert a == a[..4] + [a[4]] + [a[5]] + [a[6]] + [a[7]] + [a[8]] + a[9..];
    assert b == b[..4] + [b[4]] + [b[5]] + [b[6]] + [b[7]] + [b[8]] + b[9..];
  }

  // RollbackFailed is the error that says so; RolledBack re-raises the error that caused the rollback.
  datatype Outcome =
    | Inactive
    | Unreadable
    | AlreadyExact
    | Refused
    | Migrated(before: seq<Rule>)
    | RolledBack
    | RollbackFailed

  function RemoveOne(rules: seq<Rule>, rule: Rule): seq<Rule> {
    if rules == [] then []
    else if rules[0] == rule then rules[1..]
    else [rules[0]] + RemoveOne(rules[1..], rule)
  }

  function Distinct(rules: seq<Rule>): (distinct: seq<Rule>)
    ensures forall rule :: rule in distinct <==> rule in rules
    ensures forall i, j :: 0 <= i < j < |distinct| ==> distinct[i] != distinct[j]
  {
    if rules == [] then []
    else
      var rest := Distinct(rules[..|rules| - 1]);
      assert forall rule :: rule in rules <==> rule in rules[..|rules| - 1] || rule == rules[|rules| - 1];
      if rules[|rules| - 1] in rest then rest else rest + [rules[|rules| - 1]]
  }

  lemma {:induction false} RemoveOneCounts(rules: seq<Rule>, rule: Rule)
    ensures multiset(RemoveOne(rules, rule)) == multiset(rules) - multiset{rule}
  {
    if rules != [] {
      assert rules == [rules[0]] + rules[1..];
      RemoveOneCounts(rules[1..], rule);
    }
  }

  // From position `from` on, a rule list that holds the rule is only followed by rule lists that hold it.
  ghost predicate Keeps(states: seq<seq<Rule>>, from: nat, rule: Rule) {
    forall j, k :: from <= j <= k < |states| && rule in states[j] ==> rule in states[k]
  }

  ghost predicate AlwaysHolds(states: seq<seq<Rule>>, from: nat, rule: Rule) {
    forall k :: from <= k < |states| ==> rule in states[k]
  }

  // From position `from` on, every rule list contains at least these rules.
  ghost predicate Cover(states: seq<seq<Rule>>, from: nat, least: multiset<Rule>) {
    forall k :: from <= k < |states| ==> least <= multiset(states[k])
  }

  // The rules that the states lead to, when they were `start` at position `from`.
  ghost predicate LeadTo(states: seq<seq<Rule>>, from: nat, start: seq<Rule>, rules: seq<Rule>)
    requires from <= |states|
  {
    rules == if |states| == from then start else states[|states| - 1]
  }

  ghost predicate OwnedFrom(checks: Checks, deleted: seq<Rule>, from: nat, listenAddress: string) {
    forall k :: from <= k < |deleted| ==> Owned(checks, deleted[k], listenAddress)
  }

  lemma {:induction false} OnlyOne(rules: seq<Rule>, rule: Rule)
    requires multiset(rules) == multiset{rule}
    ensures rules == [rule]
  {
    assert |multiset(rules)| == 1;
    assert rules[0] in multiset(rules);
  }

  // At most `removed` occurrences of one rule are gone, and nothing else has changed.
  ghost predicate Removing(start: multiset<Rule>, now: multiset<Rule>, rule: Rule, removed: nat) {
    && now <= start && now[rule] >= start[rule] - removed
    && forall other :: other != rule ==> now[other] == start[other]
  }

  lemma {:induction false} RemovingOneMore(
    start: multiset<Rule>, earlier: multiset<Rule>, now: multiset<Rule>, rule: Rule, removed: nat)
    requires Removing(start, earlier, rule, removed) && (now == earlier || now == earlier - multiset{rule})
    ensures Removing(start, now, rule, removed + 1)
  {
  }

  lemma {:induction false} RemovingLeaves(start: multiset<Rule>, now: multiset<Rule>, rule: Rule, removed: nat, count: nat)
    requires Removing(start, now, rule, removed) && removed <= count <= start[rule]
    ensures start[rule := start[rule] - count] <= now
  {
  }

  lemma {:induction false} OwnedAppends(checks: Checks, before: seq<Rule>, after: seq<Rule>, from: nat, rule: Rule, listenAddress: string)
    requires OwnedFrom(checks, before, from, listenAddress)
    requires after == before || (after == before + [rule] && Owned(checks, rule, listenAddress))
    ensures OwnedFrom(checks, after, from, listenAddress)
  {
  }

  lemma {:induction false} NothingDeleted(checks: Checks, deleted: seq<Rule>, listenAddress: string)
    ensures OwnedFrom(checks, deleted, |deleted|, listenAddress)
  {
  }

  lemma {:induction false} NothingToCover(states: seq<seq<Rule>>, least: multiset<Rule>)
    ensures Cover(states, |states|, least)
  {
  }

  lemma {:induction false} CoverAppends(
    before: seq<seq<Rule>>, after: seq<seq<Rule>>, from: nat, least: multiset<Rule>, rules: seq<Rule>)
    requires Cover(before, from, least) && (after == before || after == before + [rules]) && least <= multiset(rules)
    ensures Cover(after, from, least)
  {
  }

  lemma {:induction false} RemovingAppends(
    before: seq<seq<Rule>>, after: seq<seq<Rule>>, from: nat,
    start: multiset<Rule>, earlier: multiset<Rule>, rules: seq<Rule>, rule: Rule, removed: nat, count: nat)
    requires Removing(start, earlier, rule, removed) && removed < count <= start[rule]
    requires multiset(rules) == earlier || multiset(rules) == earlier - multiset{rule}
    requires Cover(before, from, start[rule := start[rule] - count]) && (after == before || after == before + [rules])
    ensures Removing(start, multiset(rules), rule, removed + 1) && Cover(after, from, start[rule := start[rule] - count])
  {
    hide Removing, Cover;
    RemovingOneMore(start, earlier, multiset(rules), rule, removed);
    RemovingLeaves(start, multiset(rules), rule, removed + 1, count);
    CoverAppends(before, after, from, start[rule := start[rule] - count], rules);
  }

  // The firewall. `states` records the rules after each command, `deleted` the rules named in delete commands,
  // `faultless` whether every command succeeded and did what it should, since the start or since the rollback began, and
  // `troubled` whether one had not when the rollback began.
  class UfwHost {
    const checks: Checks
    var rules: seq<Rule>
    ghost var states: seq<seq<Rule>>
    ghost var deleted: seq<Rule>
    ghost var faultless: bool
    ghost var troubled: bool

    constructor (checks: Checks, rules: seq<Rule>)
      ensures this.checks == checks && this.rules == rules && states == [] && deleted == [] && faultless && !troubled
    {
      this.checks, this.rules := checks, rules;
      states, deleted, faultless, troubled := [], [], true, false;
    }

    // Reading the configured rules may fail, but never misreports.
    method Show() returns (ok: bool, shown: seq<Rule>)
      modifies this`faultless
      ensures ok ==> shown == rules
      ensures faultless == (old(faultless) && ok)
    {
      ok := *;
      shown := if ok then rules else [];
      faultless := faultless && ok;
    }

    // A command may fail with or without its effect, and may report success without it.
    method Add(rule: Rule) returns (ok: bool)
      modifies this`rules, this`states, this`faultless
      ensures rules == old(rules) || rules == old(rules) + [rule]
      ensures states == old(states) + [rules]
      ensures faultless ==> old(faultless) && ok && rules == old(rules) + [rule]
      ensures !ok ==> !faultless
    {
      ok := *;
      var effective: bool := *;
      if effective {
        rules := rules + [rule];
      }
      states := states + [rules];
      faultless := faultless && ok && effective;
    }

    method Delete(rule: Rule) returns (ok: bool)
      modifies this`rules, this`states, this`deleted, this`faultless
      ensures rules == old(rules) || rules == RemoveOne(old(rules), rule)
      ensures states == old(states) + [rules] && deleted == old(deleted) + [rule]
      ensures faultless ==> old(faultless) && ok && rules == RemoveOne(old(rules), rule)
      ensures !ok ==> !faultless
    {
      ok := *;
      var effective: bool := *;
      if effective {
        rules := RemoveOne(rules, rule);
      }
      states := states + [rules];
      deleted := deleted + [rule];
      faultless := faultless && ok && effective;
    }

    // The displayed status may lack the rule.
    method ShowsStatus() returns (ok: bool)
      modifies this`faultless
      ensures faultless == (old(faultless) && ok)
    {
      ok := *;
      faultless := faultless && ok;
    }

    // Delete one occurrence of an owned rule, and read back that exactly one is gone.
    method DeleteOwned(rule: Rule, listenAddress: string) returns (ok: bool)
      modifies this`rules, this`states, this`deleted, this`faultless
      ensures multiset(rules) == multiset(old(rules)) || multiset(rules) == multiset(old(rules)) - multiset{rule}
      ensures ok ==> multiset(old(rules))[rule] > 0 && multiset(rules)[rule] == multiset(old(rules))[rule] - 1
      ensures states == old(states) + (if |states| == |old(states)| then [] else [rules])
      ensures |states| == |old(states)| ==> rules == old(rules)
      ensures deleted == old(deleted) || (deleted == old(deleted) + [rule] && Owned(checks, rule, listenAddress))
      ensures faultless ==> old(faultless)
      ensures faultless && Owned(checks, rule, listenAddress) && rule in old(rules) ==>
                ok && multiset(rules) == multiset(old(rules)) - multiset{rule}
    {
      if !Owned(checks, rule, listenAddress) {
        return false;
      }
      var readable, before := Show();
      if !readable || multiset(before)[rule] < 1 {
        return false;
      }
      RemoveOneCounts(rules, rule);
      ok := Delete(rule);
      if !ok {
        return;
      }
      var readableAfter, after := Show();
      ok := readableAfter && multiset(after)[rule] == multiset(before)[rule] - 1;
    }

    method RestoreRule(rule: Rule, count: nat, listenAddress: string) returns (clean: bool)
      requires Owned(checks, rule, listenAddress)
      modifies this`rules, this`states, this`faultless
      ensures old(states) <= states && Cover(states, |old(states)|, multiset(old(rules)))
      ensures multiset(old(rules)) <= multiset(rules)
      ensures forall other :: other != rule ==> multiset(rules)[other] == multiset(old(rules))[other]
      ensures faultless ==> old(faultless) && clean && multiset(rules)[rule] == multiset(old(rules))[rule] + count
    {
      hide Owned;
      clean := true;
      for restored := 0 to count
        invariant old(states) <= states && Cover(states, |old(states)|, multiset(old(rules)))
        invariant multiset(old(rules)) <= multiset(rules)
        invariant forall other :: other != rule ==> multiset(rules)[other] == multiset(old(rules))[other]
        invariant faultless ==> old(faultless) && clean && multiset(rules)[rule] == multiset(old(rules))[rule] + restored
      {
        ghost var earlier := rules;
        var ok := Add(rule);
        assert multiset(earlier + [rule]) == multiset(earlier) + multiset{rule};
        clean := clean && ok;
      }
    }

    // First half of a rollback: put back what is missing. Nothing is removed, and no rule is added that was not there.
    method Restore(before: seq<Rule>, listenAddress: string) returns (clean: bool)
      requires AllOwned(checks, before, listenAddress)
      modifies this`rules, this`states, this`faultless
      ensures old(states) <= states && Cover(states, |old(states)|, multiset(old(rules)))
      ensures forall rule :: rule in rules ==> rule in old(rules) || rule in before
      ensures faultless ==> old(faultless) && clean && multiset(before) <= multiset(rules)
    {
      hide Owned;
      clean := true;
      var current := multiset(rules);
      var missing := Distinct(before);
      var i := 0;
      while i < |missing|
        invariant 0 <= i <= |missing| && old(states) <= states && Cover(states, |old(states)|, multiset(old(rules)))
        invariant multiset(old(rules)) <= multiset(rules)
        invariant forall rule :: rule in multiset(rules) ==> rule in old(rules) || rule in before
        invariant forall j :: i <= j < |missing| ==> multiset(rules)[missing[j]] == current[missing[j]]
        invariant faultless ==> old(faultless) && clean
        invariant faultless ==> forall j :: 0 <= j < i ==> multiset(before)[missing[j]] <= multiset(rules)[missing[j]]
      {
        var rule := missing[i];
        var count: int := multiset(before)[rule] as int - current[rule] as int;
        if count > 0 {
          var ok := RestoreRule(rule, count, listenAddress);
          clean := clean && ok;
        }
        i := i + 1;
      }
      assert forall rule :: rule in rules ==> rule in multiset(rules);
      if faultless {
        forall rule | rule in multiset(before)
          ensures multiset(before)[rule] <= multiset(rules)[rule]
        {
          assert rule in missing;
        }
      }
    }

    method RemoveRule(rule: Rule, count: nat, listenAddress: string) returns (clean: bool)
      requires count <= multiset(rules)[rule]
      modifies this`rules, this`states, this`deleted, this`faultless
      ensures old(states) <= states && old(deleted) <= deleted && OwnedFrom(checks, deleted, |old(deleted)|, listenAddress)
      ensures Cover(states, |old(states)|, multiset(old(rules))[rule := multiset(old(rules))[rule] - count])
      ensures Removing(multiset(old(rules)), multiset(rules), rule, count)
      ensures faultless ==> old(faultless)
      ensures faultless && Owned(checks, rule, listenAddress) ==> clean && multiset(rules)[rule] == multiset(old(rules))[rule] - count
    {
      clean := true;
      ghost var start := multiset(rules);
      ghost var least := start[rule := start[rule] - count];
      NothingToCover(states, least);
      hide Owned, Cover, OwnedFrom;
      assert Removing(start, start, rule, 0);
      assert OwnedFrom(checks, deleted, |deleted|, listenAddress) by { NothingDeleted(checks, deleted, listenAddress); }
      for removed := 0 to count
        invariant old(states) <= states && old(deleted) <= deleted && OwnedFrom(checks, deleted, |old(deleted)|, listenAddress)
        invariant Cover(states, |old(states)|, least) && Removing(start, multiset(rules), rule, removed)
        invariant faultless ==> old(faultless)
        invariant faultless && Owned(checks, rule, listenAddress) ==> clean && multiset(rules)[rule] == start[rule] - removed
      {
        hide Removing;
        ghost var earlier, before, deletedBefore := multiset(rules), states, deleted;
        ghost var there := rule in rules;
        assert multiset(rules)[rule] > 0 ==> there;
        var ok := DeleteOwned(rule, listenAddress);
        clean := clean && ok;
        RemovingAppends(before, states, |old(states)|, start, earlier, rules, rule, removed, count);
        OwnedAppends(checks, deletedBefore, deleted, |old(deleted)|, rule, listenAddress);
      }
    }

    // Second half: remove what is in excess. No rule falls below its old count.
    method RemoveExcess(before: seq<Rule>, listenAddress: string) returns (clean: bool)
      modifies this`rules, this`states, this`deleted, this`faultless
      ensures old(states) <= states && old(deleted) <= deleted && OwnedFrom(checks, deleted, |old(deleted)|, listenAddress)
      ensures multiset(before) <= multiset(old(rules)) ==> Cover(states, |old(states)|, multiset(before))
      ensures faultless ==> old(faultless)
      ensures faultless && multiset(before) <= multiset(old(rules)) && AllOwned(checks, old(rules), listenAddress)
              ==> clean && multiset(rules) == multiset(before)
    {
      hide Owned;
      clean := true;
      var current := multiset(rules);
      var present := Distinct(rules);
      ghost var enough := multiset(before) <= multiset(rules);
      ghost var removable := AllOwned(checks, rules, listenAddress);
      var i := 0;
      while i < |present|
        invariant 0 <= i <= |present| && old(states) <= states && old(deleted) <= deleted
        invariant OwnedFrom(checks, deleted, |old(deleted)|, listenAddress)
        invariant enough ==> multiset(before) <= multiset(rules) && Cover(states, |old(states)|, multiset(before))
        invariant multiset(rules) <= current
        invariant forall j :: i <= j < |present| ==> multiset(rules)[present[j]] == current[present[j]]
        invariant faultless ==> old(faultless)
        invariant faultless && enough && removable ==>
                    clean && forall j :: 0 <= j < i ==> multiset(rules)[present[j]] == multiset(before)[present[j]]
      {
        var rule := present[i];
        var count: int := current[rule] as int - multiset(before)[rule] as int;
        if count > 0 {
          var ok := RemoveRule(rule, count, listenAddress);
          clean := clean && ok;
        }
        i := i + 1;
      }
      if faultless && enough && removable {
        forall rule | rule in multiset(rules)
          ensures multiset(rules)[rule] <= multiset(before)[rule]
        {
          assert rule in current;
          assert rule in present;
        }
      }
    }

    // Undo a migration: restore first, then remove. Success means the old rules are back, whatever failed before.
    method Rollback(before: seq<Rule>, listenAddress: string) returns (ok: bool, ghost restored: nat)
      requires AllOwned(checks, before, listenAddress)
      modifies this`rules, this`states, this`deleted, this`faultless, this`troubled
      ensures troubled == !old(faultless)
      ensures ok ==> multiset(rules) == multiset(before)
      ensures old(states) <= states && old(deleted) <= deleted && OwnedFrom(checks, deleted, |old(deleted)|, listenAddress)
      ensures |old(states)| <= restored <= |states|
      ensures Cover(states[..restored], |old(states)|, multiset(old(rules)))
      ensures faultless ==> Cover(states, restored, multiset(before))
      ensures faultless && AllOwned(checks, old(rules), listenAddress) ==> ok
    {
      hide Owned;
      troubled, faultless := !faultless, true;
      restored := |states|;
      var readable, shown := Show();
      if !readable {
        return false, restored;
      }
      var clean := Restore(before, listenAddress);
      restored := |states|;
      assert states[..restored] == states;
      ghost var owned := AllOwned(checks, old(rules), listenAddress);
      assert owned ==> AllOwned(checks, rules, listenAddress);
      ghost var phase := states;
      readable, shown := Show();
      if !readable {
        return false, restored;
      }
      var removed := RemoveExcess(before, listenAddress);
      assert states[..restored] == phase;
      readable, shown := Show();
      if !readable {
        return false, restored;
      }
      ok := clean && removed && multiset(shown) == multiset(before);
    }

    method RemoveNext(expected: Rule, listenAddress: string, snapshot: seq<Rule>, i: nat, kept: bool) returns (ok: bool)
      requires i < |snapshot| && Migrating(snapshot, i, kept, multiset(rules), expected) && (kept || snapshot[i] != expected)
      modifies this`rules, this`states, this`deleted, this`faultless
      ensures expected in rules && Within(rules, snapshot)
      ensures ok ==> Migrating(snapshot, i + 1, kept, multiset(rules), expected)
      ensures states == old(states) || states == old(states) + [rules]
      ensures states == old(states) ==> rules == old(rules)
      ensures deleted == old(deleted) || (deleted == old(deleted) + [snapshot[i]] && Owned(checks, snapshot[i], listenAddress))
      ensures faultless ==> old(faultless)
      ensures faultless && Owned(checks, snapshot[i], listenAddress) ==> ok
    {
      hide Owned, Migrating;
      MigrationNext(snapshot, i, kept, multiset(rules), expected);
      ghost var earlier := multiset(rules);
      assert snapshot[i] in rules;
      ok := DeleteOwned(snapshot[i], listenAddress);
      MigrationHolds(snapshot, i, kept, earlier, multiset(rules), expected);
      assert forall rule :: rule in rules ==> rule in multiset(rules);
    }

    // Delete all but one occurrence of the expected rule and all other owned rules.
    method RemoveOthers(expected: Rule, listenAddress: string) returns (ok: bool)
      requires expected in rules
      modifies this`rules, this`states, this`deleted, this`faultless
      ensures old(states) <= states && AlwaysHolds(states, |old(states)|, expected) && expected in rules
      ensures LeadTo(states, |old(states)|, old(rules), rules)
      ensures Within(rules, old(rules))
      ensures old(deleted) <= deleted && OwnedFrom(checks, deleted, |old(deleted)|, listenAddress)
      ensures faultless ==> old(faultless)
      ensures faultless && Removable(checks, old(rules), expected, listenAddress) ==> ok && rules == [expected]
    {
      ProgressStarts(checks, states, deleted, rules, expected, listenAddress);
      ProgressMeans(checks, states, deleted, rules, states, deleted, rules, expected, listenAddress);
      assert Within(rules, rules);
      hide Owned, OwnedFrom, Migrating, AlwaysHolds, Removable, Within, LeadTo, Progress;
      var readable, snapshot := Show();
      if !readable {
        return false;
      }
      var keptExpected := false;
      MigrationStarts(snapshot, expected);
      var i := 0;
      while i < |snapshot|
        invariant 0 <= i <= |snapshot| && snapshot == old(rules)
        invariant Migrating(snapshot, i, keptExpected, multiset(rules), expected)
        invariant Progress(checks, old(states), old(deleted), old(rules), states, deleted, rules, expected, listenAddress)
        invariant faultless ==> old(faultless)
      {
        var rule := snapshot[i];
        MigrationNext(snapshot, i, keptExpected, multiset(rules), expected);
        RemovableAt(checks, snapshot, expected, listenAddress, i);
        if rule == expected && !keptExpected {
          keptExpected := true;
        } else {
          ghost var deletedBefore, statesBefore, rulesBefore := deleted, states, rules;
          ok := RemoveNext(expected, listenAddress, snapshot, i, keptExpected);
          ProgressNext(checks, old(states), old(deleted), old(rules), statesBefore, deletedBefore, rulesBefore,
                       states, deleted, rules, rule, expected, listenAddress);
          if !ok {
            ProgressMeans(checks, old(states), old(deleted), old(rules), states, deleted, rules, expected, listenAddress);
            return;
          }
        }
        i := i + 1;
      }
      ProgressMeans(checks, old(states), old(deleted), old(rules), states, deleted, rules, expected, listenAddress);
      MigrationEnds(snapshot, keptExpected, multiset(rules), expected);
      OneWithin(rules, expected, snapshot);
      OnlyOne(rules, expected);
      ok := true;
    }

    // Add the expected rule and read back that it, and nothing else, was added.
    method AddExpected(expected: Rule, before: seq<Rule>) returns (ok: bool)
      requires before == rules && expected !in before
      modifies this`rules, this`states, this`faultless
      ensures states == old(states) + [rules]
      ensures forall rule :: rule in rules ==> rule in old(rules) || rule == expected
      ensures ok ==> multiset(rules) == multiset(old(rules)) + multiset{expected} && expected in rules
      ensures faultless ==> ok && old(faultless)
    {
      assert multiset(before + [expected]) == multiset(before) + multiset{expected};
      ok := Add(expected);
      if !ok {
        return;
      }
      var readable, shown := Show();
      ok := readable && multiset(shown) == multiset(before) + multiset{expected};
      if ok {
        assert expected in multiset(rules);
      }
    }

    // The forward half: add the expected rule, read it back, then remove the others.
    method Migrate(scope: Scope, before: seq<Rule>) returns (ok: bool)
      requires before == rules && AllOwned(checks, before, scope.listenAddress)
      modifies this`rules, this`states, this`deleted, this`faultless
      ensures ok ==> rules == [ScopedRule(scope)]
      ensures old(states) <= states && Keeps(states, |old(states)|, ScopedRule(scope))
      ensures LeadTo(states, |old(states)|, old(rules), rules)
      ensures ScopedRule(scope) in before ==> AlwaysHolds(states, |old(states)|, ScopedRule(scope))
      ensures forall rule :: rule in rules ==> rule in before || rule == ScopedRule(scope)
      ensures old(deleted) <= deleted && OwnedFrom(checks, deleted, |old(deleted)|, scope.listenAddress)
      ensures faultless ==> ok && old(faultless)
    {
      LeadToSelf(states, rules);
      NothingHeld(states, ScopedRule(scope));
      NothingDeleted(checks, deleted, scope.listenAddress);
      AlwaysKeeps(states, |states|, ScopedRule(scope));
      hide Owned, ScopedRule, LeadTo, OwnedFrom, AlwaysHolds, Keeps;
      var expected := ScopedRule(scope);
      if expected !in before {
        assert multiset(before)[expected] == 0;
        ok := AddExpected(expected, before);
        LeadToNext(old(states), states, |old(states)|, old(rules), old(rules), rules);
        AlwaysKeeps(states, |old(states)|, expected);
        if !ok {
          return;
        }
      }
      ghost var added, middle := states, rules;
      ok := RemoveOthers(expected, scope.listenAddress);
      LeadToThrough(added, states, |old(states)|, old(rules), middle, rules);
      ForwardKeeps(old(states), added, states, expected);
      if !ok {
        return;
      }
      var readable, shown := Show();
      if !readable || shown != [expected] {
        return false;
      }
      ok := ShowsStatus();
    }

    // `began` is where the rollback begins, if there is one, and `restored` where it begins to remove. Until it begins the
    // expected rule, once present, stays; while it restores nothing is removed; and from then on, if no command of the
    // rollback failed, every state holds all rules of the start.
    method EnsureScopedUfwRule(scope: Scope, active: Option<bool>) returns (outcome: Outcome, ghost began: nat, ghost restored: nat)
      modifies this`rules, this`states, this`deleted, this`faultless, this`troubled
      ensures active == None ==> outcome == Unreadable
      ensures active == Some(false) <==> outcome == Inactive
      ensures active == Some(true) && outcome == Unreadable ==> !faultless
      ensures active == Some(true) && old(rules) == [ScopedRule(scope)] ==> outcome in {AlreadyExact, Unreadable}
      ensures active == Some(true) && old(rules) != [ScopedRule(scope)] && !AllOwned(checks, old(rules), scope.listenAddress) ==>
                outcome in {Refused, Unreadable}
      ensures active == Some(true) && old(rules) != [ScopedRule(scope)] && AllOwned(checks, old(rules), scope.listenAddress) ==>
                outcome.Migrated? || outcome in {RolledBack, RollbackFailed, Unreadable}
      ensures outcome in {RolledBack, RollbackFailed} && old(faultless) ==> troubled
      ensures outcome.Migrated? || outcome == AlreadyExact ==> rules == [ScopedRule(scope)]
      ensures outcome.Migrated? ==> outcome.before == old(rules)
      ensures outcome == RolledBack ==> multiset(rules) == multiset(old(rules))
      ensures outcome in {Inactive, Unreadable, Refused, AlreadyExact} ==> rules == old(rules) && states == old(states)
      ensures outcome == RollbackFailed && Owned(checks, ScopedRule(scope), scope.listenAddress) ==> !faultless
      ensures outcome == Refused ==> !AllOwned(checks, old(rules), scope.listenAddress)
      ensures old(states) <= states && |old(states)| <= began <= restored <= |states|
      ensures outcome !in {RolledBack, RollbackFailed} ==> began == |states|
      ensures Keeps(states[..began], |old(states)|, ScopedRule(scope))
      ensures ScopedRule(scope) in old(rules) ==> AlwaysHolds(states[..began], |old(states)|, ScopedRule(scope))
      ensures Cover(states[..restored], began, multiset(if began == |old(states)| then old(rules) else states[began - 1]))
      ensures outcome in {RolledBack, RollbackFailed} && faultless ==> Cover(states, restored, multiset(old(rules)))
      ensures old(deleted) <= deleted && OwnedFrom(checks, deleted, |old(deleted)|, scope.listenAddress)
    {
      hide Owned, ScopedRule, OwnedFrom, Keeps, AlwaysHolds, Cover;
      began, restored := |states|, |states|;
      assert states[..began] == states;
      NothingHappened(checks, states, deleted, ScopedRule(scope), multiset(rules), scope.listenAddress);
      if active == None {
        return Unreadable, began, restored;
      }
      if active == Some(false) {
        return Inactive, began, restored;
      }
      var readable, before := Show();
      if !readable {
        return Unreadable, began, restored;
      }
      if before == [ScopedRule(scope)] {
        return AlreadyExact, began, restored;
      }
      if !AllOwned(checks, before, scope.listenAddress) {
        return Refused, began, restored;
      }
      var ok := Migrate(scope, before);
      began, restored := |states|, |states|;
      ghost var forward, deletedForward := states, deleted;
      assert states[..began] == states;
      NothingToCover(states, multiset(if began == |old(states)| then old(rules) else states[began - 1]));
      if ok {
        return Migrated(before), began, restored;
      }
      ok, restored := Rollback(before, scope.listenAddress);
      assert states[..began] == forward;
      assert forward != old(states) ==> states[began - 1] == forward[began - 1];
      OwnedThenOwned(checks, deletedForward, deleted, |old(deleted)|, scope.listenAddress);
      outcome := if ok then RolledBack else RollbackFailed;
    }
  }

  lemma {:induction false} NothingHappened(
    checks: Checks, states: seq<seq<Rule>>, deleted: seq<Rule>, rule: Rule, least: multiset<Rule>, listenAddress: string)
    ensures Keeps(states, |states|, rule) && AlwaysHolds(states, |states|, rule) && Cover(states, |states|, least)
    ensures OwnedFrom(checks, deleted, |deleted|, listenAddress)
  {
  }

  lemma {:induction false} OwnedThenOwned(checks: Checks, before: seq<Rule>, after: seq<Rule>, from: nat, listenAddress: string)
    requires before <= after && OwnedFrom(checks, before, from, listenAddress) && OwnedFrom(checks, after, |before|, listenAddress)
    ensures OwnedFrom(checks, after, from, listenAddress)
  {
  }

  ghost predicate Within(rules: seq<Rule>, others: seq<Rule>) {
    forall rule :: rule in rules ==> rule in others
  }

  lemma {:induction false} OneWithin(rules: seq<Rule>, expected: Rule, snapshot: seq<Rule>)
    requires multiset(rules) == multiset{expected} && expected in snapshot
    ensures Within(rules, snapshot)
  {
    OnlyOne(rules, expected);
  }

  lemma {:induction false} LeadToNext(
    before: seq<seq<Rule>>, after: seq<seq<Rule>>, from: nat, start: seq<Rule>, earlier: seq<Rule>, rules: seq<Rule>)
    requires from <= |before| && LeadTo(before, from, start, earlier)
    requires after == before + [rules] || (after == before && rules == earlier)
    ensures LeadTo(after, from, start, rules)
  {
  }

  // What the deletions of a migration have done to the record since it was (states0, deleted0).
  ghost predicate Progress(
    checks: Checks, states0: seq<seq<Rule>>, deleted0: seq<Rule>, rules0: seq<Rule>,
    states: seq<seq<Rule>>, deleted: seq<Rule>, rules: seq<Rule>, expected: Rule, listenAddress: string)
  {
    && states0 <= states && AlwaysHolds(states, |states0|, expected) && LeadTo(states, |states0|, rules0, rules)
    && deleted0 <= deleted && OwnedFrom(checks, deleted, |deleted0|, listenAddress)
  }

  lemma {:induction false} ProgressStarts(
    checks: Checks, states: seq<seq<Rule>>, deleted: seq<Rule>, rules: seq<Rule>, expected: Rule, listenAddress: string)
    ensures Progress(checks, states, deleted, rules, states, deleted, rules, expected, listenAddress)
  {
  }

  lemma {:induction false} ProgressNext(
    checks: Checks, states0: seq<seq<Rule>>, deleted0: seq<Rule>, rules0: seq<Rule>,
    states: seq<seq<Rule>>, deleted: seq<Rule>, rules: seq<Rule>,
    states': seq<seq<Rule>>, deleted': seq<Rule>, rules': seq<Rule>, rule: Rule, expected: Rule, listenAddress: string)
    requires Progress(checks, states0, deleted0, rules0, states, deleted, rules, expected, listenAddress)
    requires expected in rules' && (states' == states + [rules'] || (states' == states && rules' == rules))
    requires deleted' == deleted || (deleted' == deleted + [rule] && Owned(checks, rule, listenAddress))
    ensures Progress(checks, states0, deleted0, rules0, states', deleted', rules', expected, listenAddress)
  {
    hide Owned;
    OwnedAppends(checks, deleted, deleted', |deleted0|, rule, listenAddress);
    hide OwnedFrom;
  }

  lemma {:induction false} ProgressMeans(
    checks: Checks, states0: seq<seq<Rule>>, deleted0: seq<Rule>, rules0: seq<Rule>,
    states: seq<seq<Rule>>, deleted: seq<Rule>, rules: seq<Rule>, expected: Rule, listenAddress: string)
    requires Progress(checks, states0, deleted0, rules0, states, deleted, rules, expected, listenAddress)
    ensures states0 <= states && AlwaysHolds(states, |states0|, expected) && LeadTo(states, |states0|, rules0, rules)
    ensures deleted0 <= deleted && OwnedFrom(checks, deleted, |deleted0|, listenAddress)
  {
  }

  lemma {:induction false} LeadToSelf(states: seq<seq<Rule>>, rules: seq<Rule>)
    ensures LeadTo(states, |states|, rules, rules)
  {
  }

  lemma {:induction false} LeadToThrough(
    before: seq<seq<Rule>>, after: seq<seq<Rule>>, from: nat, start: seq<Rule>, middle: seq<Rule>, rules: seq<Rule>)
    requires from <= |before| && before <= after && LeadTo(before, from, start, middle) && LeadTo(after, |before|, middle, rules)
    ensures LeadTo(after, from, start, rules)
  {
  }

  // The expected rule may come with the first command, and stays from then on.
  lemma {:induction false} ForwardKeeps(start: seq<seq<Rule>>, added: seq<seq<Rule>>, states: seq<seq<Rule>>, expected: Rule)
    requires |start| <= |added| <= |start| + 1 && start <= added <= states && AlwaysHolds(states, |added|, expected)
    ensures Keeps(states, |start|, expected)
  {
  }

  lemma {:induction false} AlwaysKeeps(states: seq<seq<Rule>>, from: nat, expected: Rule)
    requires |states| <= from + 1
    ensures Keeps(states, from, expected)
  {
  }

  // Every rule but one occurrence of the expected one may be deleted.
  ghost predicate Removable(checks: Checks, rules: seq<Rule>, expected: Rule, listenAddress: string) {
    forall rule :: rule in rules && (rule != expected || multiset(rules)[expected] > 1) ==> Owned(checks, rule, listenAddress)
  }

  lemma {:induction false} RemovableAt(checks: Checks, rules: seq<Rule>, expected: Rule, listenAddress: string, i: nat)
    requires i < |rules|
    ensures Removable(checks, rules, expected, listenAddress) && (rules[i] != expected || multiset(rules)[expected] > 1) ==>
              Owned(checks, rules[i], listenAddress)
  {
  }

  // The rules still to be visited are all there; of the visited ones only the first occurrence of the expected rule is.
  ghost predicate Migrating(snapshot: seq<Rule>, i: nat, kept: bool, rules: multiset<Rule>, expected: Rule)
    requires i <= |snapshot|
  {
    && expected in snapshot && (kept <==> expected in snapshot[..i])
    && rules == multiset(snapshot[i..]) + (if kept then multiset{expected} else multiset{})
  }

  lemma {:induction false} MigrationStarts(snapshot: seq<Rule>, expected: Rule)
    requires expected in snapshot
    ensures Migrating(snapshot, 0, false, multiset(snapshot), expected)
  {
    assert snapshot[0..] == snapshot && snapshot[..0] == [];
  }

  lemma {:induction false} SplitAtNext(snapshot: seq<Rule>, i: nat)
    requires i < |snapshot|
    ensures multiset(snapshot[i..]) == multiset{snapshot[i]} + multiset(snapshot[i + 1..])
    ensures multiset(snapshot) == multiset(snapshot[..i]) + multiset{snapshot[i]} + multiset(snapshot[i + 1..])
    ensures forall rule :: rule in snapshot[..i + 1] <==> rule in snapshot[..i] || rule == snapshot[i]
    ensures forall rule :: rule in snapshot <==> rule in snapshot[..i] || rule in snapshot[i..]
  {
    assert snapshot[i..] == [snapshot[i]] + snapshot[i + 1..];
    assert snapshot == snapshot[..i] + [snapshot[i]] + snapshot[i + 1..];
    assert snapshot == snapshot[..i] + snapshot[i..];
    assert snapshot[..i + 1] == snapshot[..i] + [snapshot[i]];
  }

  lemma {:induction false} MigrationNext(snapshot: seq<Rule>, i: nat, kept: bool, rules: multiset<Rule>, expected: Rule)
    requires i < |snapshot| && Migrating(snapshot, i, kept, rules, expected)
    ensures snapshot[i] in rules
    ensures snapshot[i] == expected && !kept ==> Migrating(snapshot, i + 1, true, rules, expected)
    ensures snapshot[i] == expected && kept ==> multiset(snapshot)[expected] > 1
  {
    SplitAtNext(snapshot, i);
  }

  // Deleting the next rule, whether or not it takes effect, leaves the expected rule and adds nothing.
  lemma {:induction false} MigrationHolds(
    snapshot: seq<Rule>, i: nat, kept: bool, earlier: multiset<Rule>, rules: multiset<Rule>, expected: Rule)
    requires i < |snapshot| && Migrating(snapshot, i, kept, earlier, expected) && (kept || snapshot[i] != expected)
    requires rules == earlier || rules == earlier - multiset{snapshot[i]}
    ensures expected in rules && forall rule :: rule in rules ==> rule in snapshot
    ensures rules[snapshot[i]] < earlier[snapshot[i]] ==> Migrating(snapshot, i + 1, kept, rules, expected)
  {
    SplitAtNext(snapshot, i);
    var here, later := multiset{snapshot[i]}, multiset(snapshot[i + 1..]);
    var held := if kept then multiset{expected} else multiset{};
    assert earlier == here + later + held;
    assert expected in later + held;
    assert forall rule :: rule in multiset(snapshot[i..]) ==> rule in snapshot[i..];
    if rules[snapshot[i]] < earlier[snapshot[i]] {
      assert rules == later + held;
    }
  }

  lemma {:induction false} MigrationEnds(snapshot: seq<Rule>, kept: bool, rules: multiset<Rule>, expected: Rule)
    requires Migrating(snapshot, |snapshot|, kept, rules, expected)
    ensures rules == multiset{expected}
  {
    assert snapshot[|snapshot|..] == [] && snapshot[..|snapshot|] == snapshot;
  }

  lemma {:induction false} NothingHeld(states: seq<seq<Rule>>, rule: Rule)
    ensures AlwaysHolds(states, |states|, rule)
  {
  }
}
