// The differences between two configurations, as a list of changed paths with both values.

module ScenarioDiff {
  import opened Json
  import opened Text

  // `keys` lead from the root to the value that differs.
  datatype Change = Change(keys: seq<string>, baseline: Json, intervention: Json)

  /*** Specification ***/

  ghost function Height(json: Json): nat
    decreases json, 1
  {
    if json.Obj? then 1 + Tallest(json, json.fields.Keys) else 0
  }

  ghost function Tallest(json: Json, keys: set<string>): nat
    requires json.Obj? && keys <= json.fields.Keys
    decreases json, 0, |keys|
  {
    if keys == {} then 0
    else
      var key :| key in keys;
      var rest := Tallest(json, keys - {key});
      if Height(json.fields[key]) > rest then Height(json.fields[key]) else rest
  }

  lemma {:induction false} TallestCovers(json: Json, keys: set<string>, key: string)
    requires json.Obj? && keys <= json.fields.Keys && key in keys
    ensures Height(json.fields[key]) <= Tallest(json, keys)
    decreases |keys|
  {
    var chosen :| chosen in keys && Tallest(json, keys) ==
                  (var rest := Tallest(json, keys - {chosen});
                   if Height(json.fields[chosen]) > rest then Height(json.fields[chosen]) else rest);
    if key != chosen {
      TallestCovers(json, keys - {chosen}, key);
    }
  }

  // A missing key reads as null, which is no higher than any object.
  lemma {:induction false} ChildIsLower(json: Json, key: string)
    requires json.Obj?
    ensures Height(Get(json.fields, key)) < Height(json)
  {
    if key in json.fields {
      TallestCovers(json, json.fields.Keys, key);
    }
  }

  function Under(key: string, changes: seq<Change>): seq<Change> {
    seq(|changes|, n requires 0 <= n < |changes| => changes[n].(keys := [key] + changes[n].keys))
  }

  // Objects are compared key by key; lists and everything else as a whole.
  ghost function Diff(baseline: Json, intervention: Json): seq<Change>
    decreases Height(baseline) + Height(intervention), 1, 0
  {
    if baseline.Obj? && intervention.Obj? then
      DiffKeys(baseline, intervention, Sorted(baseline.fields.Keys + intervention.fields.Keys))
    else if baseline != intervention then [Change([], baseline, intervention)]
    else []
  }

  ghost function DiffKeys(baseline: Json, intervention: Json, keys: seq<string>): seq<Change>
    requires baseline.Obj? && intervention.Obj?
    decreases Height(baseline) + Height(intervention), 0, |keys|
  {
    if keys == [] then []
    else
      var before, after := Get(baseline.fields, keys[0]), Get(intervention.fields, keys[0]);
      ChildIsLower(baseline, keys[0]);
      ChildIsLower(intervention, keys[0]);
      Under(keys[0], Diff(before, after)) + DiffKeys(baseline, intervention, keys[1..])
  }

  /*** Applying the changes ***/

  function SetAt(json: Json, keys: seq<string>, value: Json): Json
    decreases |keys|
  {
    if keys == [] then value
    else if json.Obj? then Obj(json.fields[keys[0] := SetAt(Get(json.fields, keys[0]), keys[1..], value)])
    else json
  }

  function Patch(json: Json, changes: seq<Change>): Json
    decreases |changes|
  {
    if changes == [] then json else Patch(SetAt(json, changes[0].keys, changes[0].intervention), changes[1..])
  }

  lemma {:induction false} PatchConcat(json: Json, a: seq<Change>, b: seq<Change>)
    ensures Patch(json, a + b) == Patch(Patch(json, a), b)
    decreases |a|
  {
    if a == [] {
      assert a + b == b;
    } else {
      assert (a + b)[1..] == a[1..] + b;
      PatchConcat(SetAt(json, a[0].keys, a[0].intervention), a[1..], b);
    }
  }

  // Changes under a key patch the value at that key.
  lemma {:induction false} PatchUnder(json: Json, key: string, changes: seq<Change>)
    requires json.Obj?
    ensures
      Patch(json, Under(key, changes)) ==
      if changes == [] then json else Obj(json.fields[key := Patch(Get(json.fields, key), changes)])
    decreases |changes|
  {
    if changes != [] {
      var child := SetAt(Get(json.fields, key), changes[0].keys, changes[0].intervention);
      var json1 := Obj(json.fields[key := child]);
      var under := Under(key, changes);
      assert under[0].keys[1..] == changes[0].keys;
      assert SetAt(json, under[0].keys, under[0].intervention) == json1;
      assert under[1..] == Under(key, changes[1..]);
      PatchUnder(json1, key, changes[1..]);
      assert json.fields[key := child][key := Patch(child, changes[1..])] == json.fields[key := Patch(child, changes[1..])];
    }
  }

  ghost function ChildDiff(baseline: Json, intervention: Json, key: string): seq<Change>
    requires baseline.Obj? && intervention.Obj?
  {
    Diff(Get(baseline.fields, key), Get(intervention.fields, key))
  }

  // Each key that differs holds its patched value; every other key is as before.
  ghost predicate PatchedKeys(json: Json, baseline: Json, intervention: Json, keys: seq<string>, after: Json)
    requires json.Obj? && baseline.Obj? && intervention.Obj?
  {
    && after.Obj?
    && forall key :: PatchedKey(json, baseline, intervention, keys, after, key)
  }

  ghost predicate PatchedKey(json: Json, baseline: Json, intervention: Json, keys: seq<string>, after: Json, key: string)
    requires json.Obj? && baseline.Obj? && intervention.Obj? && after.Obj?
  {
    var changes := ChildDiff(baseline, intervention, key);
    if key in keys && changes != [] then key in after.fields && after.fields[key] == Patch(Get(baseline.fields, key), changes)
    else (key in after.fields <==> key in json.fields) && (key in json.fields ==> after.fields[key] == json.fields[key])
  }

  lemma {:induction false} PatchKeys(json: Json, baseline: Json, intervention: Json, keys: seq<string>)
    requires json.Obj? && baseline.Obj? && intervention.Obj?
    requires forall i, j :: 0 <= i < j < |keys| ==> keys[i] != keys[j]
    requires forall key :: key in keys ==> (key in json.fields <==> key in baseline.fields)
    requires forall key :: key in keys && key in baseline.fields ==> json.fields[key] == baseline.fields[key]
    ensures PatchedKeys(json, baseline, intervention, keys, Patch(json, DiffKeys(baseline, intervention, keys)))
    decreases |keys|
  {
    if keys == [] {
      NothingPatched(json, baseline, intervention);
    } else {
      var changes := ChildDiff(baseline, intervention, keys[0]);
      var json1 := Patch(json, Under(keys[0], changes));
      PatchConcat(json, Under(keys[0], changes), DiffKeys(baseline, intervention, keys[1..]));
      PatchUnder(json, keys[0], changes);
      assert Get(json.fields, keys[0]) == Get(baseline.fields, keys[0]);
      assert json1.Obj? && forall key :: key != keys[0] ==> (key in json1.fields <==> key in json.fields);
      PatchKeys(json1, baseline, intervention, keys[1..]);
      var after := Patch(json1, DiffKeys(baseline, intervention, keys[1..]));
      forall key
        ensures PatchedKey(json, baseline, intervention, keys, after, key)
      {
        assert PatchedKey(json1, baseline, intervention, keys[1..], after, key);
        OneMoreKey(json, json1, baseline, intervention, keys, after, key);
      }
    }
  }

  lemma {:induction false} NothingPatched(json: Json, baseline: Json, intervention: Json)
    requires json.Obj? && baseline.Obj? && intervention.Obj?
    ensures PatchedKeys(json, baseline, intervention, [], json)
  {
  }

  lemma {:induction false} OneMoreKey(
    json: Json, json1: Json, baseline: Json, intervention: Json, keys: seq<string>, after: Json, key: string)
    requires json.Obj? && baseline.Obj? && intervention.Obj? && after.Obj? && keys != [] && keys[0] !in keys[1..]
    requires
      var changes := ChildDiff(baseline, intervention, keys[0]);
      json1 == if changes == [] then json else Obj(json.fields[keys[0] := Patch(Get(baseline.fields, keys[0]), changes)])
    requires PatchedKey(json1, baseline, intervention, keys[1..], after, key)
    ensures PatchedKey(json, baseline, intervention, keys, after, key)
  {
    hide ChildDiff, Patch;
    assert key in keys <==> key == keys[0] || key in keys[1..];
  }

  // When the reported changes rebuild the intervention: it has every key of the baseline, and a key that is new to it is
  // not null, since a missing key and a null are not told apart.
  ghost predicate Rebuildable(baseline: Json, intervention: Json)
    decreases baseline
  {
    baseline.Obj? && intervention.Obj? ==>
      && baseline.fields.Keys <= intervention.fields.Keys
      && (forall key :: key in intervention.fields && key !in baseline.fields ==> intervention.fields[key] != Null)
      && (forall key :: key in baseline.fields && key in intervention.fields ==>
            Rebuildable(baseline.fields[key], intervention.fields[key]))
  }

  // Equal up to keys that are missing on one side and null on the other.
  ghost predicate SameValues(baseline: Json, intervention: Json)
    decreases Height(baseline) + Height(intervention)
  {
    if baseline.Obj? && intervention.Obj? then
      forall key :: key in baseline.fields.Keys + intervention.fields.Keys ==>
        (ChildIsLower(baseline, key); ChildIsLower(intervention, key);
         SameValues(Get(baseline.fields, key), Get(intervention.fields, key)))
    else baseline == intervention
  }

  lemma {:induction false} NothingUnder(key: string, changes: seq<Change>)
    ensures Under(key, changes) == [] <==> changes == []
  {
  }

  lemma {:induction false} NoKeyChanges(baseline: Json, intervention: Json, keys: seq<string>)
    requires baseline.Obj? && intervention.Obj?
    ensures DiffKeys(baseline, intervention, keys) == [] <==> forall key :: key in keys ==> ChildDiff(baseline, intervention, key) == []
    decreases |keys|
  {
    if keys != [] {
      NothingUnder(keys[0], ChildDiff(baseline, intervention, keys[0]));
      NoKeyChanges(baseline, intervention, keys[1..]);
      assert forall key :: key in keys <==> key == keys[0] || key in keys[1..];
    }
  }

  // No change is reported exactly when the configurations have the same values.
  lemma {:induction false} NoChangeMeansSameValues(baseline: Json, intervention: Json)
    ensures Diff(baseline, intervention) == [] <==> SameValues(baseline, intervention)
    decreases Height(baseline) + Height(intervention)
  {
    if baseline.Obj? && intervention.Obj? {
      var keys := baseline.fields.Keys + intervention.fields.Keys;
      NoKeyChanges(baseline, intervention, Sorted(keys));
      forall key | key in keys
        ensures ChildDiff(baseline, intervention, key) == [] <==>
                SameValues(Get(baseline.fields, key), Get(intervention.fields, key))
      {
        ChildIsLower(baseline, key);
        ChildIsLower(intervention, key);
        NoChangeMeansSameValues(Get(baseline.fields, key), Get(intervention.fields, key));
      }
    }
  }

  lemma {:induction false} PatchedObject(baseline: Json, intervention: Json)
    requires baseline.Obj? && intervention.Obj?
    ensures PatchedKeys(baseline, baseline, intervention, Sorted(baseline.fields.Keys + intervention.fields.Keys),
                        Patch(baseline, Diff(baseline, intervention)))
  {
    PatchKeys(baseline, baseline, intervention, Sorted(baseline.fields.Keys + intervention.fields.Keys));
  }

  // What the patched object holds at a key, compared with the intervention.
  ghost predicate Compares(baseline: Json, intervention: Json, after: Json, key: string)
    requires baseline.Obj? && intervention.Obj? && after.Obj?
  {
    if key !in intervention.fields then key in after.fields <==> key in baseline.fields
    else if key in baseline.fields then
      key in after.fields && (after.fields[key] == intervention.fields[key] <==> Rebuildable(baseline.fields[key], intervention.fields[key]))
    else
      (key in after.fields <==> intervention.fields[key] != Null) && (key in after.fields ==> after.fields[key] == intervention.fields[key])
  }

  lemma {:induction false} ComparedObjects(baseline: Json, intervention: Json, after: Json)
    requires baseline.Obj? && intervention.Obj? && after.Obj? && forall key :: Compares(baseline, intervention, after, key)
    ensures after == intervention <==> Rebuildable(baseline, intervention)
  {
    if after == intervention {
      assert forall key :: key in baseline.fields ==> Compares(baseline, intervention, after, key);
      assert forall key :: key in intervention.fields ==> Compares(baseline, intervention, after, key);
    }
    if Rebuildable(baseline, intervention) {
      forall key
        ensures key in after.fields <==> key in intervention.fields
        ensures key in after.fields ==> after.fields[key] == intervention.fields[key]
      {
        assert Compares(baseline, intervention, after, key);
      }
      assert after.fields == intervention.fields;
    }
  }

  // Applying the reported changes to the baseline yields the intervention exactly when it is rebuildable.
  lemma {:induction false} PatchRebuildsExactly(baseline: Json, intervention: Json)
    ensures Patch(baseline, Diff(baseline, intervention)) == intervention <==> Rebuildable(baseline, intervention)
    decreases baseline
  {
    if baseline.Obj? && intervention.Obj? {
      var after := Patch(baseline, Diff(baseline, intervention));
      PatchedObject(baseline, intervention);
      hide Diff, Patch, Rebuildable;
      forall key
        ensures Compares(baseline, intervention, after, key)
      {
        if key in intervention.fields && key in baseline.fields {
          KeyRebuilds(baseline, intervention, after, key);
          PatchRebuildsExactly(baseline.fields[key], intervention.fields[key]);
        } else if key in intervention.fields {
          NewKeyRebuilds(baseline, intervention, after, key);
        } else {
          OldKeyStays(baseline, intervention, after, key);
        }
      }
      ComparedObjects(baseline, intervention, after);
    } else {
      PatchWhole(baseline, intervention);
    }
  }

  lemma {:induction false} OldKeyStays(baseline: Json, intervention: Json, after: Json, key: string)
    requires baseline.Obj? && intervention.Obj? && key !in intervention.fields
    requires PatchedKeys(baseline, baseline, intervention, Sorted(baseline.fields.Keys + intervention.fields.Keys), after)
    ensures key in after.fields <==> key in baseline.fields
  {
    assert PatchedKey(baseline, baseline, intervention, Sorted(baseline.fields.Keys + intervention.fields.Keys), after, key);
  }

  lemma {:induction false} KeyRebuilds(baseline: Json, intervention: Json, after: Json, key: string)
    requires baseline.Obj? && intervention.Obj? && key in baseline.fields && key in intervention.fields
    requires PatchedKeys(baseline, baseline, intervention, Sorted(baseline.fields.Keys + intervention.fields.Keys), after)
    ensures key in after.fields
    ensures after.fields[key] == Patch(baseline.fields[key], Diff(baseline.fields[key], intervention.fields[key]))
  {
    hide Diff;
    assert PatchedKey(baseline, baseline, intervention, Sorted(baseline.fields.Keys + intervention.fields.Keys), after, key);
  }

  lemma {:induction false} NewKeyRebuilds(baseline: Json, intervention: Json, after: Json, key: string)
    requires baseline.Obj? && intervention.Obj? && key !in baseline.fields && key in intervention.fields
    requires PatchedKeys(baseline, baseline, intervention, Sorted(baseline.fields.Keys + intervention.fields.Keys), after)
    ensures key in after.fields <==> intervention.fields[key] != Null
    ensures key in after.fields ==> after.fields[key] == intervention.fields[key]
  {
    assert PatchedKey(baseline, baseline, intervention, Sorted(baseline.fields.Keys + intervention.fields.Keys), after, key);
    PatchWhole(Null, intervention.fields[key]);
  }

  lemma {:induction false} PatchWhole(baseline: Json, intervention: Json)
    requires !(baseline.Obj? && intervention.Obj?)
    ensures Patch(baseline, Diff(baseline, intervention)) == intervention
  {
    if baseline != intervention {
      var changes := Diff(baseline, intervention);
      assert changes[1..] == [];
    }
  }

  /*** Configurations of one schema ***/

  // The same keys at every level where both sides are objects: what two serialised configurations of one schema have.
  ghost predicate SameSchema(baseline: Json, intervention: Json)
    decreases baseline
  {
    baseline.Obj? && intervention.Obj? ==>
      && baseline.fields.Keys == intervention.fields.Keys
      && forall key :: key in baseline.fields && key in intervention.fields ==>
           SameSchema(baseline.fields[key], intervention.fields[key])
  }

  lemma {:induction false} SchemaIsRebuildable(baseline: Json, intervention: Json)
    requires SameSchema(baseline, intervention)
    ensures Rebuildable(baseline, intervention)
    decreases baseline
  {
    if baseline.Obj? && intervention.Obj? {
      forall key | key in baseline.fields && key in intervention.fields
        ensures Rebuildable(baseline.fields[key], intervention.fields[key])
      {
        SchemaIsRebuildable(baseline.fields[key], intervention.fields[key]);
      }
    }
  }

  lemma {:induction false} SchemaSeesEquality(baseline: Json, intervention: Json)
    requires SameSchema(baseline, intervention)
    ensures SameValues(baseline, intervention) <==> baseline == intervention
    decreases baseline
  {
    if baseline.Obj? && intervention.Obj? {
      forall key | key in baseline.fields
        ensures SameValues(Get(baseline.fields, key), Get(intervention.fields, key)) <==>
                baseline.fields[key] == intervention.fields[key]
      {
        SchemaSeesEquality(baseline.fields[key], intervention.fields[key]);
      }
      if SameValues(baseline, intervention) {
        forall key | key in baseline.fields
          ensures baseline.fields[key] == intervention.fields[key]
        {
          assert key in baseline.fields.Keys + intervention.fields.Keys;
        }
        assert baseline.fields == intervention.fields;
      }
    }
  }

  // For two configurations of one schema, the changes rebuild the intervention, and are none exactly when it equals the
  // baseline.
  lemma {:induction false} ChangesRoundTrip(baseline: Json, intervention: Json)
    requires SameSchema(baseline, intervention)
    ensures Patch(baseline, Diff(baseline, intervention)) == intervention
    ensures Diff(baseline, intervention) == [] <==> baseline == intervention
  {
    hide Diff, Patch, SameSchema, Rebuildable, SameValues;
    SchemaIsRebuildable(baseline, intervention);
    PatchRebuildsExactly(baseline, intervention);
    SchemaSeesEquality(baseline, intervention);
    NoChangeMeansSameValues(baseline, intervention);
  }

  // Across schemas neither holds: a key that becomes null is no change, and a key that disappears is patched to null.
  lemma {:induction false} MissingAndNullAreConfused(key: string)
    ensures
      var empty, null' := Obj(map[]), Obj(map[key := Null]);
      && empty != null' && Diff(empty, null') == []
      && Patch(Obj(map[key := Bool(true)]), Diff(Obj(map[key := Bool(true)]), empty)) != empty
  {
    var empty, null', some := Obj(map[]), Obj(map[key := Null]), Obj(map[key := Bool(true)]);
    assert key in null'.fields && key !in empty.fields;
    assert SameValues(empty, null') by {
      assert forall k :: k in empty.fields.Keys + null'.fields.Keys ==> Get(empty.fields, k) == Get(null'.fields, k) == Null;
    }
    NoChangeMeansSameValues(empty, null');
    assert !Rebuildable(some, empty) by { assert key in some.fields.Keys; }
    PatchRebuildsExactly(some, empty);
  }

  /*** Changed paths ***/

  ghost predicate PrefixFree(changes: seq<Change>) {
    forall i, j :: 0 <= i < j < |changes| ==> !(changes[i].keys <= changes[j].keys) && !(changes[j].keys <= changes[i].keys)
  }

  lemma {:induction false} UnderIsPrefixFree(key: string, changes: seq<Change>)
    requires PrefixFree(changes)
    ensures PrefixFree(Under(key, changes))
  {
    var under := Under(key, changes);
    forall i, j | 0 <= i < j < |under|
      ensures !(under[i].keys <= under[j].keys) && !(under[j].keys <= under[i].keys)
    {
      PrefixUnder(key, changes[i].keys, changes[j].keys);
      PrefixUnder(key, changes[j].keys, changes[i].keys);
    }
  }

  lemma {:induction false} PrefixUnder(key: string, a: seq<string>, b: seq<string>)
    ensures [key] + a <= [key] + b <==> a <= b
  {
    if [key] + a <= [key] + b {
      assert forall i :: 0 <= i < |a| ==> a[i] == ([key] + a)[i + 1] == ([key] + b)[i + 1] == b[i];
    }
  }

  lemma {:induction false} KeysStartChanges(baseline: Json, intervention: Json, keys: seq<string>)
    requires baseline.Obj? && intervention.Obj?
    ensures forall change :: change in DiffKeys(baseline, intervention, keys) ==> change.keys != [] && change.keys[0] in keys
    decreases |keys|
  {
    if keys != [] {
      KeysStartChanges(baseline, intervention, keys[1..]);
    }
  }

  lemma {:induction false} KeysArePrefixFree(baseline: Json, intervention: Json, keys: seq<string>)
    requires baseline.Obj? && intervention.Obj?
    requires forall i, j :: 0 <= i < j < |keys| ==> keys[i] != keys[j]
    ensures PrefixFree(DiffKeys(baseline, intervention, keys))
    decreases Height(baseline) + Height(intervention), 0, |keys|
  {
    if keys != [] {
      ChildIsLower(baseline, keys[0]);
      ChildIsLower(intervention, keys[0]);
      var child := ChildDiff(baseline, intervention, keys[0]);
      ChangesArePrefixFree(Get(baseline.fields, keys[0]), Get(intervention.fields, keys[0]));
      UnderIsPrefixFree(keys[0], child);
      KeysArePrefixFree(baseline, intervention, keys[1..]);
      KeysStartChanges(baseline, intervention, keys[1..]);
      var first, rest := Under(keys[0], child), DiffKeys(baseline, intervention, keys[1..]);
      hide Diff, DiffKeys, Under;
      JoinPrefixFree(first, rest, keys[0]);
    }
  }

  lemma {:induction false} JoinPrefixFree(first: seq<Change>, rest: seq<Change>, key: string)
    requires PrefixFree(first) && PrefixFree(rest)
    requires forall i :: 0 <= i < |first| ==> first[i].keys != [] && first[i].keys[0] == key
    requires forall change :: change in rest ==> change.keys != [] && change.keys[0] != key
    ensures PrefixFree(first + rest)
  {
    var all := first + rest;
    forall i, j | 0 <= i < j < |all|
      ensures !(all[i].keys <= all[j].keys) && !(all[j].keys <= all[i].keys)
    {
      if i < |first| <= j {
        assert all[j] in rest;
        assert all[i].keys[0] != all[j].keys[0];
      }
    }
  }

  // No changed path leads to or into another.
  lemma {:induction false} ChangesArePrefixFree(baseline: Json, intervention: Json)
    ensures PrefixFree(Diff(baseline, intervention))
    decreases Height(baseline) + Height(intervention), 1, 0
  {
    if baseline.Obj? && intervention.Obj? {
      KeysArePrefixFree(baseline, intervention, Sorted(baseline.fields.Keys + intervention.fields.Keys));
    }
  }

  // At the first key where two paths part, the keys are in order.
  predicate Earlier(a: seq<string>, b: seq<string>)
    decreases |a|
  {
    a != [] && b != [] && (Less(a[0], b[0]) || (a[0] == b[0] && Earlier(a[1..], b[1..])))
  }

  ghost predicate InOrder(changes: seq<Change>) {
    forall i, j :: 0 <= i < j < |changes| ==> Earlier(changes[i].keys, changes[j].keys)
  }

  lemma {:induction false} UnderInOrder(key: string, changes: seq<Change>)
    requires InOrder(changes)
    ensures InOrder(Under(key, changes))
  {
    var under := Under(key, changes);
    forall i, j | 0 <= i < j < |under|
      ensures Earlier(under[i].keys, under[j].keys)
    {
      assert under[i].keys[1..] == changes[i].keys && under[j].keys[1..] == changes[j].keys;
    }
  }

  lemma {:induction false} JoinInOrder(first: seq<Change>, rest: seq<Change>, key: string)
    requires InOrder(first) && InOrder(rest)
    requires forall i :: 0 <= i < |first| ==> first[i].keys != [] && first[i].keys[0] == key
    requires forall change :: change in rest ==> change.keys != [] && Less(key, change.keys[0])
    ensures InOrder(first + rest)
  {
    var all := first + rest;
    forall i, j | 0 <= i < j < |all|
      ensures Earlier(all[i].keys, all[j].keys)
    {
      if i < |first| <= j {
        assert all[j] in rest;
      }
    }
  }

  lemma {:induction false} KeysInOrder(baseline: Json, intervention: Json, keys: seq<string>)
    requires baseline.Obj? && intervention.Obj?
    requires forall i, j :: 0 <= i < j < |keys| ==> Less(keys[i], keys[j])
    ensures InOrder(DiffKeys(baseline, intervention, keys))
    decreases Height(baseline) + Height(intervention), 0, |keys|
  {
    hide Less, Earlier;
    if keys != [] {
      ChildIsLower(baseline, keys[0]);
      ChildIsLower(intervention, keys[0]);
      var child := ChildDiff(baseline, intervention, keys[0]);
      ChangesInOrder(Get(baseline.fields, keys[0]), Get(intervention.fields, keys[0]));
      UnderInOrder(keys[0], child);
      KeysInOrder(baseline, intervention, keys[1..]);
      KeysStartChanges(baseline, intervention, keys[1..]);
      var first, rest := Under(keys[0], child), DiffKeys(baseline, intervention, keys[1..]);
      hide Diff, DiffKeys, InOrder;
      assert forall key :: key in keys[1..] ==> Less(keys[0], key);
      JoinInOrder(first, rest, keys[0]);
    }
  }

  // The changes are listed in the order of their keys, at every level.
  lemma {:induction false} ChangesInOrder(baseline: Json, intervention: Json)
    ensures InOrder(Diff(baseline, intervention))
    decreases Height(baseline) + Height(intervention), 1, 0
  {
    if baseline.Obj? && intervention.Obj? {
      KeysInOrder(baseline, intervention, Sorted(baseline.fields.Keys + intervention.fields.Keys));
    }
  }

  /*** Single interventions ***/

  predicate HasPath(json: Json, keys: seq<string>)
    decreases |keys|
  {
    keys == [] || (json.Obj? && keys[0] in json.fields && HasPath(json.fields[keys[0]], keys[1..]))
  }

  function ValueAt(json: Json, keys: seq<string>): Json
    requires HasPath(json, keys)
    decreases |keys|
  {
    if keys == [] then json else ValueAt(json.fields[keys[0]], keys[1..])
  }

  // The intervention differs from the baseline in the value at one path and in nothing else; the two values are not both
  // objects, so the path is as long as it can be.
  ghost predicate OneValueChanged(baseline: Json, intervention: Json, keys: seq<string>, value: Json) {
    && HasPath(baseline, keys)
    && ValueAt(baseline, keys) != value && !(ValueAt(baseline, keys).Obj? && value.Obj?)
    && intervention == SetAt(baseline, keys, value)
  }

  lemma {:induction false} NothingChanged(json: Json)
    ensures Diff(json, json) == []
  {
    NoChangeMeansSameValues(json, json);
    SchemaIsOwn(json);
    SchemaSeesEquality(json, json);
  }

  lemma {:induction false} SchemaIsOwn(json: Json)
    ensures SameSchema(json, json)
    decreases json
  {
    if json.Obj? {
      forall key | key in json.fields
        ensures SameSchema(json.fields[key], json.fields[key])
      {
        SchemaIsOwn(json.fields[key]);
      }
    }
  }

  lemma {:induction false} OnlyKeyChanges(baseline: Json, intervention: Json, keys: seq<string>, key: string)
    requires baseline.Obj? && intervention.Obj?
    requires forall i, j :: 0 <= i < j < |keys| ==> keys[i] != keys[j]
    requires forall other :: other in keys && other != key ==> ChildDiff(baseline, intervention, other) == []
    ensures DiffKeys(baseline, intervention, keys) == if key in keys then Under(key, ChildDiff(baseline, intervention, key)) else []
    decreases |keys|
  {
    if keys != [] {
      OnlyKeyChanges(baseline, intervention, keys[1..], key);
      NothingUnder(keys[0], ChildDiff(baseline, intervention, keys[0]));
      assert key in keys <==> key == keys[0] || key in keys[1..];
    }
  }

  lemma {:induction false} OneChangeReported(baseline: Json, keys: seq<string>, value: Json)
    requires HasPath(baseline, keys) && ValueAt(baseline, keys) != value && !(ValueAt(baseline, keys).Obj? && value.Obj?)
    ensures Diff(baseline, SetAt(baseline, keys, value)) == [Change(keys, ValueAt(baseline, keys), value)]
    decreases |keys|
  {
    if keys != [] {
      hide Diff, Under;
      var key, after := keys[0], SetAt(baseline.fields[keys[0]], keys[1..], value);
      OneChangeReported(baseline.fields[key], keys[1..], value);
      OneKeyReported(baseline, key, after);
      UnderOne(key, Change(keys[1..], ValueAt(baseline, keys), value));
      assert [key] + keys[1..] == keys;
    }
  }

  lemma {:induction false} UnderOne(key: string, change: Change)
    ensures Under(key, [change]) == [change.(keys := [key] + change.keys)]
  {
  }

  lemma {:induction false} OneKeyReported(baseline: Json, key: string, value: Json)
    requires baseline.Obj? && key in baseline.fields
    ensures Diff(baseline, Obj(baseline.fields[key := value])) == Under(key, Diff(baseline.fields[key], value))
  {
    var intervention := Obj(baseline.fields[key := value]);
    var all := Sorted(baseline.fields.Keys + intervention.fields.Keys);
    assert Diff(baseline, intervention) == DiffKeys(baseline, intervention, all);
    hide Diff, DiffKeys, Under, Sorted;
    forall other | other in all && other != key
      ensures ChildDiff(baseline, intervention, other) == []
    {
      NothingChanged(Get(baseline.fields, other));
    }
    OnlyKeyChanges(baseline, intervention, all, key);
    assert key in all;
  }

  // A reported change names a value of the baseline.
  ghost predicate ChangesLeaf(baseline: Json, change: Change) {
    && HasPath(baseline, change.keys) && ValueAt(baseline, change.keys) == change.baseline
    && change.baseline != change.intervention && !(change.baseline.Obj? && change.intervention.Obj?)
  }

  lemma {:induction false} LeafUnder(baseline: Json, key: string, change: Change)
    requires baseline.Obj? && key in baseline.fields && ChangesLeaf(baseline.fields[key], change)
    ensures ChangesLeaf(baseline, change.(keys := [key] + change.keys))
  {
    var keys := [key] + change.keys;
    assert keys[1..] == change.keys;
  }

  lemma {:induction false} KeysChangeLeaves(baseline: Json, intervention: Json, keys: seq<string>)
    requires baseline.Obj? && intervention.Obj? && SameSchema(baseline, intervention)
    requires forall key :: key in keys ==> key in baseline.fields
    ensures forall change :: change in DiffKeys(baseline, intervention, keys) ==> ChangesLeaf(baseline, change)
    decreases baseline, 0, |keys|
  {
    if keys != [] {
      var child := ChildDiff(baseline, intervention, keys[0]);
      ChangesAreLeaves(baseline.fields[keys[0]], intervention.fields[keys[0]]);
      KeysChangeLeaves(baseline, intervention, keys[1..]);
      var under := Under(keys[0], child);
      forall change | change in under
        ensures ChangesLeaf(baseline, change)
      {
        var n :| 0 <= n < |under| && under[n] == change;
        LeafUnder(baseline, keys[0], child[n]);
      }
    }
  }

  lemma {:induction false} ChangesAreLeaves(baseline: Json, intervention: Json)
    requires SameSchema(baseline, intervention)
    ensures forall change :: change in Diff(baseline, intervention) ==> ChangesLeaf(baseline, change)
    decreases baseline, 1, 0
  {
    if baseline.Obj? && intervention.Obj? {
      KeysChangeLeaves(baseline, intervention, Sorted(baseline.fields.Keys + intervention.fields.Keys));
    }
  }

  predicate InIntervention(keys: seq<string>) {
    |keys| >= 2 && keys[0] == "intervention"
  }

  ghost predicate SingleIntervention(baseline: Json, intervention: Json) {
    |Diff(baseline, intervention)| == 1 && InIntervention(Diff(baseline, intervention)[0].keys)
  }

  // The comparison is compliant exactly when the configurations agree everywhere off one value under `intervention`.
  lemma {:induction false} ComplianceMeansOneValue(baseline: Json, intervention: Json)
    requires SameSchema(baseline, intervention)
    ensures
      SingleIntervention(baseline, intervention) <==>
      exists keys, value :: InIntervention(keys) && OneValueChanged(baseline, intervention, keys, value)
  {
    hide Diff, HasPath, ValueAt, SameSchema, InIntervention;
    if SingleIntervention(baseline, intervention) {
      var changes := Diff(baseline, intervention);
      ChangesRoundTrip(baseline, intervention);
      ChangesAreLeaves(baseline, intervention);
      assert changes[0] in changes && changes[1..] == [];
      PatchOne(baseline, changes);
      assert OneValueChanged(baseline, intervention, changes[0].keys, changes[0].intervention);
    }
    forall keys, value | InIntervention(keys) && OneValueChanged(baseline, intervention, keys, value)
      ensures SingleIntervention(baseline, intervention)
    {
      OneChangeReported(baseline, keys, value);
    }
  }

  lemma {:induction false} PatchOne(json: Json, changes: seq<Change>)
    requires |changes| == 1
    ensures Patch(json, changes) == SetAt(json, changes[0].keys, changes[0].intervention)
  {
    assert changes[1..] == [];
  }

  /*** Reported paths ***/

  function Child(path: string, key: string): string {
    if path == "" then key else path + "." + key
  }

  function PathFrom(path: string, keys: seq<string>): string
    decreases |keys|
  {
    if keys == [] then path else PathFrom(Child(path, keys[0]), keys[1..])
  }

  function Dotted(keys: seq<string>): string {
    PathFrom("", keys)
  }

  // Field names are not empty and contain no dot.
  predicate PlainKeys(keys: seq<string>) {
    forall i :: 0 <= i < |keys| ==> keys[i] != "" && Free(keys[i], '.')
  }

  lemma {:induction false} DottedHead(path: string, keys: seq<string>)
    requires path != "" && keys != [] && PlainKeys(keys)
    ensures PathFrom(path, keys) == path + "." + Dotted(keys)
    decreases |keys|
  {
    if |keys| > 1 {
      DottedHead(path + "." + keys[0], keys[1..]);
      DottedHead(keys[0], keys[1..]);
      assert path + "." + keys[0] + "." + Dotted(keys[1..]) == path + "." + (keys[0] + "." + Dotted(keys[1..]));
    } else {
      assert keys[1..] == [];
    }
  }

  // Different paths are reported differently.
  lemma {:induction false} PathsAreDecodable(a: seq<string>, b: seq<string>)
    requires PlainKeys(a) && PlainKeys(b) && a != [] && b != [] && Dotted(a) == Dotted(b)
    ensures a == b
    decreases |a|
  {
    DottedParts(a);
    DottedParts(b);
    if |a| > 1 && |b| > 1 {
      SplitAtFirst(a[0], Dotted(a[1..]), b[0], Dotted(b[1..]), '.');
      PathsAreDecodable(a[1..], b[1..]);
      assert a == [a[0]] + a[1..] && b == [b[0]] + b[1..];
    }
  }

  lemma {:induction false} DottedParts(keys: seq<string>)
    requires keys != [] && PlainKeys(keys)
    ensures |keys| == 1 ==> Dotted(keys) == keys[0]
    ensures |keys| > 1 ==> Dotted(keys) == keys[0] + "." + Dotted(keys[1..]) && !Free(Dotted(keys), '.')
  {
    if |keys| > 1 {
      DottedHead(keys[0], keys[1..]);
      assert Dotted(keys)[|keys[0]|] == '.';
    }
  }

  // The test for the prefix of a path is a test of its first key.
  lemma {:induction false} PrefixMeansFirstKey(keys: seq<string>)
    requires keys != [] && PlainKeys(keys)
    ensures "intervention." <= Dotted(keys) <==> InIntervention(keys)
  {
    DottedParts(keys);
    var name, path := "intervention", Dotted(keys);
    assert "intervention." == name + ".";
    assert "intervention." <= path ==> path[|name|] == '.';
    if |keys| > 1 {
      if "intervention." <= path {
        var rest := path[|name| + 1..];
        assert path == name + "." + rest;
        SplitAtFirst(name, rest, keys[0], Dotted(keys[1..]), '.');
      }
    }
  }

  datatype Reported = Reported(path: string, baseline: Json, intervention: Json)

  function Report(path: string, changes: seq<Change>): seq<Reported> {
    seq(|changes|, n requires 0 <= n < |changes| =>
      Reported(PathFrom(path, changes[n].keys), changes[n].baseline, changes[n].intervention))
  }

  lemma {:induction false} ReportUnder(path: string, key: string, changes: seq<Change>)
    ensures Report(path, Under(key, changes)) == Report(Child(path, key), changes)
  {
    var under := Under(key, changes);
    forall n | 0 <= n < |changes|
      ensures PathFrom(path, under[n].keys) == PathFrom(Child(path, key), changes[n].keys)
    {
      assert under[n].keys[1..] == changes[n].keys;
    }
  }

  lemma {:induction false} ReportConcat(path: string, a: seq<Change>, b: seq<Change>)
    ensures Report(path, a + b) == Report(path, a) + Report(path, b)
  {
  }

  /*** The traversal ***/

  lemma {:induction false} KeyReport(baseline: Json, intervention: Json, path: string, keys: seq<string>, n: nat)
    requires baseline.Obj? && intervention.Obj? && n < |keys|
    ensures
      Report(path, DiffKeys(baseline, intervention, keys[n..])) ==
      Report(Child(path, keys[n]), Diff(Get(baseline.fields, keys[n]), Get(intervention.fields, keys[n])))
      + Report(path, DiffKeys(baseline, intervention, keys[n + 1..]))
  {
    var child, rest := ChildDiff(baseline, intervention, keys[n]), DiffKeys(baseline, intervention, keys[n + 1..]);
    assert keys[n..][1..] == keys[n + 1..];
    assert DiffKeys(baseline, intervention, keys[n..]) == Under(keys[n], child) + rest;
    hide Diff, DiffKeys, Report, Under, Get;
    ReportConcat(path, Under(keys[n], child), rest);
    ReportUnder(path, keys[n], child);
  }

  lemma {:induction false} ReportOfObjects(baseline: Json, intervention: Json, path: string)
    requires baseline.Obj? && intervention.Obj?
    ensures
      var keys := Sorted(baseline.fields.Keys + intervention.fields.Keys);
      && Report(path, Diff(baseline, intervention)) == Report(path, DiffKeys(baseline, intervention, keys[0..]))
      && Report(path, DiffKeys(baseline, intervention, keys[|keys|..])) == []
  {
    var keys := Sorted(baseline.fields.Keys + intervention.fields.Keys);
    assert keys[0..] == keys;
  }

  lemma {:induction false} ReportOfValues(baseline: Json, intervention: Json, path: string)
    requires !(baseline.Obj? && intervention.Obj?)
    ensures Report(path, Diff(baseline, intervention)) ==
            if baseline != intervention then [Reported(path, baseline, intervention)] else []
  {
  }

  // Append the changes below `path` to the list.
  method CollectDiff(baseline: Json, intervention: Json, path: string, changes: seq<Reported>) returns (all: seq<Reported>)
    ensures all == changes + Report(path, Diff(baseline, intervention))
    decreases Height(baseline) + Height(intervention)
  {
    hide Diff, DiffKeys, Report, Get, Child, Sorted;
    if baseline.Obj? && intervention.Obj? {
      var keys := SortedKeys(baseline.fields.Keys + intervention.fields.Keys);
      ReportOfObjects(baseline, intervention, path);
      all := changes;
      var n := 0;
      while n < |keys|
        invariant 0 <= n <= |keys|
        invariant changes + Report(path, Diff(baseline, intervention)) ==
                  all + Report(path, DiffKeys(baseline, intervention, keys[n..]))
      {
        ChildIsLower(baseline, keys[n]);
        ChildIsLower(intervention, keys[n]);
        KeyReport(baseline, intervention, path, keys, n);
        all := CollectDiff(Get(baseline.fields, keys[n]), Get(intervention.fields, keys[n]), Child(path, keys[n]), all);
        n := n + 1;
      }
    } else {
      ReportOfValues(baseline, intervention, path);
      if baseline != intervention {
        return changes + [Reported(path, baseline, intervention)];
      }
      return changes;
    }
  }

  datatype Comparison = Comparison(changeCount: nat, changes: seq<Reported>, singleInterventionCompliant: bool)

  method DiffConfigs(baseline: Json, intervention: Json) returns (comparison: Comparison)
    ensures comparison.changes == Report("", Diff(baseline, intervention))
    ensures comparison.changeCount == |Diff(baseline, intervention)|
    ensures comparison.singleInterventionCompliant ==
            (comparison.changeCount == 1 && "intervention." <= comparison.changes[0].path)
    ensures
      (forall change :: change in Diff(baseline, intervention) ==> change.keys != [] && PlainKeys(change.keys)) ==>
        (comparison.singleInterventionCompliant <==> SingleIntervention(baseline, intervention))
  {
    var changes := CollectDiff(baseline, intervention, "", []);
    var single := |changes| == 1 && "intervention." <= changes[0].path;
    comparison := Comparison(|changes|, changes, single);
    if |changes| == 1 {
      ghost var change := Diff(baseline, intervention)[0];
      assert change in Diff(baseline, intervention);
      if change.keys != [] && PlainKeys(change.keys) {
        PrefixMeansFirstKey(change.keys);
      }
    }
  }
}
