// Facts about strings that several components rest on: lexicographic order, and separators.

module Text {

  /*** Lexicographic order ***/

  predicate Less(a: string, b: string) {
    b != "" && (a == "" || a[0] < b[0] || (a[0] == b[0] && Less(a[1..], b[1..])))
  }

  lemma {:induction false} LessIrreflexive(a: string)
    ensures !Less(a, a)
  {
    if a != "" {
      LessIrreflexive(a[1..]);
    }
  }

  lemma {:induction false} LessTransitive(a: string, b: string, c: string)
    requires (Less(a, b) || a == b) && Less(b, c)
    ensures Less(a, c)
  {
    if a != b && a != "" && a[0] == b[0] && b[0] == c[0] {
      LessTransitive(a[1..], b[1..], c[1..]);
    }
  }

  lemma {:induction false} LessTotal(a: string, b: string)
    ensures Less(a, b) || a == b || Less(b, a)
  {
    if a != "" && b != "" {
      LessTotal(a[1..], b[1..]);
      assert a == [a[0]] + a[1..] && b == [b[0]] + b[1..];
    }
  }

  lemma {:induction false} LessAsymmetric(a: string, b: string)
    requires Less(a, b)
    ensures !Less(b, a)
  {
    LessIrreflexive(a);
    if Less(b, a) {
      LessTransitive(a, b, a);
    }
  }

  /*** Sorting keys ***/

  ghost predicate IsLeast(keys: set<string>, least: string) {
    least in keys && forall other :: other in keys && other != least ==> Less(least, other)
  }

  lemma {:induction false} LeastExists(keys: set<string>)
    requires keys != {}
    ensures exists key :: IsLeast(keys, key)
  {
    hide Less;
    var some :| some in keys;
    if keys == {some} {
      assert IsLeast(keys, some);
    } else {
      LeastExists(keys - {some});
      var least :| IsLeast(keys - {some}, least);
      LeastWithOneMore(keys, some, least);
    }
  }

  lemma {:induction false} LeastWithOneMore(keys: set<string>, some: string, least: string)
    requires some in keys && IsLeast(keys - {some}, least)
    ensures IsLeast(keys, some) || IsLeast(keys, least)
  {
    hide Less;
    LessTotal(some, least);
    if Less(some, least) {
      forall other | other in keys && other != some
        ensures Less(some, other)
      {
        assert other in keys - {some};
        if other != least {
          LessTransitive(some, least, other);
        }
      }
    }
  }

  ghost function Least(keys: set<string>): (least: string)
    requires keys != {}
    ensures IsLeast(keys, least)
  {
    LeastExists(keys);
    var key :| IsLeast(keys, key);
    key
  }

  // The keys in lexicographic order.
  ghost function Sorted(keys: set<string>): (sorted: seq<string>)
    ensures forall key :: key in sorted <==> key in keys
    ensures forall i, j :: 0 <= i < j < |sorted| ==> Less(sorted[i], sorted[j]) && sorted[i] != sorted[j]
    decreases |keys|
  {
    if keys == {} then [] else [Least(keys)] + Sorted(keys - {Least(keys)})
  }

  lemma {:induction false} LeastIsUnique(keys: set<string>, key: string)
    requires IsLeast(keys, key)
    ensures key == Least(keys)
  {
    var least := Least(keys);
    if key != least {
      LessAsymmetric(key, least);
    }
  }

  method FindLeast(keys: set<string>) returns (least: string)
    requires keys != {}
    ensures IsLeast(keys, least)
  {
    hide Less;
    least :| least in keys;
    var pending := keys - {least};
    while pending != {}
      invariant pending <= keys && least in keys && least !in pending && IsLeast(keys - pending, least)
      decreases |pending|
    {
      var other :| other in pending;
      ghost var seen := keys - pending;
      pending := pending - {other};
      assert keys - pending == seen + {other} && seen + {other} - {other} == seen;
      LeastWithOneMore(seen + {other}, other, least);
      if Less(other, least) {
        LessAsymmetric(other, least);
        least := other;
      } else {
        LessTotal(other, least);
      }
    }
    assert keys - pending == keys;
  }

  lemma {:induction false} SortedFirst(keys: set<string>, sorted: seq<string>)
    requires keys != {}
    ensures sorted + Sorted(keys) == sorted + [Least(keys)] + Sorted(keys - {Least(keys)})
  {
  }

  // Repeated selection of the least key.
  method SortedKeys(keys: set<string>) returns (sorted: seq<string>)
    ensures sorted == Sorted(keys)
    ensures forall key :: key in sorted <==> key in keys
    ensures forall i, j :: 0 <= i < j < |sorted| ==> Less(sorted[i], sorted[j])
  {
    hide IsLeast, Sorted;
    sorted := [];
    var pending := keys;
    while pending != {}
      invariant Sorted(keys) == sorted + Sorted(pending)
      decreases |pending|
    {
      var least := FindLeast(pending);
      LeastIsUnique(pending, least);
      SortedFirst(pending, sorted);
      assert least in pending by { LeastIsIn(pending, least); }
      sorted := sorted + [least];
      pending := pending - {least};
    }
    NothingSorted(pending);
  }

  lemma {:induction false} LeastIsIn(keys: set<string>, least: string)
    requires IsLeast(keys, least)
    ensures least in keys
  {
  }

  lemma {:induction false} NothingSorted(keys: set<string>)
    requires keys == {}
    ensures Sorted(keys) == []
  {
  }

  /*** Separators ***/

  // The text does not contain the separator.
  predicate Free(s: string, separator: char) {
    forall i :: 0 <= i < |s| ==> s[i] != separator
  }

  lemma {:induction false} SeparatorNotInside(a: string, x: string, b: string, y: string, separator: char)
    requires Free(b, separator) && a + [separator] + x == b + [separator] + y
    ensures |a| >= |b|
  {
    var whole := a + [separator] + x;
    assert whole[|a|] == separator;
    assert forall i :: 0 <= i < |b| ==> whole[i] == b[i];
  }

  // Texts joined by a separator that the first parts do not contain come apart in one way.
  lemma {:induction false} SplitAtFirst(a: string, x: string, b: string, y: string, separator: char)
    requires Free(a, separator) && Free(b, separator) && a + [separator] + x == b + [separator] + y
    ensures a == b && x == y
  {
    var whole := a + [separator] + x;
    SeparatorNotInside(a, x, b, y, separator);
    SeparatorNotInside(b, y, a, x, separator);
    assert a == whole[..|a|] && b == whole[..|b|] && x == whole[|a| + 1..] && y == whole[|b| + 1..];
  }

  lemma {:induction false} SeparatorNotBeyond(x: string, a: string, y: string, b: string, separator: char)
    requires Free(b, separator) && x + [separator] + a == y + [separator] + b
    ensures |x| <= |y|
  {
    var whole := y + [separator] + b;
    assert (x + [separator] + a)[|x|] == separator;
    assert forall i :: |y| < i < |whole| ==> whole[i] == b[i - |y| - 1];
  }

  // The same for a separator that the last parts do not contain.
  lemma {:induction false} SplitAtLast(x: string, a: string, y: string, b: string, separator: char)
    requires Free(a, separator) && Free(b, separator) && x + [separator] + a == y + [separator] + b
    ensures x == y && a == b
  {
    var whole := x + [separator] + a;
    SeparatorNotBeyond(x, a, y, b, separator);
    SeparatorNotBeyond(y, b, x, a, separator);
    assert x == whole[..|x|] && y == whole[..|y|] && a == whole[|x| + 1..] && b == whole[|y| + 1..];
  }

  function JoinedBy(parts: seq<string>, separator: char): string {
    if parts == [] then ""
    else if |parts| == 1 then parts[0]
    else parts[0] + [separator] + JoinedBy(parts[1..], separator)
  }

  lemma {:induction false} JoinedIsFree(parts: seq<string>, separator: char)
    requires parts != [] && forall part :: part in parts ==> Free(part, separator)
    ensures Free(JoinedBy(parts, separator), separator) <==> |parts| == 1
  {
    assert parts[0] in parts;
    if |parts| > 1 {
      assert JoinedBy(parts, separator)[|parts[0]|] == separator;
    }
  }

  // Non-empty lists of texts that do not contain the separator are told apart by their joined text.
  lemma {:induction false} JoinedIsDecodable(a: seq<string>, b: seq<string>, separator: char)
    requires a != [] && b != [] && JoinedBy(a, separator) == JoinedBy(b, separator)
    requires (forall part :: part in a ==> Free(part, separator)) && (forall part :: part in b ==> Free(part, separator))
    ensures a == b
  {
    JoinedIsFree(a, separator);
    JoinedIsFree(b, separator);
    assert a[0] in a && b[0] in b;
    if |a| > 1 {
      SplitAtFirst(a[0], JoinedBy(a[1..], separator), b[0], JoinedBy(b[1..], separator), separator);
      JoinedIsDecodable(a[1..], b[1..], separator);
      assert a == [a[0]] + a[1..] && b == [b[0]] + b[1..];
    } else {
      assert a == [a[0]] && b == [b[0]];
    }
  }
}
