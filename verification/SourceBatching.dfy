// Uploaded sources are packed into batches that fit one model context.

module SourceBatching {
  const MAXIMUM_SOURCES_PER_BATCH: nat := 8
  const MAXIMUM_CHARACTERS_PER_BATCH: nat := 160000

  datatype Source = Source(title: string, rawText: string)

  function Characters(batch: seq<Source>): nat {
    if batch == [] then 0 else Characters(batch[..|batch| - 1]) + |batch[|batch| - 1].rawText|
  }

  // A batch respects both limits, but a source too long for any batch still gets one of its own.
  predicate Fits(batch: seq<Source>) {
    && 0 < |batch| <= MAXIMUM_SOURCES_PER_BATCH
    && (|batch| == 1 || Characters(batch) <= MAXIMUM_CHARACTERS_PER_BATCH)
  }

  function Flatten(batches: seq<seq<Source>>): seq<Source> {
    if batches == [] then [] else Flatten(batches[..|batches| - 1]) + batches[|batches| - 1]
  }

  ghost predicate IsBatching(batches: seq<seq<Source>>, sources: seq<Source>) {
    Flatten(batches) == sources && forall b :: 0 <= b < |batches| ==> Fits(batches[b])
  }

  // No batch could have taken the source that starts the next one.
  ghost predicate Greedy(batches: seq<seq<Source>>) {
    && (forall b :: 0 <= b < |batches| ==> batches[b] != [])
    && forall b :: 1 <= b < |batches| ==> !Fits(batches[b - 1] + [batches[b][0]])
  }

  lemma {:induction false} CharactersSplit(a: seq<Source>, b: seq<Source>)
    ensures Characters(a + b) == Characters(a) + Characters(b)
  {
    if b == [] {
      assert a + b == a;
    } else {
      assert (a + b)[..|a + b| - 1] == a + b[..|b| - 1];
      CharactersSplit(a, b[..|b| - 1]);
    }
  }

  // A part of a fitting batch fits as well.
  lemma {:induction false} PartFits(batch: seq<Source>, i: nat, j: nat)
    requires Fits(batch) && i < j <= |batch|
    ensures Fits(batch[i..j])
  {
    assert batch == batch[..i] + batch[i..j] + batch[j..];
    CharactersSplit(batch[..i] + batch[i..j], batch[j..]);
    CharactersSplit(batch[..i], batch[i..j]);
  }

  lemma {:induction false} FlattenAppend(batches: seq<seq<Source>>, batch: seq<Source>)
    ensures Flatten(batches + [batch]) == Flatten(batches) + batch
  {
    assert (batches + [batch])[..|batches|] == batches;
  }

  lemma {:induction false} FlattenPrefix(batches: seq<seq<Source>>, j: nat)
    requires j <= |batches|
    ensures Flatten(batches[..j]) <= Flatten(batches)
  {
    if j < |batches| {
      var front := batches[..|batches| - 1];
      FlattenPrefix(front, j);
      assert front[..j] == batches[..j];
    } else {
      assert batches[..j] == batches;
    }
  }

  lemma {:induction false} FlattenNext(batches: seq<seq<Source>>, j: nat)
    requires j < |batches|
    ensures Flatten(batches[..j + 1]) == Flatten(batches[..j]) + batches[j]
    ensures
      var whole, start := Flatten(batches), |Flatten(batches[..j])|;
      start + |batches[j]| <= |whole| && batches[j] == whole[start..start + |batches[j]|]
  {
    assert batches[..j + 1][..j] == batches[..j];
    FlattenPrefix(batches, j + 1);
    var whole, start := Flatten(batches), |Flatten(batches[..j])|;
    var upTo := Flatten(batches[..j + 1]);
    assert batches[j] == upTo[start..];
    assert upTo == whole[..|upTo|];
  }

  // After any number of batches, the greedy batching has covered at least as many sources as any other.
  lemma {:induction false} GreedyStaysAhead(greedy: seq<seq<Source>>, other: seq<seq<Source>>, sources: seq<Source>, j: nat)
    requires IsBatching(greedy, sources) && Greedy(greedy) && IsBatching(other, sources)
    requires j <= |greedy| && j <= |other|
    ensures |Flatten(other[..j])| <= |Flatten(greedy[..j])|
  {
    hide Flatten, Fits, Greedy;
    if j == 0 {
      NothingFlattened(other[..0]);
    } else {
      GreedyStaysAhead(greedy, other, sources, j - 1);
      FlattenNext(greedy, j - 1);
      FlattenNext(other, j - 1);
      if j < |greedy| {
        FlattenNext(greedy, j);
        GreedyAt(greedy, j - 1);
        FirstOfNext(sources, greedy[j - 1], greedy[j], |Flatten(greedy[..j - 1])|);
        CannotOvertake(sources, greedy[j - 1] + [greedy[j][0]], |Flatten(greedy[..j - 1])|, other[j - 1], |Flatten(other[..j - 1])|);
      } else {
        assert greedy[..j] == greedy;
        FlattenPrefix(other, j);
      }
    }
  }

  lemma {:induction false} NothingFlattened(batches: seq<seq<Source>>)
    requires batches == []
    ensures Flatten(batches) == []
  {
  }

  lemma {:induction false} GreedyAt(batches: seq<seq<Source>>, b: nat)
    requires Greedy(batches) && b + 1 < |batches|
    ensures batches[b] != [] && batches[b + 1] != [] && !Fits(batches[b] + [batches[b + 1][0]])
  {
  }

  lemma {:induction false} FirstOfNext(sources: seq<Source>, a: seq<Source>, b: seq<Source>, start: nat)
    requires b != [] && start + |a| + |b| <= |sources|
    requires a == sources[start..start + |a|] && b == sources[start + |a|..start + |a| + |b|]
    ensures a + [b[0]] == sources[start..start + |a| + 1]
  {
  }

  lemma {:induction false} SliceOfSlice(sources: seq<Source>, a: nat, b: nat, i: nat, j: nat)
    requires a <= b <= |sources| && i <= j <= b - a
    ensures sources[a..b][i..j] == sources[a + i..a + j]
  {
    var inner, outer := sources[a..b][i..j], sources[a + i..a + j];
    assert |inner| == |outer|;
    forall k | 0 <= k < |inner|
      ensures inner[k] == outer[k]
    {
      assert inner[k] == sources[a..b][i + k] == sources[a + (i + k)];
      assert outer[k] == sources[a + i + k];
    }
  }

  lemma {:induction false} InsideFits(sources: seq<Source>, batch: seq<Source>, start: nat, part: seq<Source>, i: nat)
    requires start + |batch| <= |sources| && batch == sources[start..start + |batch|] && Fits(batch)
    requires part != [] && i + |part| <= |batch| && part == sources[start + i..start + i + |part|]
    ensures Fits(part)
  {
    SliceOfSlice(sources, start, start + |batch|, i, i + |part|);
    PartFits(batch, i, i + |part|);
  }

  // A batch that starts no later than a full one and ends beyond it would hold a batch that does not fit.
  lemma {:induction false} CannotOvertake(
    sources: seq<Source>, overfull: seq<Source>, start: nat, batch: seq<Source>, start': nat)
    requires overfull != [] && start + |overfull| <= |sources| && overfull == sources[start..start + |overfull|] && !Fits(overfull)
    requires start' <= start && start' + |batch| <= |sources| && batch == sources[start'..start' + |batch|] && Fits(batch)
    ensures start' + |batch| < start + |overfull|
  {
    hide Fits;
    if start' + |batch| >= start + |overfull| {
      InsideFits(sources, batch, start', overfull, start - start');
    }
  }

  // No batching that meets the limits uses fewer batches than the greedy one.
  lemma {:induction false} GreedyIsOptimal(greedy: seq<seq<Source>>, other: seq<seq<Source>>, sources: seq<Source>)
    requires IsBatching(greedy, sources) && Greedy(greedy) && IsBatching(other, sources)
    ensures |greedy| <= |other|
  {
    if |other| < |greedy| {
      var j := |other|;
      GreedyStaysAhead(greedy, other, sources, j);
      assert other[..j] == other;
      FlattenNext(greedy, j);
    }
  }

  // Batches concatenate back to the sources in order, respect both limits, and are as few as possible.
  method CognitionSourceBatches(sources: seq<Source>) returns (batches: seq<seq<Source>>)
    ensures IsBatching(batches, sources)
    ensures forall other :: IsBatching(other, sources) ==> |batches| <= |other|
  {
    hide Fits, Flatten, Greedy, Characters;
    batches := [];
    var current: seq<Source> := [];
    var currentCharacters := 0;
    NothingPacked();
    for i := 0 to |sources|
      invariant Packing(batches, current, sources[..i]) && currentCharacters == Characters(current)
    {
      hide Packing;
      var source := sources[i];
      var sourceCharacters := |source.rawText|;
      assert sources[..i + 1] == sources[..i] + [source];
      CharactersAppend(current, source);
      if current != [] && (|current| >= MAXIMUM_SOURCES_PER_BATCH || currentCharacters + sourceCharacters > MAXIMUM_CHARACTERS_PER_BATCH) {
        PackingCloses(batches, current, sources[..i], source);
        batches := batches + [current];
        current := [];
        currentCharacters := 0;
      } else {
        PackingExtends(batches, current, sources[..i], source);
      }
      assert [] + [source] == [source];
      current := current + [source];
      currentCharacters := currentCharacters + sourceCharacters;
    }
    assert sources[..|sources|] == sources;
    PackingEnds(batches, current, sources);
    if current != [] {
      batches := batches + [current];
    }
    forall other | IsBatching(other, sources)
      ensures |batches| <= |other|
    {
      GreedyIsOptimal(batches, other, sources);
    }
  }

  // The closed batches and the open one hold the sources so far, and each was closed only because it was full.
  ghost predicate Packing(batches: seq<seq<Source>>, current: seq<Source>, sources: seq<Source>) {
    if sources == [] then batches == [] && current == []
    else IsBatching(batches + [current], sources) && Greedy(batches + [current])
  }

  lemma {:induction false} NothingPacked()
    ensures Packing([], [], []) && Characters([]) == 0
  {
  }

  lemma {:induction false} PackingEnds(batches: seq<seq<Source>>, current: seq<Source>, sources: seq<Source>)
    requires Packing(batches, current, sources)
    ensures
      var packed := if current != [] then batches + [current] else batches;
      IsBatching(packed, sources) && Greedy(packed)
  {
    if sources != [] {
      assert Fits((batches + [current])[|batches|]);
    }
  }

  lemma {:induction false} PackingCloses(batches: seq<seq<Source>>, current: seq<Source>, sources: seq<Source>, source: Source)
    requires Packing(batches, current, sources) && current != []
    requires |current| >= MAXIMUM_SOURCES_PER_BATCH || Characters(current) + |source.rawText| > MAXIMUM_CHARACTERS_PER_BATCH
    ensures Packing(batches + [current], [source], sources + [source])
  {
    var open := batches + [current];
    assert Fits(open[|batches|]);
    FitsExactly(current, source);
    OneFits(source);
    hide Fits, Flatten;
    FlattenAppend(open, [source]);
    GreedyCloses(batches, current, source);
    assert forall b :: 0 <= b < |open| ==> Fits(open[b]);
  }

  lemma {:induction false} PackingExtends(batches: seq<seq<Source>>, current: seq<Source>, sources: seq<Source>, source: Source)
    requires Packing(batches, current, sources)
    requires current != [] ==>
               |current| < MAXIMUM_SOURCES_PER_BATCH && Characters(current) + |source.rawText| <= MAXIMUM_CHARACTERS_PER_BATCH
    ensures Packing(batches, current + [source], sources + [source])
  {
    if sources == [] {
      OneFits(source);
      FlattenAppend([], [source]);
      assert current + [source] == [source] && [] + [[source]] == [[source]] && [] + [source] == [source];
    } else {
      var open := batches + [current];
      assert Fits(open[|batches|]);
      FitsExactly(current, source);
      hide Fits, Flatten;
      FlattenAppend(batches, current);
      FlattenAppend(batches, current + [source]);
      assert Flatten(batches) + (current + [source]) == Flatten(batches) + current + [source];
      GreedyExtends(batches, current, source);
      assert forall b :: 0 <= b < |batches| ==> open[b] == batches[b];
    }
  }

  lemma {:induction false} CharactersAppend(batch: seq<Source>, source: Source)
    ensures Characters(batch + [source]) == Characters(batch) + |source.rawText|
    ensures Characters([source]) == |source.rawText| && Characters([]) == 0
  {
    assert (batch + [source])[..|batch|] == batch;
    assert [source][..0] == [];
  }

  lemma {:induction false} OneFits(source: Source)
    ensures Fits([source]) && [] + [source] == [source]
  {
  }

  lemma {:induction false} FitsExactly(batch: seq<Source>, source: Source)
    requires batch == [] || Fits(batch)
    ensures Fits(batch + [source]) <==>
            batch == [] || (|batch| < MAXIMUM_SOURCES_PER_BATCH
                            && Characters(batch) + |source.rawText| <= MAXIMUM_CHARACTERS_PER_BATCH)
  {
    CharactersAppend(batch, source);
  }

  lemma {:induction false} GreedyCloses(batches: seq<seq<Source>>, current: seq<Source>, source: Source)
    requires Greedy(batches + [current]) && !Fits(current + [source])
    ensures Greedy(batches + [current] + [[source]])
  {
    var open, closed := batches + [current], batches + [current] + [[source]];
    forall b | 1 <= b < |closed|
      ensures !Fits(closed[b - 1] + [closed[b][0]])
    {
      assert b < |open| ==> closed[b] == open[b] && closed[b - 1] == open[b - 1];
    }
  }

  lemma {:induction false} GreedyExtends(batches: seq<seq<Source>>, current: seq<Source>, source: Source)
    requires if current == [] then batches == [] else Greedy(batches + [current])
    ensures Greedy(batches + [current + [source]])
  {
    var open, extended := batches + [current], batches + [current + [source]];
    assert forall b :: 0 <= b < |batches| ==> extended[b] == open[b];
    forall b | 1 <= b < |extended|
      ensures extended[b] != [] && !Fits(extended[b - 1] + [extended[b][0]])
    {
      assert open[b] != [];
      assert extended[b - 1] == open[b - 1] && extended[b][0] == open[b][0];
    }
  }
}
