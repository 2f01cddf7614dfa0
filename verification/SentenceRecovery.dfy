// Recovering reviewable sentences from the lines of a document, and dropping near duplicates, at the level of words.

module SentenceRecovery {

  type Words = seq<string>

  // The decisions the text patterns make: document noise; a line that ends in terminal punctuation; a word that ends a
  // sentence; a complete sentence; a leading fragment; and the significant tokens of a sentence.
  datatype Patterns = Patterns(
    noise: Words -> bool, terminal: Words -> bool, ends: string -> bool, complete: Words -> bool, leading: Words -> bool,
    tokens: Words -> set<string>)

  function Flatten(parts: seq<Words>): Words {
    if parts == [] then [] else Flatten(parts[..|parts| - 1]) + parts[|parts| - 1]
  }

  /*** Lines to paragraphs ***/

  // `dropped` collects the noise left out on the way.
  datatype Gathering = Gathering(paragraphs: seq<Words>, buffer: Words, dropped: seq<Words>)

  function Flush(g: Gathering): Gathering {
    if g.buffer == [] then g else g.(paragraphs := g.paragraphs + [g.buffer], buffer := [])
  }

  function AddLine(p: Patterns, g: Gathering, line: Words): Gathering {
    if line == [] then Flush(g)
    else if p.noise(line) then g.(dropped := g.dropped + [line])
    else
      var longer := g.(buffer := g.buffer + line);
      if p.terminal(line) then Flush(longer) else longer
  }

  function Gather(p: Patterns, lines: seq<Words>): Gathering {
    if lines == [] then Gathering([], [], []) else AddLine(p, Gather(p, lines[..|lines| - 1]), lines[|lines| - 1])
  }

  /*** Paragraphs to sentences ***/

  // The words up to the first one that ends a sentence.
  function FirstPiece(p: Patterns, words: Words): (piece: Words)
    requires words != []
    ensures 0 < |piece| <= |words| && piece == words[..|piece|]
  {
    if |words| == 1 || p.ends(words[0]) then [words[0]] else [words[0]] + FirstPiece(p, words[1..])
  }

  function Pieces(p: Patterns, words: Words): seq<Words>
    decreases |words|
  {
    if words == [] then [] else [FirstPiece(p, words)] + Pieces(p, words[|FirstPiece(p, words)|..])
  }

  datatype Recovery = Recovery(sentences: seq<Words>, pending: Words, dropped: seq<Words>)

  function Extend(sentences: seq<Words>, words: Words): seq<Words>
    requires sentences != []
  {
    sentences[|sentences| - 1 := sentences[|sentences| - 1] + words]
  }

  function AddPiece(p: Patterns, r: Recovery, piece: Words): Recovery {
    if piece == [] || p.noise(piece) then r.(dropped := r.dropped + [piece])
    else
      var sentence := r.pending + piece;
      if !p.complete(sentence) then r.(pending := sentence)
      else if p.leading(sentence) && r.sentences != [] then r.(sentences := Extend(r.sentences, sentence), pending := [])
      else r.(sentences := r.sentences + [sentence], pending := [])
  }

  function AddPieces(p: Patterns, r: Recovery, pieces: seq<Words>): Recovery {
    if pieces == [] then r else AddPiece(p, AddPieces(p, r, pieces[..|pieces| - 1]), pieces[|pieces| - 1])
  }

  function Recover(p: Patterns, paragraphs: seq<Words>): Recovery {
    if paragraphs == [] then Recovery([], [], [])
    else AddPieces(p, Recover(p, paragraphs[..|paragraphs| - 1]), Pieces(p, paragraphs[|paragraphs| - 1]))
  }

  // The last fragment joins the sentence before it, stands alone, or is dropped.
  function Finish(p: Patterns, r: Recovery): Recovery {
    if r.pending == [] then r
    else if r.sentences != [] && p.leading(r.pending) then r.(sentences := Extend(r.sentences, r.pending), pending := [])
    else if p.complete(r.pending) then r.(sentences := r.sentences + [r.pending], pending := [])
    else r.(pending := [], dropped := r.dropped + [r.pending])
  }

  function Sentences(p: Patterns, lines: seq<Words>): seq<Words> {
    Finish(p, Recover(p, Flush(Gather(p, lines)).paragraphs)).sentences
  }

  // Everything left out, in two stages.
  function Dropped(p: Patterns, lines: seq<Words>): seq<Words> {
    var gathered := Flush(Gather(p, lines));
    gathered.dropped + Finish(p, Recover(p, gathered.paragraphs)).dropped
  }

  /*** Words are kept in order, and none is lost but noise and a last fragment ***/

  ghost predicate Subsequence(a: Words, b: Words) {
    if a == [] then true
    else if b == [] then false
    else
      (a[|a| - 1] == b[|b| - 1] && Subsequence(a[..|a| - 1], b[..|b| - 1])) || Subsequence(a, b[..|b| - 1])
  }

  lemma {:induction false} SkipWords(a: Words, b: Words, more: Words)
    requires Subsequence(a, b)
    ensures Subsequence(a, b + more)
  {
    if more == [] {
      assert b + more == b;
    } else {
      SkipWords(a, b, more[..|more| - 1]);
      assert (b + more)[..|b + more| - 1] == b + more[..|more| - 1];
    }
  }

  lemma {:induction false} KeepWords(a: Words, b: Words, more: Words)
    requires Subsequence(a, b)
    ensures Subsequence(a + more, b + more)
  {
    if more == [] {
      assert a + more == a && b + more == b;
    } else {
      KeepWords(a, b, more[..|more| - 1]);
      assert (a + more)[..|a + more| - 1] == a + more[..|more| - 1];
      assert (b + more)[..|b + more| - 1] == b + more[..|more| - 1];
    }
  }

  lemma {:induction false} SubsequenceTransitive(a: Words, b: Words, c: Words)
    requires Subsequence(a, b) && Subsequence(b, c)
    ensures Subsequence(a, c)
    decreases |b| + |c|
  {
    if a != [] {
      var b', c' := b[..|b| - 1], c[..|c| - 1];
      if b[|b| - 1] == c[|c| - 1] && Subsequence(b', c') {
        if a[|a| - 1] == b[|b| - 1] && Subsequence(a[..|a| - 1], b') {
          SubsequenceTransitive(a[..|a| - 1], b', c');
        } else {
          SubsequenceTransitive(a, b', c');
        }
      } else {
        SubsequenceTransitive(a, b, c');
      }
    }
  }

  lemma {:induction false} FlattenAppend(parts: seq<Words>, part: Words)
    ensures Flatten(parts + [part]) == Flatten(parts) + part
  {
    assert (parts + [part])[..|parts|] == parts;
  }

  lemma {:induction false} FlattenExtend(sentences: seq<Words>, words: Words)
    requires sentences != []
    ensures Flatten(Extend(sentences, words)) == Flatten(sentences) + words
  {
    var front := sentences[..|sentences| - 1];
    assert Extend(sentences, words) == front + [sentences[|sentences| - 1] + words];
    FlattenAppend(front, sentences[|sentences| - 1] + words);
    assert Flatten(front) + (sentences[|sentences| - 1] + words) == Flatten(front) + sentences[|sentences| - 1] + words;
  }

  lemma {:induction false} FlattenConcat(a: seq<Words>, b: seq<Words>)
    ensures Flatten(a + b) == Flatten(a) + Flatten(b)
  {
    if b == [] {
      assert a + b == a;
    } else {
      FlattenConcat(a, b[..|b| - 1]);
      FlattenAppend(a + b[..|b| - 1], b[|b| - 1]);
      assert a + b == a + b[..|b| - 1] + [b[|b| - 1]];
    }
  }

  // Kept words are an in-order part of the words read, and with the dropped ones they are exactly the words read.
  ghost predicate Accounts(kept: Words, dropped: seq<Words>, read: Words) {
    Subsequence(kept, read) && multiset(read) == multiset(kept) + multiset(Flatten(dropped))
  }

  lemma {:induction false} AccountKept(kept: Words, dropped: seq<Words>, read: Words, more: Words)
    requires Accounts(kept, dropped, read)
    ensures Accounts(kept + more, dropped, read + more)
  {
    KeepWords(kept, read, more);
  }

  lemma {:induction false} AccountDropped(kept: Words, dropped: seq<Words>, read: Words, more: Words)
    requires Accounts(kept, dropped, read)
    ensures Accounts(kept, dropped + [more], read + more)
  {
    SkipWords(kept, read, more);
    FlattenAppend(dropped, more);
  }

  function Held(g: Gathering): Words {
    Flatten(g.paragraphs) + g.buffer
  }

  lemma {:induction false} FlushHolds(g: Gathering)
    ensures Held(Flush(g)) == Held(g) && Flush(g).dropped == g.dropped && Flush(g).buffer == []
  {
    FlattenAppend(g.paragraphs, g.buffer);
  }

  lemma {:induction false} AddLineAccounts(p: Patterns, g: Gathering, line: Words, read: Words)
    requires Accounts(Held(g), g.dropped, read)
    ensures
      var next := AddLine(p, g, line);
      && Accounts(Held(next), next.dropped, read + line)
      && (next.dropped == g.dropped || (next.dropped == g.dropped + [line] && p.noise(line)))
  {
    hide Accounts, Held;
    FlushHolds(g);
    FlushHolds(g.(buffer := g.buffer + line));
    if line == [] {
      assert read + line == read;
    } else if p.noise(line) {
      AccountDropped(Held(g), g.dropped, read, line);
      DroppedIsNotHeld(g, g.dropped + [line]);
    } else {
      AccountKept(Held(g), g.dropped, read, line);
      BufferIsHeld(g, line);
    }
  }

  lemma {:induction false} DroppedIsNotHeld(g: Gathering, dropped: seq<Words>)
    ensures Held(g.(dropped := dropped)) == Held(g)
  {
  }

  lemma {:induction false} BufferIsHeld(g: Gathering, line: Words)
    ensures Held(g.(buffer := g.buffer + line)) == Held(g) + line
  {
    assert Flatten(g.paragraphs) + (g.buffer + line) == Flatten(g.paragraphs) + g.buffer + line;
  }

  lemma {:induction false} NothingRead(kept: Words, dropped: seq<Words>, read: Words)
    requires kept == [] && dropped == [] && read == []
    ensures Accounts(kept, dropped, read)
  {
  }

  lemma {:induction false} GatherAccounts(p: Patterns, lines: seq<Words>)
    ensures Accounts(Held(Gather(p, lines)), Gather(p, lines).dropped, Flatten(lines))
    ensures forall piece :: piece in Gather(p, lines).dropped ==> p.noise(piece)
  {
    if lines == [] {
      NothingRead(Held(Gather(p, lines)), [], Flatten(lines));
    } else {
      hide Accounts, Held, AddLine;
      var front, line := lines[..|lines| - 1], lines[|lines| - 1];
      GatherAccounts(p, front);
      AddLineAccounts(p, Gather(p, front), line, Flatten(front));
    }
  }

  function Kept(r: Recovery): Words {
    Flatten(r.sentences) + r.pending
  }

  lemma {:induction false} PendingIsKept(r: Recovery, piece: Words)
    ensures Kept(r.(pending := r.pending + piece)) == Kept(r) + piece
    ensures Kept(r.(sentences := r.sentences + [r.pending], pending := [])) == Kept(r)
    ensures r.sentences != [] ==> Kept(r.(sentences := Extend(r.sentences, r.pending), pending := [])) == Kept(r)
  {
    assert Flatten(r.sentences) + (r.pending + piece) == Flatten(r.sentences) + r.pending + piece;
    FlattenAppend(r.sentences, r.pending);
    if r.sentences != [] {
      FlattenExtend(r.sentences, r.pending);
    }
  }

  lemma {:induction false} AddPieceAccounts(p: Patterns, r: Recovery, piece: Words, read: Words)
    requires Accounts(Kept(r), r.dropped, read) && piece != []
    ensures
      var next := AddPiece(p, r, piece);
      && Accounts(Kept(next), next.dropped, read + piece)
      && (next.dropped == r.dropped || (next.dropped == r.dropped + [piece] && p.noise(piece)))
  {
    hide Accounts, Flatten;
    if p.noise(piece) {
      AccountDropped(Kept(r), r.dropped, read, piece);
    } else {
      AccountKept(Kept(r), r.dropped, read, piece);
      PendingIsKept(r, piece);
      PendingIsKept(r.(pending := r.pending + piece), []);
    }
  }

  lemma {:induction false} NothingFlattened()
    ensures Flatten([]) == []
  {
  }

  lemma {:induction false} PiecesFlatten(p: Patterns, words: Words)
    ensures Flatten(Pieces(p, words)) == words && forall i :: 0 <= i < |Pieces(p, words)| ==> Pieces(p, words)[i] != []
    decreases |words|
  {
    hide FirstPiece, Flatten;
    if words == [] {
      NothingFlattened();
    } else {
      var first := FirstPiece(p, words);
      PiecesFlatten(p, words[|first|..]);
      FlattenConcat([first], Pieces(p, words[|first|..]));
      FlattenAppend([], first);
      NothingFlattened();
      assert [] + [first] == [first] && [] + first == first;
      assert words == first + words[|first|..];
    }
  }

  lemma {:induction false} AddPiecesAccounts(p: Patterns, r: Recovery, pieces: seq<Words>, read: Words)
    requires Accounts(Kept(r), r.dropped, read) && forall i :: 0 <= i < |pieces| ==> pieces[i] != []
    requires forall piece :: piece in r.dropped ==> p.noise(piece)
    ensures
      var next := AddPieces(p, r, pieces);
      && Accounts(Kept(next), next.dropped, read + Flatten(pieces))
      && forall piece :: piece in next.dropped ==> p.noise(piece)
  {
    hide Accounts, Kept, AddPiece;
    if pieces == [] {
      assert read + Flatten(pieces) == read;
    } else {
      var front, piece := pieces[..|pieces| - 1], pieces[|pieces| - 1];
      AddPiecesAccounts(p, r, front, read);
      AddPieceAccounts(p, AddPieces(p, r, front), piece, read + Flatten(front));
      assert read + Flatten(front) + piece == read + (Flatten(front) + piece);
    }
  }

  lemma {:induction false} RecoverAccounts(p: Patterns, paragraphs: seq<Words>)
    ensures
      var r := Recover(p, paragraphs);
      && Accounts(Kept(r), r.dropped, Flatten(paragraphs))
      && forall piece :: piece in r.dropped ==> p.noise(piece)
  {
    if paragraphs == [] {
      NothingRead(Kept(Recover(p, paragraphs)), [], Flatten(paragraphs));
    } else {
      hide Accounts, Kept, AddPieces;
      var front, paragraph := paragraphs[..|paragraphs| - 1], paragraphs[|paragraphs| - 1];
      RecoverAccounts(p, front);
      PiecesFlatten(p, paragraph);
      AddPiecesAccounts(p, Recover(p, front), Pieces(p, paragraph), Flatten(front));
    }
  }

  lemma {:induction false} FragmentDropped(kept: Words, fragment: Words, dropped: seq<Words>, read: Words)
    requires Accounts(kept + fragment, dropped, read)
    ensures Accounts(kept, dropped + [fragment], read)
  {
    SubsequenceOfLonger(kept, fragment, read);
    FlattenAppend(dropped, fragment);
  }

  lemma {:induction false} FinishAccounts(p: Patterns, r: Recovery, read: Words)
    requires Accounts(Kept(r), r.dropped, read)
    ensures
      var done := Finish(p, r);
      && done.pending == [] && Accounts(Flatten(done.sentences), done.dropped, read)
      && (done.dropped == r.dropped || (done.dropped == r.dropped + [r.pending] && !p.complete(r.pending)))
  {
    hide Accounts;
    PendingIsKept(r, []);
    hide Flatten, Extend;
    var done := Finish(p, r);
    assert Flatten(done.sentences) + [] == Flatten(done.sentences);
    assert Flatten(r.sentences) + [] == Flatten(r.sentences);
    FragmentDropped(Flatten(r.sentences), r.pending, r.dropped, read);
  }

  lemma {:induction false} SubsequenceOfLonger(a: Words, more: Words, b: Words)
    requires Subsequence(a + more, b)
    ensures Subsequence(a, b)
  {
    SubsequenceSelf(a);
    SkipWords(a, a, more);
    SubsequenceTransitive(a, a + more, b);
  }

  lemma {:induction false} SubsequenceSelf(a: Words)
    ensures Subsequence(a, a)
  {
    if a != [] {
      SubsequenceSelf(a[..|a| - 1]);
    }
  }

  // Before de-duplication, the recovered words are source words in source order; what is missing is exactly the pieces
  // judged to be noise and, last, a fragment that never became complete.
  lemma {:induction false} RecoveryAccounts(p: Patterns, lines: seq<Words>)
    ensures Subsequence(Flatten(Sentences(p, lines)), Flatten(lines))
    ensures multiset(Flatten(lines)) == multiset(Flatten(Sentences(p, lines))) + multiset(Flatten(Dropped(p, lines)))
    ensures
      var dropped := Dropped(p, lines);
      forall i :: 0 <= i < |dropped| ==> p.noise(dropped[i]) || (i == |dropped| - 1 && !p.complete(dropped[i]))
  {
    hide Accounts, Kept, Flatten, Finish, Recover, Gather, Flush;
    var gathered := Flush(Gather(p, lines));
    GatherAccounts(p, lines);
    FlushHolds(Gather(p, lines));
    assert Flatten(gathered.paragraphs) + [] == Flatten(gathered.paragraphs);
    var r := Recover(p, gathered.paragraphs);
    RecoverAccounts(p, gathered.paragraphs);
    FinishAccounts(p, r, Flatten(gathered.paragraphs));
    var done := Finish(p, r);
    StagesAccount(Flatten(done.sentences), done.dropped, Flatten(gathered.paragraphs), gathered.dropped, Flatten(lines));
  }

  lemma {:induction false} StagesAccount(kept: Words, later: seq<Words>, between: Words, earlier: seq<Words>, read: Words)
    requires Accounts(between, earlier, read) && Accounts(kept, later, between)
    ensures Subsequence(kept, read) && multiset(read) == multiset(kept) + multiset(Flatten(earlier + later))
  {
    SubsequenceTransitive(kept, between, read);
    FlattenConcat(earlier, later);
  }

  /*** Where paragraphs and sentences end ***/

  function GatherFrom(p: Patterns, g: Gathering, lines: seq<Words>): Gathering {
    if lines == [] then g else AddLine(p, GatherFrom(p, g, lines[..|lines| - 1]), lines[|lines| - 1])
  }

  lemma {:induction false} GatherSplit(p: Patterns, a: seq<Words>, b: seq<Words>)
    ensures Gather(p, a + b) == GatherFrom(p, Gather(p, a), b)
  {
    if b == [] {
      assert a + b == a;
    } else {
      hide AddLine;
      GatherSplit(p, a, b[..|b| - 1]);
      assert (a + b)[..|a + b| - 1] == a + b[..|b| - 1];
    }
  }

  lemma {:induction false} GatherFromEmptyBuffer(p: Patterns, g: Gathering, lines: seq<Words>)
    requires g.buffer == []
    ensures
      var from, alone := GatherFrom(p, g, lines), Gather(p, lines);
      from.paragraphs == g.paragraphs + alone.paragraphs && from.buffer == alone.buffer
  {
    if lines != [] {
      GatherFromEmptyBuffer(p, g, lines[..|lines| - 1]);
    }
  }

  // A line after which a paragraph cannot go on.
  predicate Breaks(p: Patterns, line: Words) {
    line == [] || (!p.noise(line) && p.terminal(line))
  }

  function ParagraphsOf(p: Patterns, lines: seq<Words>): seq<Words> {
    Flush(Gather(p, lines)).paragraphs
  }

  // No paragraph goes on past a blank line or a line that ends in terminal punctuation.
  lemma {:induction false} ParagraphsEndAtBreaks(p: Patterns, before: seq<Words>, line: Words, after: seq<Words>)
    requires Breaks(p, line)
    ensures ParagraphsOf(p, before + [line] + after) == ParagraphsOf(p, before + [line]) + ParagraphsOf(p, after)
  {
    var head := before + [line];
    assert head[..|before|] == before;
    assert Gather(p, head).buffer == [];
    GatherSplit(p, head, after);
    GatherFromEmptyBuffer(p, Gather(p, head), after);
  }

  function WithoutNoise(p: Patterns, lines: seq<Words>): Words {
    if lines == [] then []
    else WithoutNoise(p, lines[..|lines| - 1]) + (if p.noise(lines[|lines| - 1]) then [] else lines[|lines| - 1])
  }

  // Lines without a break before the last make one paragraph, of all their words but those of noise.
  lemma {:induction false} UnbrokenLinesAreOneParagraph(p: Patterns, lines: seq<Words>)
    requires forall i :: 0 <= i < |lines| - 1 ==> !Breaks(p, lines[i])
    requires lines != [] ==> lines[|lines| - 1] != []
    ensures ParagraphsOf(p, lines) == if WithoutNoise(p, lines) == [] then [] else [WithoutNoise(p, lines)]
  {
    if lines != [] {
      var front, last := lines[..|lines| - 1], lines[|lines| - 1];
      UnbrokenLinesBuffer(p, front);
      assert Gather(p, lines) == AddLine(p, Gather(p, front), last);
      var whole := WithoutNoise(p, lines);
      if p.noise(last) {
        assert whole == WithoutNoise(p, front);
      }
      assert [] + [whole] == [whole];
    }
  }

  lemma {:induction false} UnbrokenLinesBuffer(p: Patterns, lines: seq<Words>)
    requires forall i :: 0 <= i < |lines| ==> !Breaks(p, lines[i])
    ensures Gather(p, lines).paragraphs == [] && Gather(p, lines).buffer == WithoutNoise(p, lines)
  {
    if lines != [] {
      UnbrokenLinesBuffer(p, lines[..|lines| - 1]);
    }
  }

  lemma {:induction false} FirstPieceEnds(p: Patterns, words: Words)
    requires words != []
    ensures
      var piece := FirstPiece(p, words);
      && (forall j :: 0 <= j < |piece| - 1 ==> !p.ends(piece[j]))
      && (|piece| < |words| ==> p.ends(piece[|piece| - 1]))
  {
    if |words| > 1 && !p.ends(words[0]) {
      FirstPieceEnds(p, words[1..]);
    }
  }

  // A paragraph is cut after every word that ends a sentence, and nowhere else.
  lemma {:induction false} PiecesEndRightly(p: Patterns, words: Words, i: nat)
    requires i < |Pieces(p, words)|
    ensures
      var piece := Pieces(p, words)[i];
      && piece != [] && (forall j :: 0 <= j < |piece| - 1 ==> !p.ends(piece[j]))
      && (i < |Pieces(p, words)| - 1 ==> p.ends(piece[|piece| - 1]))
    decreases |words|
  {
    FirstPieceEnds(p, words);
    if i > 0 {
      PiecesEndRightly(p, words[|FirstPiece(p, words)|..], i - 1);
    }
  }

  // A complete sentence, not a leading fragment unless nothing stands before it, and then leading fragments that are
  // complete. Only the very last words of a document may be an incomplete one (`open`).
  ghost predicate Joins(p: Patterns, parts: seq<Words>, first: bool, open: bool) {
    && parts != [] && p.complete(parts[0]) && (first || !p.leading(parts[0]))
    && forall k :: 1 <= k < |parts| ==> p.leading(parts[k]) && (p.complete(parts[k]) || (open && k == |parts| - 1))
  }

  ghost predicate Joined(p: Patterns, sentence: Words, first: bool, open: bool) {
    exists parts :: Joins(p, parts, first, open) && Flatten(parts) == sentence
  }

  ghost predicate AllJoined(p: Patterns, sentences: seq<Words>, open: bool) {
    forall i :: 0 <= i < |sentences| ==> Joined(p, sentences[i], i == 0, open && i == |sentences| - 1)
  }

  lemma {:induction false} NewSentence(p: Patterns, sentences: seq<Words>, sentence: Words)
    requires AllJoined(p, sentences, false) && p.complete(sentence) && (sentences == [] || !p.leading(sentence))
    ensures AllJoined(p, sentences + [sentence], false)
  {
    var parts := [sentence];
    assert Flatten(parts) == sentence by {
      assert parts[..0] == [];
    }
    assert Joins(p, parts, sentences == [], false);
  }

  lemma {:induction false} LongerSentence(p: Patterns, sentences: seq<Words>, words: Words)
    requires AllJoined(p, sentences, false) && sentences != [] && p.leading(words)
    ensures AllJoined(p, Extend(sentences, words), !p.complete(words))
  {
    var n := |sentences| - 1;
    assert Joined(p, sentences[n], n == 0, false);
    var parts :| Joins(p, parts, n == 0, false) && Flatten(parts) == sentences[n];
    var more := parts + [words];
    assert more[..|parts|] == parts;
    assert Joins(p, more, n == 0, !p.complete(words)) && Flatten(more) == sentences[n] + words;
  }

  lemma {:induction false} OpenOrNot(p: Patterns, sentences: seq<Words>)
    requires AllJoined(p, sentences, false)
    ensures AllJoined(p, sentences, true)
  {
    forall i | 0 <= i < |sentences|
      ensures Joined(p, sentences[i], i == 0, i == |sentences| - 1)
    {
      assert Joined(p, sentences[i], i == 0, false);
      var parts :| Joins(p, parts, i == 0, false) && Flatten(parts) == sentences[i];
      assert Joins(p, parts, i == 0, i == |sentences| - 1);
    }
  }

  lemma {:induction false} PiecesAreJoined(p: Patterns, r: Recovery, pieces: seq<Words>)
    requires AllJoined(p, r.sentences, false)
    ensures AllJoined(p, AddPieces(p, r, pieces).sentences, false)
  {
    if pieces != [] {
      hide AllJoined, Extend;
      var front, piece := AddPieces(p, r, pieces[..|pieces| - 1]), pieces[|pieces| - 1];
      PiecesAreJoined(p, r, pieces[..|pieces| - 1]);
      var sentence := front.pending + piece;
      if p.complete(sentence) {
        if p.leading(sentence) && front.sentences != [] {
          LongerSentence(p, front.sentences, sentence);
        } else {
          NewSentence(p, front.sentences, sentence);
        }
      }
    }
  }

  lemma {:induction false} RecoveredAreJoined(p: Patterns, paragraphs: seq<Words>)
    ensures AllJoined(p, Recover(p, paragraphs).sentences, false)
  {
    if paragraphs != [] {
      hide AddPieces, Joined;
      RecoveredAreJoined(p, paragraphs[..|paragraphs| - 1]);
      hide AllJoined;
      PiecesAreJoined(p, Recover(p, paragraphs[..|paragraphs| - 1]), Pieces(p, paragraphs[|paragraphs| - 1]));
    }
  }

  // Every recovered sentence starts with a complete one and goes on with leading fragments only; no sentence but the first
  // starts with a leading fragment.
  lemma {:induction false} SentencesAreJoined(p: Patterns, lines: seq<Words>)
    ensures AllJoined(p, Sentences(p, lines), true)
  {
    hide Gather, Recover, Flush, Extend, AllJoined;
    var r := Recover(p, Flush(Gather(p, lines)).paragraphs);
    RecoveredAreJoined(p, Flush(Gather(p, lines)).paragraphs);
    if r.pending != [] && r.sentences != [] && p.leading(r.pending) {
      LongerSentence(p, r.sentences, r.pending);
      if p.complete(r.pending) {
        OpenOrNot(p, Extend(r.sentences, r.pending));
      }
    } else if r.pending != [] && p.complete(r.pending) {
      NewSentence(p, r.sentences, r.pending);
      OpenOrNot(p, r.sentences + [r.pending]);
    } else {
      OpenOrNot(p, r.sentences);
    }
  }

  /*** Near duplicates ***/

  // Token sets that share at least 88 percent of their union, or of which one with at least eight tokens contains, or is
  // contained in, the other.
  predicate Similar(a: set<string>, b: set<string>) {
    var overlap, union := |a * b|, |a + b|;
    || (union > 0 && 100 * overlap >= 88 * union)
    || (overlap == (if |a| < |b| then |a| else |b|) && overlap >= 8)
  }

  predicate IsDuplicate(tokens: set<string>, accepted: seq<set<string>>) {
    tokens == {} || exists i :: 0 <= i < |accepted| && Similar(tokens, accepted[i])
  }

  function Tokens(p: Patterns, sentences: seq<Words>): seq<set<string>> {
    seq(|sentences|, i requires 0 <= i < |sentences| => p.tokens(sentences[i]))
  }

  function Consider(p: Patterns, accepted: seq<Words>, sentence: Words): seq<Words> {
    if IsDuplicate(p.tokens(sentence), Tokens(p, accepted)) then accepted else accepted + [sentence]
  }

  // The accepted sentences after considering more, in order.
  function Accept(p: Patterns, accepted: seq<Words>, sentences: seq<Words>): seq<Words> {
    if sentences == [] then accepted
    else Consider(p, Accept(p, accepted, sentences[..|sentences| - 1]), sentences[|sentences| - 1])
  }

  function Deduplicate(p: Patterns, sentences: seq<Words>): seq<Words> {
    Accept(p, [], sentences)
  }

  // Every sentence has tokens and resembles no earlier one.
  ghost predicate Distinct(p: Patterns, sentences: seq<Words>) {
    && (forall i :: 0 <= i < |sentences| ==> p.tokens(sentences[i]) != {})
    && (forall i, j :: 0 <= i < j < |sentences| ==> !Similar(p.tokens(sentences[j]), p.tokens(sentences[i])))
  }

  lemma {:induction false} SimilarIsSymmetric(a: set<string>, b: set<string>)
    ensures Similar(a, b) == Similar(b, a)
  {
    assert a * b == b * a && a + b == b + a;
  }

  lemma {:induction false} ConsiderKeepsDistinct(p: Patterns, accepted: seq<Words>, sentence: Words)
    requires Distinct(p, accepted)
    ensures Distinct(p, Consider(p, accepted, sentence)) && accepted <= Consider(p, accepted, sentence)
  {
    hide Similar;
    var tokens := Tokens(p, accepted);
    if !IsDuplicate(p.tokens(sentence), tokens) {
      assert forall i :: 0 <= i < |accepted| ==> tokens[i] == p.tokens(accepted[i]);
    }
  }

  lemma {:induction false} AcceptKeepsDistinct(p: Patterns, accepted: seq<Words>, sentences: seq<Words>)
    requires Distinct(p, accepted)
    ensures Distinct(p, Accept(p, accepted, sentences)) && accepted <= Accept(p, accepted, sentences)
  {
    if sentences != [] {
      hide Distinct, Consider;
      AcceptKeepsDistinct(p, accepted, sentences[..|sentences| - 1]);
      ConsiderKeepsDistinct(p, Accept(p, accepted, sentences[..|sentences| - 1]), sentences[|sentences| - 1]);
    }
  }

  // No two accepted sentences are near duplicates, whichever is compared with which.
  lemma {:induction false} AcceptedAreDistinct(p: Patterns, sentences: seq<Words>, i: nat, j: nat)
    requires i < |Deduplicate(p, sentences)| && j < |Deduplicate(p, sentences)| && i != j
    ensures
      var accepted := Deduplicate(p, sentences);
      p.tokens(accepted[i]) != {} && !Similar(p.tokens(accepted[i]), p.tokens(accepted[j]))
  {
    var accepted := Deduplicate(p, sentences);
    AcceptKeepsDistinct(p, [], sentences);
    hide Similar, Accept;
    SimilarIsSymmetric(p.tokens(accepted[i]), p.tokens(accepted[j]));
  }

  lemma {:induction false} AcceptSplit(p: Patterns, accepted: seq<Words>, a: seq<Words>, b: seq<Words>)
    ensures Accept(p, accepted, a + b) == Accept(p, Accept(p, accepted, a), b)
  {
    if b == [] {
      assert a + b == a;
    } else {
      hide Consider;
      var front := b[..|b| - 1];
      assert (a + b)[..|a + b| - 1] == a + front;
      AcceptSplit(p, accepted, a, front);
    }
  }

  // A sentence that was not accepted has no significant tokens, or resembles a sentence accepted before it.
  lemma {:induction false} DroppedHaveDuplicates(p: Patterns, sentences: seq<Words>, k: nat)
    requires k < |sentences|
    ensures
      var before, accepted := Deduplicate(p, sentences[..k]), Deduplicate(p, sentences);
      && before <= accepted
      && ((|before| < |accepted| && accepted[|before|] == sentences[k])
          || p.tokens(sentences[k]) == {}
          || exists i :: 0 <= i < |before| && Similar(p.tokens(sentences[k]), p.tokens(before[i])))
  {
    hide Similar;
    var before := Deduplicate(p, sentences[..k]);
    var after := Consider(p, before, sentences[k]);
    assert sentences == sentences[..k + 1] + sentences[k + 1..];
    AcceptSplit(p, [], sentences[..k + 1], sentences[k + 1..]);
    assert sentences[..k + 1][..k] == sentences[..k];
    assert Deduplicate(p, sentences[..k + 1]) == after;
    AcceptGrows(p, after, sentences[k + 1..]);
    if IsDuplicate(p.tokens(sentences[k]), Tokens(p, before)) && p.tokens(sentences[k]) != {} {
      var i :| 0 <= i < |before| && Similar(p.tokens(sentences[k]), Tokens(p, before)[i]);
      assert Tokens(p, before)[i] == p.tokens(before[i]);
    }
  }

  lemma {:induction false} AcceptGrows(p: Patterns, accepted: seq<Words>, sentences: seq<Words>)
    ensures accepted <= Accept(p, accepted, sentences)
  {
    if sentences != [] {
      hide IsDuplicate;
      AcceptGrows(p, accepted, sentences[..|sentences| - 1]);
    }
  }

  lemma {:induction false} DistinctPrefix(p: Patterns, sentences: seq<Words>, n: nat)
    requires Distinct(p, sentences) && n <= |sentences|
    ensures Distinct(p, sentences[..n])
  {
    hide Similar;
  }

  lemma {:induction false} DistinctAreAllAccepted(p: Patterns, sentences: seq<Words>)
    requires Distinct(p, sentences)
    ensures Deduplicate(p, sentences) == sentences
  {
    if sentences != [] {
      var front, last := sentences[..|sentences| - 1], sentences[|sentences| - 1];
      DistinctPrefix(p, sentences, |sentences| - 1);
      DistinctAreAllAccepted(p, front);
      hide Similar;
      assert forall i :: 0 <= i < |front| ==> Tokens(p, front)[i] == p.tokens(sentences[i]);
      assert sentences == front + [last];
    }
  }

  // A second pass changes nothing.
  lemma {:induction false} SecondPassChangesNothing(p: Patterns, sentences: seq<Words>)
    ensures Deduplicate(p, Deduplicate(p, sentences)) == Deduplicate(p, sentences)
  {
    AcceptKeepsDistinct(p, [], sentences);
    DistinctAreAllAccepted(p, Deduplicate(p, sentences));
  }

  /*** The loops ***/

  method IsDuplicateFingerprint(tokens: set<string>, accepted: seq<set<string>>) returns (duplicate: bool)
    ensures duplicate == IsDuplicate(tokens, accepted)
  {
    if tokens == {} {
      return true;
    }
    var i := 0;
    while i < |accepted|
      invariant 0 <= i <= |accepted| && forall j :: 0 <= j < i ==> !Similar(tokens, accepted[j])
    {
      if Similar(tokens, accepted[i]) {
        return true;
      }
      i := i + 1;
    }
    return false;
  }

  lemma {:induction false} TokensAppend(p: Patterns, sentences: seq<Words>, sentence: Words)
    ensures Tokens(p, sentences + [sentence]) == Tokens(p, sentences) + [p.tokens(sentence)]
  {
  }

  method DeduplicateSentences(p: Patterns, sentences: seq<Words>) returns (accepted: seq<Words>)
    ensures accepted == Deduplicate(p, sentences)
  {
    hide IsDuplicate, Tokens;
    accepted := [];
    var fingerprints: seq<set<string>> := [];
    assert fingerprints == Tokens(p, accepted) by { NoTokens(p); }
    var i := 0;
    while i < |sentences|
      invariant 0 <= i <= |sentences| && accepted == Deduplicate(p, sentences[..i]) && fingerprints == Tokens(p, accepted)
    {
      assert sentences[..i + 1][..i] == sentences[..i];
      var fingerprint := p.tokens(sentences[i]);
      var duplicate := IsDuplicateFingerprint(fingerprint, fingerprints);
      if !duplicate {
        TokensAppend(p, accepted, sentences[i]);
        accepted := accepted + [sentences[i]];
        fingerprints := fingerprints + [fingerprint];
      }
      i := i + 1;
    }
    assert sentences[..i] == sentences;
  }

  lemma {:induction false} NoTokens(p: Patterns)
    ensures Tokens(p, []) == []
  {
  }

  // The first loop: lines into paragraphs.
  method LogicalLines(p: Patterns, lines: seq<Words>) returns (paragraphs: seq<Words>)
    ensures paragraphs == Flush(Gather(p, lines)).paragraphs
  {
    paragraphs := [];
    var buffer: Words := [];
    var i := 0;
    while i < |lines|
      invariant 0 <= i <= |lines|
      invariant paragraphs == Gather(p, lines[..i]).paragraphs && buffer == Gather(p, lines[..i]).buffer
    {
      assert lines[..i + 1][..i] == lines[..i];
      var line := lines[i];
      if line == [] {
        if buffer != [] {
          paragraphs := paragraphs + [buffer];
          buffer := [];
        }
      } else if !p.noise(line) {
        buffer := buffer + line;
        if p.terminal(line) {
          paragraphs := paragraphs + [buffer];
          buffer := [];
        }
      }
      i := i + 1;
    }
    assert lines[..i] == lines;
    if buffer != [] {
      paragraphs := paragraphs + [buffer];
    }
  }

  // The sentences and the pending fragment, without the record of what was dropped.
  predicate SameProgress(r: Recovery, sentences: seq<Words>, pending: Words) {
    r.sentences == sentences && r.pending == pending
  }

  method AddSentences(p: Patterns, ghost r: Recovery, sentencesBefore: seq<Words>, pendingBefore: Words, pieces: seq<Words>)
    returns (sentences: seq<Words>, pending: Words)
    requires SameProgress(r, sentencesBefore, pendingBefore)
    ensures SameProgress(AddPieces(p, r, pieces), sentences, pending)
  {
    sentences, pending := sentencesBefore, pendingBefore;
    var i := 0;
    assert pieces[..0] == [];
    while i < |pieces|
      invariant 0 <= i <= |pieces| && SameProgress(AddPieces(p, r, pieces[..i]), sentences, pending)
    {
      assert pieces[..i + 1][..i] == pieces[..i];
      var piece := pieces[i];
      if piece != [] && !p.noise(piece) {
        var sentence := pending + piece;
        pending := [];
        if !p.complete(sentence) {
          pending := sentence;
        } else if p.leading(sentence) && sentences != [] {
          sentences := Extend(sentences, sentence);
        } else {
          sentences := sentences + [sentence];
        }
      }
      i := i + 1;
    }
    assert pieces[..i] == pieces;
  }

  method PreprocessSourceText(p: Patterns, lines: seq<Words>) returns (accepted: seq<Words>)
    ensures accepted == Deduplicate(p, Sentences(p, lines))
  {
    hide Gather, AddPieces;
    var paragraphs := LogicalLines(p, lines);
    var sentences: seq<Words>, pending: Words := [], [];
    var i := 0;
    assert paragraphs[..0] == [];
    while i < |paragraphs|
      invariant 0 <= i <= |paragraphs| && SameProgress(Recover(p, paragraphs[..i]), sentences, pending)
    {
      assert paragraphs[..i + 1][..i] == paragraphs[..i];
      sentences, pending := AddSentences(p, Recover(p, paragraphs[..i]), sentences, pending, Pieces(p, paragraphs[i]));
      i := i + 1;
    }
    assert paragraphs[..i] == paragraphs;
    if pending != [] && sentences != [] && p.leading(pending) {
      sentences := Extend(sentences, pending);
    } else if pending != [] && p.complete(pending) {
      sentences := sentences + [pending];
    }
    accepted := DeduplicateSentences(p, sentences);
  }

  /*** Claims over several sources ***/

  datatype Claim = Claim(source: nat, sentence: Words, required: bool)

  datatype Extraction = InvalidMaximum | NoChannels | Claims(claims: seq<Claim>)

  function Preprocessed(p: Patterns, lines: seq<Words>): seq<Words> {
    Deduplicate(p, Sentences(p, lines))
  }

  // The recovered sentences of all sources, in order.
  function AllSentences(p: Patterns, sources: seq<seq<Words>>): seq<Words> {
    if sources == [] then [] else AllSentences(p, sources[..|sources| - 1]) + Preprocessed(p, sources[|sources| - 1])
  }

  function SentencesOf(claims: seq<Claim>): seq<Words> {
    seq(|claims|, i requires 0 <= i < |claims| => claims[i].sentence)
  }

  // Each claim quotes a recovered sentence of its own source, and only the first one is required.
  ghost predicate Sourced(p: Patterns, sources: seq<seq<Words>>, claims: seq<Claim>) {
    forall i :: 0 <= i < |claims| ==>
      && claims[i].source < |sources| && claims[i].sentence in Preprocessed(p, sources[claims[i].source])
      && (claims[i].required <==> i == 0)
  }

  lemma {:induction false} AllSentencesPrefix(p: Patterns, sources: seq<seq<Words>>, i: nat)
    requires i < |sources|
    ensures AllSentences(p, sources[..i]) + Preprocessed(p, sources[i]) <= AllSentences(p, sources)
    decreases |sources| - i
  {
    var next := sources[..i + 1];
    assert next[..i] == sources[..i];
    if i + 1 < |sources| {
      AllSentencesPrefix(p, sources, i + 1);
    } else {
      assert next == sources;
    }
  }

  // What has been accepted when the maximum is reached is where de-duplicating everything would have begun.
  lemma {:induction false} StoppedEarly(p: Patterns, considered: seq<Words>, all: seq<Words>, accepted: seq<Words>)
    requires considered <= all && accepted == Deduplicate(p, considered)
    ensures accepted <= Deduplicate(p, all)
  {
    assert all == considered + all[|considered|..];
    AcceptSplit(p, [], considered, all[|considered|..]);
    AcceptGrows(p, accepted, all[|considered|..]);
  }

  lemma {:induction false} SentencesAppend(claims: seq<Claim>, claim: Claim)
    ensures SentencesOf(claims + [claim]) == SentencesOf(claims) + [claim.sentence]
  {
  }

  // The claims of one source, up to the maximum; `done` says that the maximum was reached.
  method ClaimsOfSource(p: Patterns, sources: seq<seq<Words>>, i: nat, before: seq<Claim>, maximum: nat)
    returns (claims: seq<Claim>, done: bool)
    requires i < |sources| && |before| < maximum && Sourced(p, sources, before)
    requires SentencesOf(before) == Deduplicate(p, AllSentences(p, sources[..i]))
    ensures Sourced(p, sources, claims)
    ensures done ==> |claims| == maximum && SentencesOf(claims) <= Deduplicate(p, AllSentences(p, sources))
    ensures !done ==>
              |claims| < maximum
              && SentencesOf(claims) == Deduplicate(p, AllSentences(p, sources[..i]) + Preprocessed(p, sources[i]))
  {
    hide Deduplicate, AllSentences, IsDuplicate, Tokens, SentencesOf, Preprocessed;
    var sentences := PreprocessSourceText(p, sources[i]);
    assert sentences == Preprocessed(p, sources[i]) by { PreprocessedIs(p, sources[i]); }
    ghost var earlier := AllSentences(p, sources[..i]);
    claims, done := before, false;
    var j := 0;
    assert earlier + sentences[..0] == earlier;
    while j < |sentences|
      invariant 0 <= j <= |sentences| && |claims| < maximum && Sourced(p, sources, claims)
      invariant SentencesOf(claims) == Deduplicate(p, earlier + sentences[..j])
    {
      ConsiderNext(p, earlier, sentences, j);
      var duplicate := IsDuplicateFingerprint(p.tokens(sentences[j]), Tokens(p, SentencesOf(claims)));
      if !duplicate {
        SentencesAppend(claims, Claim(i, sentences[j], claims == []));
        claims := claims + [Claim(i, sentences[j], claims == [])];
        if |claims| >= maximum {
          done := true;
          AllSentencesPrefix(p, sources, i);
          TakenIsPrefix(earlier, sentences, j + 1, AllSentences(p, sources));
          StoppedEarly(p, earlier + sentences[..j + 1], AllSentences(p, sources), SentencesOf(claims));
          return;
        }
      }
      j := j + 1;
    }
    assert sentences[..j] == sentences;
  }

  lemma {:induction false} PreprocessedIs(p: Patterns, lines: seq<Words>)
    ensures Preprocessed(p, lines) == Deduplicate(p, Sentences(p, lines))
  {
  }

  lemma {:induction false} ConsiderNext(p: Patterns, earlier: seq<Words>, sentences: seq<Words>, j: nat)
    requires j < |sentences|
    ensures Deduplicate(p, earlier + sentences[..j + 1]) == Consider(p, Deduplicate(p, earlier + sentences[..j]), sentences[j])
  {
    var longer := earlier + sentences[..j + 1];
    assert longer[..|longer| - 1] == earlier + sentences[..j] && longer[|longer| - 1] == sentences[j];
  }

  lemma {:induction false} TakenIsPrefix(earlier: seq<Words>, sentences: seq<Words>, j: nat, all: seq<Words>)
    requires j <= |sentences| && earlier + sentences <= all
    ensures earlier + sentences[..j] <= all
  {
  }

  // The claims are the first distinct sentences over all sources, as many as the maximum allows.
  method ExtractRuleFallbackClaims(p: Patterns, sources: seq<seq<Words>>, maximum: int, channels: bool) returns (result: Extraction)
    ensures result == InvalidMaximum <==> maximum < 1
    ensures result == NoChannels <==> maximum >= 1 && !channels
    ensures result.Claims? ==>
      var all := Deduplicate(p, AllSentences(p, sources));
      && Sourced(p, sources, result.claims)
      && SentencesOf(result.claims) == all[..if |all| < maximum then |all| else maximum]
  {
    if maximum < 1 {
      return InvalidMaximum;
    }
    if !channels {
      return NoChannels;
    }
    var claims: seq<Claim> := [];
    NothingAccepted(p, sources);
    hide Deduplicate, AllSentences, SentencesOf, Preprocessed, Sourced;
    var i := 0;
    while i < |sources|
      invariant 0 <= i <= |sources| && |claims| < maximum && Sourced(p, sources, claims)
      invariant SentencesOf(claims) == Deduplicate(p, AllSentences(p, sources[..i]))
    {
      var done: bool;
      claims, done := ClaimsOfSource(p, sources, i, claims, maximum);
      SentencesLength(claims);
      if done {
        return Claims(claims);
      }
      NextSource(p, sources, i);
      i := i + 1;
    }
    assert sources[..i] == sources;
    SentencesLength(claims);
    return Claims(claims);
  }

  lemma {:induction false} SentencesLength(claims: seq<Claim>)
    ensures |SentencesOf(claims)| == |claims|
  {
  }

  lemma {:induction false} NothingAccepted(p: Patterns, sources: seq<seq<Words>>)
    ensures Sourced(p, sources, []) && SentencesOf([]) == Deduplicate(p, AllSentences(p, sources[..0]))
  {
  }

  lemma {:induction false} NextSource(p: Patterns, sources: seq<seq<Words>>, i: nat)
    requires i < |sources|
    ensures AllSentences(p, sources[..i + 1]) == AllSentences(p, sources[..i]) + Preprocessed(p, sources[i])
  {
    assert sources[..i + 1][..i] == sources[..i];
  }
}
