// The exact two-sided sign test, against its definition by counting sign vectors.

module SignTest {

  function Choose(n: nat, k: nat): nat {
    if k == 0 then 1
    else if n == 0 then 0
    else Choose(n - 1, k - 1) + Choose(n - 1, k)
  }

  function Pow2(n: nat): (p: nat)
    ensures p > 0
  {
    if n == 0 then 1 else 2 * Pow2(n - 1)
  }

  // The sum of the binomial coefficients up to k.
  function LowerTail(n: nat, k: nat): nat {
    if k == 0 then Choose(n, 0) else LowerTail(n, k - 1) + Choose(n, k)
  }

  function Positives(differences: seq<real>): nat {
    if differences == [] then 0 else Positives(differences[1..]) + (if differences[0] > 0.0 then 1 else 0)
  }

  function Negatives(differences: seq<real>): nat {
    if differences == [] then 0 else Negatives(differences[1..]) + (if differences[0] < 0.0 then 1 else 0)
  }

  function Smaller(a: nat, b: nat): nat {
    if a < b then a else b
  }

  function TailProbability(n: nat, k: nat): real {
    LowerTail(n, k) as real / Pow2(n) as real
  }

  function TwoSidedSignTestPValue(differences: seq<real>): real {
    var positive, negative := Positives(differences), Negatives(differences);
    var n := positive + negative;
    if n == 0 then 1.0
    else
      var doubled := 2.0 * TailProbability(n, Smaller(positive, negative));
      if doubled < 1.0 then doubled else 1.0
  }

  /*** Sign vectors ***/

  function Image(s: set<seq<bool>>, f: seq<bool> -> seq<bool>): set<seq<bool>> {
    set v | v in s :: f(v)
  }

  function Append(sign: bool): seq<bool> -> seq<bool> {
    (v: seq<bool>) => v + [sign]
  }

  // All vectors of n signs.
  function Vectors(n: nat): set<seq<bool>> {
    if n == 0 then {[]} else Image(Vectors(n - 1), Append(true)) + Image(Vectors(n - 1), Append(false))
  }

  function Pluses(v: seq<bool>): nat {
    if v == [] then 0 else Pluses(v[..|v| - 1]) + (if v[|v| - 1] then 1 else 0)
  }

  // The vectors whose smaller count of equal signs is at most k: the outcomes at least as one-sided as the observed one.
  function AtLeastAsExtreme(n: nat, k: nat): set<seq<bool>> {
    set v | v in Vectors(n) && (Pluses(v) <= k || n <= Pluses(v) + k)
  }

  function WithPluses(n: nat, k: nat): set<seq<bool>> {
    set v | v in Vectors(n) && Pluses(v) == k
  }

  function AtMostPluses(n: nat, k: nat): set<seq<bool>> {
    set v | v in Vectors(n) && Pluses(v) <= k
  }

  function AtMostMinuses(n: nat, k: nat): set<seq<bool>> {
    set v | v in Vectors(n) && n <= Pluses(v) + k
  }

  lemma {:induction false} ImageSize(s: set<seq<bool>>, f: seq<bool> -> seq<bool>)
    requires forall a, b :: a in s && b in s && f(a) == f(b) ==> a == b
    ensures |Image(s, f)| == |s|
  {
    if s != {} {
      var v :| v in s;
      ImageSize(s - {v}, f);
      assert Image(s, f) == Image(s - {v}, f) + {f(v)};
      assert f(v) !in Image(s - {v}, f);
    }
  }

  lemma {:induction false} AppendSize(s: set<seq<bool>>, sign: bool)
    ensures |Image(s, Append(sign))| == |s|
  {
    forall a, b | a in s && b in s && Append(sign)(a) == Append(sign)(b)
      ensures a == b
    {
      assert a == (a + [sign])[..|a|] && b == (b + [sign])[..|b|];
    }
    ImageSize(s, Append(sign));
  }

  // Vectors that end in different signs differ.
  lemma {:induction false} EndsApart(s: set<seq<bool>>, t: set<seq<bool>>)
    ensures Image(s, Append(true)) !! Image(t, Append(false))
    ensures |Image(s, Append(true)) + Image(t, Append(false))| == |s| + |t|
  {
    forall v | v in Image(s, Append(true))
      ensures v !in Image(t, Append(false))
    {
      assert v[|v| - 1];
    }
    AppendSize(s, true);
    AppendSize(t, false);
  }

  lemma {:induction false} VectorsHaveLength(n: nat, v: seq<bool>)
    requires v in Vectors(n)
    ensures |v| == n && Pluses(v) <= n
  {
    if n > 0 {
      var u :| u in Vectors(n - 1) && (v == u + [true] || v == u + [false]);
      VectorsHaveLength(n - 1, u);
      assert v[..|v| - 1] == u;
    }
  }

  lemma {:induction false} AllVectors(n: nat, v: seq<bool>)
    requires |v| == n
    ensures v in Vectors(n)
  {
    if n > 0 {
      AllVectors(n - 1, v[..n - 1]);
      assert v == v[..n - 1] + [v[n - 1]];
      assert v == Append(v[n - 1])(v[..n - 1]);
    }
  }

  lemma {:induction false} VectorCount(n: nat)
    ensures |Vectors(n)| == Pow2(n)
  {
    hide Image, Append;
    if n > 0 {
      VectorCount(n - 1);
      EndsApart(Vectors(n - 1), Vectors(n - 1));
      VectorsSplit(n);
      hide Vectors;
    }
  }

  lemma {:induction false} VectorsSplit(n: nat)
    requires n > 0
    ensures Vectors(n) == Image(Vectors(n - 1), Append(true)) + Image(Vectors(n - 1), Append(false))
  {
    hide Image, Append;
  }

  lemma {:induction false} PlusesAppend(v: seq<bool>, sign: bool)
    ensures Pluses(v + [sign]) == Pluses(v) + (if sign then 1 else 0)
  {
    assert (v + [sign])[..|v|] == v;
  }

  lemma {:induction false} WithPlusesMeans(n: nat, k: nat, v: seq<bool>)
    ensures v in WithPluses(n, k) <==> |v| == n && Pluses(v) == k
  {
    if |v| == n {
      AllVectors(n, v);
    } else if v in Vectors(n) {
      VectorsHaveLength(n, v);
    }
  }

  // A vector extends one of the smaller set by the sign it ends in.
  lemma {:induction false} ExtendsByLastSign(n: nat, k: nat, v: seq<bool>, sign: bool)
    requires n > 0 && v != [] && v[|v| - 1] == sign
    ensures v in WithPluses(n, k) <==> v in Image(if sign then FewerPluses(n, k) else WithPluses(n - 1, k), Append(sign))
  {
    hide Vectors, Pluses, WithPluses;
    var u := v[..|v| - 1];
    assert v == u + [sign] && v == Append(sign)(u);
    PlusesAppend(u, sign);
    WithPlusesMeans(n, k, v);
    if k > 0 {
      WithPlusesMeans(n - 1, k - 1, u);
    }
    WithPlusesMeans(n - 1, k, u);
    LastSignIsAppended(if sign then FewerPluses(n, k) else WithPluses(n - 1, k), u, sign);
  }

  lemma {:induction false} LastSignIsAppended(s: set<seq<bool>>, u: seq<bool>, sign: bool)
    ensures u + [sign] in Image(s, Append(sign)) <==> u in s
  {
    if u + [sign] in Image(s, Append(sign)) {
      var w :| w in s && u + [sign] == w + [sign];
      assert w == (w + [sign])[..|w|] && u == (u + [sign])[..|u|];
    }
    assert Append(sign)(u) == u + [sign];
  }

  // The vectors that need one more plus sign.
  function FewerPluses(n: nat, k: nat): set<seq<bool>>
    requires n > 0
  {
    if k == 0 then {} else WithPluses(n - 1, k - 1)
  }

  lemma {:induction false} SplitByLastSign(n: nat, k: nat)
    requires n > 0
    ensures WithPluses(n, k) == Image(FewerPluses(n, k), Append(true)) + Image(WithPluses(n - 1, k), Append(false))
  {
    hide Vectors, Pluses, WithPluses, FewerPluses;
    forall v
      ensures v in WithPluses(n, k) <==>
              v in Image(FewerPluses(n, k), Append(true)) || v in Image(WithPluses(n - 1, k), Append(false))
    {
      WithPlusesMeans(n, k, v);
      if v != [] {
        ExtendsByLastSign(n, k, v, v[|v| - 1]);
      }
    }
  }

  lemma {:induction false} ChooseFromNone(k: nat)
    ensures |WithPluses(0, k)| == Choose(0, k)
  {
    assert WithPluses(0, k) == if k == 0 then {[]} else {};
  }

  // Each binomial coefficient counts the vectors with that many plus signs.
  lemma {:induction false} ChooseCounts(n: nat, k: nat)
    ensures |WithPluses(n, k)| == Choose(n, k)
  {
    hide WithPluses, Image, Append, Vectors, Pluses;
    if n == 0 {
      ChooseFromNone(k);
    } else {
      SplitByLastSign(n, k);
      EndsApart(FewerPluses(n, k), WithPluses(n - 1, k));
      ChooseCounts(n - 1, k);
      if k > 0 {
        ChooseCounts(n - 1, k - 1);
      }
    }
  }

  lemma {:induction false} TailCounts(n: nat, k: nat)
    ensures |AtMostPluses(n, k)| == LowerTail(n, k)
  {
    hide Vectors, Pluses, Choose;
    ChooseCounts(n, k);
    if k == 0 {
      assert AtMostPluses(n, 0) == WithPluses(n, 0);
    } else {
      TailCounts(n, k - 1);
      assert AtMostPluses(n, k) == AtMostPluses(n, k - 1) + WithPluses(n, k);
      assert AtMostPluses(n, k - 1) !! WithPluses(n, k);
    }
  }

  function Flip(v: seq<bool>): seq<bool> {
    seq(|v|, i requires 0 <= i < |v| => !v[i])
  }

  lemma {:induction false} FlipPluses(v: seq<bool>)
    ensures Pluses(Flip(v)) + Pluses(v) == |v|
  {
    if v != [] {
      FlipPluses(v[..|v| - 1]);
      assert Flip(v)[..|v| - 1] == Flip(v[..|v| - 1]);
    }
  }

  // Flipping all signs exchanges the two tails.
  lemma {:induction false} TailsMatch(n: nat, k: nat)
    ensures |AtMostMinuses(n, k)| == |AtMostPluses(n, k)|
  {
    forall a, b | Flip(a) == Flip(b)
      ensures a == b
    {
      assert |a| == |Flip(a)| && |b| == |Flip(b)|;
      assert forall i :: 0 <= i < |a| ==> a[i] == !Flip(a)[i] && b[i] == !Flip(b)[i];
    }
    ImageSize(AtMostPluses(n, k), Flip);
    forall v | v in AtMostMinuses(n, k)
      ensures v in Image(AtMostPluses(n, k), Flip)
    {
      VectorsHaveLength(n, v);
      AllVectors(n, Flip(v));
      FlipPluses(v);
      assert Flip(Flip(v)) == v;
    }
    forall v | v in Image(AtMostPluses(n, k), Flip)
      ensures v in AtMostMinuses(n, k)
    {
      var u :| u in AtMostPluses(n, k) && v == Flip(u);
      VectorsHaveLength(n, u);
      FlipPluses(u);
      AllVectors(n, v);
    }
    assert Image(AtMostPluses(n, k), Flip) == AtMostMinuses(n, k);
  }

  lemma {:induction false} SubsetSize(a: set<seq<bool>>, b: set<seq<bool>>)
    requires a <= b
    ensures |a| <= |b| && (|a| == |b| ==> a == b)
  {
    if a != {} {
      var x :| x in a;
      SubsetSize(a - {x}, b - {x});
    }
  }

  // Away from a tie, the extreme outcomes are two disjoint tails of equal size; at a tie, they are all outcomes.
  lemma {:induction false} ExtremeCount(n: nat, k: nat)
    requires 2 * k <= n
    ensures 2 * k < n ==> |AtLeastAsExtreme(n, k)| == 2 * LowerTail(n, k)
    ensures 2 * k == n ==> |AtLeastAsExtreme(n, k)| == Pow2(n) < 2 * LowerTail(n, k)
    ensures |AtLeastAsExtreme(n, k)| <= Pow2(n)
  {
    var low, high := AtMostPluses(n, k), AtMostMinuses(n, k);
    TailCounts(n, k);
    TailsMatch(n, k);
    VectorCount(n);
    assert AtLeastAsExtreme(n, k) == low + high;
    SubsetSize(AtLeastAsExtreme(n, k), Vectors(n));
    if 2 * k < n {
      assert low !! high;
    } else {
      assert low + high == Vectors(n);
      assert low * high == WithPluses(n, k);
      assert |low + high| == |low| + |high| - |low * high|;
      ChooseCounts(n, k);
      ChoosePositive(n, k);
    }
  }

  lemma {:induction false} ChoosePositive(n: nat, k: nat)
    requires k <= n
    ensures Choose(n, k) > 0
  {
    if 0 < k {
      ChoosePositive(n - 1, k - 1);
    }
  }

  lemma {:induction false} Ratio(part: real, whole: real)
    requires whole > 0.0
    ensures part / whole * whole == part
    ensures part / whole < 1.0 <==> part < whole
    ensures part / whole > 1.0 <==> part > whole
    ensures part == whole ==> part / whole == 1.0
  {
    var q := part / whole;
    assert q * whole == part;
    ScaledOrder(q, 1.0, whole);
    ScaledOrder(1.0, q, whole);
  }

  lemma {:induction false} ScaledOrder(a: real, b: real, scale: real)
    requires scale > 0.0
    ensures a < b <==> a * scale < b * scale
  {
    assert (b - a) * scale == b * scale - a * scale;
    if a < b {
      PositiveProduct(b - a, scale);
    } else {
      NonnegativeProduct(a - b, scale);
      assert (a - b) * scale == a * scale - b * scale;
    }
  }

  lemma {:induction false} PositiveProduct(a: real, b: real)
    requires a > 0.0 && b > 0.0
    ensures a * b > 0.0
  {
  }

  lemma {:induction false} NonnegativeProduct(a: real, b: real)
    requires a >= 0.0 && b > 0.0
    ensures a * b >= 0.0
  {
  }

  // Twice the tail probability, as one fraction.
  lemma {:induction false} DoubledTail(n: nat, k: nat)
    ensures
      var doubled := 2.0 * TailProbability(n, k);
      && doubled == (2 * LowerTail(n, k)) as real / Pow2(n) as real
      && (doubled < 1.0 <==> 2 * LowerTail(n, k) < Pow2(n))
      && (doubled > 1.0 <==> 2 * LowerTail(n, k) > Pow2(n))
  {
    var tail, whole := LowerTail(n, k), Pow2(n);
    assert (2 * tail) as real == 2.0 * tail as real;
    hide LowerTail, Pow2;
    Halves(tail as real, whole as real);
    Ratio((2 * tail) as real, whole as real);
  }

  lemma {:induction false} Halves(part: real, whole: real)
    requires whole > 0.0
    ensures 2.0 * (part / whole) == (2.0 * part) / whole
  {
  }

  function PositiveAt(differences: seq<real>): set<nat> {
    set i: nat | i < |differences| && differences[i] > 0.0
  }

  function NegativeAt(differences: seq<real>): set<nat> {
    set i: nat | i < |differences| && differences[i] < 0.0
  }

  lemma {:induction false} LastSign(differences: seq<real>)
    requires differences != []
    ensures
      var front, last := differences[..|differences| - 1], differences[|differences| - 1];
      && Positives(differences) == Positives(front) + (if last > 0.0 then 1 else 0)
      && Negatives(differences) == Negatives(front) + (if last < 0.0 then 1 else 0)
  {
    if |differences| > 1 {
      LastSign(differences[1..]);
      assert differences[1..][..|differences| - 2] == differences[..|differences| - 1][1..];
    }
  }

  lemma {:induction false} SignsAreCounted(differences: seq<real>)
    ensures Positives(differences) == |PositiveAt(differences)| && Negatives(differences) == |NegativeAt(differences)|
  {
    if differences != [] {
      hide Positives, Negatives, PositiveAt, NegativeAt;
      SignsAreCounted(differences[..|differences| - 1]);
      LastSign(differences);
      LastPositive(differences);
      LastNegative(differences);
    } else {
      assert PositiveAt(differences) == {} && NegativeAt(differences) == {};
    }
  }

  lemma {:induction false} LastPositive(differences: seq<real>)
    requires differences != []
    ensures |PositiveAt(differences)|
         == |PositiveAt(differences[..|differences| - 1])| + (if differences[|differences| - 1] > 0.0 then 1 else 0)
  {
    var front, last := differences[..|differences| - 1], |differences| - 1;
    assert PositiveAt(differences) == PositiveAt(front) + (if differences[last] > 0.0 then {last} else {});
  }

  lemma {:induction false} LastNegative(differences: seq<real>)
    requires differences != []
    ensures |NegativeAt(differences)|
         == |NegativeAt(differences[..|differences| - 1])| + (if differences[|differences| - 1] < 0.0 then 1 else 0)
  {
    var front, last := differences[..|differences| - 1], |differences| - 1;
    assert NegativeAt(differences) == NegativeAt(front) + (if differences[last] < 0.0 then {last} else {});
  }

  // The p-value is the fraction of all sign vectors, as long as there are differences other than zero, that are at least
  // as one-sided as the observed differences.
  lemma {:induction false} PValueIsExact(differences: seq<real>)
    ensures
      var positive, negative := |PositiveAt(differences)|, |NegativeAt(differences)|;
      var n, k := positive + negative, if positive < negative then positive else negative;
      && |Vectors(n)| == Pow2(n)
      && TwoSidedSignTestPValue(differences)
         == if n == 0 then 1.0 else |AtLeastAsExtreme(n, k)| as real / |Vectors(n)| as real
  {
    hide AtLeastAsExtreme, Vectors, LowerTail, Pow2, TailProbability;
    SignsAreCounted(differences);
    var n, k := Positives(differences) + Negatives(differences), Smaller(Positives(differences), Negatives(differences));
    VectorCount(n);
    if n > 0 {
      ExtremeCount(n, k);
      DoubledTail(n, k);
      Ratio(Pow2(n) as real, Pow2(n) as real);
      if 2 * LowerTail(n, k) == Pow2(n) {
        Ratio((2 * LowerTail(n, k)) as real, Pow2(n) as real);
      }
    }
  }

  // The clamp to one binds on an exact tie and nowhere else.
  lemma {:induction false} ClampBindsOnlyOnTies(differences: seq<real>)
    requires Positives(differences) + Negatives(differences) > 0
    ensures
      var positive, negative := Positives(differences), Negatives(differences);
      2.0 * TailProbability(positive + negative, Smaller(positive, negative)) > 1.0 <==> positive == negative
  {
    hide AtLeastAsExtreme, Vectors, LowerTail, Pow2, TailProbability;
    var n, k := Positives(differences) + Negatives(differences), Smaller(Positives(differences), Negatives(differences));
    ExtremeCount(n, k);
    DoubledTail(n, k);
  }

  function Negated(differences: seq<real>): seq<real> {
    if differences == [] then [] else [-differences[0]] + Negated(differences[1..])
  }

  // Exchanging the arms, which negates every difference, does not change the p-value.
  lemma {:induction false} NegationInvariant(differences: seq<real>)
    ensures TwoSidedSignTestPValue(Negated(differences)) == TwoSidedSignTestPValue(differences)
  {
    NegationExchanges(differences);
  }

  lemma {:induction false} NegationExchanges(differences: seq<real>)
    ensures Positives(Negated(differences)) == Negatives(differences)
    ensures Negatives(Negated(differences)) == Positives(differences)
  {
    if differences != [] {
      NegationExchanges(differences[1..]);
      assert Negated(differences)[1..] == Negated(differences[1..]);
    }
  }

  // Differences of zero carry no sign: they change nothing, and alone they prove nothing.
  lemma {:induction false} TiesAreDropped(differences: seq<real>)
    ensures TwoSidedSignTestPValue([0.0] + differences) == TwoSidedSignTestPValue(differences)
    ensures (forall i :: 0 <= i < |differences| ==> differences[i] == 0.0) ==> TwoSidedSignTestPValue(differences) == 1.0
  {
    assert ([0.0] + differences)[1..] == differences;
    if forall i :: 0 <= i < |differences| ==> differences[i] == 0.0 {
      NoSigns(differences);
    }
  }

  lemma {:induction false} NoSigns(differences: seq<real>)
    requires forall i :: 0 <= i < |differences| ==> differences[i] == 0.0
    ensures Positives(differences) == 0 && Negatives(differences) == 0
  {
    if differences != [] {
      NoSigns(differences[1..]);
    }
  }
}
