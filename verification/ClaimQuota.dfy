// Claims are extracted batch by batch, under one maximum that is shared out as the batches go by.

module ClaimQuota {

  // `words` is the claim's text split at white space.
  datatype Claim = Claim(words: seq<string>, sourceIds: seq<string>, details: string)

  // Claims with the same words and the same source identifiers, in any order, are the same claim.
  function Key(claim: Claim): (seq<string>, multiset<string>) {
    (claim.words, multiset(claim.sourceIds))
  }

  function Seen(claims: seq<Claim>): set<(seq<string>, multiset<string>)> {
    set i | 0 <= i < |claims| :: Key(claims[i])
  }

  // The share of a batch: the remaining claims over the remaining batches, rounded up.
  function Quota(remaining: nat, batches: nat): nat
    requires batches > 0
  {
    var share := (remaining + batches - 1) / batches;
    if share < 1 then 1 else share
  }

  // Take the new claims of one extraction until the maximum is reached.
  function Absorb(claims: seq<Claim>, extraction: seq<Claim>, maximum: int): seq<Claim>
    decreases |extraction|
  {
    if extraction == [] then claims
    else
      var claim := extraction[0];
      if claim.words == [] || Key(claim) in Seen(claims) then Absorb(claims, extraction[1..], maximum)
      else if |claims| + 1 >= maximum then claims + [claim]
      else Absorb(claims + [claim], extraction[1..], maximum)
  }

  // The claims after the first i batches; `extract` answers a batch and its quota.
  function ClaimsAfter(extract: (nat, nat) -> seq<Claim>, batches: nat, maximum: int, i: nat): seq<Claim>
    requires i <= batches
  {
    if i == 0 then []
    else
      var claims := ClaimsAfter(extract, batches, maximum, i - 1);
      if maximum - |claims| <= 0 then claims
      else Absorb(claims, extract(i - 1, Quota(maximum - |claims|, batches - (i - 1))), maximum)
  }

  ghost predicate Distinct(claims: seq<Claim>) {
    && (forall i :: 0 <= i < |claims| ==> claims[i].words != [])
    && forall i, j :: 0 <= i < j < |claims| ==> Key(claims[i]) != Key(claims[j])
  }

  lemma {:induction false} DistinctAppend(claims: seq<Claim>, claim: Claim)
    requires Distinct(claims) && claim.words != [] && Key(claim) !in Seen(claims)
    ensures Distinct(claims + [claim])
  {
  }

  lemma {:induction false} AbsorbKeepsClaims(claims: seq<Claim>, extraction: seq<Claim>, maximum: int)
    requires Distinct(claims) && |claims| < maximum
    ensures
      var after := Absorb(claims, extraction, maximum);
      Distinct(after) && claims <= after && |after| <= maximum && |after| - |claims| <= |extraction|
    decreases |extraction|
  {
    if extraction != [] {
      hide Distinct, Key, Seen;
      var claim := extraction[0];
      if claim.words == [] || Key(claim) in Seen(claims) {
        AbsorbKeepsClaims(claims, extraction[1..], maximum);
      } else {
        DistinctAppend(claims, claim);
        if |claims| + 1 < maximum {
          AbsorbKeepsClaims(claims + [claim], extraction[1..], maximum);
        }
      }
    }
  }

  // The first of its kind in the extraction, as it was answered.
  ghost predicate FirstOfItsKind(extraction: seq<Claim>, claim: Claim) {
    exists k :: 0 <= k < |extraction| && extraction[k] == claim && forall j :: 0 <= j < k ==> Key(extraction[j]) != Key(claim)
  }

  ghost predicate HasKey(claims: seq<Claim>, claim: Claim) {
    exists i :: 0 <= i < |claims| && Key(claims[i]) == Key(claim)
  }

  // What an extraction adds: claims as they were answered, the first of each kind; and while there is room no claim with
  // words of a new kind is passed over.
  ghost predicate KeepsTheNew(before: seq<Claim>, extraction: seq<Claim>, maximum: int, after: seq<Claim>) {
    && before <= after
    && (forall i :: |before| <= i < |after| ==> FirstOfItsKind(extraction, after[i]))
    && (forall k :: 0 <= k < |extraction| && extraction[k].words != [] ==> |after| >= maximum || HasKey(after, extraction[k]))
  }

  lemma {:induction false} LaterIsFirst(extraction: seq<Claim>, claim: Claim)
    requires extraction != [] && FirstOfItsKind(extraction[1..], claim) && Key(extraction[0]) != Key(claim)
    ensures FirstOfItsKind(extraction, claim)
  {
    hide Key;
    var k :| 0 <= k < |extraction[1..]| && extraction[1..][k] == claim
             && forall j :: 0 <= j < k ==> Key(extraction[1..][j]) != Key(claim);
    forall j | 0 <= j < k + 1
      ensures Key(extraction[j]) != Key(claim)
    {
      assert j > 0 ==> extraction[j] == extraction[1..][j - 1];
    }
    assert extraction[k + 1] == claim;
  }

  lemma {:induction false} HeadIsFirst(extraction: seq<Claim>)
    requires extraction != []
    ensures FirstOfItsKind(extraction, extraction[0])
  {
    hide Key;
  }

  lemma {:induction false} RestKept(before: seq<Claim>, open: seq<Claim>, extraction: seq<Claim>, maximum: int, after: seq<Claim>)
    requires extraction != [] && Distinct(after) && KeepsTheNew(open, extraction[1..], maximum, after)
    requires before <= open && (open == before || open == before + [extraction[0]])
    requires HasKey(open, extraction[0]) || extraction[0].words == []
    ensures KeepsTheNew(before, extraction, maximum, after)
  {
    forall i | |before| <= i < |after|
      ensures FirstOfItsKind(extraction, after[i])
    {
      if i < |open| {
        HeadIsFirst(extraction);
      } else {
        assert FirstOfItsKind(extraction[1..], after[i]);
        assert Key(extraction[0]) != Key(after[i]) by { KeyIsNew(open, extraction[0], after, i); }
        LaterIsFirst(extraction, after[i]);
      }
    }
    forall k | 0 <= k < |extraction| && extraction[k].words != []
      ensures |after| >= maximum || HasKey(after, extraction[k])
    {
      if k == 0 {
        var i :| 0 <= i < |open| && Key(open[i]) == Key(extraction[0]);
        assert Key(after[i]) == Key(extraction[0]);
      } else {
        assert extraction[k] == extraction[1..][k - 1];
      }
    }
  }

  lemma {:induction false} KeyIsNew(open: seq<Claim>, claim: Claim, after: seq<Claim>, i: nat)
    requires Distinct(after) && open <= after && |open| <= i < |after|
    requires HasKey(open, claim) || claim.words == []
    ensures Key(claim) != Key(after[i])
  {
    if claim.words != [] {
      var k :| 0 <= k < |open| && Key(open[k]) == Key(claim);
      assert after[k] == open[k];
    }
  }

  lemma {:induction false} AbsorbKeepsTheNew(claims: seq<Claim>, extraction: seq<Claim>, maximum: int)
    requires Distinct(claims) && |claims| < maximum
    ensures KeepsTheNew(claims, extraction, maximum, Absorb(claims, extraction, maximum))
    decreases |extraction|
  {
    if extraction != [] {
      hide Distinct, Key, KeepsTheNew;
      var claim := extraction[0];
      AbsorbKeepsClaims(claims, extraction, maximum);
      if claim.words == [] || Key(claim) in Seen(claims) {
        AbsorbKeepsTheNew(claims, extraction[1..], maximum);
        RestKept(claims, claims, extraction, maximum, Absorb(claims, extraction, maximum));
      } else {
        DistinctAppend(claims, claim);
        assert (claims + [claim])[|claims|] == claim;
        if |claims| + 1 < maximum {
          AbsorbKeepsTheNew(claims + [claim], extraction[1..], maximum);
          RestKept(claims, claims + [claim], extraction, maximum, Absorb(claims, extraction, maximum));
        } else {
          LastKept(claims, extraction, maximum);
        }
      }
    }
  }

  lemma {:induction false} LastKept(claims: seq<Claim>, extraction: seq<Claim>, maximum: int)
    requires extraction != [] && |claims| + 1 >= maximum
    ensures KeepsTheNew(claims, extraction, maximum, claims + [extraction[0]])
  {
    HeadIsFirst(extraction);
  }

  // Whatever the model answers, no claim is empty or repeated and the total stays within the maximum.
  lemma {:induction false} TotalStaysWithinMaximum(extract: (nat, nat) -> seq<Claim>, batches: nat, maximum: int, i: nat)
    requires i <= batches
    ensures Distinct(ClaimsAfter(extract, batches, maximum, i))
    ensures |ClaimsAfter(extract, batches, maximum, i)| <= if maximum < 0 then 0 else maximum
  {
    if i > 0 {
      hide Distinct, Quota;
      TotalStaysWithinMaximum(extract, batches, maximum, i - 1);
      var claims := ClaimsAfter(extract, batches, maximum, i - 1);
      if maximum - |claims| > 0 {
        AbsorbKeepsClaims(claims, extract(i - 1, Quota(maximum - |claims|, batches - (i - 1))), maximum);
      }
    } else {
      assert Distinct([]);
    }
  }

  // The model never answers more claims than it was asked for.
  ghost predicate Obedient(extract: (nat, nat) -> seq<Claim>) {
    forall i, quota :: |extract(i, quota)| <= quota
  }

  lemma {:induction false} AnswerWithinQuota(extract: (nat, nat) -> seq<Claim>, i: nat, quota: nat)
    requires Obedient(extract)
    ensures |extract(i, quota)| <= quota
  {
  }

  // A share leaves at least one claim for every batch still to come, and is the least with which they can take all that remains.
  lemma {:induction false} QuotaLeavesEnough(remaining: nat, batches: nat)
    requires batches > 0 && remaining > 0
    ensures Quota(remaining, batches) <= remaining
    ensures remaining >= batches ==> remaining - Quota(remaining, batches) >= batches - 1
    ensures batches == 1 ==> Quota(remaining, batches) == remaining
    ensures (Quota(remaining, batches) - 1) * batches < remaining <= Quota(remaining, batches) * batches
  {
    var share := (remaining + batches - 1) / batches;
    RoundedUp(remaining, batches, share);
    if remaining >= batches {
      ProductAtLeast(share, remaining, batches);
    } else {
      ShareOfFew(share, remaining, batches);
    }
  }

  lemma {:induction false} RoundedUp(remaining: nat, batches: nat, share: nat)
    requires batches > 0 && share == (remaining + batches - 1) / batches
    ensures share * batches <= remaining + batches - 1 < share * batches + batches
    ensures (share - 1) * batches < remaining <= share * batches
  {
    assert (share - 1) * batches == share * batches - batches;
  }

  // remaining - share >= batches - 1 whenever share is remaining over batches rounded up and remaining >= batches.
  lemma {:induction false} ProductAtLeast(share: nat, remaining: nat, batches: nat)
    requires 0 < batches <= remaining && share * batches <= remaining + batches - 1
    ensures share <= remaining - (batches - 1)
  {
    var excess := remaining + 2 - batches;
    Monotone(excess, share, batches);
    assert excess * batches - (remaining + batches - 1) == (remaining - batches) * (batches - 1) + 1;
    NotNegative(remaining - batches, batches - 1);
  }

  lemma {:induction false} NotNegative(a: nat, b: nat)
    ensures a * b >= 0
  {
  }

  lemma {:induction false} Monotone(a: nat, b: nat, n: nat)
    ensures a <= b ==> a * n <= b * n
  {
  }

  lemma {:induction false} ShareOfFew(share: nat, remaining: nat, batches: nat)
    requires 0 < remaining < batches && share * batches <= remaining + batches - 1
    ensures share <= 1
  {
    Monotone(2, share, batches);
  }

  // With an obedient model and a maximum of at least the number of batches, every batch is asked: before each, as many
  // claims remain as batches do.
  lemma {:induction false} NoBatchStarves(extract: (nat, nat) -> seq<Claim>, batches: nat, maximum: int, i: nat)
    requires Obedient(extract) && maximum >= batches && i <= batches
    ensures maximum - |ClaimsAfter(extract, batches, maximum, i)| >= batches - i
  {
    hide Quota, Distinct, Absorb, ClaimsAfter, Obedient;
    if i == 0 {
      NoClaims(extract, batches, maximum);
    } else {
      NoBatchStarves(extract, batches, maximum, i - 1);
      TotalStaysWithinMaximum(extract, batches, maximum, i - 1);
      var claims := ClaimsAfter(extract, batches, maximum, i - 1);
      ClaimsNext(extract, batches, maximum, i - 1);
      var quota := Quota(maximum - |claims|, batches - (i - 1));
      QuotaLeavesEnough(maximum - |claims|, batches - (i - 1));
      AnswerWithinQuota(extract, i - 1, quota);
      AbsorbKeepsClaims(claims, extract(i - 1, quota), maximum);
    }
  }

  // The extraction adds nothing but claims that are new, and different from each other.
  ghost predicate Fresh(claims: seq<Claim>, extraction: seq<Claim>) {
    Distinct(claims + extraction)
  }

  lemma {:induction false} FreshAreAbsorbed(claims: seq<Claim>, extraction: seq<Claim>, maximum: int)
    requires Fresh(claims, extraction) && |claims| + |extraction| <= maximum
    ensures Absorb(claims, extraction, maximum) == claims + extraction
    decreases |extraction|
  {
    if extraction == [] {
      assert claims + extraction == claims;
    } else {
      var claim := extraction[0];
      var all := claims + extraction;
      assert all[|claims|] == claim;
      assert forall i :: 0 <= i < |claims| ==> all[i] == claims[i];
      assert (claims + [claim]) + extraction[1..] == all;
      FreshAreAbsorbed(claims + [claim], extraction[1..], maximum);
      if |claims| + 1 >= maximum {
        assert extraction == [claim];
      }
    }
  }

  // Every batch that is asked fills its quota with fresh claims.
  ghost predicate FillsItsQuota(extract: (nat, nat) -> seq<Claim>, batches: nat, maximum: int) {
    forall i :: 0 <= i < batches ==>
      var claims := ClaimsAfter(extract, batches, maximum, i);
      |claims| < maximum ==>
        var extraction := extract(i, Quota(maximum - |claims|, batches - i));
        |extraction| == Quota(maximum - |claims|, batches - i) && Fresh(claims, extraction)
  }

  // If every batch that is asked fills its quota with fresh claims, the total is exactly the maximum.
  lemma {:induction false} FullQuotasFillTheMaximum(extract: (nat, nat) -> seq<Claim>, batches: nat, maximum: int)
    requires FillsItsQuota(extract, batches, maximum) && batches > 0 && maximum >= 0
    ensures |ClaimsAfter(extract, batches, maximum, batches)| == maximum
  {
    var claims := ClaimsAfter(extract, batches, maximum, batches - 1);
    TotalStaysWithinMaximum(extract, batches, maximum, batches - 1);
    if |claims| < maximum {
      hide Quota, Distinct, Absorb;
      var extraction := extract(batches - 1, Quota(maximum - |claims|, 1));
      QuotaLeavesEnough(maximum - |claims|, 1);
      FreshAreAbsorbed(claims, extraction, maximum);
    }
  }

  // The inner loop, over the claims of one extraction.
  method KeepNewClaims(before: seq<Claim>, extraction: seq<Claim>, maximum: int, seenBefore: set<(seq<string>, multiset<string>)>)
    returns (claims: seq<Claim>, seen: set<(seq<string>, multiset<string>)>)
    requires |before| < maximum && seenBefore == Seen(before)
    ensures claims == Absorb(before, extraction, maximum) && seen == Seen(claims)
    ensures Distinct(before) ==> KeepsTheNew(before, extraction, maximum, claims)
  {
    hide Key, Seen, Distinct, KeepsTheNew;
    if Distinct(before) {
      AbsorbKeepsTheNew(before, extraction, maximum);
    }
    claims, seen := before, seenBefore;
    var j := 0;
    while j < |extraction|
      invariant 0 <= j <= |extraction| && seen == Seen(claims) && |claims| < maximum
      invariant Absorb(before, extraction, maximum) == Absorb(claims, extraction[j..], maximum)
    {
      var claim := extraction[j];
      assert extraction[j..][1..] == extraction[j + 1..];
      if claim.words != [] && Key(claim) !in seen {
        SeenAppend(claims, claim);
        seen := seen + {Key(claim)};
        claims := claims + [claim];
        if |claims| >= maximum {
          return;
        }
      }
      j := j + 1;
    }
  }

  // The outer loop, over the batches.
  method ExtractEventClaimsInBatches(extract: (nat, nat) -> seq<Claim>, batches: nat, maximum: int) returns (claims: seq<Claim>)
    ensures claims == ClaimsAfter(extract, batches, maximum, batches)
    ensures Distinct(claims) && |claims| <= if maximum < 0 then 0 else maximum
  {
    hide Distinct, Key, Seen, Absorb, Quota, KeepsTheNew, ClaimsAfter;
    TotalStaysWithinMaximum(extract, batches, maximum, batches);
    NoClaims(extract, batches, maximum);
    claims := [];
    var seen: set<(seq<string>, multiset<string>)> := {};
    NothingSeen();
    var i := 0;
    while i < batches
      invariant 0 <= i <= batches
      invariant claims == ClaimsAfter(extract, batches, maximum, i) && seen == Seen(claims)
    {
      var remaining := maximum - |claims|;
      ClaimsNext(extract, batches, maximum, i);
      TotalStaysWithinMaximum(extract, batches, maximum, i);
      if remaining <= 0 {
        NothingMore(extract, batches, maximum, i, batches);
        return;
      }
      var extraction := extract(i, Quota(remaining, batches - i));
      claims, seen := KeepNewClaims(claims, extraction, maximum, seen);
      i := i + 1;
    }
  }

  lemma {:induction false} NoClaims(extract: (nat, nat) -> seq<Claim>, batches: nat, maximum: int)
    ensures ClaimsAfter(extract, batches, maximum, 0) == []
  {
  }

  lemma {:induction false} ClaimsNext(extract: (nat, nat) -> seq<Claim>, batches: nat, maximum: int, i: nat)
    requires i < batches
    ensures
      var claims := ClaimsAfter(extract, batches, maximum, i);
      ClaimsAfter(extract, batches, maximum, i + 1) ==
      if maximum - |claims| <= 0 then claims else Absorb(claims, extract(i, Quota(maximum - |claims|, batches - i)), maximum)
  {
    hide Absorb, Quota;
  }

  lemma {:induction false} NothingSeen()
    ensures Seen([]) == {}
  {
  }

  lemma {:induction false} SeenAppend(claims: seq<Claim>, claim: Claim)
    ensures Seen(claims + [claim]) == Seen(claims) + {Key(claim)}
  {
    var more := claims + [claim];
    assert more[|claims|] == claim;
    assert forall i :: 0 <= i < |claims| ==> more[i] == claims[i];
    forall key | key in Seen(claims)
      ensures key in Seen(more)
    {
      var i :| 0 <= i < |claims| && key == Key(claims[i]);
      assert key == Key(more[i]);
    }
    assert Key(more[|claims|]) in Seen(more);
  }

  lemma {:induction false} NothingMore(extract: (nat, nat) -> seq<Claim>, batches: nat, maximum: int, i: nat, j: nat)
    requires i <= j <= batches && maximum - |ClaimsAfter(extract, batches, maximum, i)| <= 0
    ensures ClaimsAfter(extract, batches, maximum, j) == ClaimsAfter(extract, batches, maximum, i)
  {
    if i < j {
      NothingMore(extract, batches, maximum, i, j - 1);
    }
  }
}
