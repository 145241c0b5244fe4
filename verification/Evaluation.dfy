/**
 Ranking quality (app/utils/evaluation.py:19-58).

 Scores are reals. log2 is any strictly increasing function with value 1 at 2: nothing else
 about it matters to the claims.
 */
module Evaluation {
  ghost predicate Log2Like(log2: nat -> real) {
    && log2(2) == 1.0
    && forall i: nat, j: nat :: 2 <= i < j ==> log2(i) < log2(j)
  }

  lemma Log2Positive(log2: nat -> real, i: nat)
    requires Log2Like(log2) && i >= 2
    ensures log2(i) >= 1.0
  {
    if i > 2 {
      assert log2(2) < log2(i);
    }
  }

  /** The share of position `idx` (from 1): `rel`, discounted from the second place on. */
  function Term(log2: nat -> real, rel: real, idx: nat): real {
    if idx <= 1 || log2(idx + 1) == 0.0 then rel else rel / log2(idx + 1)
  }

  function DcgOf(log2: nat -> real, relevances: seq<real>, n: nat): real
    requires n <= |relevances|
  {
    if n == 0 then 0.0 else DcgOf(log2, relevances, n - 1) + Term(log2, relevances[n - 1], n)
  }

  method Dcg(log2: nat -> real, relevances: seq<real>) returns (score: real)
    requires Log2Like(log2)
    ensures score == DcgOf(log2, relevances, |relevances|)
  {
    score := 0.0;
    for i := 0 to |relevances|
      invariant score == DcgOf(log2, relevances, i)
    {
      var idx, rel := i + 1, relevances[i];
      if idx == 1 {
        score := score + rel;
      } else {
        Log2Positive(log2, idx + 1);
        score := score + rel / log2(idx + 1);
      }
    }
  }

  lemma TermIs(log2: nat -> real, rel: real, idx: nat)
    requires Log2Like(log2) && idx >= 1
    ensures log2(idx + 1) >= 1.0 && Term(log2, rel, idx) == rel / log2(idx + 1)
  {
    Log2Positive(log2, idx + 1);
  }

  /** One relevance at place p, from 0, scores it divided by log2(p + 2): in full at the first place. */
  lemma {:induction false} OneHitScores(log2: nat -> real, g: seq<real>, p: nat, n: nat)
    requires Log2Like(log2) && p < |g| && n <= |g| && forall i :: 0 <= i < |g| && i != p ==> g[i] == 0.0
    ensures log2(p + 2) >= 1.0
    ensures DcgOf(log2, g, n) == if n <= p then 0.0 else g[p] / log2(p + 2)
  {
    hide Term, Log2Like;
    TermIs(log2, g[p], p + 1);
    if n > 0 {
      TermIs(log2, g[n - 1], n);
      OneHitScores(log2, g, p, n - 1);
      ZeroShare(log2(n + 1));
    }
  }

  lemma ZeroShare(x: real)
    requires x != 0.0
    ensures 0.0 / x == 0.0
  {
  }

  lemma SharesAddUp(a: real, b: real, x: real)
    requires x != 0.0
    ensures (a + b) / x == a / x + b / x
  {
  }

  /** And places add up. */
  lemma {:induction false} ScoresAddUp(log2: nat -> real, a: seq<real>, b: seq<real>, c: seq<real>, n: nat)
    requires Log2Like(log2) && |a| == |b| == |c| && n <= |a| && forall i :: 0 <= i < |a| ==> c[i] == a[i] + b[i]
    ensures DcgOf(log2, c, n) == DcgOf(log2, a, n) + DcgOf(log2, b, n)
  {
    hide Term, Log2Like;
    if n > 0 {
      TermIs(log2, a[n - 1], n);
      TermIs(log2, b[n - 1], n);
      TermIs(log2, c[n - 1], n);
      SharesAddUp(a[n - 1], b[n - 1], log2(n + 1));
      ScoresAddUp(log2, a, b, c, n - 1);
    }
  }

  function Min(a: nat, b: nat): nat {
    if a < b then a else b
  }

  /** 1.0 for each relevant title among the first k, 0.0 for the others. */
  function Gains(predicted: seq<string>, relevant: set<string>, k: nat): (g: seq<real>)
    ensures |g| == Min(|predicted|, k)
  {
    seq(Min(|predicted|, k), i requires 0 <= i < Min(|predicted|, k) => if predicted[i] in relevant then 1.0 else 0.0)
  }

  function Ideal(m: nat): seq<real> {
    seq(m, i => 1.0)
  }

  function Ndcg(log2: nat -> real, predicted: seq<string>, relevant: set<string>, k: int): real {
    if k <= 0 || relevant == {} then 0.0
    else
      var g := Gains(predicted, relevant, k);
      var m := Min(|relevant|, k);
      var ideal := DcgOf(log2, Ideal(m), m);
      if ideal == 0.0 then 0.0 else DcgOf(log2, g, |g|) / ideal
  }

  method NdcgAtK(log2: nat -> real, predicted: seq<string>, relevant: seq<string>, k: int) returns (score: real)
    requires Log2Like(log2)
    ensures score == Ndcg(log2, predicted, (set t | t in relevant), k)
  {
    if k <= 0 {
      return 0.0;
    }
    var relevantSet := set t | t in relevant;
    if relevantSet == {} {
      return 0.0;
    }
    var gains := Gains(predicted, relevantSet, k);
    var ideal := Ideal(Min(|relevantSet|, k));
    var idealDcg := Dcg(log2, ideal);
    if idealDcg == 0.0 {
      return 0.0;
    }
    var dcg := Dcg(log2, gains);
    score := dcg / idealDcg;
  }

  /** The first relevant title among the first k stands at index i. */
  predicate FirstHitAt(predicted: seq<string>, relevant: set<string>, k: int, i: nat) {
    && i < |predicted| && i < k && predicted[i] in relevant
    && forall j :: 0 <= j < i ==> predicted[j] !in relevant
  }

  method MrrAtK(predicted: seq<string>, relevant: seq<string>, k: int) returns (score: real)
    ensures score == 0.0 <==> forall i :: 0 <= i < |predicted| && i < k ==> predicted[i] !in relevant
    ensures var titles := set t | t in relevant;
            forall i: nat :: FirstHitAt(predicted, titles, k, i) ==> score == 1.0 / (i + 1) as real
  {
    score := 0.0;
    if k <= 0 {
      return;
    }
    var relevantSet := set t | t in relevant;
    if relevantSet == {} {
      assert forall t :: t in relevant ==> t in relevantSet;
      return;
    }
    for i := 0 to Min(|predicted|, k)
      invariant forall j :: 0 <= j < i ==> predicted[j] !in relevantSet
      invariant score == 0.0
    {
      if predicted[i] in relevantSet {
        score := 1.0 / (i + 1) as real;
        return;
      }
    }
  }

  // ------------------------------------------------------------------
  // The exchange argument
  // ------------------------------------------------------------------

  /** 0/1 gains. */
  predicate Binary(g: seq<real>) {
    forall i :: 0 <= i < |g| ==> g[i] == 0.0 || g[i] == 1.0
  }

  function Hits(g: seq<real>, n: nat): (c: nat)
    requires n <= |g|
    ensures c <= n
  {
    if n == 0 then 0 else Hits(g, n - 1) + if g[n - 1] == 1.0 then 1 else 0
  }

  /** The best DCG that m relevant titles can have. */
  function Best(log2: nat -> real, m: nat): real {
    if m == 0 then 0.0 else Best(log2, m - 1) + Term(log2, 1.0, m)
  }

  predicate FirstAllHit(g: seq<real>, m: nat) {
    m <= |g| && forall i :: 0 <= i < m ==> g[i] == 1.0
  }

  lemma TermDecreases(log2: nat -> real, i: nat, j: nat)
    requires Log2Like(log2) && 1 <= i < j
    ensures Term(log2, 1.0, i) > Term(log2, 1.0, j) > 0.0
  {
    Log2Positive(log2, j + 1);
    assert log2(2) < log2(j + 1);
    if i > 1 {
      Log2Positive(log2, i + 1);
      assert log2(i + 1) < log2(j + 1);
    }
  }

  lemma TermPositive(log2: nat -> real, i: nat)
    requires Log2Like(log2) && 1 <= i
    ensures Term(log2, 1.0, i) > 0.0 && Term(log2, 0.0, i) == 0.0
  {
    Log2Positive(log2, i + 1);
  }

  lemma IdealIsBest(log2: nat -> real, m: nat, n: nat)
    requires n <= m
    ensures DcgOf(log2, Ideal(m), n) == Best(log2, n)
  {
    if n > 0 {
      IdealIsBest(log2, m, n - 1);
    }
  }

  lemma {:induction false} BestGrows(log2: nat -> real, a: nat, b: nat)
    requires Log2Like(log2) && a <= b
    ensures 0.0 <= Best(log2, a) <= Best(log2, b)
    ensures a < b ==> Best(log2, a) < Best(log2, b)
    decreases b
  {
    if b > 0 {
      TermPositive(log2, b);
      if a < b {
        BestGrows(log2, a, b - 1);
      } else {
        BestGrows(log2, a - 1, b - 1);
      }
    }
  }

  /** Moving hits to the front can only help: c hits score at most what the first c places give. */
  lemma {:induction false} FrontIsBest(log2: nat -> real, g: seq<real>, n: nat)
    requires Log2Like(log2) && Binary(g) && n <= |g|
    ensures 0.0 <= DcgOf(log2, g, n) <= Best(log2, Hits(g, n))
    ensures DcgOf(log2, g, n) == Best(log2, Hits(g, n)) <==> FirstAllHit(g, Hits(g, n))
  {
    if n > 0 {
      FrontIsBest(log2, g, n - 1);
      TermPositive(log2, n);
      var c := Hits(g, n - 1);
      if g[n - 1] == 1.0 {
        if c + 1 < n {
          TermDecreases(log2, c + 1, n);
          if FirstAllHit(g, c + 1) {
            FrontHits(g, c + 1, n - 1);
          }
        }
      }
    }
  }

  lemma {:induction false} FrontHits(g: seq<real>, m: nat, n: nat)
    requires m <= n <= |g| && FirstAllHit(g, m)
    ensures Hits(g, n) >= m
  {
    if n > 0 {
      if m < n {
        FrontHits(g, m, n - 1);
      } else {
        FrontHits(g, m - 1, n - 1);
      }
    }
  }

  /** How many hits k places can hold: each hit is a different relevant title. */
  lemma DistinctHits(predicted: seq<string>, relevant: set<string>, k: nat)
    requires forall i, j :: 0 <= i < j < |predicted| ==> predicted[i] != predicted[j]
    ensures var g := Gains(predicted, relevant, k);
            Hits(g, |g|) <= Min(|relevant|, k)
  {
    var g := Gains(predicted, relevant, k);
    var titles := HitTitles(predicted, relevant, k, |g|);
    Subset(titles, relevant);
  }

  lemma Subset(a: set<string>, b: set<string>)
    requires a <= b
    ensures |a| <= |b|
  {
    assert b == a + (b - a);
  }

  lemma {:induction false} HitTitles(predicted: seq<string>, relevant: set<string>, k: nat, n: nat)
    returns (titles: set<string>)
    requires forall i, j :: 0 <= i < j < |predicted| ==> predicted[i] != predicted[j]
    requires n <= Min(|predicted|, k)
    ensures titles <= relevant && |titles| == Hits(Gains(predicted, relevant, k), n)
    ensures forall t :: t in titles ==> t in predicted[..n]
  {
    if n == 0 {
      titles := {};
    } else {
      titles := HitTitles(predicted, relevant, k, n - 1);
      assert predicted[..n] == predicted[..n - 1] + [predicted[n - 1]];
      if predicted[n - 1] in relevant {
        assert predicted[n - 1] !in titles;
        titles := titles + {predicted[n - 1]};
      }
    }
  }

  /**
   For any ranking with no more hits than relevant titles, nDCG lies in [0, 1], and it is 1
   exactly when the first min(|relevant|, k) predictions are all relevant.
   */
  lemma NdcgNormalised(log2: nat -> real, predicted: seq<string>, relevant: set<string>, k: nat)
    requires Log2Like(log2) && k > 0 && relevant != {}
    requires var g := Gains(predicted, relevant, k); Hits(g, |g|) <= Min(|relevant|, k)
    ensures 0.0 <= Ndcg(log2, predicted, relevant, k) <= 1.0
    ensures Ndcg(log2, predicted, relevant, k) == 1.0
       <==> FirstAllHit(Gains(predicted, relevant, k), Min(|relevant|, k))
  {
    var g := Gains(predicted, relevant, k);
    var c, m := Hits(g, |g|), Min(|relevant|, k);
    IdealIsBest(log2, m, m);
    FrontIsBest(log2, g, |g|);
    BestGrows(log2, c, m);
    BestGrows(log2, 0, m);
    var score, ideal := DcgOf(log2, g, |g|), Best(log2, m);
    Quotient(score, ideal);
    if FirstAllHit(g, m) {
      FrontHits(g, m, |g|);
    }
  }

  lemma Quotient(x: real, y: real)
    requires 0.0 <= x <= y && y > 0.0
    ensures 0.0 <= x / y <= 1.0
    ensures x / y == 1.0 <==> x == y
  {
    assert x / y * y == x;
  }

  /** Distinct predictions meet that bound, so their nDCG is a normalised score. */
  lemma NdcgOfDistinct(log2: nat -> real, predicted: seq<string>, relevant: set<string>, k: int)
    requires Log2Like(log2)
    requires forall i, j :: 0 <= i < j < |predicted| ==> predicted[i] != predicted[j]
    ensures 0.0 <= Ndcg(log2, predicted, relevant, k) <= 1.0
    ensures k > 0 && relevant != {} ==>
              (Ndcg(log2, predicted, relevant, k) == 1.0
               <==> FirstAllHit(Gains(predicted, relevant, k), Min(|relevant|, k)))
  {
    if k > 0 && relevant != {} {
      DistinctHits(predicted, relevant, k);
      NdcgNormalised(log2, predicted, relevant, k);
    }
  }

  // ------------------------------------------------------------------
  // Exactly when the score is normalised
  // ------------------------------------------------------------------

  /** How many predictions are relevant, repetitions counted. */
  function CountRelevant(predicted: seq<string>, relevant: set<string>): nat {
    if predicted == [] then 0
    else CountRelevant(predicted[1..], relevant) + if predicted[0] in relevant then 1 else 0
  }

  lemma {:induction false} CountConcat(a: seq<string>, b: seq<string>, relevant: set<string>)
    ensures CountRelevant(a + b, relevant) == CountRelevant(a, relevant) + CountRelevant(b, relevant)
  {
    if a == [] {
      assert a + b == b;
    } else {
      assert (a + b)[1..] == a[1..] + b;
      CountConcat(a[1..], b, relevant);
    }
  }

  function Without(s: seq<string>, j: nat): seq<string>
    requires j < |s|
  {
    s[..j] + s[j + 1..]
  }

  lemma WithoutFacts(s: seq<string>, j: nat, relevant: set<string>)
    requires j < |s|
    ensures multiset(Without(s, j)) == multiset(s) - multiset{s[j]} && |Without(s, j)| == |s| - 1
    ensures CountRelevant(s, relevant) == CountRelevant(Without(s, j), relevant) + if s[j] in relevant then 1 else 0
  {
    var before, one, after := s[..j], [s[j]], s[j + 1..];
    assert s == before + one + after;
    CountConcat(before, after, relevant);
    CountConcat(before + one, after, relevant);
    CountConcat(before, one, relevant);
    assert one[1..] == [] && CountRelevant([], relevant) == 0;
  }

  /** The order does not matter to the count. */
  lemma {:induction false} CountOfOrdering(a: seq<string>, b: seq<string>, relevant: set<string>)
    requires multiset(a) == multiset(b)
    ensures CountRelevant(a, relevant) == CountRelevant(b, relevant)
    decreases |a|
  {
    if a == [] {
      assert |multiset(b)| == 0;
    } else {
      hide CountRelevant, Without;
      assert a[0] in multiset(b);
      var j: nat :| j < |b| && b[j] == a[0];
      WithoutFacts(a, 0, relevant);
      WithoutFacts(b, j, relevant);
      CountOfOrdering(Without(a, 0), Without(b, j), relevant);
    }
  }

  /** The relevant predictions, then the others. */
  function FrontFirst(predicted: seq<string>, relevant: set<string>): seq<string> {
    if predicted == [] then []
    else if predicted[0] in relevant then [predicted[0]] + FrontFirst(predicted[1..], relevant)
    else FrontFirst(predicted[1..], relevant) + [predicted[0]]
  }

  lemma {:induction false} FrontFirstFacts(predicted: seq<string>, relevant: set<string>)
    ensures multiset(FrontFirst(predicted, relevant)) == multiset(predicted)
    ensures var p, c := FrontFirst(predicted, relevant), CountRelevant(predicted, relevant);
            c <= |p| && forall i :: 0 <= i < |p| ==> (p[i] in relevant <==> i < c)
  {
    if predicted != [] {
      FrontFirstFacts(predicted[1..], relevant);
      assert predicted == [predicted[0]] + predicted[1..];
      var rest := FrontFirst(predicted[1..], relevant);
      if predicted[0] in relevant {
        var p := [predicted[0]] + rest;
        forall i | 0 <= i < |p| ensures p[i] == if i == 0 then predicted[0] else rest[i - 1] {
        }
      }
    }
  }

  lemma {:induction false} HitsAreCounted(predicted: seq<string>, relevant: set<string>, k: nat, n: nat)
    requires n <= Min(|predicted|, k)
    ensures Hits(Gains(predicted, relevant, k), n) == CountRelevant(predicted[..n], relevant)
  {
    if n > 0 {
      HitsAreCounted(predicted, relevant, k, n - 1);
      assert predicted[..n] == predicted[..n - 1] + [predicted[n - 1]];
      CountConcat(predicted[..n - 1], [predicted[n - 1]], relevant);
    } else {
      assert predicted[..0] == [];
    }
  }

  /** The first k places hold at most all the relevant predictions, and at most k. */
  lemma HitsAreFew(predicted: seq<string>, relevant: set<string>, k: nat)
    ensures var g := Gains(predicted, relevant, k);
            Hits(g, |g|) <= Min(CountRelevant(predicted, relevant), k)
  {
    var n := Min(|predicted|, k);
    HitsAreCounted(predicted, relevant, k, n);
    assert predicted == predicted[..n] + predicted[n..];
    CountConcat(predicted[..n], predicted[n..], relevant);
  }

  lemma {:induction false} FrontGains(g: seq<real>, c: nat, n: nat)
    requires n <= |g| && forall i :: 0 <= i < |g| ==> g[i] == if i < c then 1.0 else 0.0
    ensures Hits(g, n) == Min(n, c)
  {
    if n > 0 {
      FrontGains(g, c, n - 1);
    }
  }

  /** The best ordering scores what its hits give in the first places. */
  lemma BestOrdering(log2: nat -> real, predicted: seq<string>, relevant: set<string>, k: nat)
    requires Log2Like(log2)
    ensures var g := Gains(FrontFirst(predicted, relevant), relevant, k);
            DcgOf(log2, g, |g|) == Best(log2, Min(CountRelevant(predicted, relevant), k))
  {
    hide DcgOf, Best, FrontFirst, CountRelevant, Log2Like;
    FrontFirstFacts(predicted, relevant);
    var g, c := Gains(FrontFirst(predicted, relevant), relevant, k), CountRelevant(predicted, relevant);
    FrontGains(g, c, |g|);
    FrontIsBest(log2, g, |g|);
    assert Hits(g, |g|) == Min(c, k);
  }

  ghost predicate NoOrderingExceedsOne(log2: nat -> real, predicted: seq<string>, relevant: set<string>, k: nat) {
    forall p: seq<string> :: multiset(p) == multiset(predicted) ==> Ndcg(log2, p, relevant, k) <= 1.0
  }

  /**
   No ordering of the same predictions scores above 1 at k if and only if the relevant ones among
   them, capped at k, are no more than the relevant titles, capped at k.
   */
  lemma NoOrderingExceedsOneIff(log2: nat -> real, predicted: seq<string>, relevant: set<string>, k: nat)
    requires Log2Like(log2)
    ensures NoOrderingExceedsOne(log2, predicted, relevant, k)
            <==> Min(CountRelevant(predicted, relevant), k) <= Min(|relevant|, k)
  {
    hide DcgOf, Best, FrontFirst, CountRelevant, Log2Like, Hits, Gains;
    var c, m := Min(CountRelevant(predicted, relevant), k), Min(|relevant|, k);
    if c <= m {
      forall p: seq<string> | multiset(p) == multiset(predicted) ensures Ndcg(log2, p, relevant, k) <= 1.0 {
        if k > 0 && relevant != {} {
          CountOfOrdering(p, predicted, relevant);
          HitsAreFew(p, relevant, k);
          NdcgNormalised(log2, p, relevant, k);
        }
      }
    } else {
      SomeAreRelevant(predicted, relevant);
      FrontFirstFacts(predicted, relevant);
      BestOrdering(log2, predicted, relevant, k);
      IdealIsBest(log2, m, m);
      BestGrows(log2, m, c);
      BestGrows(log2, 0, m);
      QuotientGrows(Best(log2, m), Best(log2, c), Best(log2, m));
      assert Ndcg(log2, FrontFirst(predicted, relevant), relevant, k) > 1.0;
    }
  }

  lemma {:induction false} SomeAreRelevant(predicted: seq<string>, relevant: set<string>)
    ensures CountRelevant(predicted, relevant) > 0 ==> |relevant| > 0
  {
    if predicted != [] {
      SomeAreRelevant(predicted[1..], relevant);
      if predicted[0] in relevant {
        assert relevant != {};
      }
    }
  }

  /** Without distinctness the score is not normalised: one relevant title listed twice scores above 1. */
  lemma RepeatedTitleExceedsOne(log2: nat -> real)
    requires Log2Like(log2)
    ensures Ndcg(log2, ["a", "a"], {"a"}, 2) > 1.0
  {
    var g := Gains(["a", "a"], {"a"}, 2);
    assert g == [1.0, 1.0];
    TermPositive(log2, 2);
    IdealIsBest(log2, 1, 1);
    assert Best(log2, 1) == Best(log2, 0) + 1.0;
    assert DcgOf(log2, g, 2) == DcgOf(log2, g, 1) + Term(log2, 1.0, 2);
    assert DcgOf(log2, g, 1) == DcgOf(log2, g, 0) + 1.0;
  }

  lemma {:induction false} DcgUpdate(log2: nat -> real, g: seq<real>, i: nat, v: real, n: nat)
    requires i < |g| && n <= |g|
    ensures DcgOf(log2, g[i := v], n)
         == DcgOf(log2, g, n) + if i < n then Term(log2, v, i + 1) - Term(log2, g[i], i + 1) else 0.0
  {
    if n > 0 {
      DcgUpdate(log2, g, i, v, n - 1);
    }
  }

  function Swap(predicted: seq<string>, i: nat, j: nat): seq<string>
    requires i < |predicted| && j < |predicted|
  {
    predicted[i := predicted[j]][j := predicted[i]]
  }

  lemma GainsOfSwap(predicted: seq<string>, relevant: set<string>, k: nat, i: nat, j: nat)
    requires i < j < |predicted| && j < k
    requires predicted[i] !in relevant && predicted[j] in relevant
    ensures var g := Gains(predicted, relevant, k);
            j < |g| && g[i] == 0.0 && g[j] == 1.0
            && Gains(Swap(predicted, i, j), relevant, k) == g[i := 1.0][j := 0.0]
  {
  }

  lemma PromotionRaisesDcg(log2: nat -> real, g: seq<real>, i: nat, j: nat)
    requires Log2Like(log2) && i < j < |g| && g[i] == 0.0 && g[j] == 1.0
    ensures DcgOf(log2, g[i := 1.0][j := 0.0], |g|) > DcgOf(log2, g, |g|)
  {
    DcgUpdate(log2, g, i, 1.0, |g|);
    DcgUpdate(log2, g[i := 1.0], j, 0.0, |g|);
    TermDecreases(log2, i + 1, j + 1);
    TermPositive(log2, i + 1);
    TermPositive(log2, j + 1);
  }

  lemma QuotientGrows(a: real, b: real, y: real)
    requires a < b && y > 0.0
    ensures a / y < b / y
  {
    assert b / y - a / y == (b - a) / y;
  }

  /** Swapping a relevant title above an irrelevant one, within the first k, strictly raises the score. */
  lemma {:induction false} PromotionRaisesNdcg(
      log2: nat -> real, predicted: seq<string>, relevant: set<string>, k: nat, i: nat, j: nat)
    requires Log2Like(log2) && relevant != {}
    requires i < j < |predicted| && j < k
    requires predicted[i] !in relevant && predicted[j] in relevant
    ensures Ndcg(log2, Swap(predicted, i, j), relevant, k) > Ndcg(log2, predicted, relevant, k)
  {
    hide DcgOf, Gains, Swap, Term, Log2Like;
    var g, m := Gains(predicted, relevant, k), Min(|relevant|, k);
    GainsOfSwap(predicted, relevant, k, i, j);
    PromotionRaisesDcg(log2, g, i, j);
    IdealIsBest(log2, m, m);
    BestGrows(log2, 0, m);
    QuotientGrows(DcgOf(log2, g, |g|), DcgOf(log2, g[i := 1.0][j := 0.0], |g|), Best(log2, m));
  }
}
