/** Normalised discounted cumulative gain, binary and graded, over any positive,
    strictly decreasing discount such as 1 / log2(i + 2). */
module Ndcg {
  import opened FiniteSets
  import opened Options
  import opened Sequences

  type Discount = nat -> real

  ghost predicate Proper(d: Discount) {
    && (forall i: nat :: d(i) > 0.0)
    && (forall i: nat, j: nat :: i < j ==> d(i) > d(j))
  }

  function Min(a: nat, b: nat): nat {
    if a < b then a else b
  }

  // ---------------------------------------------------------------------------
  // Binary relevance
  // ---------------------------------------------------------------------------

  /** Gain of the first `n` documents. */
  function Dcg(ranked: seq<string>, relevant: set<string>, n: nat, d: Discount): real
    requires n <= |ranked|
  {
    if n == 0 then 0.0 else
      Dcg(ranked, relevant, n - 1, d) + if ranked[n - 1] in relevant then d(n - 1) else 0.0
  }

  /** Gain of `n` relevant documents at the top. */
  function Ideal(n: nat, d: Discount): real {
    if n == 0 then 0.0 else Ideal(n - 1, d) + d(n - 1)
  }

  function NdcgOf(ranked: seq<string>, relevant: set<string>, k: nat, d: Discount): real {
    var n := Min(|relevant|, k);
    if n == 0 then 0.0
    else if Ideal(n, d) > 0.0 then Dcg(ranked, relevant, Min(k, |ranked|), d) / Ideal(n, d)
    else 0.0
  }

  method NdcgAtK(ranked: seq<string>, relevant: set<string>, k: nat, d: Discount) returns (ndcg: real)
    ensures ndcg == NdcgOf(ranked, relevant, k, d)
  {
    if relevant == {} { return 0.0; }
    var dcg := 0.0;
    for i := 0 to Min(k, |ranked|)
      invariant dcg == Dcg(ranked, relevant, i, d)
    {
      if ranked[i] in relevant {
        dcg := dcg + d(i);
      }
    }
    var n := Min(|relevant|, k);
    if n == 0 { return 0.0; }
    var ideal := 0.0;
    for i := 0 to n
      invariant ideal == Ideal(i, d)
    {
      ideal := ideal + d(i);
    }
    ndcg := if ideal > 0.0 then dcg / ideal else 0.0;
  }

  /** How many of the first `n` places hold a relevant document, repeats included. */
  function Hits(ranked: seq<string>, relevant: set<string>, n: nat): nat
    requires n <= |ranked|
  {
    if n == 0 then 0 else Hits(ranked, relevant, n - 1) + if ranked[n - 1] in relevant then 1 else 0
  }

  ghost predicate AllRelevant(ranked: seq<string>, relevant: set<string>, m: nat) {
    m <= |ranked| && forall i :: 0 <= i < m ==> ranked[i] in relevant
  }

  lemma {:induction false} HitsGrow(ranked: seq<string>, relevant: set<string>, m: nat, n: nat)
    requires m <= n <= |ranked|
    ensures Hits(ranked, relevant, m) <= Hits(ranked, relevant, n)
    ensures Hits(ranked, relevant, n) <= Hits(ranked, relevant, m) + (n - m)
    decreases n
  {
    if m < n {
      HitsGrow(ranked, relevant, m, n - 1);
    }
  }

  lemma {:induction false} AllRelevantHits(ranked: seq<string>, relevant: set<string>, m: nat)
    requires m <= |ranked|
    ensures Hits(ranked, relevant, m) <= m
    ensures Hits(ranked, relevant, m) == m <==> AllRelevant(ranked, relevant, m)
    decreases m
  {
    if m > 0 {
      AllRelevantHits(ranked, relevant, m - 1);
    }
  }

  /** The relevant documents among the first `n`. */
  ghost function Found(ranked: seq<string>, relevant: set<string>, n: nat): set<string>
    requires n <= |ranked|
  {
    set i | 0 <= i < n && ranked[i] in relevant :: ranked[i]
  }

  /** Without repeats there are as many hits as relevant documents found. */
  lemma {:induction false} HitsDistinct(ranked: seq<string>, relevant: set<string>, n: nat)
    requires NoDuplicates(ranked) && n <= |ranked|
    ensures Hits(ranked, relevant, n) == |Found(ranked, relevant, n)| <= |relevant|
    decreases n
  {
    SubsetSize(Found(ranked, relevant, n), relevant);
    if n == 0 {
      assert Found(ranked, relevant, 0) == {};
    } else {
      HitsDistinct(ranked, relevant, n - 1);
      var before := Found(ranked, relevant, n - 1);
      if ranked[n - 1] in relevant {
        assert Found(ranked, relevant, n) == before + {ranked[n - 1]};
        assert ranked[n - 1] !in before;
      } else {
        assert Found(ranked, relevant, n) == before;
      }
    }
  }

  lemma {:induction false} IdealGrows(m: nat, n: nat, d: Discount)
    requires Proper(d) && m <= n
    ensures 0.0 <= Ideal(m, d) <= Ideal(n, d)
    ensures m < n ==> Ideal(m, d) < Ideal(n, d)
    decreases n
  {
    if m < n {
      IdealGrows(m, n - 1, d);
    } else if m > 0 {
      IdealGrows(m - 1, n - 1, d);
    }
  }

  /** No placement of m hits gains more than the first m places, and only those gain
      as much. */
  lemma {:induction false} DcgBounded(ranked: seq<string>, relevant: set<string>, n: nat, d: Discount)
    requires Proper(d) && n <= |ranked|
    ensures var m := Hits(ranked, relevant, n);
            && m <= n
            && 0.0 <= Dcg(ranked, relevant, n, d) <= Ideal(m, d)
            && (Dcg(ranked, relevant, n, d) == Ideal(m, d) <==> AllRelevant(ranked, relevant, m))
    decreases n
  {
    if n > 0 {
      DcgBounded(ranked, relevant, n - 1, d);
      var m := Hits(ranked, relevant, n);
      if ranked[n - 1] in relevant && m < n {
        assert d(n - 1) < d(m - 1);
        if AllRelevant(ranked, relevant, m) {
          AllRelevantHits(ranked, relevant, m);
          HitsGrow(ranked, relevant, m, n - 1);
        }
      }
    }
  }

  lemma QuotientUnit(x: real, y: real)
    requires 0.0 <= x <= y && y > 0.0
    ensures 0.0 <= x / y <= 1.0
    ensures x / y == 1.0 <==> x == y
  {
  }

  /** The hits in the top k, repeats included. */
  function TopHits(ranked: seq<string>, relevant: set<string>, k: nat): nat {
    Hits(ranked, relevant, Min(k, |ranked|))
  }

  /** With no more hits in the top k than the ideal has, binary nDCG lies in [0, 1], and
      is 1 exactly when the first min(|relevant|, k) documents are there and relevant. */
  lemma FewHitsRange(ranked: seq<string>, relevant: set<string>, k: nat, d: Discount)
    requires Proper(d) && TopHits(ranked, relevant, k) <= Min(|relevant|, k)
    ensures 0.0 <= NdcgOf(ranked, relevant, k, d) <= 1.0
    ensures var n := Min(|relevant|, k);
            NdcgOf(ranked, relevant, k, d) == 1.0 <==> n > 0 && AllRelevant(ranked, relevant, n)
  {
    var n, len := Min(|relevant|, k), Min(k, |ranked|);
    var m := Hits(ranked, relevant, len);
    DcgBounded(ranked, relevant, len, d);
    IdealGrows(m, n, d);
    if n > 0 {
      IdealGrows(0, n, d);
      QuotientUnit(Dcg(ranked, relevant, len, d), Ideal(n, d));
      if AllRelevant(ranked, relevant, n) {
        AllRelevantHits(ranked, relevant, n);
        HitsGrow(ranked, relevant, n, len);
        assert m == n;
      }
    }
  }

  /** A duplicate-free ranking never has too many hits. */
  lemma BinaryRange(ranked: seq<string>, relevant: set<string>, k: nat, d: Discount)
    requires Proper(d) && NoDuplicates(ranked)
    ensures 0.0 <= NdcgOf(ranked, relevant, k, d) <= 1.0
    ensures var n := Min(|relevant|, k);
            NdcgOf(ranked, relevant, k, d) == 1.0 <==> n > 0 && AllRelevant(ranked, relevant, n)
  {
    var len := Min(k, |ranked|);
    HitsDistinct(ranked, relevant, len);
    AllRelevantHits(ranked, relevant, len);
    FewHitsRange(ranked, relevant, k, d);
  }

  // How far repeats take it: sometimes and always above one.

  function Times(m: nat, share: real): real {
    m as real * share
  }

  lemma TimesStep(m: nat, share: real)
    requires share > 0.0
    ensures Times(m + 1, share) == Times(m, share) + share && Times(m, share) >= 0.0
  {
  }

  /** Nearly flat: n + 1 places are worth more than the first n could be. */
  function Flat(n: nat): Discount {
    (i: nat) => 1.0 + Part(n + 1, i + 1)
  }

  /** A small share, smaller for larger `i`. */
  function Part(n: nat, i: nat): real
    requires n > 0 && i > 0
  {
    1.0 / (n * i) as real
  }

  lemma PartShrinks(n: nat, i: nat, j: nat)
    requires n > 0 && 0 < i <= j
    ensures 0.0 < Part(n, j) <= Part(n, i) <= Part(n, 1) == 1.0 / n as real
    ensures i < j ==> Part(n, j) < Part(n, i)
  {
    ReciprocalOrder(n * 1, n * i);
    ReciprocalOrder(n * i, n * j);
  }

  lemma ReciprocalOrder(x: nat, y: nat)
    requires 0 < x <= y
    ensures 0.0 < 1.0 / y as real <= 1.0 / x as real
    ensures x < y ==> 1.0 / y as real < 1.0 / x as real
  {
  }

  lemma FlatProper(n: nat)
    ensures Proper(Flat(n))
  {
    forall i: nat ensures Flat(n)(i) > 0.0 { PartShrinks(n + 1, i + 1, i + 1); }
    forall i: nat, j: nat | i < j ensures Flat(n)(i) > Flat(n)(j) { PartShrinks(n + 1, i + 1, j + 1); }
  }

  lemma {:induction false} FlatIdeal(n: nat, m: nat)
    ensures Ideal(m, Flat(n)) <= Times(m, 1.0 + Part(n + 1, 1))
    decreases m
  {
    PartShrinks(n + 1, 1, 1);
    if m > 0 {
      FlatIdeal(n, m - 1);
      PartShrinks(n + 1, m, m);
      TimesStep(m - 1, 1.0 + Part(n + 1, 1));
    }
  }

  lemma {:induction false} FlatDcg(ranked: seq<string>, relevant: set<string>, n: nat, m: nat)
    requires m <= |ranked|
    ensures Dcg(ranked, relevant, m, Flat(n)) >= Hits(ranked, relevant, m) as real
    decreases m
  {
    if m > 0 {
      FlatDcg(ranked, relevant, n, m - 1);
      PartShrinks(n + 1, m, m);
    }
  }

  /** With more hits than the ideal has, the nearly flat discount exceeds one. */
  lemma ManyHitsExceed(ranked: seq<string>, relevant: set<string>, k: nat)
    requires TopHits(ranked, relevant, k) > Min(|relevant|, k)
    ensures var n := Min(|relevant|, k); Proper(Flat(n)) && NdcgOf(ranked, relevant, k, Flat(n)) > 1.0
  {
    var n, len := Min(|relevant|, k), Min(k, |ranked|);
    FlatProper(n);
    HitsPositive(ranked, relevant, len);
    IdealGrows(0, n, Flat(n));
    FlatIdeal(n, n);
    FlatDcg(ranked, relevant, n, len);
    ShareBelowOne(n);
    QuotientAboveOne(Dcg(ranked, relevant, len, Flat(n)), Ideal(n, Flat(n)));
  }

  lemma ShareBelowOne(n: nat)
    ensures Times(n, 1.0 + Part(n + 1, 1)) < n as real + 1.0
  {
    PartShrinks(n + 1, 1, 1);
    Shares(n, Part(n + 1, 1));
  }

  lemma Shares(n: nat, p: real)
    requires p == 1.0 / (n + 1) as real
    ensures p > 0.0 && Times(n, 1.0 + p) < n as real + 1.0
    ensures 0.0 <= Times(n, p) <= 1.0
  {
    var x := n as real;
    assert (n + 1) as real == x + 1.0;
    assert p * (x + 1.0) == 1.0;
    assert p * (x + 1.0) == x * p + p;
    assert x * (1.0 + p) == x + x * p;
  }

  /** A hit needs a relevant document and a place. */
  lemma {:induction false} HitsPositive(ranked: seq<string>, relevant: set<string>, n: nat)
    requires n <= |ranked|
    ensures Hits(ranked, relevant, n) > 0 ==> n > 0 && |relevant| > 0
    decreases n
  {
    if n > 0 {
      HitsPositive(ranked, relevant, n - 1);
    }
  }

  /** Binary nDCG stays within one under every discount exactly when the hits in the
      top k, repeats included, are no more than the ideal has. */
  lemma BoundHolds(ranked: seq<string>, relevant: set<string>, k: nat)
    ensures (forall d: Discount :: Proper(d) ==> NdcgOf(ranked, relevant, k, d) <= 1.0) <==>
            TopHits(ranked, relevant, k) <= Min(|relevant|, k)
  {
    if TopHits(ranked, relevant, k) <= Min(|relevant|, k) {
      forall d: Discount | Proper(d) ensures NdcgOf(ranked, relevant, k, d) <= 1.0 {
        FewHitsRange(ranked, relevant, k, d);
      }
    } else {
      ManyHitsExceed(ranked, relevant, k);
    }
  }

  /** Steep after place `p`: all the `len` places behind it are worth less than it. */
  function Steep(p: nat, len: nat): Discount {
    (i: nat) => if i <= p then 2.0 + Part(1, i + 1) else Part(len + 1, i + 1)
  }

  lemma SteepProper(p: nat, len: nat)
    ensures Proper(Steep(p, len))
  {
    forall i: nat ensures Steep(p, len)(i) > 0.0 {
      PartShrinks(1, i + 1, i + 1);
      PartShrinks(len + 1, i + 1, i + 1);
    }
    forall i: nat, j: nat | i < j ensures Steep(p, len)(i) > Steep(p, len)(j) {
      PartShrinks(1, i + 1, j + 1);
      PartShrinks(len + 1, i + 1, j + 1);
      ReciprocalOrder(1, len + 1);
    }
  }

  lemma {:induction false} SteepDcg(ranked: seq<string>, relevant: set<string>, p: nat, len: nat, m: nat)
    requires m <= |ranked| && p < |ranked| && ranked[p] !in relevant
    ensures m <= p ==> Dcg(ranked, relevant, m, Steep(p, len)) <= Ideal(m, Steep(p, len))
    ensures m > p ==>
              Dcg(ranked, relevant, m, Steep(p, len)) <= Ideal(p, Steep(p, len)) + Times(m, Part(len + 1, 1))
    decreases m
  {
    if m > 0 {
      SteepDcg(ranked, relevant, p, len, m - 1);
      PartShrinks(1, m, m);
      PartShrinks(len + 1, m, m);
      TimesStep(m - 1, Part(len + 1, 1));
    }
  }

  /** An irrelevant document among the first places keeps the steep discount within one. */
  lemma GapStaysBelow(ranked: seq<string>, relevant: set<string>, k: nat, p: nat)
    requires p < Min(|relevant|, k) && p < |ranked| && ranked[p] !in relevant
    ensures Proper(Steep(p, |ranked|)) && NdcgOf(ranked, relevant, k, Steep(p, |ranked|)) <= 1.0
  {
    var n, len, d := Min(|relevant|, k), Min(k, |ranked|), Steep(p, |ranked|);
    SteepProper(p, |ranked|);
    IdealGrows(p + 1, n, d);
    IdealGrows(0, n, d);
    SteepBelow(ranked, relevant, p, len);
    DcgBounded(ranked, relevant, len, d);
    QuotientUnit(Dcg(ranked, relevant, len, d), Ideal(n, d));
  }

  lemma SteepBelow(ranked: seq<string>, relevant: set<string>, p: nat, len: nat)
    requires p < len <= |ranked| && ranked[p] !in relevant
    ensures Dcg(ranked, relevant, len, Steep(p, |ranked|)) <= Ideal(p + 1, Steep(p, |ranked|))
  {
    SteepDcg(ranked, relevant, p, |ranked|, len);
    PartShrinks(1, p + 1, p + 1);
    SmallShares(len, |ranked|);
  }

  lemma SmallShares(m: nat, len: nat)
    requires m <= len
    ensures Times(m, Part(len + 1, 1)) <= 1.0
  {
    PartShrinks(len + 1, 1, 1);
    Shares(len, Part(len + 1, 1));
    TimesGrows(m, len, Part(len + 1, 1));
  }

  lemma TimesGrows(m: nat, n: nat, share: real)
    requires m <= n && share > 0.0
    ensures Times(m, share) <= Times(n, share)
  {
  }

  /** It exceeds one under every discount exactly when the first min(|relevant|, k)
      places are all relevant and the top k holds a further hit. */
  lemma AlwaysExceeds(ranked: seq<string>, relevant: set<string>, k: nat)
    ensures (forall d: Discount :: Proper(d) ==> NdcgOf(ranked, relevant, k, d) > 1.0) <==>
            AllRelevant(ranked, relevant, Min(|relevant|, k)) && TopHits(ranked, relevant, k) > Min(|relevant|, k)
  {
    var n, len := Min(|relevant|, k), Min(k, |ranked|);
    if TopHits(ranked, relevant, k) <= n {
      FlatProper(n);
      FewHitsRange(ranked, relevant, k, Flat(n));
    } else if AllRelevant(ranked, relevant, n) {
      forall d: Discount | Proper(d) ensures NdcgOf(ranked, relevant, k, d) > 1.0 {
        DuplicatesExceedOne(ranked, relevant, k, d);
      }
    } else {
      AllRelevantHits(ranked, relevant, len);
      var p: nat :| p < n && ranked[p] !in relevant;
      GapStaysBelow(ranked, relevant, k, p);
    }
  }

  /** A repeat behind a full top exceeds one. */
  lemma DuplicatesExceedOne(ranked: seq<string>, relevant: set<string>, k: nat, d: Discount)
    requires Proper(d) && AllRelevant(ranked, relevant, Min(|relevant|, k))
    requires TopHits(ranked, relevant, k) > Min(|relevant|, k)
    ensures NdcgOf(ranked, relevant, k, d) > 1.0
  {
    var n, len := Min(|relevant|, k), Min(k, |ranked|);
    HitsPositive(ranked, relevant, len);
    AllRelevantHits(ranked, relevant, len);
    AllRelevantHits(ranked, relevant, n);
    DcgBounded(ranked, relevant, n, d);
    DcgGrows(ranked, relevant, n, len, d);
    IdealGrows(0, n, d);
    QuotientAboveOne(Dcg(ranked, relevant, len, d), Ideal(n, d));
  }

  lemma {:induction false} DcgGrows(ranked: seq<string>, relevant: set<string>, m: nat, n: nat, d: Discount)
    requires Proper(d) && m <= n <= |ranked|
    ensures Dcg(ranked, relevant, m, d) <= Dcg(ranked, relevant, n, d)
    ensures Hits(ranked, relevant, m) < Hits(ranked, relevant, n) ==>
              Dcg(ranked, relevant, m, d) < Dcg(ranked, relevant, n, d)
    decreases n
  {
    if m < n {
      DcgGrows(ranked, relevant, m, n - 1, d);
    }
  }

  lemma QuotientAboveOne(x: real, y: real)
    requires x > y > 0.0
    ensures x / y > 1.0
  {
  }

  function Swap(ranked: seq<string>, i: nat, j: nat): seq<string>
    requires i < |ranked| && j < |ranked|
  {
    ranked[i := ranked[j]][j := ranked[i]]
  }

  lemma {:induction false} SwapDcg(ranked: seq<string>, relevant: set<string>, i: nat, j: nat, n: nat, d: Discount)
    requires i < j < |ranked| && n <= |ranked| && ranked[i] !in relevant && ranked[j] in relevant
    ensures Dcg(Swap(ranked, i, j), relevant, n, d) ==
            Dcg(ranked, relevant, n, d) + (if i < n then d(i) else 0.0) - (if j < n then d(j) else 0.0)
    decreases n
  {
    if n > 0 {
      SwapDcg(ranked, relevant, i, j, n - 1, d);
    }
  }

  /** Moving a relevant document above an irrelevant one within the top k strictly
      raises binary nDCG. */
  lemma SwapRaises(ranked: seq<string>, relevant: set<string>, k: nat, i: nat, j: nat, d: Discount)
    requires Proper(d) && i < j < |ranked| && j < k && ranked[i] !in relevant && ranked[j] in relevant
    ensures NdcgOf(Swap(ranked, i, j), relevant, k, d) > NdcgOf(ranked, relevant, k, d)
  {
    var n := Min(|relevant|, k);
    assert |relevant| > 0;
    SwapDcg(ranked, relevant, i, j, Min(k, |ranked|), d);
    IdealGrows(0, n, d);
    QuotientLess(Dcg(ranked, relevant, Min(k, |ranked|), d),
                 Dcg(Swap(ranked, i, j), relevant, Min(k, |ranked|), d), Ideal(n, d));
  }

  lemma QuotientLess(x: real, y: real, z: real)
    requires x < y && z > 0.0
    ensures x / z < y / z
  {
    assert y / z - x / z == (y - x) / z;
  }

  // ---------------------------------------------------------------------------
  // Graded relevance
  // ---------------------------------------------------------------------------

  function Pow2(n: nat): nat {
    if n == 0 then 1 else 2 * Pow2(n - 1)
  }

  /** 2^g - 1, and nothing for a grade that is not positive. */
  function Gain(g: int): real {
    if g <= 0 then 0.0 else (Pow2(g) - 1) as real
  }

  lemma {:induction false} Pow2Grows(m: nat, n: nat)
    requires m <= n
    ensures 1 <= Pow2(m) <= Pow2(n)
    ensures m < n ==> Pow2(m) < Pow2(n)
    decreases n
  {
    if m < n {
      Pow2Grows(m, n - 1);
    } else if m > 0 {
      Pow2Grows(m - 1, n - 1);
    }
  }

  lemma GainGrows(g: nat, h: nat)
    requires g <= h
    ensures 0.0 <= Gain(g) <= Gain(h)
    ensures g < h ==> Gain(g) < Gain(h)
  {
    Pow2Grows(g, h);
    Pow2Grows(0, g);
  }

  /** What a grade contributes at a position. */
  type Placement = (nat, nat) -> real

  function Discounted(d: Discount): Placement {
    (g: nat, i: nat) => Gain(g) * d(i)
  }

  ghost predicate Fades(w: Placement, g: nat, i: nat) {
    w(g, i) > w(g, i + 1) > 0.0
  }

  ghost predicate Crosses(w: Placement, g: nat, h: nat, i: nat) {
    w(g, i) + w(h, i + 1) < w(h, i) + w(g, i + 1)
  }

  /** Grade zero contributes nothing, an earlier place is worth more, and most so for
      the higher of two grades. */
  ghost predicate Favours(w: Placement) {
    && (forall i: nat :: w(0, i) == 0.0)
    && (forall g: nat, i: nat :: g > 0 ==> Fades(w, g, i))
    && (forall g: nat, h: nat, i: nat :: g < h ==> Crosses(w, g, h, i))
  }

  lemma DiscountedFades(d: Discount, g: nat, i: nat)
    requires Proper(d) && g > 0
    ensures Fades(Discounted(d), g, i)
  {
    GainGrows(0, g);
    ScaleLess(Gain(g), d(i + 1), d(i));
  }

  lemma DiscountedCrosses(d: Discount, g: nat, h: nat, i: nat)
    requires Proper(d) && g < h
    ensures Crosses(Discounted(d), g, h, i)
  {
    GainGrows(g, h);
    Exchange(Gain(g), Gain(h), d(i), d(i + 1));
  }

  lemma DiscountedFavours(d: Discount)
    requires Proper(d)
    ensures Favours(Discounted(d))
  {
    var w := Discounted(d);
    forall g: nat, i: nat | g > 0 ensures Fades(w, g, i) {
      DiscountedFades(d, g, i);
    }
    forall g: nat, h: nat, i: nat | g < h ensures Crosses(w, g, h, i) {
      DiscountedCrosses(d, g, h, i);
    }
  }

  lemma Exchange(x: real, y: real, a: real, b: real)
    requires x < y && a > b
    ensures x * a + y * b < y * a + x * b
  {
    assert (y - x) * (a - b) > 0.0;
  }

  lemma ScaleLess(w: real, x: real, y: real)
    requires w > 0.0 && 0.0 < x < y
    ensures 0.0 < w * x < w * y
  {
  }

  /** Gain of a grade list placed from position `at` on. */
  function GradedDcg(grades: seq<nat>, at: nat, w: Placement): real {
    if grades == [] then 0.0 else w(grades[0], at) + GradedDcg(grades[1..], at + 1, w)
  }

  function InsertGrade(g: nat, s: seq<nat>): seq<nat> {
    if s == [] || g >= s[0] then [g] + s else [s[0]] + InsertGrade(g, s[1..])
  }

  /** The positive grades, highest first. */
  function IdealOrder(grades: seq<nat>): seq<nat> {
    if grades == [] then []
    else if grades[0] > 0 then InsertGrade(grades[0], IdealOrder(grades[1..]))
    else IdealOrder(grades[1..])
  }

  lemma {:induction false} InsertMembers(g: nat, s: seq<nat>)
    ensures |InsertGrade(g, s)| == |s| + 1
    ensures forall x :: x in InsertGrade(g, s) <==> x == g || x in s
    decreases |s|
  {
    if s != [] && g < s[0] {
      InsertMembers(g, s[1..]);
      assert s == [s[0]] + s[1..];
    }
  }

  ghost predicate NonIncreasing(s: seq<nat>) {
    forall i, j :: 0 <= i < j < |s| ==> s[i] >= s[j]
  }

  lemma {:induction false} IdealOrderSorted(grades: seq<nat>)
    ensures NonIncreasing(IdealOrder(grades))
    decreases |grades|
  {
    if grades != [] {
      IdealOrderSorted(grades[1..]);
      if grades[0] > 0 {
        InsertSorted(grades[0], IdealOrder(grades[1..]));
      }
    }
  }

  lemma {:induction false} InsertSorted(g: nat, s: seq<nat>)
    requires NonIncreasing(s)
    ensures NonIncreasing(InsertGrade(g, s))
    decreases |s|
  {
    if s != [] && g < s[0] {
      InsertSorted(g, s[1..]);
      InsertMembers(g, s[1..]);
      forall j | 0 < j < |InsertGrade(g, s)| ensures InsertGrade(g, s)[j] <= s[0] {
        var x := InsertGrade(g, s[1..])[j - 1];
        assert x in InsertGrade(g, s[1..]);
        if x in s[1..] {
          var i :| 0 <= i < |s[1..]| && s[1..][i] == x;
          assert s[i + 1] == x;
        }
      }
    }
  }

  /** Rearrangement, one step: a grade gains most at its place in the order. */
  lemma {:induction false} InsertRaises(g: nat, s: seq<nat>, at: nat, w: Placement)
    requires Favours(w)
    ensures w(g, at) + GradedDcg(s, at + 1, w) <= GradedDcg(InsertGrade(g, s), at, w)
    ensures s != [] && g < s[0] ==>
              w(g, at) + GradedDcg(s, at + 1, w) < GradedDcg(InsertGrade(g, s), at, w)
    decreases |s|
  {
    if s != [] && g < s[0] {
      InsertRaises(g, s[1..], at + 1, w);
      assert Crosses(w, g, s[0], at);
      assert InsertGrade(g, s)[1..] == InsertGrade(g, s[1..]);
    } else {
      assert ([g] + s)[1..] == s;
    }
  }

  lemma {:induction false} EarlierGainsMore(s: seq<nat>, at: nat, w: Placement)
    requires Favours(w) && forall i :: 0 <= i < |s| ==> s[i] > 0
    ensures 0.0 <= GradedDcg(s, at + 1, w) <= GradedDcg(s, at, w)
    ensures s != [] ==> 0.0 < GradedDcg(s, at + 1, w) < GradedDcg(s, at, w)
    decreases |s|
  {
    if s != [] {
      EarlierGainsMore(s[1..], at + 1, w);
      assert Fades(w, s[0], at);
    }
  }

  /** The rearrangement inequality: no order of the grades gains more than the ideal
      one, and only a non-increasing order gains as much. */
  lemma {:induction false} Rearrangement(grades: seq<nat>, at: nat, w: Placement)
    requires Favours(w)
    ensures 0.0 <= GradedDcg(grades, at, w) <= GradedDcg(IdealOrder(grades), at, w)
    ensures GradedDcg(grades, at, w) == GradedDcg(IdealOrder(grades), at, w) <==> NonIncreasing(grades)
    decreases |grades|
  {
    if grades != [] {
      var g, rest := grades[0], grades[1..];
      var ideal := IdealOrder(rest);
      Rearrangement(rest, at + 1, w);
      HeadOrder(grades);
      if g > 0 {
        assert Fades(w, g, at);
        InsertRaises(g, ideal, at, w);
        if ideal == [] || g >= ideal[0] {
          assert InsertGrade(g, ideal)[1..] == ideal;
        }
      } else {
        IdealOrderMembers(rest);
        EarlierGainsMore(ideal, at, w);
      }
    }
  }

  /** A list is non-increasing when its tail is and no positive grade tops its head. */
  lemma HeadOrder(grades: seq<nat>)
    requires grades != []
    ensures var ideal := IdealOrder(grades[1..]);
            NonIncreasing(grades) <==>
            NonIncreasing(grades[1..]) && (ideal == [] || grades[0] >= ideal[0])
  {
    var g, rest := grades[0], grades[1..];
    var ideal := IdealOrder(rest);
    IdealOrderSorted(rest);
    IdealOrderMembers(rest);
    if NonIncreasing(grades) && ideal != [] {
      assert ideal[0] in ideal && ideal[0] in rest;
      var i :| 0 <= i < |rest| && rest[i] == ideal[0];
      assert grades[i + 1] == ideal[0];
    }
    if NonIncreasing(rest) && (ideal == [] || g >= ideal[0]) {
      forall i, j | 0 <= i < j < |grades| ensures grades[i] >= grades[j] {
        assert grades[j] == rest[j - 1] && grades[j] in rest;
        if i == 0 && grades[j] > 0 {
          assert grades[j] in ideal;
        } else if i > 0 {
          assert grades[i] == rest[i - 1];
        }
      }
    }
  }

  lemma {:induction false} IdealOrderMembers(grades: seq<nat>)
    ensures forall g :: g in IdealOrder(grades) <==> g in grades && g > 0
    ensures forall i :: 0 <= i < |IdealOrder(grades)| ==> IdealOrder(grades)[i] > 0
    decreases |grades|
  {
    if grades != [] {
      IdealOrderMembers(grades[1..]);
      assert grades == [grades[0]] + grades[1..];
      if grades[0] > 0 {
        InsertMembers(grades[0], IdealOrder(grades[1..]));
      }
    }
    forall i | 0 <= i < |IdealOrder(grades)| ensures IdealOrder(grades)[i] > 0 {
      assert IdealOrder(grades)[i] in IdealOrder(grades);
    }
  }

  /** The ideal order is a sorted rearrangement of the positive grades. */
  lemma {:induction false} IdealOrderRearranges(grades: seq<nat>)
    ensures NonIncreasing(IdealOrder(grades))
    ensures forall g: nat :: multiset(IdealOrder(grades))[g] == if g > 0 then multiset(grades)[g] else 0
    decreases |grades|
  {
    IdealOrderSorted(grades);
    if grades != [] {
      IdealOrderRearranges(grades[1..]);
      assert grades == [grades[0]] + grades[1..];
      InsertCounts(grades[0], IdealOrder(grades[1..]));
    }
  }

  lemma {:induction false} InsertCounts(g: nat, s: seq<nat>)
    ensures multiset(InsertGrade(g, s)) == multiset(s) + multiset{g}
    decreases |s|
  {
    if s != [] && g < s[0] {
      InsertCounts(g, s[1..]);
      assert s == [s[0]] + s[1..];
    }
  }

  /** Negative grades count as zero; only the first `k` judgements count. */
  function Grades(judged: seq<(string, int)>, k: nat): seq<nat> {
    var n := Min(k, |judged|);
    seq(n, i requires 0 <= i < n => if judged[i].1 > 0 then judged[i].1 else 0)
  }

  function JudgedNdcgOf(judged: seq<(string, int)>, k: nat, d: Discount): Option<real> {
    if judged == [] then None else
      var grades := Grades(judged, k);
      var ideal := GradedDcg(IdealOrder(grades), 0, Discounted(d));
      Some(if IdealOrder(grades) == [] || ideal <= 0.0 then 0.0 else GradedDcg(grades, 0, Discounted(d)) / ideal)
  }

  lemma {:induction false} GradedDcgAppend(s: seq<nat>, g: nat, at: nat, w: Placement)
    ensures GradedDcg(s + [g], at, w) == GradedDcg(s, at, w) + w(g, at + |s|)
    decreases |s|
  {
    if s != [] {
      GradedDcgAppend(s[1..], g, at + 1, w);
      assert (s + [g])[1..] == s[1..] + [g];
    }
  }

  /** The discounted gain of a grade list, accumulated position by position. */
  method Accumulate(grades: seq<nat>, d: Discount) returns (dcg: real)
    ensures dcg == GradedDcg(grades, 0, Discounted(d))
  {
    dcg := 0.0;
    for i := 0 to |grades|
      invariant dcg == GradedDcg(grades[..i], 0, Discounted(d))
    {
      assert grades[..i + 1] == grades[..i] + [grades[i]];
      GradedDcgAppend(grades[..i], grades[i], 0, Discounted(d));
      dcg := dcg + Gain(grades[i]) * d(i);
    }
    assert grades[..|grades|] == grades;
  }

  method JudgedNdcg(judged: seq<(string, int)>, k: nat, d: Discount) returns (ndcg: Option<real>)
    ensures ndcg == JudgedNdcgOf(judged, k, d)
  {
    if judged == [] { return None; }
    var grades := Grades(judged, k);
    var dcg := Accumulate(grades, d);
    var ideal := IdealOrder(grades);
    if ideal == [] { return Some(0.0); }
    var idcg := Accumulate(ideal, d);
    ndcg := Some(if idcg <= 0.0 then 0.0 else dcg / idcg);
  }

  /** Graded nDCG lies in [0, 1]; it is 1 exactly when the first k judgements hold a
      positive grade and their grades never rise. */
  lemma GradedRange(judged: seq<(string, int)>, k: nat, d: Discount)
    requires Proper(d) && judged != []
    ensures var v := JudgedNdcgOf(judged, k, d).value;
            && 0.0 <= v <= 1.0
            && (v == 1.0 <==> NonIncreasing(Grades(judged, k)) && exists g :: g in Grades(judged, k) && g > 0)
  {
    var grades, w := Grades(judged, k), Discounted(d);
    var ideal := IdealOrder(grades);
    DiscountedFavours(d);
    Rearrangement(grades, 0, w);
    IdealOrderMembers(grades);
    if g :| g in grades && g > 0 { assert g in ideal; }
    if ideal != [] {
      assert ideal[0] in ideal;
      EarlierGainsMore(ideal, 0, w);
      QuotientUnit(GradedDcg(grades, 0, w), GradedDcg(ideal, 0, w));
    }
  }

  // ---------------------------------------------------------------------------
  // Gains and places
  // ---------------------------------------------------------------------------

  /** Each grade is worth twice the one below and one more, from one for the first; a grade
      that is not positive is worth nothing. */
  lemma GainDoubles(g: int)
    ensures g <= 0 ==> Gain(g) == 0.0
    ensures g == 1 ==> Gain(g) == 1.0
    ensures g > 1 ==> Gain(g) == 2.0 * Gain(g - 1) + 1.0
  {
    assert Pow2(0) == 1;
    if g > 0 {
      assert Pow2(g) == 2 * Pow2(g - 1);
    }
  }

  /** One relevant document, found at place `i`, is worth that place's discount in units of
      the first's. */
  lemma LoneHit(ranked: seq<string>, x: string, k: nat, d: Discount, i: nat)
    requires Proper(d) && i < k && i < |ranked| && ranked[i] == x
    requires forall j :: 0 <= j < |ranked| && ranked[j] == x ==> j == i
    ensures NdcgOf(ranked, {x}, k, d) == d(i) / d(0)
  {
    LoneDcg(ranked, x, Min(k, |ranked|), d, i);
    assert |{x}| == 1;
    assert Ideal(1, d) == Ideal(0, d) + d(0);
  }

  lemma {:induction false} LoneDcg(ranked: seq<string>, x: string, n: nat, d: Discount, i: nat)
    requires i < |ranked| && n <= |ranked| && ranked[i] == x
    requires forall j :: 0 <= j < |ranked| && ranked[j] == x ==> j == i
    ensures Dcg(ranked, {x}, n, d) == if i < n then d(i) else 0.0
    decreases n
  {
    if n > 0 {
      LoneDcg(ranked, x, n - 1, d, i);
    }
  }

  /** One positive grade, judged at place `i`, likewise. */
  lemma LoneGrade(judged: seq<(string, int)>, k: nat, d: Discount, i: nat)
    requires Proper(d) && i < k && i < |judged| && judged[i].1 > 0
    requires forall j :: 0 <= j < |judged| && judged[j].1 > 0 ==> j == i
    ensures JudgedNdcgOf(judged, k, d) == Some(d(i) / d(0))
  {
    var grades, g := Grades(judged, k), judged[i].1;
    assert grades[i] == g;
    DiscountedFavours(d);
    LoneGradedDcg(grades, 0, Discounted(d), i);
    LoneIdeal(grades, i);
    LoneValue(grades, g, d, i);
  }

  lemma LoneValue(grades: seq<nat>, g: nat, d: Discount, i: nat)
    requires Proper(d) && g > 0 && IdealOrder(grades) == [g]
    ensures GradedDcg(IdealOrder(grades), 0, Discounted(d)) > 0.0
    ensures Discounted(d)(g, i) / GradedDcg(IdealOrder(grades), 0, Discounted(d)) == d(i) / d(0)
  {
    GainGrows(0, g);
    OneGrade(g, Discounted(d));
    InUnits(Discounted(d)(g, i), Discounted(d)(g, 0), Gain(g), d(i), d(0));
  }

  lemma InUnits(x: real, y: real, g: real, a: real, b: real)
    requires g > 0.0 && b > 0.0 && x == g * a && y == g * b
    ensures y > 0.0 && x / y == a / b
  {
    PositiveProduct(g, b);
    FactorCancels(g, a, b);
  }

  lemma OneGrade(g: nat, w: Placement)
    ensures GradedDcg([g], 0, w) == w(g, 0)
  {
    assert GradedDcg([g][1..], 1, w) == 0.0;
  }

  lemma PositiveProduct(x: real, y: real)
    requires x > 0.0 && y > 0.0
    ensures x * y > 0.0
  {
  }

  lemma FactorCancels(g: real, x: real, y: real)
    requires g > 0.0 && y > 0.0
    ensures g * y != 0.0 && g * x / (g * y) == x / y
  {
    PositiveProduct(g, y);
    var q := x / y;
    assert q * y == x;
    assert q * (g * y) == g * x;
    Recover(q, g * y);
  }

  lemma Recover(q: real, y: real)
    requires y > 0.0
    ensures q * y / y == q
  {
  }

  lemma {:induction false} LoneGradedDcg(grades: seq<nat>, at: nat, w: Placement, i: nat)
    requires i < |grades| && (forall j :: 0 <= j < |grades| && grades[j] > 0 ==> j == i)
    requires forall m: nat :: w(0, m) == 0.0
    ensures GradedDcg(grades, at, w) == w(grades[i], at + i)
    decreases |grades|
  {
    if i == 0 {
      NoGradesNoGain(grades[1..], at + 1, w);
    } else {
      LoneGradedDcg(grades[1..], at + 1, w, i - 1);
    }
  }

  lemma {:induction false} NoGradesNoGain(grades: seq<nat>, at: nat, w: Placement)
    requires (forall j :: 0 <= j < |grades| ==> grades[j] == 0) && forall m: nat :: w(0, m) == 0.0
    ensures GradedDcg(grades, at, w) == 0.0 && IdealOrder(grades) == []
    decreases |grades|
  {
    if grades != [] {
      NoGradesNoGain(grades[1..], at + 1, w);
    }
  }

  lemma {:induction false} LoneIdeal(grades: seq<nat>, i: nat)
    requires i < |grades| && grades[i] > 0 && forall j :: 0 <= j < |grades| && grades[j] > 0 ==> j == i
    ensures IdealOrder(grades) == [grades[i]]
    decreases |grades|
  {
    if i == 0 {
      NoGradesNoGain(grades[1..], 0, (g: nat, m: nat) => 0.0);
    } else {
      LoneIdeal(grades[1..], i - 1);
    }
  }

  /** A negative grade counts like zero, and judgements beyond the first `k` not at all. */
  lemma GradesCount(judged: seq<(string, int)>, k: nat)
    ensures |Grades(judged, k)| == if k < |judged| then k else |judged|
    ensures forall i :: 0 <= i < |Grades(judged, k)| ==>
              (judged[i].1 >= 0 ==> Grades(judged, k)[i] == judged[i].1) && (judged[i].1 < 0 ==> Grades(judged, k)[i] == 0)
  {
  }
}
