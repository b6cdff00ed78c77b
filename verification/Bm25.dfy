/** The naive scan: what a lexical search over the plain corpus has to return. */
module Bm25 {
  import opened FiniteSets
  import opened Ordering
  import opened Sums
  import opened Lexical

  const K1 := 1.2
  const B := 0.75

  /** The inverse document frequency, as a function of corpus size and df. */
  type Idf = (nat, nat) -> real

  ghost predicate PositiveIdf(idf: Idf) {
    forall n: nat, df: nat :: df <= n ==> idf(n, df) > 0.0
  }

  function Divisor(x: real): (r: real)
    ensures r != 0.0
  {
    if x == 0.0 then 1.0 else x
  }

  /** One query token's contribution to one document's score. */
  function TermWeight(idf: Idf, n: nat, df: nat, tf: nat, len: nat, average: real): real {
    var denominator := tf as real + K1 * (1.0 - B + B * len as real / Divisor(average));
    idf(n, df) * (tf as real * (K1 + 1.0)) / Divisor(denominator)
  }

  lemma TermWeightPositive(idf: Idf, n: nat, df: nat, tf: nat, len: nat, average: real)
    requires idf(n, df) > 0.0 && tf > 0 && average >= 0.0
    ensures TermWeight(idf, n, df, tf, len, average) > 0.0
  {
    var a := Divisor(average);
    assert B * len as real / a >= 0.0;
    var denominator := tf as real + K1 * (1.0 - B + B * len as real / a);
    assert denominator > 0.0;
    assert tf as real * (K1 + 1.0) > 0.0;
    QuotientPositive(idf(n, df), tf as real * (K1 + 1.0), denominator);
  }

  lemma QuotientPositive(x: real, y: real, z: real)
    requires x > 0.0 && y > 0.0 && z > 0.0
    ensures x * y / z > 0.0
  {
    assert x * y > 0.0;
  }

  /** The share of a weight that length and frequency decide, apart from the idf. */
  lemma WeightSplits(idf: Idf, n: nat, df: nat, tf: nat, len: nat, average: real)
    requires average > 0.0 && tf > 0
    ensures var norm := 0.3 + 0.9 * len as real / average;
            && norm > 0.0 && tf as real + norm > 0.0
            && TermWeight(idf, n, df, tf, len, average) == idf(n, df) * (2.2 * tf as real) / (tf as real + norm)
  {
    var ratio := len as real / average;
    assert ratio >= 0.0;
    assert B * len as real / average == B * ratio;
    assert 0.9 * len as real / average == 0.9 * ratio;
    assert K1 * (1.0 - B + B * ratio) == 0.3 + 0.9 * ratio;
  }

  lemma SmallerDivisor(x: real, a: real, b: real)
    requires x > 0.0 && 0.0 < a < b
    ensures x / b < x / a
  {
    var q := x / b;
    assert q * b == x && q > 0.0;
    assert q * a < q * b;
    Scaled(q, a, x);
  }

  lemma Scaled(q: real, a: real, x: real)
    requires a > 0.0 && q * a < x
    ensures q < x / a
  {
    var r := x / a;
    assert r * a == x;
    ProductOrder(r, q, a);
  }

  lemma ProductOrder(x: real, y: real, a: real)
    requires a > 0.0
    ensures x <= y ==> x * a <= y * a
  {
  }

  lemma RatioOrder(a: nat, b: nat, average: real)
    requires average > 0.0 && a < b
    ensures 0.9 * a as real / average < 0.9 * b as real / average
  {
    var x, y := 0.9 * a as real / average, 0.9 * b as real / average;
    assert x * average == 0.9 * a as real && y * average == 0.9 * b as real;
    ProductOrder(y, x, average);
  }

  /** The longer of two documents weighs less for the same number of occurrences. */
  lemma LongerWeighsLess(idf: Idf, n: nat, df: nat, tf: nat, len: nat, longer: nat, average: real)
    requires idf(n, df) > 0.0 && average > 0.0 && tf > 0 && len < longer
    ensures TermWeight(idf, n, df, tf, longer, average) < TermWeight(idf, n, df, tf, len, average)
  {
    WeightSplits(idf, n, df, tf, len, average);
    WeightSplits(idf, n, df, tf, longer, average);
    RatioOrder(len, longer, average);
    assert idf(n, df) * (2.2 * tf as real) > 0.0;
    SmallerDivisor(idf(n, df) * (2.2 * tf as real), tf as real + (0.3 + 0.9 * len as real / average),
                   tf as real + (0.3 + 0.9 * longer as real / average));
  }

  /** More occurrences weigh more, and never as much as 2.2 times the idf. */
  lemma MoreOccurrencesWeighMore(idf: Idf, n: nat, df: nat, tf: nat, more: nat, len: nat, average: real)
    requires idf(n, df) > 0.0 && average > 0.0 && 0 < tf < more
    ensures TermWeight(idf, n, df, tf, len, average) < TermWeight(idf, n, df, more, len, average) < 2.2 * idf(n, df)
  {
    WeightSplits(idf, n, df, tf, len, average);
    WeightSplits(idf, n, df, more, len, average);
    var norm := 0.3 + 0.9 * len as real / average;
    Saturates(idf(n, df), tf as real, more as real, norm);
  }

  lemma Saturates(w: real, x: real, y: real, norm: real)
    requires w > 0.0 && 0.0 < x < y && norm > 0.0
    ensures w * (2.2 * x) / (x + norm) < w * (2.2 * y) / (y + norm) < 2.2 * w
  {
    Share(w, x, norm);
    Share(w, y, norm);
    SmallerDivisor(2.2 * w * norm, x + norm, y + norm);
  }

  /** What saturation leaves of the full 2.2 * w. */
  lemma Share(w: real, x: real, norm: real)
    requires w > 0.0 && x > 0.0 && norm > 0.0
    ensures w * (2.2 * x) / (x + norm) == 2.2 * w - 2.2 * w * norm / (x + norm)
    ensures 2.2 * w * norm / (x + norm) > 0.0
  {
    var d := x + norm;
    var p, q := w * (2.2 * x) / d, 2.2 * w * norm / d;
    assert p * d == w * (2.2 * x) && q * d == 2.2 * w * norm;
    assert (p + q) * d == 2.2 * w * d by { Expand(w, x, norm, p, q); }
    CancelFactor(p + q, 2.2 * w, d);
    assert 2.2 * w * norm > 0.0;
  }

  lemma Expand(w: real, x: real, norm: real, p: real, q: real)
    requires p * (x + norm) == w * (2.2 * x) && q * (x + norm) == 2.2 * w * norm
    ensures (p + q) * (x + norm) == 2.2 * w * (x + norm)
  {
    assert (p + q) * (x + norm) == p * (x + norm) + q * (x + norm);
    assert 2.2 * w * (x + norm) == 2.2 * w * x + 2.2 * w * norm;
    assert w * (2.2 * x) == 2.2 * w * x;
  }

  lemma CancelFactor(a: real, b: real, d: real)
    requires d > 0.0 && a * d == b * d
    ensures a == b
  {
  }

  /** One occurrence in a document of average length weighs exactly the idf. */
  lemma AverageDocumentWeighsIdf(idf: Idf, n: nat, df: nat, len: nat, average: real)
    requires average > 0.0 && len as real == average
    ensures TermWeight(idf, n, df, 1, len, average) == idf(n, df)
  {
    WeightSplits(idf, n, df, 1, len, average);
    assert 0.9 * len as real / average == 0.9;
  }

  ghost function LenAt(docs: map<Key, Doc>): Key -> real {
    k => if k in docs then docs[k].len as real else 0.0
  }

  ghost function Average(docs: map<Key, Doc>): real {
    if docs == map[] then 0.0 else Sum(docs.Keys, LenAt(docs)) / |docs| as real
  }

  lemma AverageNonNegative(docs: map<Key, Doc>)
    ensures Average(docs) >= 0.0
  {
    SumNonNegative(docs.Keys, LenAt(docs));
    if docs != map[] {
      var total := Sum(docs.Keys, LenAt(docs));
      assert |docs| > 0;
      assert total / |docs| as real >= 0.0;
    }
  }

  /** A query reduced to what scoring looks at: its unique tokens, its exact
      identifiers, and the boost per exact match. */
  datatype Probe = Probe(tokens: set<Token>, exacts: set<Identifier>, boost: real)

  ghost function Weights(idf: Idf, docs: map<Key, Doc>, k: Key): Token -> real {
    t => if k in docs && t in docs[k].tf
         then TermWeight(idf, |docs|, |Holders(docs, t)|, docs[k].tf[t], docs[k].len, Average(docs))
         else 0.0
  }

  ghost function Score(idf: Idf, docs: map<Key, Doc>, k: Key, p: Probe): real
    requires k in docs
  {
    Sum(p.tokens * docs[k].tf.Keys, Weights(idf, docs, k))
    + if docs[k].exacts * p.exacts != {} then p.boost else 0.0
  }

  ghost function Matching(docs: map<Key, Doc>, tokens: set<Token>): set<Key> {
    set k | k in docs && tokens * docs[k].tf.Keys != {}
  }

  /** Every document sharing a token with the query, with its full score. */
  ghost function Hits(idf: Idf, docs: map<Key, Doc>, p: Probe): map<Key, real> {
    map k | k in Matching(docs, p.tokens) :: Score(idf, docs, k, p)
  }

  lemma HitsMeaning(idf: Idf, docs: map<Key, Doc>, p: Probe)
    ensures Hits(idf, docs, p).Keys == Matching(docs, p.tokens)
    ensures forall k :: k in Matching(docs, p.tokens) ==> Hits(idf, docs, p)[k] == Score(idf, docs, k, p)
  {
    assert forall k :: k in Hits(idf, docs, p) <==> k in Matching(docs, p.tokens);
  }

  /** The code drops a hit whose score is not positive. */
  function Positive(hits: map<Key, real>): map<Key, real> {
    map k | k in hits && hits[k] > 0.0 :: hits[k]
  }

  ghost function Search(idf: Idf, docs: map<Key, Doc>, p: Probe, limit: int): seq<Scored> {
    Take(RankingOf(Positive(Hits(idf, docs, p))), limit)
  }

  lemma HoldersBounded(docs: map<Key, Doc>, t: Token)
    ensures |Holders(docs, t)| <= |docs|
  {
    SubsetSize(Holders(docs, t), docs.Keys);
  }

  lemma ScorePositive(idf: Idf, docs: map<Key, Doc>, k: Key, p: Probe)
    requires PositiveIdf(idf) && DocsConsistent(docs)
    requires k in Matching(docs, p.tokens) && p.boost >= 0.0
    ensures Score(idf, docs, k, p) > 0.0
  {
    var shared := p.tokens * docs[k].tf.Keys;
    AverageNonNegative(docs);
    forall t | t in shared ensures Weights(idf, docs, k)(t) > 0.0 {
      HoldersBounded(docs, t);
      TermWeightPositive(idf, |docs|, |Holders(docs, t)|, docs[k].tf[t], docs[k].len, Average(docs));
    }
    SumNonNegative(shared, Weights(idf, docs, k));
    var t :| t in shared;
    assert Sum(shared, Weights(idf, docs, k)) >= Weights(idf, docs, k)(t);
  }

  /** With a non-negative boost the positivity filter drops nobody: the search
      returns exactly the documents sharing a query token. */
  lemma NoHitDropped(idf: Idf, docs: map<Key, Doc>, p: Probe)
    requires PositiveIdf(idf) && DocsConsistent(docs) && p.boost >= 0.0
    ensures Positive(Hits(idf, docs, p)) == Hits(idf, docs, p)
  {
    forall k | k in Hits(idf, docs, p) ensures Hits(idf, docs, p)[k] > 0.0 {
      ScorePositive(idf, docs, k, p);
    }
  }

  /** What a search returns, read off the corpus alone: the documents sharing a
      query token, each with its full score, best first, cut at the limit. */
  lemma SearchMeaning(idf: Idf, docs: map<Key, Doc>, p: Probe, limit: nat)
    requires PositiveIdf(idf) && DocsConsistent(docs) && p.boost >= 0.0
    ensures IsTop(Search(idf, docs, p, limit), Hits(idf, docs, p), limit)
  {
    NoHitDropped(idf, docs, p);
    TopMeaning(Hits(idf, docs, p), limit);
  }

  /** A smaller limit returns a prefix of a larger one. */
  lemma SmallerLimitIsPrefix(idf: Idf, docs: map<Key, Doc>, p: Probe, small: nat, large: nat)
    requires small <= large
    ensures Search(idf, docs, p, small) <= Search(idf, docs, p, large)
  {
    TakePrefix(RankingOf(Positive(Hits(idf, docs, p))), small, large);
  }

  ghost predicate SameBoost(d: Doc, a: set<Identifier>, b: set<Identifier>) {
    d.exacts * a != {} <==> d.exacts * b != {}
  }

  /** Two probes over the same tokens find the same documents ... */
  ghost predicate SameBoosts(docs: map<Key, Doc>, tokens: set<Token>, a: set<Identifier>, b: set<Identifier>) {
    forall k :: k in Matching(docs, tokens) ==> SameBoost(docs[k], a, b)
  }

  /** ... and give the same answer at every limit exactly when no hit deserves the boost
      under one and not under the other. */
  lemma ExactsMatter(idf: Idf, docs: map<Key, Doc>, tokens: set<Token>, a: set<Identifier>, b: set<Identifier>,
                     boost: real)
    requires PositiveIdf(idf) && DocsConsistent(docs) && boost >= 0.0
    ensures (forall limit :: SameAnswer(idf, docs, tokens, a, b, boost, limit)) <==>
            boost == 0.0 || SameBoosts(docs, tokens, a, b)
  {
    if boost == 0.0 || SameBoosts(docs, tokens, a, b) {
      forall limit ensures SameAnswer(idf, docs, tokens, a, b, boost, limit) {
        SameBoostsSameAnswer(idf, docs, tokens, a, b, boost, limit);
      }
    } else {
      var all := |Hits(idf, docs, Probe(tokens, a, boost))|;
      UntruncatedTellsApart(idf, docs, tokens, a, b, boost, all);
      assert !SameAnswer(idf, docs, tokens, a, b, boost, all);
    }
  }

  ghost predicate SameAnswer(idf: Idf, docs: map<Key, Doc>, tokens: set<Token>, a: set<Identifier>,
                             b: set<Identifier>, boost: real, limit: int)
  {
    Search(idf, docs, Probe(tokens, a, boost), limit) == Search(idf, docs, Probe(tokens, b, boost), limit)
  }

  /** Whatever the limit and the sign of the boost. */
  lemma SameBoostsSameAnswer(idf: Idf, docs: map<Key, Doc>, tokens: set<Token>, a: set<Identifier>,
                             b: set<Identifier>, boost: real, limit: int)
    requires boost == 0.0 || SameBoosts(docs, tokens, a, b)
    ensures SameAnswer(idf, docs, tokens, a, b, boost, limit)
  {
    HitsCompared(idf, docs, tokens, a, b, boost);
  }

  /** An answer that is not truncated tells two such probes apart. */
  lemma UntruncatedTellsApart(idf: Idf, docs: map<Key, Doc>, tokens: set<Token>, a: set<Identifier>,
                              b: set<Identifier>, boost: real, limit: int)
    requires PositiveIdf(idf) && DocsConsistent(docs) && boost >= 0.0
    requires limit >= |Hits(idf, docs, Probe(tokens, a, boost))|
    ensures SameAnswer(idf, docs, tokens, a, b, boost, limit) <==> boost == 0.0 || SameBoosts(docs, tokens, a, b)
  {
    var p, q := Probe(tokens, a, boost), Probe(tokens, b, boost);
    var hp, hq := Hits(idf, docs, p), Hits(idf, docs, q);
    NoHitDropped(idf, docs, p);
    NoHitDropped(idf, docs, q);
    HitsCompared(idf, docs, tokens, a, b, boost);
    RankingSize(RankingOf(hp), hp);
    RankingSize(RankingOf(hq), hq);
    if RankingOf(hp) == RankingOf(hq) {
      RankingInjective(hp, hq);
    }
  }

  lemma HitsCompared(idf: Idf, docs: map<Key, Doc>, tokens: set<Token>, a: set<Identifier>, b: set<Identifier>,
                     boost: real)
    ensures |Hits(idf, docs, Probe(tokens, a, boost))| == |Hits(idf, docs, Probe(tokens, b, boost))|
    ensures Hits(idf, docs, Probe(tokens, a, boost)) == Hits(idf, docs, Probe(tokens, b, boost))
            <==> boost == 0.0 || SameBoosts(docs, tokens, a, b)
  {
    var hp, hq := Hits(idf, docs, Probe(tokens, a, boost)), Hits(idf, docs, Probe(tokens, b, boost));
    MapsCompared(hp, hq);
    if hp == hq && boost != 0.0 {
      forall k | k in Matching(docs, tokens) ensures SameBoost(docs[k], a, b) {
        assert k in hp && hp[k] == hq[k];
        ScoresCompared(idf, docs, k, tokens, a, b, boost);
      }
    }
    if boost == 0.0 || SameBoosts(docs, tokens, a, b) {
      forall k | k in hp ensures hp[k] == hq[k] {
        ScoresCompared(idf, docs, k, tokens, a, b, boost);
      }
    }
  }

  lemma MapsCompared(a: map<Key, real>, b: map<Key, real>)
    requires a.Keys == b.Keys
    ensures |a| == |b|
    ensures a == b <==> forall k :: k in a ==> a[k] == b[k]
  {
    assert |a| == |a.Keys| && |b| == |b.Keys|;
  }

  lemma ScoresCompared(idf: Idf, docs: map<Key, Doc>, k: Key, tokens: set<Token>,
                       a: set<Identifier>, b: set<Identifier>, boost: real)
    requires k in docs
    ensures Score(idf, docs, k, Probe(tokens, a, boost)) == Score(idf, docs, k, Probe(tokens, b, boost))
            <==> boost == 0.0 || SameBoost(docs[k], a, b)
  {
    var sum := Sum(tokens * docs[k].tf.Keys, Weights(idf, docs, k));
    assert Score(idf, docs, k, Probe(tokens, a, boost)) == sum + if docs[k].exacts * a != {} then boost else 0.0;
    assert Score(idf, docs, k, Probe(tokens, b, boost)) == sum + if docs[k].exacts * b != {} then boost else 0.0;
  }

  const FOOBAR := Record("doc", ["foobar"], {"FooBar"}, ["foobar"])

  ghost function FooBarDocs(): map<Key, Doc> {
    AddDoc(EMPTY, FOOBAR).docs
  }

  lemma FooBarHolds()
    ensures DocsConsistent(FooBarDocs()) && FooBarDocs().Keys == {"doc"}
    ensures "foobar" in FooBarDocs()["doc"].tf && FooBarDocs()["doc"].exacts == {"FooBar"}
  {
    EmptyConsistent();
    AddConsistent(EMPTY, FOOBAR);
    assert FOOBAR.tokens[0] == "foobar";
  }

  /** For instance, on an index holding one document with the exact identifier FooBar,
      the queries FooBar and foobar have the same tokens and deserve different answers,
      also at the default limit. */
  lemma CaseDecidesBoost(idf: Idf)
    requires PositiveIdf(idf)
    ensures !SameAnswer(idf, FooBarDocs(), {"foobar"}, {"FooBar"}, {}, 1.0, 10)
  {
    var docs, p := FooBarDocs(), Probe({"foobar"}, {"FooBar"}, 1.0);
    FooBarHolds();
    assert "foobar" in p.tokens * docs["doc"].tf.Keys && "FooBar" in docs["doc"].exacts * p.exacts;
    assert !SameBoost(docs["doc"], {"FooBar"}, {});
    AtMostAllHit(idf, docs, p);
    UntruncatedTellsApart(idf, docs, {"foobar"}, {"FooBar"}, {}, 1.0, 10);
  }

  lemma AtMostAllHit(idf: Idf, docs: map<Key, Doc>, p: Probe)
    ensures |Hits(idf, docs, p)| <= |docs.Keys|
  {
    HitsMeaning(idf, docs, p);
    SubsetSize(Matching(docs, p.tokens), docs.Keys);
    assert |Hits(idf, docs, p)| == |Hits(idf, docs, p).Keys|;
  }

  // ---------------------------------------------------------------------------
  // Scoring with given document frequencies
  // ---------------------------------------------------------------------------

  /** The document frequencies a search finds in its statistics; zero where it finds none. */
  type Counts = Token -> nat

  ghost function CountsIn(docs: map<Key, Doc>): Counts {
    t => |Holders(docs, t)|
  }

  function CountsOf(stats: map<Token, Stat>): Counts {
    t => if t in stats && stats[t].df > 0 then stats[t].df else 0
  }

  /** A token without a document frequency is passed over. */
  ghost function WeightsBy(idf: Idf, docs: map<Key, Doc>, df: Counts, k: Key): Token -> real {
    t => if k in docs && t in docs[k].tf && df(t) > 0
         then TermWeight(idf, |docs|, df(t), docs[k].tf[t], docs[k].len, Average(docs))
         else 0.0
  }

  ghost function ScoreBy(idf: Idf, docs: map<Key, Doc>, df: Counts, k: Key, p: Probe): real
    requires k in docs
  {
    Sum(p.tokens * docs[k].tf.Keys, WeightsBy(idf, docs, df, k))
    + if docs[k].exacts * p.exacts != {} then p.boost else 0.0
  }

  ghost function HitsBy(idf: Idf, docs: map<Key, Doc>, df: Counts, p: Probe): map<Key, real> {
    map k | k in Matching(docs, p.tokens) :: ScoreBy(idf, docs, df, k, p)
  }

  ghost function SearchBy(idf: Idf, docs: map<Key, Doc>, df: Counts, p: Probe, limit: int): seq<Scored> {
    Take(RankingOf(Positive(HitsBy(idf, docs, df, p))), limit)
  }

  lemma HitsByMeaning(idf: Idf, docs: map<Key, Doc>, df: Counts, p: Probe)
    ensures HitsBy(idf, docs, df, p).Keys == Matching(docs, p.tokens)
    ensures forall k :: k in Matching(docs, p.tokens) ==> HitsBy(idf, docs, df, p)[k] == ScoreBy(idf, docs, df, k, p)
  {
    assert forall k :: k in HitsBy(idf, docs, df, p) <==> k in Matching(docs, p.tokens);
  }

  lemma SameCountsSameScore(idf: Idf, docs: map<Key, Doc>, a: Counts, b: Counts, k: Key, p: Probe)
    requires k in docs && forall t :: a(t) == b(t)
    ensures ScoreBy(idf, docs, a, k, p) == ScoreBy(idf, docs, b, k, p)
  {
    SumCongruent(p.tokens * docs[k].tf.Keys, WeightsBy(idf, docs, a, k), WeightsBy(idf, docs, b, k));
  }

  lemma SameCountsSameSearch(idf: Idf, docs: map<Key, Doc>, a: Counts, b: Counts, p: Probe, limit: int)
    requires forall t :: a(t) == b(t)
    ensures SearchBy(idf, docs, a, p, limit) == SearchBy(idf, docs, b, p, limit)
  {
    var x, y := HitsBy(idf, docs, a, p), HitsBy(idf, docs, b, p);
    HitsByMeaning(idf, docs, a, p);
    HitsByMeaning(idf, docs, b, p);
    forall k | k in x ensures x[k] == y[k] {
      SameCountsSameScore(idf, docs, a, b, k, p);
    }
    MapsCompared(x, y);
  }

  lemma TrueScore(idf: Idf, docs: map<Key, Doc>, k: Key, p: Probe)
    requires k in docs
    ensures ScoreBy(idf, docs, CountsIn(docs), k, p) == Score(idf, docs, k, p)
  {
    var shared := p.tokens * docs[k].tf.Keys;
    forall t | t in shared ensures WeightsBy(idf, docs, CountsIn(docs), k)(t) == Weights(idf, docs, k)(t) {
      assert k in Holders(docs, t);
      assert |Holders(docs, t)| > 0;
    }
    SumCongruent(shared, WeightsBy(idf, docs, CountsIn(docs), k), Weights(idf, docs, k));
  }

  /** The true frequencies give the scan of the corpus. */
  lemma TrueCounts(idf: Idf, docs: map<Key, Doc>, p: Probe, limit: int)
    ensures HitsBy(idf, docs, CountsIn(docs), p) == Hits(idf, docs, p)
    ensures SearchBy(idf, docs, CountsIn(docs), p, limit) == Search(idf, docs, p, limit)
  {
    var x, y := HitsBy(idf, docs, CountsIn(docs), p), Hits(idf, docs, p);
    HitsByMeaning(idf, docs, CountsIn(docs), p);
    HitsMeaning(idf, docs, p);
    forall k | k in x ensures x[k] == y[k] {
      TrueScore(idf, docs, k, p);
    }
    MapsCompared(x, y);
  }

  /** Rarer tokens weigh more, as the source's logarithm has it. */
  ghost predicate RarerWeighsMore(idf: Idf) {
    forall n: nat, a: nat, b: nat :: a < b <= n ==> idf(n, a) > idf(n, b)
  }

  lemma WeightOrder(idf: Idf, n: nat, a: nat, b: nat, tf: nat, len: nat, average: real)
    requires idf(n, a) > idf(n, b) && tf > 0 && average >= 0.0
    ensures TermWeight(idf, n, a, tf, len, average) > TermWeight(idf, n, b, tf, len, average)
  {
    var divisor := Divisor(average);
    assert B * len as real / divisor >= 0.0;
    var denominator := tf as real + K1 * (1.0 - B + B * len as real / divisor);
    assert denominator > 0.0;
    var gain := tf as real * (K1 + 1.0);
    assert gain > 0.0;
    ScaledQuotient(idf(n, a), idf(n, b), gain, denominator);
  }

  lemma ScaledQuotient(x: real, y: real, gain: real, d: real)
    requires x > y && gain > 0.0 && d > 0.0
    ensures x * gain / d > y * gain / d
  {
    assert (x - y) * gain > 0.0;
    assert x * gain == y * gain + (x - y) * gain;
    QuotientOrder(x * gain, y * gain, d);
  }

  lemma QuotientOrder(x: real, y: real, d: real)
    requires x > y && d > 0.0
    ensures x / d > y / d
  {
  }

  lemma SumOne(t: Token, f: Token -> real)
    ensures Sum({t}, f) == f(t)
  {
    SumSplit({t}, f, t);
    assert {t} - {t} == {};
  }

  /** A query for one token, without boost. */
  function Single(t: Token): Probe {
    Probe({t}, {}, 0.0)
  }

  lemma SingleScore(idf: Idf, docs: map<Key, Doc>, df: Counts, k: Key, t: Token)
    requires k in docs && t in docs[k].tf
    ensures k in Matching(docs, {t})
    ensures ScoreBy(idf, docs, df, k, Single(t)) == WeightsBy(idf, docs, df, k)(t)
  {
    assert Single(t).tokens * docs[k].tf.Keys == {t};
    SumOne(t, WeightsBy(idf, docs, df, k));
  }

  lemma LowCountWeight(idf: Idf, docs: map<Key, Doc>, df: Counts, k: Key, t: Token)
    requires PositiveIdf(idf) && RarerWeighsMore(idf) && DocsConsistent(docs)
    requires k in Holders(docs, t) && df(t) < |Holders(docs, t)|
    ensures var low, high := WeightsBy(idf, docs, df, k)(t), WeightsBy(idf, docs, CountsIn(docs), k)(t);
            high > 0.0 && (low == 0.0 || low > high)
  {
    HoldersBounded(docs, t);
    AverageNonNegative(docs);
    var n, tf, len, average := |docs|, docs[k].tf[t], docs[k].len, Average(docs);
    TermWeightPositive(idf, n, |Holders(docs, t)|, tf, len, average);
    if df(t) > 0 {
      WeightOrder(idf, n, df(t), |Holders(docs, t)|, tf, len, average);
    }
  }

  lemma SingleHit(idf: Idf, docs: map<Key, Doc>, df: Counts, k: Key, t: Token)
    requires k in docs && t in docs[k].tf
    ensures var hits, weight := Positive(HitsBy(idf, docs, df, Single(t))), WeightsBy(idf, docs, df, k)(t);
            (k in hits <==> weight > 0.0) && (k in hits ==> hits[k] == weight)
  {
    HitsByMeaning(idf, docs, df, Single(t));
    SingleScore(idf, docs, df, k, t);
  }

  lemma LowCountHits(idf: Idf, docs: map<Key, Doc>, df: Counts, k: Key, t: Token)
    requires PositiveIdf(idf) && RarerWeighsMore(idf) && DocsConsistent(docs)
    requires k in Holders(docs, t) && df(t) < |Holders(docs, t)|
    ensures Positive(HitsBy(idf, docs, df, Single(t))) != Positive(HitsBy(idf, docs, CountsIn(docs), Single(t)))
  {
    LowCountWeight(idf, docs, df, k, t);
    SingleHit(idf, docs, df, k, t);
    SingleHit(idf, docs, CountsIn(docs), k, t);
  }

  lemma DifferentRankings(a: map<Key, real>, b: map<Key, real>)
    requires a != b
    ensures RankingOf(a) != RankingOf(b)
  {
    if RankingOf(a) == RankingOf(b) {
      RankingInjective(a, b);
    }
  }

  /** A frequency counted too low shows in the search for its token. */
  lemma LowCountShows(idf: Idf, docs: map<Key, Doc>, df: Counts, k: Key, t: Token)
    requires PositiveIdf(idf) && RarerWeighsMore(idf) && DocsConsistent(docs)
    requires k in Holders(docs, t) && df(t) < |Holders(docs, t)|
    ensures SearchBy(idf, docs, df, Single(t), |docs|) != Search(idf, docs, Single(t), |docs|)
  {
    LowCountHits(idf, docs, df, k, t);
    DifferentRankings(Positive(HitsBy(idf, docs, df, Single(t))), Positive(HitsBy(idf, docs, CountsIn(docs), Single(t))));
    TrueCounts(idf, docs, Single(t), |docs|);
    WholeRankings(idf, docs, df, Single(t));
    WholeRankings(idf, docs, CountsIn(docs), Single(t));
  }

  lemma WholeRankings(idf: Idf, docs: map<Key, Doc>, df: Counts, p: Probe)
    ensures SearchBy(idf, docs, df, p, |docs|) == RankingOf(Positive(HitsBy(idf, docs, df, p)))
  {
    var hits := Positive(HitsBy(idf, docs, df, p));
    HitsByMeaning(idf, docs, df, p);
    RankingSize(RankingOf(hits), hits);
    KeysBounded(hits, docs);
  }

  lemma KeysBounded(hits: map<Key, real>, docs: map<Key, Doc>)
    requires hits.Keys <= docs.Keys
    ensures |hits| <= |docs|
  {
    SubsetSize(hits.Keys, docs.Keys);
    assert |hits| == |hits.Keys| && |docs| == |docs.Keys|;
  }

  // ---------------------------------------------------------------------------
  // What a score is made of
  // ---------------------------------------------------------------------------

  /** The average times the number of documents is their total length. */
  lemma AverageMeaning(docs: map<Key, Doc>)
    requires docs != map[]
    ensures Average(docs) * |docs| as real == Sum(docs.Keys, LenAt(docs))
  {
    var total, n := Sum(docs.Keys, LenAt(docs)), |docs| as real;
    assert n > 0.0;
    assert total / n * n == total;
  }

  /** So among documents of one length that length is the average. */
  lemma EqualLengthsAverage(docs: map<Key, Doc>, len: nat)
    requires docs != map[] && forall k :: k in docs ==> docs[k].len == len
    ensures Average(docs) == len as real
  {
    AverageMeaning(docs);
    SumConstant(docs.Keys, LenAt(docs), len as real);
    assert |docs.Keys| == |docs|;
    CancelFactor(Average(docs), len as real, |docs| as real);
  }

  lemma AveragePositive(docs: map<Key, Doc>, k: Key)
    requires k in docs && docs[k].len > 0
    ensures Average(docs) > 0.0
  {
    SumNonNegative(docs.Keys, LenAt(docs));
    assert LenAt(docs)(k) > 0.0;
    var total, n := Sum(docs.Keys, LenAt(docs)), |docs| as real;
    assert total > 0.0 && n > 0.0;
    assert total / n > 0.0;
  }

  /** A score is the sum over its tokens, with the boost on top exactly when an exact
      identifier is shared: queries without a common token add up. */
  lemma ScoresAdd(idf: Idf, docs: map<Key, Doc>, k: Key, a: set<Token>, b: set<Token>, exacts: set<Identifier>, boost: real)
    requires k in docs && a !! b
    ensures Score(idf, docs, k, Probe(a + b, exacts, boost)) ==
            Score(idf, docs, k, Probe(a, exacts, boost)) + Score(idf, docs, k, Probe(b, {}, 0.0))
    ensures Score(idf, docs, k, Probe(a, exacts, boost)) ==
            Score(idf, docs, k, Probe(a, {}, 0.0)) +
            (if exists x :: x in exacts && x in docs[k].exacts then boost else 0.0)
  {
    var tf, w := docs[k].tf.Keys, Weights(idf, docs, k);
    assert (a + b) * tf == a * tf + b * tf;
    SumOfBoth(a * tf, b * tf, w);
    if x :| x in exacts && x in docs[k].exacts {
      assert x in docs[k].exacts * exacts;
    } else {
      assert docs[k].exacts * exacts == {};
    }
  }

  lemma {:induction false} SumOfBoth(a: set<Token>, b: set<Token>, f: Token -> real)
    requires a !! b
    ensures Sum(a + b, f) == Sum(a, f) + Sum(b, f)
    decreases |b|
  {
    if b == {} {
      assert a + b == a;
    } else {
      var t :| t in b;
      SumSplit(a + b, f, t);
      SumSplit(b, f, t);
      assert (a + b) - {t} == a + (b - {t});
      SumOfBoth(a, b - {t}, f);
    }
  }

  lemma SingleScoreIsWeight(idf: Idf, docs: map<Key, Doc>, k: Key, t: Token)
    requires k in docs
    ensures Score(idf, docs, k, Single(t)) == if t in docs[k].tf then Weights(idf, docs, k)(t) else 0.0
  {
    if t in docs[k].tf {
      assert Single(t).tokens * docs[k].tf.Keys == {t};
      SumOne(t, Weights(idf, docs, k));
    } else {
      assert Single(t).tokens * docs[k].tf.Keys == {};
    }
  }

  /** A document of average length that holds the token once scores exactly the idf of the
      corpus size and the number of its holders. */
  lemma AverageDocumentScoresIdf(idf: Idf, docs: map<Key, Doc>, k: Key, t: Token)
    requires k in Holders(docs, t) && docs[k].tf[t] == 1 && docs[k].len as real == Average(docs) > 0.0
    ensures Score(idf, docs, k, Single(t)) == idf(|docs|, |Holders(docs, t)|)
  {
    SingleScoreIsWeight(idf, docs, k, t);
    AverageDocumentWeighsIdf(idf, |docs|, |Holders(docs, t)|, docs[k].len, Average(docs));
  }

  lemma ShorterScoresMore(idf: Idf, docs: map<Key, Doc>, t: Token, a: Key, b: Key)
    requires PositiveIdf(idf) && DocsConsistent(docs) && a in Holders(docs, t) && b in Holders(docs, t)
    requires docs[a].tf[t] == docs[b].tf[t] && docs[a].len < docs[b].len
    ensures Score(idf, docs, a, Single(t)) > Score(idf, docs, b, Single(t)) > 0.0
  {
    SingleScoreIsWeight(idf, docs, a, t);
    SingleScoreIsWeight(idf, docs, b, t);
    HoldersBounded(docs, t);
    AveragePositive(docs, b);
    LongerWeighsLess(idf, |docs|, |Holders(docs, t)|, docs[a].tf[t], docs[a].len, docs[b].len, Average(docs));
    TermWeightPositive(idf, |docs|, |Holders(docs, t)|, docs[b].tf[t], docs[b].len, Average(docs));
  }

  /** Of two hits for one token, as often in both, the shorter document comes first. */
  lemma ShorterFirst(idf: Idf, docs: map<Key, Doc>, t: Token, a: Key, b: Key, limit: int, j: nat)
    requires PositiveIdf(idf) && DocsConsistent(docs) && a in Holders(docs, t) && b in Holders(docs, t)
    requires docs[a].tf[t] == docs[b].tf[t] && docs[a].len < docs[b].len
    requires j < |Search(idf, docs, Single(t), limit)| && Search(idf, docs, Single(t), limit)[j].key == b
    ensures exists i :: 0 <= i < j && Search(idf, docs, Single(t), limit)[i].key == a
  {
    var hits := Positive(Hits(idf, docs, Single(t)));
    ShorterScoresMore(idf, docs, t, a, b);
    HolderHits(idf, docs, t, a);
    HolderHits(idf, docs, t, b);
    HigherTakenFirst(hits, limit, a, b, j);
  }

  lemma HigherTakenFirst(hits: map<Key, real>, limit: int, a: Key, b: Key, j: nat)
    requires a in hits && b in hits && hits[a] > hits[b]
    requires j < |Take(RankingOf(hits), limit)| && Take(RankingOf(hits), limit)[j].key == b
    ensures exists i :: 0 <= i < j && Take(RankingOf(hits), limit)[i].key == a
  {
    HigherFirst(RankingOf(hits), hits, a, b, j);
    TakenInOrder(RankingOf(hits), limit, j, a);
  }

  lemma TakenInOrder(s: seq<Scored>, limit: int, j: nat, a: Key)
    requires j < |Take(s, limit)| && exists i :: 0 <= i < j && s[i].key == a
    ensures exists i :: 0 <= i < j && Take(s, limit)[i].key == a
  {
    var i :| 0 <= i < j && s[i].key == a;
    assert Take(s, limit)[i] == s[i];
  }

  lemma HolderHits(idf: Idf, docs: map<Key, Doc>, t: Token, k: Key)
    requires k in Holders(docs, t) && Score(idf, docs, k, Single(t)) > 0.0
    ensures var hits := Positive(Hits(idf, docs, Single(t))); k in hits && hits[k] == Score(idf, docs, k, Single(t))
  {
    assert t in Single(t).tokens * docs[k].tf.Keys;
    HitsMeaning(idf, docs, Single(t));
  }

  lemma HigherFirst(s: seq<Scored>, hits: map<Key, real>, a: Key, b: Key, j: nat)
    requires IsRankingOf(s, hits) && a in hits && b in hits && hits[a] > hits[b]
    requires j < |s| && s[j].key == b
    ensures exists i :: 0 <= i < j && s[i].key == a
  {
    assert s[j] in s;
    EntryListed(s, hits, a);
    var i :| 0 <= i < |s| && s[i] == Scored(a, hits[a]);
    RankedAt(s, j, i);
  }

  lemma RankedAt(s: seq<Scored>, i: nat, j: nat)
    requires Ranked(s) && i < |s| && j < |s|
    ensures i < j ==> Before(s[i], s[j])
  {
  }
}
