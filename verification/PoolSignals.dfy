/** Which signal is which: what every part of a pool score comes from, and what weight it
    carries. */
module PoolSignals {
  import opened Options
  import opened Ordering
  import opened Tuning
  import opened PoolRanking
  import opened PoolProperties

  // ---------------------------------------------------------------------------
  // The blend
  // ---------------------------------------------------------------------------

  /** The five signals of a ranked candidate. */
  datatype Signals = Signals(rrf: real, vector: real, lexical: real, importance: real, recency: real)

  const SILENT := Signals(0.0, 0.0, 0.0, 0.0, 0.0)

  ghost predicate HasSignals(b: Band, t: Tuning, f: Features, k: Key, s: Signals) {
    && k in Base(b)
    && s.rrf == Rrf(b, t, k) && s.vector == Vector(b, k) && s.lexical == Lexical(b, t, k, f.exact(Base(b)[k]))
    && s.importance == Base(b)[k].importance && s.recency == f.recency(Base(b)[k])
  }

  /** Candidates that differ in one signal alone differ in score by that signal's weight
      times the difference; without any signal the score is zero. */
  lemma EachSignalItsWeight(b: Band, t: Tuning, f: Features, x: Key, y: Key, p: Signals, q: Signals)
    requires HasSignals(b, t, f, x, p) && HasSignals(b, t, f, y, q)
    ensures p.(rrf := q.rrf) == q ==> Score(b, t, f, x) - Score(b, t, f, y) == t.finalRrf * (p.rrf - q.rrf)
    ensures p.(vector := q.vector) == q ==> Score(b, t, f, x) - Score(b, t, f, y) == t.finalVector * (p.vector - q.vector)
    ensures p.(lexical := q.lexical) == q ==>
              Score(b, t, f, x) - Score(b, t, f, y) == t.finalLexical * (p.lexical - q.lexical)
    ensures p.(importance := q.importance) == q ==>
              Score(b, t, f, x) - Score(b, t, f, y) == t.importance * (p.importance - q.importance)
    ensures p.(recency := q.recency) == q ==> Score(b, t, f, x) - Score(b, t, f, y) == t.recency * (p.recency - q.recency)
    ensures p == SILENT ==> Score(b, t, f, x) == 0.0
  {
    BlendDifference(t, p, q);
    if p == SILENT {
      SilentBlend(t);
    }
  }

  function BlendOf(t: Tuning, s: Signals): real {
    Blend(t, s.rrf, s.vector, s.lexical, s.importance, s.recency)
  }

  lemma BlendDifference(t: Tuning, p: Signals, q: Signals)
    ensures p.(rrf := q.rrf) == q ==> BlendOf(t, p) - BlendOf(t, q) == t.finalRrf * (p.rrf - q.rrf)
    ensures p.(vector := q.vector) == q ==> BlendOf(t, p) - BlendOf(t, q) == t.finalVector * (p.vector - q.vector)
    ensures p.(lexical := q.lexical) == q ==> BlendOf(t, p) - BlendOf(t, q) == t.finalLexical * (p.lexical - q.lexical)
    ensures p.(importance := q.importance) == q ==>
              BlendOf(t, p) - BlendOf(t, q) == t.importance * (p.importance - q.importance)
    ensures p.(recency := q.recency) == q ==> BlendOf(t, p) - BlendOf(t, q) == t.recency * (p.recency - q.recency)
  {
    Difference(t.finalRrf, p.rrf, q.rrf);
    Difference(t.finalVector, p.vector, q.vector);
    Difference(t.finalLexical, p.lexical, q.lexical);
    Difference(t.importance, p.importance, q.importance);
    Difference(t.recency, p.recency, q.recency);
  }

  lemma SilentBlend(t: Tuning)
    ensures BlendOf(t, SILENT) == 0.0
  {
    ZeroProduct(t.finalRrf);
    ZeroProduct(t.finalVector);
    ZeroProduct(t.finalLexical);
    ZeroProduct(t.importance);
    ZeroProduct(t.recency);
    ZeroProduct(t.feedback);
  }

  lemma ZeroProduct(w: real)
    ensures w * 0.0 == 0.0
  {
  }

  lemma Difference(w: real, x: real, y: real)
    ensures w * (x - y) == w * x - w * y
  {
  }

  // ---------------------------------------------------------------------------
  // Fusion
  // ---------------------------------------------------------------------------

  /** `i` is the last place of the channel that holds `k`. */
  ghost predicate LastPlace(channel: seq<Candidate>, k: Key, i: int) {
    0 <= i < |channel| && channel[i].key == k && forall j :: i < j < |channel| ==> channel[j].key != k
  }

  lemma {:induction false} RanksMeaning(channel: seq<Candidate>)
    ensures Ranks(channel).Keys == Keys(channel)
    ensures forall k, i :: LastPlace(channel, k, i) ==> k in Ranks(channel) && Ranks(channel)[k] == i + 1
    decreases |channel|
  {
    if channel != [] {
      var n := |channel| - 1;
      RanksMeaning(channel[..n]);
      KeysMore(channel);
      forall k, i | LastPlace(channel, k, i) ensures k in Ranks(channel) && Ranks(channel)[k] == i + 1 {
        if i < n {
          assert LastPlace(channel[..n], k, i);
          assert channel[n].key != k;
        }
      }
    }
  }

  /** A channel gives its weight over the constant plus the rank, and nothing to a key it
      does not hold. */
  lemma ShareMeaning(channel: seq<Candidate>, weight: real, rrfK: int, k: Key, i: int)
    requires rrfK >= 0
    ensures LastPlace(channel, k, i) ==> Share(channel, weight, rrfK, k) == weight / (rrfK + i + 1) as real
    ensures k !in Keys(channel) ==> Share(channel, weight, rrfK, k) == 0.0
  {
    RanksMeaning(channel);
  }

  /** Fusion before normalisation: the dense channel counts with the dense weight, the
      lexical one with the lexical weight, and a key both hold gets both. */
  lemma FusionMeaning(b: Band, t: Tuning, k: Key, i: int, j: int)
    requires t.rrfK >= 0
    ensures LastPlace(b.dense, k, i) && k !in Keys(b.lexical) ==>
              RawRrf(b, t, k) == t.rrfDense / (t.rrfK + i + 1) as real
    ensures LastPlace(b.lexical, k, j) && k !in Keys(b.dense) ==>
              RawRrf(b, t, k) == t.rrfLexical / (t.rrfK + j + 1) as real
    ensures LastPlace(b.dense, k, i) && LastPlace(b.lexical, k, j) ==>
              RawRrf(b, t, k) == t.rrfDense / (t.rrfK + i + 1) as real + t.rrfLexical / (t.rrfK + j + 1) as real
  {
    ShareMeaning(b.dense, t.rrfDense, t.rrfK, k, i);
    ShareMeaning(b.lexical, t.rrfLexical, t.rrfK, k, j);
  }

  /** Normalised fusion is raw fusion in units of the same maximum for every key ... */
  lemma FusionKeepsRatios(b: Band, t: Tuning, k: Key)
    ensures MaxRrf(t) > 0.0 ==> Rrf(b, t, k) * MaxRrf(t) == RawRrf(b, t, k)
    ensures MaxRrf(t) <= 0.0 ==> Rrf(b, t, k) == 0.0
  {
    if MaxRrf(t) > 0.0 {
      QuotientTimes(RawRrf(b, t, k), MaxRrf(t));
    }
  }

  lemma QuotientTimes(x: real, y: real)
    requires y > 0.0
    ensures x / y * y == x
  {
  }

  /** ... and is one for the key that both channels rank first. */
  lemma FirstInBothIsOne(b: Band, t: Tuning, x: Key)
    requires t.rrfK >= 1 && t.rrfDense + t.rrfLexical > 0.0
    requires LastPlace(b.dense, x, 0) && LastPlace(b.lexical, x, 0)
    ensures Rrf(b, t, x) == 1.0
  {
    FusionMeaning(b, t, x, 0, 0);
    MaxRrfShares(t);
    QuotientPositive(t.rrfDense + t.rrfLexical, (t.rrfK + 1) as real);
    SelfQuotient(MaxRrf(t));
  }

  lemma QuotientPositive(x: real, y: real)
    requires x > 0.0 && y > 0.0
    ensures x / y > 0.0
  {
  }

  lemma SelfQuotient(x: real)
    requires x > 0.0
    ensures x / x == 1.0
  {
  }

  // ---------------------------------------------------------------------------
  // Calibration
  // ---------------------------------------------------------------------------

  ghost predicate DistinctKeys(channel: seq<Candidate>) {
    forall i, j :: 0 <= i < j < |channel| ==> channel[i].key != channel[j].key
  }

  /** `lo` and `hi` are the lowest and the highest score in the channel. */
  ghost predicate Spans(channel: seq<Candidate>, of: Channel, lo: real, hi: real) {
    && (exists i :: 0 <= i < |channel| && of(channel[i]) == Some(lo))
    && (exists i :: 0 <= i < |channel| && of(channel[i]) == Some(hi))
    && forall i :: 0 <= i < |channel| && of(channel[i]).Some? ==> lo <= of(channel[i]).value <= hi
  }

  lemma {:induction false} ScoresMeaning(channel: seq<Candidate>, of: Channel)
    ensures forall x :: x in Scores(channel, of) <==> exists i :: 0 <= i < |channel| && of(channel[i]) == Some(x)
    decreases |channel|
  {
    if channel != [] {
      var n := |channel| - 1;
      ScoresMeaning(channel[..n], of);
      forall x ensures x in Scores(channel, of) <==> exists i :: 0 <= i < |channel| && of(channel[i]) == Some(x) {
        if x in Scores(channel[..n], of) {
          var i :| 0 <= i < n && of(channel[..n][i]) == Some(x);
          assert of(channel[i]) == Some(x);
        }
        if i :| 0 <= i < n && of(channel[i]) == Some(x) {
          assert of(channel[..n][i]) == Some(x);
        }
      }
    }
  }

  lemma {:induction false} ExtremesMeaning(s: seq<real>)
    requires s != []
    ensures Least(s) in s && Greatest(s) in s
    ensures forall x :: x in s ==> Least(s) <= x <= Greatest(s)
    decreases |s|
  {
    var n := |s| - 1;
    assert s == s[..n] + [s[n]];
    if n > 0 {
      ExtremesMeaning(s[..n]);
    }
  }

  lemma SpanUnique(channel: seq<Candidate>, of: Channel, lo: real, hi: real)
    requires Spans(channel, of, lo, hi)
    ensures var s := Scores(channel, of); s != [] && Least(s) == lo && Greatest(s) == hi
  {
    var s := Scores(channel, of);
    ScoresMeaning(channel, of);
    assert lo in s && hi in s;
    ExtremesMeaning(s);
    var i :| 0 <= i < |channel| && of(channel[i]) == Some(Least(s));
    var j :| 0 <= j < |channel| && of(channel[j]) == Some(Greatest(s));
  }

  lemma {:induction false} CalibratedInPlace(channel: seq<Candidate>, of: Channel, lo: real, hi: real, i: nat)
    requires DistinctKeys(channel) && i < |channel|
    ensures Get(CalibrateWithin(channel, of, lo, hi), channel[i].key) ==
            if of(channel[i]).Some? then Calibrated(of(channel[i]).value, lo, hi) else 0.0
    decreases |channel|
  {
    var n := |channel| - 1;
    if i == n {
      forall j: nat ensures !HoldsAt(channel[..n], channel[n].key, j) {
        assert j < n ==> channel[..n][j] == channel[j];
      }
      AbsentUncalibrated(channel[..n], of, lo, hi, channel[n].key);
    } else {
      CalibratedInPlace(channel[..n], of, lo, hi, i);
      assert channel[..n][i] == channel[i];
      assert channel[i].key != channel[n].key;
    }
  }

  /** A scored candidate calibrates to one in a narrow span, and otherwise to its place
      between the lowest score, which gives zero, and the highest, which gives one. */
  lemma CalibrationMeaning(channel: seq<Candidate>, of: Channel, lo: real, hi: real, i: nat)
    requires DistinctKeys(channel) && Spans(channel, of, lo, hi) && i < |channel|
    ensures var x := Get(Calibrate(channel, of), channel[i].key);
            && (of(channel[i]).None? ==> x == 0.0)
            && (of(channel[i]).Some? && hi - lo <= 0.000000001 ==> x == 1.0)
            && (of(channel[i]).Some? && hi - lo > 0.000000001 ==>
                  x * (hi - lo) == of(channel[i]).value - lo
                  && (of(channel[i]).value == lo ==> x == 0.0) && (of(channel[i]).value == hi ==> x == 1.0))
  {
    SpanUnique(channel, of, lo, hi);
    CalibratedInPlace(channel, of, lo, hi, i);
    if of(channel[i]).Some? && hi - lo > 0.000000001 {
      PlaceBetween(of(channel[i]).value, lo, hi);
    }
  }

  lemma PlaceBetween(x: real, lo: real, hi: real)
    requires lo <= x <= hi && hi - lo > 0.000000001
    ensures Calibrated(x, lo, hi) * (hi - lo) == x - lo
    ensures (x == lo ==> Calibrated(x, lo, hi) == 0.0) && (x == hi ==> Calibrated(x, lo, hi) == 1.0)
  {
    QuotientUnit(x - lo, hi - lo);
    if x == hi { SelfQuotient(hi - lo); }
  }

  lemma QuotientUnit(x: real, y: real)
    requires 0.0 <= x <= y && y > 0.0
    ensures 0.0 <= x / y <= 1.0 && x / y * y == x
  {
    DivideUnit(x, y);
  }

  /** The vector signal reads the dense channel and dense scores, the lexical one the
      lexical channel and lexical scores; a key its channel does not hold has none. */
  lemma SignalsReadTheirChannel(b: Band, t: Tuning, i: nat, lo: real, hi: real)
    requires hi - lo > 0.000000001
    ensures DistinctKeys(b.dense) && i < |b.dense| && b.dense[i].dense.Some? && Spans(b.dense, DENSE, lo, hi) ==>
              Vector(b, b.dense[i].key) * (hi - lo) == b.dense[i].dense.value - lo
    ensures DistinctKeys(b.lexical) && i < |b.lexical| && b.lexical[i].lexical.Some? && Spans(b.lexical, LEXICAL, lo, hi) ==>
              Lexical(b, t, b.lexical[i].key, false) * (hi - lo) == b.lexical[i].lexical.value - lo
  {
    if DistinctKeys(b.dense) && i < |b.dense| && Spans(b.dense, DENSE, lo, hi) {
      CalibrationMeaning(b.dense, DENSE, lo, hi, i);
    }
    if DistinctKeys(b.lexical) && i < |b.lexical| && Spans(b.lexical, LEXICAL, lo, hi) {
      CalibrationMeaning(b.lexical, LEXICAL, lo, hi, i);
    }
  }

  lemma AbsentHasNoSignal(b: Band, t: Tuning, k: Key)
    ensures k !in Keys(b.dense) ==> Vector(b, k) == 0.0
    ensures k !in Keys(b.lexical) ==> Lexical(b, t, k, false) == 0.0
  {
    if k !in Keys(b.dense) { AbsentFromChannel(b.dense, DENSE, k); }
    if k !in Keys(b.lexical) { AbsentFromChannel(b.lexical, LEXICAL, k); }
  }

  lemma AbsentFromChannel(channel: seq<Candidate>, of: Channel, k: Key)
    requires k !in Keys(channel)
    ensures Get(Calibrate(channel, of), k) == 0.0
  {
    forall j: nat ensures !HoldsAt(channel, k, j) {
      assert 0 <= j < |channel| ==> channel[j] in channel;
    }
    var s := Scores(channel, of);
    if s != [] {
      AbsentUncalibrated(channel, of, Least(s), Greatest(s), k);
    }
  }

  /** An exact match adds a fiftieth of the boost to the lexical signal, up to one. */
  lemma ExactMatchBoost(b: Band, t: Tuning, k: Key)
    ensures var plain, exact := Lexical(b, t, k, false), Lexical(b, t, k, true);
            && (plain + t.exactBoost / 50.0 <= 1.0 ==> exact == plain + t.exactBoost / 50.0)
            && (plain + t.exactBoost / 50.0 > 1.0 ==> exact == 1.0)
  {
  }

  // ---------------------------------------------------------------------------
  // Who is ranked
  // ---------------------------------------------------------------------------

  ghost predicate AmongFirst(channel: seq<Candidate>, n: int, k: Key) {
    exists i :: 0 <= i < |channel| && i < n && channel[i].key == k
  }

  lemma FirstOnes(channel: seq<Candidate>, n: int, k: Key)
    ensures k in Keys(Take(channel, AtLeastOne(n))) <==> AmongFirst(channel, if n < 1 then 1 else n, k)
  {
    var cut := Take(channel, AtLeastOne(n));
    if k in Keys(cut) {
      var c :| c in cut && c.key == k;
      var i :| 0 <= i < |cut| && cut[i] == c;
      assert channel[i].key == k;
    }
    if AmongFirst(channel, if n < 1 then 1 else n, k) {
      var i :| 0 <= i < |channel| && i < AtLeastOne(n) && channel[i].key == k;
      assert cut[i] == channel[i] && cut[i] in cut;
    }
  }

  /** A band ranks the candidates among the first `dense_k` of its dense channel and the
      first `lexical_k` of its lexical one, at least one of each. */
  lemma RanksTheFirst(b: Band, t: Tuning, f: Features, k: Key)
    ensures (exists x :: x in RankBand(b, t, f) && x.key == k) <==>
            AmongFirst(b.dense, if t.denseK < 1 then 1 else t.denseK, k)
            || AmongFirst(b.lexical, if t.lexicalK < 1 then 1 else t.lexicalK, k)
  {
    var table := ScoreTable(Cut(b, t), t, f);
    FirstOnes(b.dense, t.denseK, k);
    FirstOnes(b.lexical, t.lexicalK, k);
    BaseMeaning(Cut(b, t));
    assert k in table <==> k in Base(Cut(b, t));
    if k in table {
      EntryListed(RankBand(b, t, f), table, k);
    }
  }

  /** A superseded hit keeps its own score when that is below the lowest active one by the
      margin of a thousandth, and is lowered to it otherwise. */
  lemma ShownScores(active: seq<Scored>, table: map<Key, real>, fallbackMin: int, y: Scored)
    requires Ranked(active) && y in Fallback(active, table, fallbackMin)
    ensures y.key in table
    ensures active == [] ==> y.score == table[y.key]
    ensures active != [] ==>
              var floor := active[|active| - 1].score - 0.001;
              (table[y.key] <= floor ==> y.score == table[y.key]) && (table[y.key] > floor ==> y.score == floor)
  {
  }
}
