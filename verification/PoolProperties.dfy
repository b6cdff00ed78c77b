/** What the pool ranker's scores mean: every channel stays in [0, 1], the blend in
    [0, 2], and a candidate that is at least as good on every signal is never ranked
    below another, except for a tie that falls to key order. */
module PoolProperties {
  import opened Options
  import opened Ordering
  import opened Tuning
  import opened PoolRanking
  import opened CandidateGeneration
  import opened PolicyLifecycle

  predicate Unit(x: real) {
    0.0 <= x <= 1.0
  }

  // ---------------------------------------------------------------------------
  // Ranges
  // ---------------------------------------------------------------------------

  lemma {:induction false} CalibrateWithinUnit(channel: seq<Candidate>, of: Channel, lo: real, hi: real)
    ensures forall k :: k in CalibrateWithin(channel, of, lo, hi) ==> Unit(CalibrateWithin(channel, of, lo, hi)[k])
    decreases |channel|
  {
    if channel != [] {
      CalibrateWithinUnit(channel[..|channel| - 1], of, lo, hi);
    }
  }

  lemma CalibrateUnit(channel: seq<Candidate>, of: Channel, k: Key)
    ensures Unit(Get(Calibrate(channel, of), k))
  {
    var s := Scores(channel, of);
    if s != [] {
      CalibrateWithinUnit(channel, of, Least(s), Greatest(s));
    }
  }

  lemma {:induction false} RanksPositive(channel: seq<Candidate>)
    ensures forall k :: k in Ranks(channel) ==> 1 <= Ranks(channel)[k] <= |channel|
    decreases |channel|
  {
    if channel != [] {
      RanksPositive(channel[..|channel| - 1]);
    }
  }

  lemma ReciprocalShrinks(weight: real, k: int, r: nat, s: nat)
    requires weight >= 0.0 && k >= 0 && 1 <= r <= s
    ensures 0.0 <= Reciprocal(weight, k, s) <= Reciprocal(weight, k, r)
  {
    var x, y := (k + r) as real, (k + s) as real;
    DivideMonotone(weight, x, y);
  }

  lemma DivideMonotone(w: real, x: real, y: real)
    requires w >= 0.0 && 0.0 < x <= y
    ensures 0.0 <= w / y <= w / x
  {
    var q := w / y;
    assert q * y == w;
    LessProduct(q, 0.0, y);
    assert q * x <= q * y;
    DivideOrder(w, q * x, x);
    assert q * x / x == q;
  }

  lemma ShareBounded(channel: seq<Candidate>, weight: real, rrfK: int, k: Key)
    requires weight >= 0.0 && rrfK >= 1
    ensures 0.0 <= Share(channel, weight, rrfK, k) <= Reciprocal(weight, rrfK, 1)
  {
    RanksPositive(channel);
    ReciprocalShrinks(weight, rrfK, 1, if k in Ranks(channel) then Ranks(channel)[k] else 1);
  }

  lemma MaxRrfShares(t: Tuning)
    requires t.rrfK >= 1
    ensures MaxRrf(t) == Reciprocal(t.rrfDense, t.rrfK, 1) + Reciprocal(t.rrfLexical, t.rrfK, 1)
  {
  }

  /** Normalised fusion never exceeds one: its maximum is rank one in both channels. */
  lemma RrfUnit(b: Band, t: Tuning, k: Key)
    requires t.rrfDense >= 0.0 && t.rrfLexical >= 0.0 && t.rrfK >= 1
    ensures Unit(Rrf(b, t, k))
  {
    ShareBounded(b.dense, t.rrfDense, t.rrfK, k);
    ShareBounded(b.lexical, t.rrfLexical, t.rrfK, k);
    MaxRrfShares(t);
    if MaxRrf(t) > 0.0 {
      DivideUnit(RawRrf(b, t, k), MaxRrf(t));
    }
  }

  lemma DivideUnit(x: real, y: real)
    requires 0.0 <= x <= y && y > 0.0
    ensures Unit(x / y)
  {
  }

  lemma WeightedBounded(w1: real, w2: real, w3: real, x: real, y: real, z: real)
    requires w1 >= 0.0 && w2 >= 0.0 && w3 >= 0.0 && Unit(x) && Unit(y) && Unit(z)
    ensures 0.0 <= w1 * x + w2 * y + w3 * z <= w1 + w2 + w3
  {
    ScaledUnit(w1, x);
    ScaledUnit(w2, y);
    ScaledUnit(w3, z);
    AddThree(w1 * x, w2 * y, w3 * z, w1, w2, w3);
  }

  lemma AddThree(p: real, q: real, r: real, w1: real, w2: real, w3: real)
    requires 0.0 <= p <= w1 && 0.0 <= q <= w2 && 0.0 <= r <= w3
    ensures 0.0 <= p + q + r <= w1 + w2 + w3
  {
  }

  lemma LessProduct(a: real, b: real, d: real)
    requires d > 0.0
    ensures a < b ==> a * d < b * d
  {
  }

  lemma DivideOrder(x: real, y: real, d: real)
    requires x >= y && d > 0.0
    ensures x / d >= y / d
  {
    var q, r := x / d, y / d;
    assert q * d == x && r * d == y;
    LessProduct(q, r, d);
  }

  lemma ScaledUnit(w: real, x: real)
    requires w >= 0.0 && Unit(x)
    ensures 0.0 <= w * x <= w
  {
    assert w * x <= w * 1.0;
  }

  /** Under a policy whose weight groups each sum to one, as every generated candidate's
      do, a score before the fallback clamp lies in [0, 2]. */
  lemma ScoreRange(b: Band, t: Tuning, f: Features, k: Key)
    requires UnitSums(t) && InBounds(t) && k in Base(b)
    requires Unit(Base(b)[k].importance) && Unit(f.recency(Base(b)[k]))
    ensures Unit(Rrf(b, t, k)) && Unit(Vector(b, k)) && Unit(Lexical(b, t, k, f.exact(Base(b)[k])))
    ensures 0.0 <= Score(b, t, f, k) <= 2.0
  {
    var c := Base(b)[k];
    RrfUnit(b, t, k);
    CalibrateUnit(b.dense, DENSE, k);
    CalibrateUnit(b.lexical, LEXICAL, k);
    BlendRange(t, Rrf(b, t, k), Vector(b, k), Lexical(b, t, k, f.exact(c)), c.importance, f.recency(c));
  }

  lemma BlendBounded(t: Tuning, rrf: real, vector: real, lexical: real, importance: real, recency: real)
    requires InBounds(t) && Unit(rrf) && Unit(vector) && Unit(lexical) && Unit(importance) && Unit(recency)
    ensures 0.0 <= Blend(t, rrf, vector, lexical, importance, recency)
                <= t.finalRrf + t.finalVector + t.finalLexical + t.importance + t.recency + t.feedback
  {
    WeightedBounded(t.finalRrf, t.finalVector, t.finalLexical, rrf, vector, lexical);
    WeightedBounded(t.importance, t.recency, t.feedback, importance, recency, 0.0);
  }

  lemma BlendRange(t: Tuning, rrf: real, vector: real, lexical: real, importance: real, recency: real)
    requires UnitSums(t) && InBounds(t) && Unit(rrf) && Unit(vector) && Unit(lexical) && Unit(importance) && Unit(recency)
    ensures 0.0 <= Blend(t, rrf, vector, lexical, importance, recency) <= 2.0
  {
    BlendBounded(t, rrf, vector, lexical, importance, recency);
  }

  /** In particular under every policy that candidate generation produces. */
  lemma GeneratedScoreRange(candidates: seq<Policy>, active: Policy, maxDelta: real, draw: nat -> int,
                            i: nat, b: Band, f: Features, k: Key)
    requires Generated(candidates, active, maxDelta, draw) && i < |candidates|
    requires k in Base(b) && Unit(Base(b)[k].importance) && Unit(f.recency(Base(b)[k]))
    ensures 0.0 <= Score(b, candidates[i].tuning, f, k) <= 2.0
  {
    GeneratedAreUnit(candidates, active, maxDelta, draw);
    assert candidates[i] in candidates;
    ScoreRange(b, candidates[i].tuning, f, k);
  }

  // ---------------------------------------------------------------------------
  // Dominance
  // ---------------------------------------------------------------------------

  /** A channel as a search returns it: no key twice, best score first. */
  ghost predicate Orderly(channel: seq<Candidate>, of: Channel) {
    forall i, j :: 0 <= i < j < |channel| ==>
      && channel[i].key != channel[j].key
      && (of(channel[j]).Some? ==> of(channel[i]).Some? && of(channel[i]).value >= of(channel[j]).value)
  }

  ghost predicate HoldsAt(channel: seq<Candidate>, k: Key, i: nat) {
    i < |channel| && channel[i].key == k
  }

  /** Where the channel holds `b`, it holds `a` higher up. */
  ghost predicate Outranks(channel: seq<Candidate>, a: Key, b: Key) {
    forall j: nat :: HoldsAt(channel, b, j) ==> exists i: nat :: i < j && HoldsAt(channel, a, i)
  }

  lemma {:induction false} RankAt(channel: seq<Candidate>, of: Channel, i: nat)
    requires Orderly(channel, of) && i < |channel|
    ensures channel[i].key in Ranks(channel) && Ranks(channel)[channel[i].key] == i + 1
    decreases |channel|
  {
    if i < |channel| - 1 {
      RankAt(channel[..|channel| - 1], of, i);
    }
  }

  lemma {:induction false} RankedMeansHeld(channel: seq<Candidate>, k: Key)
    requires k in Ranks(channel)
    ensures exists i :: HoldsAt(channel, k, i)
    decreases |channel|
  {
    var n := |channel| - 1;
    if channel[n].key == k {
      assert HoldsAt(channel, k, n);
    } else {
      RankedMeansHeld(channel[..n], k);
      var i :| HoldsAt(channel[..n], k, i);
      assert HoldsAt(channel, k, i);
    }
  }

  lemma {:induction false} CalibratedAt(channel: seq<Candidate>, of: Channel, lo: real, hi: real, i: nat)
    requires Orderly(channel, of) && i < |channel|
    ensures var m := CalibrateWithin(channel, of, lo, hi);
            Get(m, channel[i].key) ==
            if of(channel[i]).Some? then Calibrated(of(channel[i]).value, lo, hi) else 0.0
    decreases |channel|
  {
    var n := |channel| - 1;
    if i < n {
      CalibratedAt(channel[..n], of, lo, hi, i);
    } else if of(channel[n]).None? {
      AbsentUncalibrated(channel[..n], of, lo, hi, channel[n].key);
    }
  }

  lemma {:induction false} AbsentUncalibrated(channel: seq<Candidate>, of: Channel, lo: real, hi: real, k: Key)
    requires forall i :: !HoldsAt(channel, k, i)
    ensures k !in CalibrateWithin(channel, of, lo, hi)
    decreases |channel|
  {
    if channel != [] {
      var n := |channel| - 1;
      assert !HoldsAt(channel, k, n);
      forall i ensures !HoldsAt(channel[..n], k, i) {
        assert !HoldsAt(channel, k, i);
      }
      AbsentUncalibrated(channel[..n], of, lo, hi, k);
    }
  }

  lemma CalibratedMonotone(x: real, y: real, lo: real, hi: real)
    requires x >= y
    ensures Calibrated(x, lo, hi) >= Calibrated(y, lo, hi)
  {
    if hi - lo > 0.000000001 {
      DivideOrder(x - lo, y - lo, hi - lo);
    }
  }

  lemma CalibrateDominates(channel: seq<Candidate>, of: Channel, a: Key, b: Key)
    requires Orderly(channel, of) && Outranks(channel, a, b)
    ensures Get(Calibrate(channel, of), a) >= Get(Calibrate(channel, of), b)
  {
    CalibrateUnit(channel, of, a);
    var s := Scores(channel, of);
    if s != [] {
      var lo, hi := Least(s), Greatest(s);
      if j: nat :| HoldsAt(channel, b, j) {
        var i: nat :| i < j && HoldsAt(channel, a, i);
        CalibratedAt(channel, of, lo, hi, i);
        CalibratedAt(channel, of, lo, hi, j);
        if of(channel[j]).Some? {
          CalibratedMonotone(of(channel[i]).value, of(channel[j]).value, lo, hi);
        }
      } else {
        AbsentUncalibrated(channel, of, lo, hi, b);
      }
    }
  }

  lemma RanksDominate(channel: seq<Candidate>, of: Channel, weight: real, rrfK: int, a: Key, b: Key)
    requires Orderly(channel, of) && Outranks(channel, a, b) && weight >= 0.0 && rrfK >= 1
    ensures (if a in Ranks(channel) then Reciprocal(weight, rrfK, Ranks(channel)[a]) else 0.0) >=
            (if b in Ranks(channel) then Reciprocal(weight, rrfK, Ranks(channel)[b]) else 0.0)
  {
    RanksPositive(channel);
    if b in Ranks(channel) {
      RankedMeansHeld(channel, b);
      var j: nat :| HoldsAt(channel, b, j);
      var i: nat :| i < j && HoldsAt(channel, a, i);
      RankAt(channel, of, i);
      RankAt(channel, of, j);
      ReciprocalShrinks(weight, rrfK, i + 1, j + 1);
    } else if a in Ranks(channel) {
      ReciprocalShrinks(weight, rrfK, Ranks(channel)[a], Ranks(channel)[a]);
    }
  }

  lemma RrfDominates(b: Band, t: Tuning, x: Key, y: Key)
    requires Orderly(b.dense, DENSE) && Orderly(b.lexical, LEXICAL)
    requires Outranks(b.dense, x, y) && Outranks(b.lexical, x, y)
    requires t.rrfDense >= 0.0 && t.rrfLexical >= 0.0 && t.rrfK >= 1
    ensures Rrf(b, t, x) >= Rrf(b, t, y)
  {
    RanksDominate(b.dense, DENSE, t.rrfDense, t.rrfK, x, y);
    RanksDominate(b.lexical, LEXICAL, t.rrfLexical, t.rrfK, x, y);
    if MaxRrf(t) > 0.0 {
      DivideOrder(RawRrf(b, t, x), RawRrf(b, t, y), MaxRrf(t));
    }
  }

  /** At least as good on the features outside the channels. */
  ghost predicate NoWorse(a: Candidate, b: Candidate, f: Features) {
    a.importance >= b.importance && f.recency(a) >= f.recency(b) && (f.exact(b) ==> f.exact(a))
  }

  lemma BlendMonotone(t: Tuning, a: (real, real, real, real, real), b: (real, real, real, real, real))
    requires t.finalRrf >= 0.0 && t.finalVector >= 0.0 && t.finalLexical >= 0.0
    requires t.importance >= 0.0 && t.recency >= 0.0
    requires a.0 >= b.0 && a.1 >= b.1 && a.2 >= b.2 && a.3 >= b.3 && a.4 >= b.4
    ensures Blend(t, a.0, a.1, a.2, a.3, a.4) >= Blend(t, b.0, b.1, b.2, b.3, b.4)
  {
    ScaleMonotone(t.finalRrf, a.0, b.0);
    ScaleMonotone(t.finalVector, a.1, b.1);
    ScaleMonotone(t.finalLexical, a.2, b.2);
    ScaleMonotone(t.importance, a.3, b.3);
    ScaleMonotone(t.recency, a.4, b.4);
    var p, q := Products(t, a), Products(t, b);
    FiveMonotone(p, q, t.feedback * 0.0);
    assert Blend(t, a.0, a.1, a.2, a.3, a.4) == p.0 + p.1 + p.2 + p.3 + p.4 + t.feedback * 0.0;
    assert Blend(t, b.0, b.1, b.2, b.3, b.4) == q.0 + q.1 + q.2 + q.3 + q.4 + t.feedback * 0.0;
  }

  function Products(t: Tuning, a: (real, real, real, real, real)): (real, real, real, real, real) {
    (t.finalRrf * a.0, t.finalVector * a.1, t.finalLexical * a.2, t.importance * a.3, t.recency * a.4)
  }

  lemma FiveMonotone(p: (real, real, real, real, real), q: (real, real, real, real, real), z: real)
    requires p.0 >= q.0 && p.1 >= q.1 && p.2 >= q.2 && p.3 >= q.3 && p.4 >= q.4
    ensures p.0 + p.1 + p.2 + p.3 + p.4 + z >= q.0 + q.1 + q.2 + q.3 + q.4 + z
  {
  }

  lemma ScaleMonotone(w: real, x: real, y: real)
    requires w >= 0.0 && x >= y
    ensures w * x >= w * y
  {
  }

  /** If `x` outranks `y` in every channel that holds `y` and is no worse on importance,
      recency and exact match, its score is at least `y`'s. */
  lemma Dominance(b: Band, t: Tuning, f: Features, x: Key, y: Key)
    requires InBounds(t) && x in Base(b) && y in Base(b)
    requires Orderly(b.dense, DENSE) && Orderly(b.lexical, LEXICAL)
    requires Outranks(b.dense, x, y) && Outranks(b.lexical, x, y)
    requires NoWorse(Base(b)[x], Base(b)[y], f)
    ensures Score(b, t, f, x) >= Score(b, t, f, y)
  {
    var cx, cy := Base(b)[x], Base(b)[y];
    RrfDominates(b, t, x, y);
    CalibrateDominates(b.dense, DENSE, x, y);
    CalibrateDominates(b.lexical, LEXICAL, x, y);
    CalibrateUnit(b.lexical, LEXICAL, y);
    assert Lexical(b, t, x, f.exact(cx)) >= Lexical(b, t, y, f.exact(cy));
    BlendMonotone(t,
      (Rrf(b, t, x), Vector(b, x), Lexical(b, t, x, f.exact(cx)), cx.importance, f.recency(cx)),
      (Rrf(b, t, y), Vector(b, y), Lexical(b, t, y, f.exact(cy)), cy.importance, f.recency(cy)));
  }

  lemma OrderlyCut(channel: seq<Candidate>, of: Channel, k: int)
    requires Orderly(channel, of)
    ensures Orderly(Take(channel, AtLeastOne(k)), of)
  {
  }

  /** So in the ranked band the dominating candidate comes first, unless the scores tie
      and the other has the smaller key. */
  lemma DominatorFirst(raw: Band, t: Tuning, f: Features, i: nat, j: nat)
    requires InBounds(t) && Orderly(raw.dense, DENSE) && Orderly(raw.lexical, LEXICAL)
    requires i < |RankBand(raw, t, f)| && j < |RankBand(raw, t, f)|
    requires var b, x, y := Cut(raw, t), RankBand(raw, t, f)[i].key, RankBand(raw, t, f)[j].key;
             && Outranks(b.dense, x, y) && Outranks(b.lexical, x, y)
             && x in Base(b) && y in Base(b) && NoWorse(Base(b)[x], Base(b)[y], f)
    ensures i <= j || (RankBand(raw, t, f)[i].score == RankBand(raw, t, f)[j].score
                       && KeyLess(RankBand(raw, t, f)[j].key, RankBand(raw, t, f)[i].key))
  {
    var b, ranked := Cut(raw, t), RankBand(raw, t, f);
    OrderlyCut(raw.dense, DENSE, t.denseK);
    OrderlyCut(raw.lexical, LEXICAL, t.lexicalK);
    Dominance(b, t, f, ranked[i].key, ranked[j].key);
    assert ranked[i] in ranked && ranked[j] in ranked;
    assert ranked[i].score >= ranked[j].score;
    if j < i {
      assert Before(ranked[j], ranked[i]);
    }
  }
}
