/** The tunables of a retrieval policy, their soft clamping, and the candidate
    policies that evolution derives from them one coordinate at a time. */
module Tuning {
  import opened Rounding

  datatype Tuning = Tuning(
    denseK: int, lexicalK: int, rrfK: int, fallbackMin: int,
    rrfDense: real, rrfLexical: real,
    finalRrf: real, finalVector: real, finalLexical: real,
    importance: real, recency: real, feedback: real,
    exactBoost: real)

  const DEFAULTS := Tuning(20, 40, 60, 5, 1.0, 1.0, 0.6, 0.2, 0.2, 0.55, 0.25, 0.20, 0.15)

  function ClampInt(x: int, lo: int, hi: int): int {
    if x < lo then lo else if x > hi then hi else x
  }

  function ClampReal(x: real, lo: real, hi: real): real {
    if x < lo then lo else if x > hi then hi else x
  }

  /** Constructing a policy clamps out-of-range numbers instead of rejecting them. */
  function Clamp(t: Tuning): Tuning {
    Tuning(
      ClampInt(t.denseK, 1, 500), ClampInt(t.lexicalK, 1, 500), ClampInt(t.rrfK, 1, 500),
      ClampInt(t.fallbackMin, 1, 200),
      ClampReal(t.rrfDense, 0.0, 10.0), ClampReal(t.rrfLexical, 0.0, 10.0),
      ClampReal(t.finalRrf, 0.0, 2.0), ClampReal(t.finalVector, 0.0, 2.0), ClampReal(t.finalLexical, 0.0, 2.0),
      ClampReal(t.importance, 0.0, 2.0), ClampReal(t.recency, 0.0, 2.0), ClampReal(t.feedback, 0.0, 2.0),
      ClampReal(t.exactBoost, 0.0, 1.0))
  }

  predicate InBounds(t: Tuning) {
    Clamp(t) == t
  }

  predicate UnitTriple(x: real, y: real, z: real) {
    x >= 0.0 && y >= 0.0 && z >= 0.0 && x + y + z == 1.0
  }

  /** Both weight groups are non-negative and sum to exactly one. */
  predicate UnitSums(t: Tuning) {
    UnitTriple(t.finalRrf, t.finalVector, t.finalLexical) && UnitTriple(t.importance, t.recency, t.feedback)
  }

  // ---------------------------------------------------------------------------
  // Normalisation
  // ---------------------------------------------------------------------------

  datatype Triple = Triple(x: real, y: real, z: real)

  function NonNegative(x: real): real {
    if x < 0.0 then 0.0 else x
  }

  /** Clip, then divide by the sum, or fall back when there is nothing to divide. */
  function Normalise(t: Triple, fallback: Triple): Triple {
    var x, y, z := NonNegative(t.x), NonNegative(t.y), NonNegative(t.z);
    if x + y + z <= 0.000000000001
    then var total := fallback.x + fallback.y + fallback.z;
         if total == 0.0 then fallback else Triple(fallback.x / total, fallback.y / total, fallback.z / total)
    else var total := x + y + z; Triple(x / total, y / total, z / total)
  }

  lemma QuotientsSum(x: real, y: real, z: real, total: real)
    requires x >= 0.0 && y >= 0.0 && z >= 0.0 && total == x + y + z > 0.0
    ensures UnitTriple(x / total, y / total, z / total)
  {
    assert x / total + y / total + z / total == (x + y + z) / total;
  }

  lemma NormaliseUnit(t: Triple, fallback: Triple)
    requires UnitTriple(fallback.x, fallback.y, fallback.z)
    ensures var n := Normalise(t, fallback); UnitTriple(n.x, n.y, n.z)
  {
    var x, y, z := NonNegative(t.x), NonNegative(t.y), NonNegative(t.z);
    if x + y + z > 0.000000000001 {
      QuotientsSum(x, y, z, x + y + z);
    }
  }

  /** Normalisation keeps proportions: weights only get scaled. */
  lemma NormaliseKeepsRatios(t: Triple, fallback: Triple)
    requires t.x >= 0.0 && t.y >= 0.0 && t.z >= 0.0 && t.x + t.y + t.z > 0.000000000001
    ensures var n := Normalise(t, fallback);
            n.x * t.y == n.y * t.x && n.y * t.z == n.z * t.y && n.x * t.z == n.z * t.x
  {
    var total := t.x + t.y + t.z;
    CrossRatio(t.x, t.y, total);
    CrossRatio(t.y, t.z, total);
    CrossRatio(t.x, t.z, total);
  }

  lemma CrossRatio(a: real, b: real, total: real)
    requires total > 0.0
    ensures (a / total) * b == (b / total) * a
  {
    assert (a / total) * b == a * b / total;
    assert (b / total) * a == b * a / total;
  }

  function FixWeights(t: Tuning): Tuning {
    var f := Normalise(Triple(t.finalRrf, t.finalVector, t.finalLexical), Triple(0.60, 0.20, 0.20));
    var g := Normalise(Triple(t.importance, t.recency, t.feedback), Triple(0.55, 0.25, 0.20));
    t.(finalRrf := f.x, finalVector := f.y, finalLexical := f.z, importance := g.x, recency := g.y, feedback := g.z)
  }

  // ---------------------------------------------------------------------------
  // Coordinate perturbation
  // ---------------------------------------------------------------------------

  const COORDINATES := 13

  function Nudge(x: real, delta: real, lo: real, hi: real): real {
    var v := x + delta;
    var below := if hi < v then hi else v;
    if lo > below then lo else below
  }

  function NudgeInt(x: int, delta: real, lo: int, hi: int): int {
    var v := Round(x as real + delta);
    var below := if hi < v then hi else v;
    if lo > below then lo else below
  }

  /** `base` with coordinate `c`, in the order of the parameter list, moved. */
  function Perturb(base: Tuning, c: nat, delta: real): Tuning
    requires c < COORDINATES
  {
    if c == 0 then base.(rrfDense := Nudge(base.rrfDense, delta, 0.1, 10.0))
    else if c == 1 then base.(rrfLexical := Nudge(base.rrfLexical, delta, 0.1, 10.0))
    else if c == 2 then base.(finalRrf := Nudge(base.finalRrf, delta, 0.0, 1.0))
    else if c == 3 then base.(finalVector := Nudge(base.finalVector, delta, 0.0, 1.0))
    else if c == 4 then base.(finalLexical := Nudge(base.finalLexical, delta, 0.0, 1.0))
    else if c == 5 then base.(importance := Nudge(base.importance, delta, 0.0, 0.12))
    else if c == 6 then base.(recency := Nudge(base.recency, delta, 0.0, 0.10))
    else if c == 7 then base.(feedback := Nudge(base.feedback, delta, 0.0, 0.10))
    else if c == 8 then base.(denseK := NudgeInt(base.denseK, delta, 40, 200))
    else if c == 9 then base.(lexicalK := NudgeInt(base.lexicalK, delta, 40, 200))
    else if c == 10 then base.(rrfK := NudgeInt(base.rrfK, delta, 20, 100))
    else if c == 11 then base.(fallbackMin := NudgeInt(base.fallbackMin, delta, 3, 8))
    else base.(exactBoost := Nudge(base.exactBoost, delta, 1.5, 5.0))
  }

  /** The i-th candidate: coordinate i / 2, up when i is even, down when it is odd. */
  function Variant(base: Tuning, i: nat, maxDelta: real): Tuning
    requires i < 2 * COORDINATES
  {
    Clamp(FixWeights(Perturb(base, i / 2, if i % 2 == 0 then maxDelta else -maxDelta)))
  }

  /** Whatever the baseline and the step, a generated candidate has both weight groups
      non-negative with sum exactly one, and every number within bounds. */
  lemma VariantsAreUnit(base: Tuning, i: nat, maxDelta: real)
    requires i < 2 * COORDINATES
    ensures UnitSums(Variant(base, i, maxDelta)) && InBounds(Variant(base, i, maxDelta))
  {
    var p := Perturb(base, i / 2, if i % 2 == 0 then maxDelta else -maxDelta);
    NormaliseUnit(Triple(p.finalRrf, p.finalVector, p.finalLexical), Triple(0.60, 0.20, 0.20));
    NormaliseUnit(Triple(p.importance, p.recency, p.feedback), Triple(0.55, 0.25, 0.20));
    var f := FixWeights(p);
    assert UnitSums(f);
    UnitWeightsUnclamped(f);
  }

  lemma UnitWeightsUnclamped(t: Tuning)
    requires UnitSums(t)
    ensures UnitSums(Clamp(t)) && InBounds(Clamp(t))
  {
    assert Clamp(t).finalRrf == t.finalRrf && Clamp(t).finalVector == t.finalVector;
    assert Clamp(t).finalLexical == t.finalLexical && Clamp(t).importance == t.importance;
    assert Clamp(t).recency == t.recency && Clamp(t).feedback == t.feedback;
  }

  // ---------------------------------------------------------------------------
  // What a variant changes
  // ---------------------------------------------------------------------------

  /** `r` is the number between `lo` and `hi` nearest to `x`. */
  ghost predicate Nearest(r: real, x: real, lo: real, hi: real) {
    lo <= r <= hi && (x < lo ==> r == lo) && (x > hi ==> r == hi) && (lo <= x <= hi ==> r == x)
  }

  /** The same among the integers, `x` being rounded first. */
  ghost predicate NearestInt(r: int, x: real, lo: int, hi: int) {
    && lo <= r <= hi && (Round(x) < lo ==> r == lo) && (Round(x) > hi ==> r == hi)
    && (lo <= Round(x) <= hi ==> -0.5 <= r as real - x <= 0.5)
  }

  /** Clamping changes nothing but what is out of bounds, and that to the nearest bound. */
  lemma ClampIsNearest(t: Tuning)
    ensures var c := Clamp(t);
            && Nearest(c.rrfDense, t.rrfDense, 0.0, 10.0) && Nearest(c.rrfLexical, t.rrfLexical, 0.0, 10.0)
            && Nearest(c.finalRrf, t.finalRrf, 0.0, 2.0) && Nearest(c.finalVector, t.finalVector, 0.0, 2.0)
            && Nearest(c.finalLexical, t.finalLexical, 0.0, 2.0) && Nearest(c.importance, t.importance, 0.0, 2.0)
            && Nearest(c.recency, t.recency, 0.0, 2.0) && Nearest(c.feedback, t.feedback, 0.0, 2.0)
            && Nearest(c.exactBoost, t.exactBoost, 0.0, 1.0)
  {
    ClampRealNearest(t.rrfDense, 0.0, 10.0);
    ClampRealNearest(t.rrfLexical, 0.0, 10.0);
    ClampRealNearest(t.finalRrf, 0.0, 2.0);
    ClampRealNearest(t.finalVector, 0.0, 2.0);
    ClampRealNearest(t.finalLexical, 0.0, 2.0);
    ClampRealNearest(t.importance, 0.0, 2.0);
    ClampRealNearest(t.recency, 0.0, 2.0);
    ClampRealNearest(t.feedback, 0.0, 2.0);
    ClampRealNearest(t.exactBoost, 0.0, 1.0);
  }

  lemma ClampRealNearest(x: real, lo: real, hi: real)
    requires lo <= hi
    ensures Nearest(ClampReal(x, lo, hi), x, lo, hi)
  {
  }

  lemma ClampKeepsCounts(t: Tuning)
    ensures var c := Clamp(t);
            && 1 <= c.denseK <= 500 && 1 <= c.lexicalK <= 500 && 1 <= c.rrfK <= 500 && 1 <= c.fallbackMin <= 200
            && (1 <= t.denseK <= 500 ==> c.denseK == t.denseK) && (1 <= t.lexicalK <= 500 ==> c.lexicalK == t.lexicalK)
            && (1 <= t.rrfK <= 500 ==> c.rrfK == t.rrfK) && (1 <= t.fallbackMin <= 200 ==> c.fallbackMin == t.fallbackMin)
  {
  }

  /** `n` is `t` scaled to sum one, or the fallback when there is nothing to scale. */
  ghost predicate Rescaled(n: Triple, t: Triple, fallback: Triple) {
    var total := t.x + t.y + t.z;
    && (total > 0.000000000001 ==> n.x * total == t.x && n.y * total == t.y && n.z * total == t.z)
    && (total <= 0.000000000001 ==> n == fallback)
  }

  /** Negative weights count as zero. */
  lemma NormaliseRescales(t: Triple, fallback: Triple)
    requires UnitTriple(fallback.x, fallback.y, fallback.z)
    ensures Rescaled(Normalise(t, fallback), Triple(NonNegative(t.x), NonNegative(t.y), NonNegative(t.z)), fallback)
  {
    var x, y, z := NonNegative(t.x), NonNegative(t.y), NonNegative(t.z);
    var total := x + y + z;
    if total > 0.000000000001 {
      QuotientTimes(x, total);
      QuotientTimes(y, total);
      QuotientTimes(z, total);
      assert Normalise(t, fallback) == Triple(x / total, y / total, z / total);
    } else {
      ByOne(fallback);
    }
  }

  lemma ByOne(t: Triple)
    ensures Triple(t.x / 1.0, t.y / 1.0, t.z / 1.0) == t
  {
  }

  lemma UnitNormalised(t: Triple, fallback: Triple)
    requires UnitTriple(t.x, t.y, t.z)
    ensures Normalise(t, fallback) == t
  {
    ByOne(t);
  }

  lemma QuotientTimes(x: real, y: real)
    requires y > 0.0
    ensures x / y * y == x
  {
  }

  function FinalTriple(t: Tuning): Triple {
    Triple(t.finalRrf, t.finalVector, t.finalLexical)
  }

  function AdditiveTriple(t: Tuning): Triple {
    Triple(t.importance, t.recency, t.feedback)
  }

  const FINAL_FALLBACK := Triple(0.6, 0.2, 0.2)
  const ADDITIVE_FALLBACK := Triple(0.55, 0.25, 0.2)

  /** The first of each pair of variants moves up, the second down. */
  function Signed(i: nat, step: real): real {
    if i % 2 == 0 then step else -step
  }

  lemma UnitFixed(t: Tuning)
    requires UnitSums(t)
    ensures FixWeights(t) == t
  {
    UnitNormalised(FinalTriple(t), FINAL_FALLBACK);
    UnitNormalised(AdditiveTriple(t), ADDITIVE_FALLBACK);
  }

  /** Outside the weight groups a variant is the base with one coordinate moved by the
      step, as far as the generator's bounds admit ... */
  lemma VariantMovesWeight(base: Tuning, i: nat, step: real)
    requires i < 2 * COORDINATES && InBounds(base) && UnitSums(base)
    ensures var v, d := Variant(base, i, step), Signed(i, step);
            && (i / 2 == 0 ==> v == base.(rrfDense := v.rrfDense) && Nearest(v.rrfDense, base.rrfDense + d, 0.1, 10.0))
            && (i / 2 == 1 ==> v == base.(rrfLexical := v.rrfLexical)
                               && Nearest(v.rrfLexical, base.rrfLexical + d, 0.1, 10.0))
  {
    if i / 2 < 2 {
      UnitFixed(Perturb(base, i / 2, Signed(i, step)));
    }
  }

  lemma NudgeIntNearest(x: int, d: real, lo: int, hi: int)
    requires lo <= hi
    ensures NearestInt(NudgeInt(x, d, lo, hi), x as real + d, lo, hi)
  {
    RoundNearest(x as real + d);
  }

  /** ... rounded where it is a count ... */
  lemma VariantMovesCount(base: Tuning, i: nat, step: real)
    requires i < 2 * COORDINATES && InBounds(base) && UnitSums(base)
    ensures var v, d := Variant(base, i, step), Signed(i, step);
            && (i / 2 == 8 ==> v == base.(denseK := v.denseK) && NearestInt(v.denseK, base.denseK as real + d, 40, 200))
            && (i / 2 == 9 ==> v == base.(lexicalK := v.lexicalK)
                               && NearestInt(v.lexicalK, base.lexicalK as real + d, 40, 200))
            && (i / 2 == 10 ==> v == base.(rrfK := v.rrfK) && NearestInt(v.rrfK, base.rrfK as real + d, 20, 100))
            && (i / 2 == 11 ==> v == base.(fallbackMin := v.fallbackMin)
                                && NearestInt(v.fallbackMin, base.fallbackMin as real + d, 3, 8))
  {
    var c, d := i / 2, Signed(i, step);
    if c == 8 {
      VariantIsPerturbed(base, i, step);
      NudgeIntNearest(base.denseK, d, 40, 200);
    } else if c == 9 {
      VariantIsPerturbed(base, i, step);
      NudgeIntNearest(base.lexicalK, d, 40, 200);
    } else if c == 10 {
      VariantIsPerturbed(base, i, step);
      NudgeIntNearest(base.rrfK, d, 20, 100);
    } else if c == 11 {
      VariantIsPerturbed(base, i, step);
      NudgeIntNearest(base.fallbackMin, d, 3, 8);
    }
  }

  lemma VariantIsPerturbed(base: Tuning, i: nat, step: real)
    requires 8 <= i / 2 < 12 && InBounds(base) && UnitSums(base)
    ensures Variant(base, i, step) == Perturb(base, i / 2, Signed(i, step))
  {
    UnitFixed(Perturb(base, i / 2, Signed(i, step)));
  }

  /** ... and the boost always ends at one, its bounds in the generator lying above those of
      a policy. */
  lemma VariantBoostIsOne(base: Tuning, i: nat, step: real)
    requires i < 2 * COORDINATES && i / 2 == 12 && InBounds(base) && UnitSums(base)
    ensures Variant(base, i, step) == base.(exactBoost := 1.0)
  {
    UnitFixed(Perturb(base, 12, Signed(i, step)));
  }

  /** Moving a weight leaves the clamping nothing to do. */
  lemma GroupUnclamped(base: Tuning, i: nat, step: real)
    requires 2 <= i / 2 <= 7 && InBounds(base)
    ensures Variant(base, i, step) == FixWeights(Perturb(base, i / 2, Signed(i, step)))
  {
    var p := Perturb(base, i / 2, Signed(i, step));
    NormaliseUnit(FinalTriple(p), FINAL_FALLBACK);
    NormaliseUnit(AdditiveTriple(p), ADDITIVE_FALLBACK);
    UnitWeightsKept(FixWeights(p));
  }

  lemma UnitWeightsKept(t: Tuning)
    requires UnitSums(t)
    ensures var c := Clamp(t); FinalTriple(c) == FinalTriple(t) && AdditiveTriple(c) == AdditiveTriple(t)
  {
  }

  lemma FixedTriples(p: Tuning)
    ensures FinalTriple(FixWeights(p)) == Normalise(FinalTriple(p), FINAL_FALLBACK)
    ensures AdditiveTriple(FixWeights(p)) == Normalise(AdditiveTriple(p), ADDITIVE_FALLBACK)
    ensures FixWeights(p) ==
            p.(finalRrf := FixWeights(p).finalRrf, finalVector := FixWeights(p).finalVector,
               finalLexical := FixWeights(p).finalLexical, importance := FixWeights(p).importance,
               recency := FixWeights(p).recency, feedback := FixWeights(p).feedback)
  {
  }

  /** Inside a weight group the moved weight and its two companions are rescaled to sum one,
      and nothing outside the group changes: the fusion blend ... */
  lemma VariantRescalesFinal(base: Tuning, i: nat, step: real, m: real)
    requires 2 <= i / 2 <= 4 && InBounds(base) && UnitSums(base)
    ensures var v, d := Variant(base, i, step), Signed(i, step);
            && (i / 2 == 2 && Nearest(m, base.finalRrf + d, 0.0, 1.0) ==>
                  Rescaled(FinalTriple(v), Triple(m, base.finalVector, base.finalLexical), FINAL_FALLBACK))
            && (i / 2 == 3 && Nearest(m, base.finalVector + d, 0.0, 1.0) ==>
                  Rescaled(FinalTriple(v), Triple(base.finalRrf, m, base.finalLexical), FINAL_FALLBACK))
            && (i / 2 == 4 && Nearest(m, base.finalLexical + d, 0.0, 1.0) ==>
                  Rescaled(FinalTriple(v), Triple(base.finalRrf, base.finalVector, m), FINAL_FALLBACK))
            && v == base.(finalRrf := v.finalRrf, finalVector := v.finalVector, finalLexical := v.finalLexical)
  {
    var p := Perturb(base, i / 2, Signed(i, step));
    GroupUnclamped(base, i, step);
    FixedTriples(p);
    NormaliseRescales(FinalTriple(p), FINAL_FALLBACK);
    UnitNormalised(AdditiveTriple(p), ADDITIVE_FALLBACK);
  }

  /** ... and the additive one. */
  lemma VariantRescalesAdditive(base: Tuning, i: nat, step: real, m: real)
    requires 5 <= i / 2 <= 7 && InBounds(base) && UnitSums(base)
    ensures var v, d := Variant(base, i, step), Signed(i, step);
            && (i / 2 == 5 && Nearest(m, base.importance + d, 0.0, 0.12) ==>
                  Rescaled(AdditiveTriple(v), Triple(m, base.recency, base.feedback), ADDITIVE_FALLBACK))
            && (i / 2 == 6 && Nearest(m, base.recency + d, 0.0, 0.1) ==>
                  Rescaled(AdditiveTriple(v), Triple(base.importance, m, base.feedback), ADDITIVE_FALLBACK))
            && (i / 2 == 7 && Nearest(m, base.feedback + d, 0.0, 0.1) ==>
                  Rescaled(AdditiveTriple(v), Triple(base.importance, base.recency, m), ADDITIVE_FALLBACK))
            && v == base.(importance := v.importance, recency := v.recency, feedback := v.feedback)
  {
    var p := Perturb(base, i / 2, Signed(i, step));
    GroupUnclamped(base, i, step);
    FixedTriples(p);
    NormaliseRescales(AdditiveTriple(p), ADDITIVE_FALLBACK);
    UnitNormalised(FinalTriple(p), FINAL_FALLBACK);
  }

  /** The generator's bounds do not fit the shipped defaults: moving importance up or the
      dense channel's size down both do the opposite. */
  lemma DefaultsLieOutside(step: real)
    requires 0.0 < step < 0.5
    ensures Variant(DEFAULTS, 10, step).importance < DEFAULTS.importance
    ensures Variant(DEFAULTS, 17, step).denseK == 40 > DEFAULTS.denseK
    ensures Variant(DEFAULTS, 24, step) == Variant(DEFAULTS, 25, step)
  {
    ImportanceFalls(step);
    VariantMovesCount(DEFAULTS, 17, step);
    RoundNearest(DEFAULTS.denseK as real - step);
    VariantBoostIsOne(DEFAULTS, 24, step);
    VariantBoostIsOne(DEFAULTS, 25, step);
  }

  lemma ImportanceFalls(step: real)
    requires step > 0.0
    ensures Variant(DEFAULTS, 10, step).importance < DEFAULTS.importance
  {
    VariantRescalesAdditive(DEFAULTS, 10, step, 0.12);
    var n := Variant(DEFAULTS, 10, step).importance;
    assert n * 0.57 == 0.12;
  }
}
