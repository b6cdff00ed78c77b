/** Generation of shadow candidates from the active policy. */
module CandidateGeneration {
  import opened Options
  import opened Tuning
  import opened PolicyLifecycle

  /** `draw(i)` is the i-th version number of the seeded generator. */
  ghost predicate Generated(candidates: seq<Policy>, active: Policy, maxDelta: real, draw: nat -> int) {
    && |candidates| <= 2 * COORDINATES
    && forall i :: 0 <= i < |candidates| ==> candidates[i] == CandidateAt(active, i, maxDelta, draw(i))
  }

  function CandidateAt(active: Policy, i: nat, maxDelta: real, version: int): Policy
    requires i < 2 * COORDINATES
  {
    Policy(version, Some(active.version), Shadow, Variant(active.tuning, i, maxDelta))
  }

  lemma GeneratedMore(candidates: seq<Policy>, active: Policy, maxDelta: real, draw: nat -> int, candidate: Policy)
    requires Generated(candidates, active, maxDelta, draw) && |candidates| < 2 * COORDINATES
    requires candidate == CandidateAt(active, |candidates|, maxDelta, draw(|candidates|))
    ensures Generated(candidates + [candidate], active, maxDelta, draw)
  {
  }

  /** One candidate per coordinate and direction until there are `n`.  `None` is the
      exception the source raises when that does not yield enough. */
  method GenerateCandidates(active: Policy, n: int, maxDelta: real, draw: nat -> int)
    returns (result: Option<seq<Policy>>)
    ensures result.Some? <==> n <= 2 * COORDINATES
    ensures result.Some? ==>
              && Generated(result.value, active, maxDelta, draw)
              && |result.value| == if n < 1 then 1 else n
  {
    var candidates: seq<Policy> := [];
    for coordinate := 0 to COORDINATES
      invariant |candidates| == 2 * coordinate && (coordinate > 0 ==> |candidates| < n)
      invariant Generated(candidates, active, maxDelta, draw)
    {
      for down := 0 to 2
        invariant |candidates| == 2 * coordinate + down && (coordinate + down > 0 ==> |candidates| < n)
        invariant Generated(candidates, active, maxDelta, draw)
      {
        var candidate := MakeCandidate(active, coordinate, down, maxDelta, draw(|candidates|));
        GeneratedMore(candidates, active, maxDelta, draw, candidate);
        candidates := candidates + [candidate];
        if |candidates| >= n { return Some(candidates); }
      }
    }
    result := None;
  }

  method MakeCandidate(active: Policy, coordinate: nat, down: nat, maxDelta: real, version: int)
    returns (candidate: Policy)
    requires coordinate < COORDINATES && down < 2
    ensures candidate == CandidateAt(active, 2 * coordinate + down, maxDelta, version)
  {
    assert (2 * coordinate + down) / 2 == coordinate && (2 * coordinate + down) % 2 == down;
    var moved := Perturb(active.tuning, coordinate, if down == 0 then maxDelta else -maxDelta);
    candidate := Policy(version, Some(active.version), Shadow, Clamp(FixWeights(moved)));
  }

  /** The i-th candidate has the i-th drawn version, the active policy as its parent, and
      the active tunables with the i-th move. */
  lemma GeneratedIdentity(candidates: seq<Policy>, active: Policy, maxDelta: real, draw: nat -> int, i: nat)
    requires Generated(candidates, active, maxDelta, draw) && i < |candidates|
    ensures candidates[i].version == draw(i) && candidates[i].parent == Some(active.version)
    ensures candidates[i].status == Shadow && candidates[i].tuning == Variant(active.tuning, i, maxDelta)
  {
    assert candidates[i] == CandidateAt(active, i, maxDelta, draw(i));
  }

  /** Every generated policy meets the weight contract. */
  lemma GeneratedAreUnit(candidates: seq<Policy>, active: Policy, maxDelta: real, draw: nat -> int)
    requires Generated(candidates, active, maxDelta, draw)
    ensures forall c :: c in candidates ==> UnitSums(c.tuning) && InBounds(c.tuning)
  {
    forall i | 0 <= i < |candidates| ensures UnitSums(candidates[i].tuning) && InBounds(candidates[i].tuning) {
      VariantsAreUnit(active.tuning, i, maxDelta);
    }
  }

  /** The generator is seeded afresh on every cycle, so the cycle after a promotion draws
      the same versions for the children of the promoted policy: the child in the place
      of the promoted candidate is stale from the start, and every other is fit exactly
      when its draw differs from the promoted one. */
  lemma SeededVersionsRepeat(first: seq<Policy>, second: seq<Policy>, active: Policy, step: real, nextStep: real,
                             draw: nat -> int, i: nat)
    requires Generated(first, active, step, draw) && i < |first|
    requires Generated(second, NextActive(first[i], active), nextStep, draw)
    ensures i < |second| ==> Stale(second[i], NextActive(first[i], active))
    ensures forall j :: 0 <= j < |second| ==>
              (Fit(second[j], NextActive(first[i], active)) <==> draw(j) != draw(i))
  {
    assert first[i] == CandidateAt(active, i, step, draw(i));
    var promoted := NextActive(first[i], active);
    forall j | 0 <= j < |second| ensures Fit(second[j], promoted) <==> draw(j) != draw(i) {
      assert second[j] == CandidateAt(promoted, j, nextStep, draw(j));
    }
    if i < |second| {
      assert second[i] == CandidateAt(promoted, i, nextStep, draw(i));
    }
  }

  /** In the store: promote the i-th candidate of one cycle, install the j-th of the next
      as shadow, restart.  The shadow survives exactly when the two draws differ. */
  lemma RepeatedVersionIsDiscarded(w: World, first: seq<Policy>, second: seq<Policy>, step: real, nextStep: real,
                                   draw: nat -> int, i: nat, j: nat, quarantine: bool)
    requires Generated(first, w.memory.policy, step, draw) && i < |first|
    requires Generated(second, NextActive(first[i], w.memory.policy), nextStep, draw) && j < |second|
    ensures var promoted := Perform(w, Promote(Some(first[i])), []).world;
            var installed := Perform(promoted, SetShadow(second[j]), []).world;
            && installed.memory.shadow == Some(second[j])
            && Restart(installed.disk, quarantine).memory.shadow ==
               if draw(i) == draw(j) then None else Some(second[j])
  {
    assert first[i] == CandidateAt(w.memory.policy, i, step, draw(i));
    assert second[j] == CandidateAt(NextActive(first[i], w.memory.policy), j, nextStep, draw(j));
  }
}
