/** The governance state as the cycle updates it, field by field. */
module EvolutionState {
  import opened Options
  import opened Governance

  class EvolutionState {
    var windows: seq<Window>
    var streak: nat
    var passCandidate: Option<int>
    var lastPromotion: Option<real>
    var promotions: nat
    var rollbacks: nat
    var cooldownStart: Option<real>

    ghost function Value(): State
      reads this
    {
      State(windows, streak, passCandidate, lastPromotion, promotions, rollbacks, cooldownStart)
    }

    /** The state of a first cycle. */
    constructor ()
      ensures Value() == FRESH
    {
      windows, streak, passCandidate := [], 0, None;
      lastPromotion, promotions := None, 0;
      rollbacks, cooldownStart := 0, None;
    }

    /** Record one governance window. */
    method RecordCycleResult(passed: bool, candidate: Option<int>, now: real)
      modifies this
      ensures Value() == if !passed then RecordFailed(old(Value()), candidate, now)
                         else if candidate.Some? then RecordPassed(old(Value()), candidate.value, now)
                         else RecordUnversioned(old(Value()), now)
    {
      var recent := windows;
      if passed && candidate.None? {
        recent := recent + [Window(now, true, None)];
        streak := streak + 1;
      } else if passed {
        if passCandidate != candidate {
          recent := [];
          streak := 0;
        }
        passCandidate := candidate;
        recent := recent + [Window(now, true, candidate)];
        streak := streak + 1;
      } else {
        recent := recent + [Window(now, false, candidate)];
        streak := 0;
        passCandidate := None;
      }
      windows := LastTwo(recent);
    }

    /** The promotion gate, in the order the checks are made. */
    method MayPromote(version: int, judged: bool, now: real) returns (allowed: bool)
      ensures allowed <==> CanPromote(Value(), version, judged, now)
    {
      if !judged { return false; }
      if streak < 2 { return false; }
      if !TwoPassWindows(State(windows, streak, passCandidate, lastPromotion, promotions, rollbacks, cooldownStart), version) {
        return false;
      }
      if lastPromotion.Some? {
        if Days(now - lastPromotion.value) < COOLDOWN_DAYS { return false; }
      }
      if promotions >= MAX_PROMOTIONS { return false; }
      if rollbacks >= MAX_ROLLBACKS {
        if cooldownStart.Some? {
          return (now - cooldownStart.value) / 3600.0 >= COOLDOWN_HOURS;
        }
        return false;
      }
      allowed := true;
    }

    /** Automatic rollback. */
    method ForceRollback(now: real)
      modifies this
      ensures Value() == Governance.ForceRollback(old(Value()), now)
    {
      rollbacks := rollbacks + 1;
      if rollbacks >= MAX_ROLLBACKS {
        cooldownStart := Some(now);
      }
      streak := 0;
      windows := [];
    }

    /** One cycle or operator action; `log` is the history it adds to. */
    method Advance(e: Event, ghost log: seq<Entry>) returns (promoted: bool, ghost log': seq<Entry>)
      modifies this
      ensures Run(Value(), log') == Step(Run(old(Value()), log), e)
      ensures promoted <==> e.Validated? && |log'| == |log| + 2
    {
      promoted, log' := false, log;
      match e {
        case Skipped =>
        case Degraded(at) =>
          ForceRollback(at);
          log' := log + [AutoRollback(at)];
        case Rejected(candidate, at) =>
          RecordCycleResult(false, candidate, at);
          log' := log + [Fail(at)];
        case Operator(at) =>
          rollbacks := rollbacks + 1;
          log' := log + [Manual(at)];
        case Validated(version, judged, at, check, done) =>
          RecordCycleResult(true, Some(version), at);
          log' := log + [Pass(version, at)];
          promoted := MayPromote(version, judged, check);
          if promoted {
            lastPromotion := Some(done);
            promotions := promotions + 1;
            rollbacks := 0;
            streak := 0;
            passCandidate := None;
            windows := [];
            log' := log' + [Promotion(version, done)];
          }
      }
    }
  }
}
