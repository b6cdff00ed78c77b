/** How soon a promotion can be followed by the next when its cycle was cut off, and when
    the cap on promotions can be passed: bounds for every continuation, and continuations
    that meet them. */
module PromotionBounds {
  import opened Options
  import opened Governance
  import opened LostPromotions

  const WEEK := COOLDOWN_DAYS as real * SECONDS_PER_DAY

  /** The earliest end of the next promotion after the promoting attempt `a`. */
  function Earliest(a: Attempt): real
    requires a.event.Validated?
  {
    match a.ending
    case Saved => a.event.done + WEEK
    case Died => a.event.done
    case Swallowed(at) => at
    case Raised(at) => at + MIN_GAP
  }

  lemma InTimeMore(attempts: seq<Attempt>, a: Attempt, start: real)
    ensures InTime(attempts + [a], start) <==> InTime(attempts, start) && Timely(a, ClockOf(attempts, start))
    ensures ClockOf(attempts + [a], start) == EndOfAttempt(a, ClockOf(attempts, start))
    ensures RunOf(attempts + [a]) == Next(RunOf(attempts), a)
  {
    assert (attempts + [a])[..|attempts + [a]| - 1] == attempts;
  }

  // ---------------------------------------------------------------------------
  // Not earlier
  // ---------------------------------------------------------------------------

  /** What the attempt `a` left behind is still there, and no promotion since came too
      early. */
  ghost predicate Since(w: World, left: World, a: Attempt, now: real)
    requires a.event.Validated?
  {
    && Sound(w, now)
    && left.run.log <= w.run.log && left.made <= w.made
    && forall j :: |left.made| <= j < |w.made| ==> w.made[j].at >= Earliest(a)
  }

  lemma NextKeeps(w: World, a: Attempt)
    ensures w.run.log <= Next(w, a).run.log && w.made <= Next(w, a).made
  {
    SavedLog(w.run, a.event);
    if a.ending.Raised? {
      SavedLog(w.run, Rejected(None, a.ending.at));
    }
  }

  lemma QuietSkips(log: seq<Entry>, i: nat, j: nat, k: nat, f: nat)
    requires i < j < k <= |log| && f < k && Quiet(log, i, k, j)
    requires log[i].Pass? && log[j].Pass? && log[f].Fail?
    ensures f < i
  {
    assert f != i && f != j;
  }

  /** A failed window parts the passes of a later promotion from everything before. */
  lemma AfterFailure(r: Run, e: Event, f: nat, now: real)
    requires Summarises(r) && Sorted(r.log, now) && InOrder(e, now) && Promotes(r, e)
    requires f < |r.log| && r.log[f].Fail?
    ensures e.done >= r.log[f].at + MIN_GAP
  {
    var credited := Run(RecordPassed(r.state, e.version, e.at), r.log + [Pass(e.version, e.at)]);
    PassSummarised(r, e.version, e.at);
    assert Sorted(credited.log, e.check);
    PromotionJustified(credited, e.version, e.judged, e.check, e.done);
    var log := credited.log + [Promotion(e.version, e.done)];
    var k := |credited.log|;
    var i, j :| 0 <= i < j < k && log[i].Pass? && log[j].Pass? && log[j].at - log[i].at >= MIN_GAP && Quiet(log, i, k, j);
    assert log[f] == r.log[f];
    QuietSkips(log, i, j, k, f);
    assert log[i] == credited.log[i] && log[j] == credited.log[j] && credited.log[f] == r.log[f];
  }

  /** The last log entry says how the promoting attempt ended. */
  ghost predicate LeftBy(left: World, a: Attempt)
    requires a.event.Validated?
  {
    var n := |left.run.log|;
    && (a.ending == Saved ==> n > 0 && left.run.log[n - 1] == Promotion(a.event.version, a.event.done))
    && (a.ending.Raised? ==> n > 0 && left.run.log[n - 1] == Fail(a.ending.at))
  }

  lemma NextNotEarlier(w: World, left: World, a: Attempt, e: Event, now: real)
    requires a.event.Validated? && Since(w, left, a, now) && InOrder(e, now) && Promotes(w.run, e)
    requires LeftBy(left, a)
    requires now >= a.event.done && (a.ending.Swallowed? ==> now >= a.ending.at)
    ensures e.done >= Earliest(a)
  {
    match a.ending
    case Saved => MadeSpaced(w.run, e, now);
    case Raised(_) => AfterFailure(w.run, e, |left.run.log| - 1, now);
    case _ =>
  }

  lemma AttemptLeaves(w: World, a: Attempt, now: real)
    requires Sound(w, now) && Timely(a, now) && Promotes(w.run, a.event)
    ensures LeftBy(Next(w, a), a) && EndOfAttempt(a, now) >= a.event.done
    ensures Next(w, a).made == w.made + [Made(a.event.version, a.event.done, a.ending == Saved)]
  {
    SavedLog(w.run, a.event);
  }

  lemma SinceNext(w: World, left: World, a: Attempt, b: Attempt, now: real)
    requires a.event.Validated? && Since(w, left, a, now) && LeftBy(left, a) && Timely(b, now)
    requires now >= a.event.done && (a.ending.Swallowed? ==> now >= a.ending.at)
    ensures Since(Next(w, b), left, a, EndOfAttempt(b, now))
  {
    NextSound(w, b, now);
    NextKeeps(w, b);
    if Promotes(w.run, b.event) {
      NextNotEarlier(w, left, a, b.event, now);
    }
    MadeSince(w, left, a, b);
  }

  lemma MadeSince(w: World, left: World, a: Attempt, b: Attempt)
    requires a.event.Validated? && left.made <= w.made
    requires forall j :: |left.made| <= j < |w.made| ==> w.made[j].at >= Earliest(a)
    requires Promotes(w.run, b.event) ==> b.event.done >= Earliest(a)
    ensures forall j :: |left.made| <= j < |Next(w, b).made| ==> Next(w, b).made[j].at >= Earliest(a)
  {
    var latest := MadeBy(w.run, b);
    var all := Next(w, b).made;
    forall j | |left.made| <= j < |all| ensures all[j].at >= Earliest(a) {
      assert all[j] == if j < |w.made| then w.made[j] else latest[j - |w.made|];
    }
  }

  /** The attempt left its mark, and what came since came not too early. */
  ghost predicate FollowedFrom(attempts: seq<Attempt>, left: World, a: Attempt, start: real) {
    && a.event.Validated? && LeftBy(left, a)
    && Since(RunOf(attempts), left, a, ClockOf(attempts, start))
    && ClockOf(attempts, start) >= a.event.done
    && (a.ending.Swallowed? ==> ClockOf(attempts, start) >= a.ending.at)
  }

  lemma FollowedOneMore(attempts: seq<Attempt>, b: Attempt, left: World, a: Attempt, start: real)
    requires FollowedFrom(attempts, left, a, start) && InTime(attempts + [b], start)
    ensures FollowedFrom(attempts + [b], left, a, start)
  {
    InTimeMore(attempts, b, start);
    SinceNext(RunOf(attempts), left, a, b, ClockOf(attempts, start));
  }

  lemma FollowedAtOnce(before: seq<Attempt>, a: Attempt, start: real)
    requires InTime(before + [a], start) && Promotes(RunOf(before).run, a.event)
    ensures FollowedFrom(before + [a], RunOf(before + [a]), a, start)
  {
    InTimeMore(before, a, start);
    RunLimited(before, start);
    RunLimited(before + [a], start);
    AttemptLeaves(RunOf(before), a, ClockOf(before, start));
  }

  lemma Prefix(attempts: seq<Attempt>, more: seq<Attempt>, start: real)
    requires more != []
    ensures attempts + more == attempts + more[..|more| - 1] + [more[|more| - 1]]
    ensures InTime(attempts + more, start) ==> InTime(attempts + more[..|more| - 1], start)
  {
    LastApart(attempts, more);
    InTimeMore(attempts + more[..|more| - 1], more[|more| - 1], start);
  }

  lemma {:induction false} Followed(attempts: seq<Attempt>, more: seq<Attempt>, left: World, a: Attempt, start: real)
    requires FollowedFrom(attempts, left, a, start) && InTime(attempts + more, start)
    ensures FollowedFrom(attempts + more, left, a, start)
    decreases |more|
  {
    if more == [] {
      assert attempts + more == attempts;
    } else {
      var n := |more| - 1;
      Prefix(attempts, more, start);
      Followed(attempts, more[..n], left, a, start);
      FollowedOneMore(attempts + more[..n], more[n], left, a, start);
    }
  }

  lemma {:induction false} InTimePrefix(attempts: seq<Attempt>, more: seq<Attempt>, start: real)
    requires InTime(attempts + more, start)
    ensures InTime(attempts, start)
    decreases |more|
  {
    if more == [] {
      assert attempts + more == attempts;
    } else {
      Prefix(attempts, more, start);
      InTimePrefix(attempts, more[..|more| - 1], start);
    }
  }

  /** In every timely continuation, however its own cycles end, no promotion ends before
      the earliest time. */
  lemma NoneEarlier(before: seq<Attempt>, a: Attempt, more: seq<Attempt>, start: real)
    requires InTime(before + [a] + more, start) && Promotes(RunOf(before).run, a.event)
    ensures var known, made := |RunOf(before + [a]).made|, RunOf(before + [a] + more).made;
            known <= |made| && forall j :: known <= j < |made| ==> made[j].at >= Earliest(a)
  {
    InTimePrefix(before + [a], more, start);
    FollowedAtOnce(before, a, start);
    Followed(before + [a], more, RunOf(before + [a]), a, start);
  }

  // ---------------------------------------------------------------------------
  // As early as that
  // ---------------------------------------------------------------------------

  function SavedPass(v: int, t: real): Attempt {
    Attempt(Validated(v, true, t, t, t), Saved)
  }

  ghost predicate AllSaved(attempts: seq<Attempt>) {
    forall i :: 0 <= i < |attempts| ==> attempts[i].ending == Saved
  }

  /** After a failed window two passes open the gate that was open before. */
  lemma ReopensAfterFailure(s: State, v: int, at: real, check: real, failed: real, now: real)
    requires CanPromote(RecordPassed(s, v, at), v, true, check) && check <= now
    ensures var first := RecordPassed(RecordFailed(s, None, failed), v, now);
            && !CanPromote(first, v, true, now)
            && CanPromote(RecordPassed(first, v, now + MIN_GAP), v, true, now + MIN_GAP)
  {
    var first := RecordPassed(RecordFailed(s, None, failed), v, now);
    var second := RecordPassed(first, v, now + MIN_GAP);
    assert first.windows == [Window(now, true, Some(v))] by {
      assert LastTwo([Window(now, true, Some(v))]) == [Window(now, true, Some(v))];
    }
    assert second.windows == [Window(now, true, Some(v)), Window(now + MIN_GAP, true, Some(v))];
    if s.lastPromotion.Some? {
      DaysGrow(check - s.lastPromotion.value, now + MIN_GAP - s.lastPromotion.value);
    }
  }

  lemma SavedPassMakes(w: World, v: int, t: real)
    ensures var next := Next(w, SavedPass(v, t));
            next.made == w.made +
              if CanPromote(RecordPassed(w.run.state, v, t), v, true, t) then [Made(v, t, true)] else []
    ensures !CanPromote(RecordPassed(w.run.state, v, t), v, true, t) ==>
              Next(w, SavedPass(v, t)).run.state == RecordPassed(w.run.state, v, t)
  {
  }

  /** `more` is a timely, saved continuation that makes exactly the promotion `m`. */
  ghost predicate Makes(attempts: seq<Attempt>, more: seq<Attempt>, m: Made, start: real) {
    && AllSaved(more) && InTime(attempts + more, start)
    && RunOf(attempts + more).made == RunOf(attempts).made + [m]
  }

  ghost predicate CanMake(attempts: seq<Attempt>, m: Made, start: real) {
    exists more :: Makes(attempts, more, m, start)
  }

  lemma MakesAtOnce(attempts: seq<Attempt>, w: World, p: Attempt, m: Made, start: real)
    requires InTime(attempts, start) && Timely(p, ClockOf(attempts, start)) && p.ending == Saved
    requires RunOf(attempts) == w && Next(w, p).made == w.made + [m]
    ensures CanMake(attempts, m, start)
  {
    InTimeMore(attempts, p, start);
    assert Makes(attempts, [p], m, start);
  }

  lemma MakesLater(attempts: seq<Attempt>, p: Attempt, m: Made, start: real)
    requires p.ending == Saved && CanMake(attempts + [p], m, start)
    requires RunOf(attempts + [p]).made == RunOf(attempts).made
    ensures CanMake(attempts, m, start)
  {
    var more :| Makes(attempts + [p], more, m, start);
    MakesJoined(attempts, p, more, m, start);
  }

  lemma MakesJoined(attempts: seq<Attempt>, p: Attempt, more: seq<Attempt>, m: Made, start: real)
    requires p.ending == Saved && Makes(attempts + [p], more, m, start)
    requires RunOf(attempts + [p]).made == RunOf(attempts).made
    ensures Makes(attempts, [p] + more, m, start)
  {
    assert attempts + ([p] + more) == attempts + [p] + more;
  }

  /** First an attempt that makes nothing, then one that makes `m`. */
  lemma MakesInTwo(attempts: seq<Attempt>, w: World, p: Attempt, q: Attempt, m: Made, start: real)
    requires InTime(attempts, start) && Timely(p, ClockOf(attempts, start))
    requires Timely(q, EndOfAttempt(p, ClockOf(attempts, start))) && p.ending == q.ending == Saved
    requires RunOf(attempts) == w && Next(w, p).made == w.made && Next(Next(w, p), q).made == w.made + [m]
    ensures CanMake(attempts, m, start)
  {
    InTimeMore(attempts, p, start);
    MakesAtOnce(attempts + [p], Next(w, p), q, m, start);
    MakesLater(attempts, p, m, start);
  }

  /** Of two saved passes the least gap apart only the second promotes. */
  ghost predicate SecondPassMakes(w: World, at: real, m: Made) {
    var p, q := SavedPass(m.version, at), SavedPass(m.version, at + MIN_GAP);
    && Next(w, p).made == w.made
    && Next(Next(w, p), q).made == w.made + [m]
  }

  lemma MakesInPasses(attempts: seq<Attempt>, w: World, at: real, m: Made, start: real)
    requires InTime(attempts, start) && ClockOf(attempts, start) == at && RunOf(attempts) == w
    requires SecondPassMakes(w, at, m)
    ensures CanMake(attempts, m, start)
  {
    SavedPassTimely(m.version, at, at);
    SavedPassTimely(m.version, at + MIN_GAP, at);
    MakesInTwo(attempts, w, SavedPass(m.version, at), SavedPass(m.version, at + MIN_GAP), m, start);
  }

  lemma SavedPassTimely(v: int, t: real, now: real)
    requires now <= t
    ensures Timely(SavedPass(v, t), now) && EndOfAttempt(SavedPass(v, t), now) == t
  {
  }

  lemma RaisedReopens(w: World, a: Attempt, at: real)
    requires Promotes(w.run, a.event) && a.ending == Raised(at) && a.event.check <= at
    ensures SecondPassMakes(Next(w, a), at, Made(a.event.version, at + MIN_GAP, true))
  {
    var left, v := Next(w, a), a.event.version;
    ReopensAfterFailure(w.run.state, v, a.event.at, a.event.check, at, at);
    SavedPassMakes(left, v, at);
    SavedPassMakes(Next(left, SavedPass(v, at)), v, at + MIN_GAP);
  }

  lemma TracelessReopens(w: World, a: Attempt, at: real, now: real)
    requires Sound(w, now) && Timely(a, now) && Promotes(w.run, a.event) && Traceless(a.ending) && a.event.done <= at
    ensures var left, v := Next(w, a), a.event.version;
            Next(left, SavedPass(v, at)).made == left.made + [Made(v, at, true)]
  {
    LaterStillOpen(w.run, a.event.version, a.event.at, a.event.check, at, at, now);
    SavedPassMakes(Next(w, a), a.event.version, at);
  }

  lemma RaisedReopening(attempts: seq<Attempt>, w: World, a: Attempt, m: Made, start: real)
    requires InTime(attempts, start) && RunOf(attempts) == Next(w, a) && a.ending.Raised?
    requires Promotes(w.run, a.event) && ClockOf(attempts, start) == a.ending.at >= a.event.check
    requires m == Made(a.event.version, a.ending.at + MIN_GAP, true)
    ensures CanMake(attempts, m, start)
  {
    RaisedReopens(w, a, a.ending.at);
    MakesInPasses(attempts, Next(w, a), a.ending.at, m, start);
  }

  lemma TracelessReopening(attempts: seq<Attempt>, w: World, a: Attempt, m: Made, now: real, start: real)
    requires InTime(attempts, start) && RunOf(attempts) == Next(w, a) && Traceless(a.ending)
    requires ClockOf(attempts, start) == EndOfAttempt(a, now) == m.at
    requires Sound(w, now) && Timely(a, now) && Promotes(w.run, a.event)
    requires m.version == a.event.version && m.counted
    ensures CanMake(attempts, m, start)
  {
    TracelessReopens(w, a, m.at, now);
    MakesAtOnce(attempts, Next(w, a), SavedPass(m.version, m.at), m, start);
  }

  /** After a promoting attempt that was not saved some saved continuation promotes the
      same candidate exactly at the earliest time. */
  lemma ReopensAtEarliest(before: seq<Attempt>, a: Attempt, start: real)
    requires InTime(before + [a], start) && Promotes(RunOf(before).run, a.event) && a.ending != Saved
    ensures CanMake(before + [a], Made(a.event.version, Earliest(a), true), start)
  {
    var m := Made(a.event.version, Earliest(a), true);
    InTimeMore(before, a, start);
    RunLimited(before, start);
    if a.ending.Raised? {
      RaisedReopening(before + [a], RunOf(before), a, m, start);
    } else {
      TracelessReopening(before + [a], RunOf(before), a, m, ClockOf(before, start), start);
    }
  }

  /** The continuation `more` promotes again within a week of the promotion of `a`. */
  ghost predicate PromotesWithinWeek(before: seq<Attempt>, a: Attempt, more: seq<Attempt>, start: real)
    requires a.event.Validated?
  {
    var known, made := |RunOf(before + [a]).made|, RunOf(before + [a] + more).made;
    && InTime(before + [a] + more, start)
    && exists j :: known <= j < |made| && made[j].at < a.event.done + WEEK
  }

  /** A promotion can be followed by another within a week if and only if its cycle was
      not saved and ended early enough for that. */
  lemma SpacingFailsExactly(before: seq<Attempt>, a: Attempt, start: real)
    requires InTime(before + [a], start) && Promotes(RunOf(before).run, a.event)
    ensures (exists more :: PromotesWithinWeek(before, a, more, start)) <==>
            a.ending != Saved && Earliest(a) < a.event.done + WEEK
  {
    forall more | PromotesWithinWeek(before, a, more, start)
      ensures a.ending != Saved && Earliest(a) < a.event.done + WEEK
    {
      NoneEarlier(before, a, more, start);
    }
    if a.ending != Saved && Earliest(a) < a.event.done + WEEK {
      ReopensAtEarliest(before, a, start);
      var m := Made(a.event.version, Earliest(a), true);
      var more :| Makes(before + [a], more, m, start);
      MakesSoon(before, a, more, m, start);
    }
  }

  lemma MakesSoon(before: seq<Attempt>, a: Attempt, more: seq<Attempt>, m: Made, start: real)
    requires a.event.Validated? && Makes(before + [a], more, m, start) && m.at < a.event.done + WEEK
    ensures PromotesWithinWeek(before, a, more, start)
  {
    assert RunOf(before + [a] + more).made[|RunOf(before + [a]).made|] == m;
  }

  // ---------------------------------------------------------------------------
  // The cap
  // ---------------------------------------------------------------------------

  const DAY := SECONDS_PER_DAY

  /** While the counter allows it the gate can always be opened. */
  lemma RestOpens(s: State, now: real)
    requires s.promotions < MAX_PROMOTIONS && (s.lastPromotion.Some? ==> s.lastPromotion.value <= now)
    ensures var t := now + 8.0 * DAY;
            var first := RecordPassed(ForceRollback(s, now), 9, t);
            && !CanPromote(first, 9, true, t)
            && CanPromote(RecordPassed(first, 9, t + MIN_GAP), 9, true, t + MIN_GAP)
  {
    var t := now + 8.0 * DAY;
    var rested := ForceRollback(s, now);
    var first := RecordPassed(rested, 9, t);
    var second := RecordPassed(first, 9, t + MIN_GAP);
    assert first.windows == [Window(t, true, Some(9))];
    assert second.windows == [Window(t, true, Some(9)), Window(t + MIN_GAP, true, Some(9))];
    assert s.lastPromotion.Some? ==> Days(t + MIN_GAP - s.lastPromotion.value) >= COOLDOWN_DAYS by {
      if s.lastPromotion.Some? {
        DaysGrow(8.0 * DAY, t + MIN_GAP - s.lastPromotion.value);
        EightDays();
      }
    }
  }

  lemma EightDays()
    ensures Days(8.0 * DAY) == 8
  {
  }

  lemma LastPromotionPast(log: seq<Entry>, now: real)
    requires Sorted(log, now)
    ensures LastPromotion(log).Some? ==> LastPromotion(log).value <= now
    decreases |log|
  {
    if log != [] {
      LastPromotionPast(log[..|log| - 1], now);
    }
  }

  lemma RestMakes(w: World, p: Attempt, q: Attempt, r: Attempt, now: real)
    requires Sound(w, now) && Counted(w.made) < MAX_PROMOTIONS
    requires p == Attempt(Degraded(now), Saved) && q == SavedPass(9, now + 8.0 * DAY)
    requires r == SavedPass(9, now + 8.0 * DAY + MIN_GAP)
    ensures Next(w, p).made == w.made && Next(Next(w, p), q).made == w.made
    ensures Next(Next(Next(w, p), q), r).made == w.made + [Made(9, now + 8.0 * DAY + MIN_GAP, true)]
  {
    LastPromotionPast(w.run.log, now);
    RestOpens(w.run.state, now);
    assert Next(w, p).made == w.made && Next(w, p).run.state == ForceRollback(w.run.state, now);
    SavedPassMakes(Next(w, p), 9, now + 8.0 * DAY);
    SavedPassMakes(Next(Next(w, p), q), 9, now + 8.0 * DAY + MIN_GAP);
  }

  /** A rollback, eight days of rest and two passes make one more. */
  lemma OneMoreIsMade(attempts: seq<Attempt>, start: real)
    requires InTime(attempts, start) && Counted(RunOf(attempts).made) < MAX_PROMOTIONS
    ensures exists m :: CanMake(attempts, m, start) && m.counted
  {
    var w, now := RunOf(attempts), ClockOf(attempts, start);
    var p, q := Attempt(Degraded(now), Saved), SavedPass(9, now + 8.0 * DAY);
    var r := SavedPass(9, now + 8.0 * DAY + MIN_GAP);
    RunLimited(attempts, start);
    RestMakes(w, p, q, r, now);
    MakesInThree(attempts, w, p, q, r, Made(9, now + 8.0 * DAY + MIN_GAP, true), start);
  }

  lemma MakesInThree(attempts: seq<Attempt>, w: World, p: Attempt, q: Attempt, r: Attempt, m: Made, start: real)
    requires InTime(attempts, start) && Timely(p, ClockOf(attempts, start))
    requires Timely(q, EndOfAttempt(p, ClockOf(attempts, start)))
    requires Timely(r, EndOfAttempt(q, EndOfAttempt(p, ClockOf(attempts, start))))
    requires p.ending == q.ending == r.ending == Saved
    requires RunOf(attempts) == w && Next(w, p).made == w.made && Next(Next(w, p), q).made == w.made
    requires Next(Next(Next(w, p), q), r).made == w.made + [m]
    ensures CanMake(attempts, m, start)
  {
    InTimeMore(attempts, p, start);
    MakesInTwo(attempts + [p], Next(w, p), q, r, m, start);
    MakesLater(attempts, p, m, start);
  }

  lemma {:induction false} SavedCounted(attempts: seq<Attempt>, more: seq<Attempt>)
    requires AllSaved(more)
    ensures var made, all := RunOf(attempts).made, RunOf(attempts + more).made;
            |all| - |made| == Counted(all) - Counted(made)
    decreases |more|
  {
    if more == [] {
      assert attempts + more == attempts;
    } else {
      var n := |more| - 1;
      var w := RunOf(attempts + more[..n]);
      SavedCounted(attempts, more[..n]);
      LastApart(attempts, more);
      RunMore(attempts + more[..n], more[n]);
      SavedOneCounted(w, more[n]);
    }
  }

  lemma SavedOneCounted(w: World, a: Attempt)
    requires a.ending == Saved
    ensures |Next(w, a).made| - |w.made| == Counted(Next(w, a).made) - Counted(w.made)
  {
    if Promotes(w.run, a.event) {
      CountedMore(w.made, MadeBy(w.run, a)[0]);
    } else {
      assert Next(w, a).made == w.made;
    }
  }

  ghost predicate PassesCap(attempts: seq<Attempt>, more: seq<Attempt>, start: real) {
    AllSaved(more) && InTime(attempts + more, start) && |RunOf(attempts + more).made| > MAX_PROMOTIONS
  }

  /** A run can be continued by saved cycles to more than two promotions if and only if
      one of its promotions is not counted. */
  lemma CapFailsExactly(attempts: seq<Attempt>, start: real)
    requires InTime(attempts, start)
    ensures (exists more :: PassesCap(attempts, more, start)) <==>
            exists m :: m in RunOf(attempts).made && !m.counted
  {
    CountedAll(RunOf(attempts).made);
    forall more | PassesCap(attempts, more, start) ensures Counted(RunOf(attempts).made) < |RunOf(attempts).made| {
      RunLimited(attempts + more, start);
      SavedCounted(attempts, more);
    }
    if Counted(RunOf(attempts).made) < |RunOf(attempts).made| {
      CapPassed(attempts, start);
    }
  }

  lemma {:induction false} CountedAll(made: seq<Made>)
    ensures Counted(made) <= |made|
    ensures Counted(made) < |made| <==> exists m :: m in made && !m.counted
    decreases |made|
  {
    if made != [] {
      var n := |made| - 1;
      CountedAll(made[..n]);
      assert made == made[..n] + [made[n]];
      if m :| m in made[..n] && !m.counted {
        assert m in made;
      } else if !made[n].counted {
        assert made[n] in made;
      }
    }
  }

  lemma {:induction false} CapPassed(attempts: seq<Attempt>, start: real)
    requires InTime(attempts, start) && Counted(RunOf(attempts).made) < |RunOf(attempts).made|
    ensures exists more :: PassesCap(attempts, more, start)
    decreases MAX_PROMOTIONS - Counted(RunOf(attempts).made)
  {
    RunLimited(attempts, start);
    if Counted(RunOf(attempts).made) == MAX_PROMOTIONS {
      assert attempts + [] == attempts;
      assert PassesCap(attempts, [], start);
    } else {
      OneMoreIsMade(attempts, start);
      var m :| CanMake(attempts, m, start) && m.counted;
      var more :| Makes(attempts, more, m, start);
      CountedMore(RunOf(attempts).made, m);
      CapPassed(attempts + more, start);
      CapPassedLater(attempts, more, start);
    }
  }

  lemma CapPassedLater(attempts: seq<Attempt>, more: seq<Attempt>, start: real)
    requires AllSaved(more) && exists rest :: PassesCap(attempts + more, rest, start)
    ensures exists rest :: PassesCap(attempts, rest, start)
  {
    var rest :| PassesCap(attempts + more, rest, start);
    assert attempts + (more + rest) == attempts + more + rest;
    assert PassesCap(attempts, more + rest, start);
  }
}
