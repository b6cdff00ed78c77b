/** Governance when a cycle can end between promoting in the policy store and saving the
    governance state: which promotions the counters know of, and what still limits the
    others. */
module LostPromotions {
  import opened Options
  import opened Governance

  /** A cycle saves its state; or the process dies before that; or saving raises, and the
      handler records a failed window on the state last saved; or saving raises and so
      does the handler's own save, which is swallowed. */
  datatype Ending = Saved | Died | Raised(at: real) | Swallowed(at: real)

  /** The state stays what was last saved. */
  predicate Traceless(e: Ending) {
    e.Died? || e.Swallowed?
  }

  datatype Attempt = Attempt(event: Event, ending: Ending)

  /** A promotion in the store, and whether the state counts it. */
  datatype Made = Made(version: int, at: real, counted: bool)

  datatype World = World(run: Run, made: seq<Made>)

  const FIRST := World(START, [])

  predicate Promotes(r: Run, e: Event) {
    e.Validated? && CanPromote(RecordPassed(r.state, e.version, e.at), e.version, e.judged, e.check)
  }

  function MadeBy(r: Run, a: Attempt): seq<Made> {
    if Promotes(r, a.event) then [Made(a.event.version, a.event.done, a.ending == Saved)] else []
  }

  function Next(w: World, a: Attempt): World {
    World(match a.ending
          case Saved => Step(w.run, a.event)
          case Died => w.run
          case Swallowed(_) => w.run
          case Raised(at) => Step(w.run, Rejected(None, at)),
          w.made + MadeBy(w.run, a))
  }

  function RunOf(attempts: seq<Attempt>): World {
    if attempts == [] then FIRST else Next(RunOf(attempts[..|attempts| - 1]), attempts[|attempts| - 1])
  }

  function EndOfAttempt(a: Attempt, before: real): real {
    if a.ending.Raised? || a.ending.Swallowed? then a.ending.at else EndOf(a.event, before)
  }

  predicate Timely(a: Attempt, before: real) {
    InOrder(a.event, before) && EndOf(a.event, before) <= EndOfAttempt(a, before)
  }

  function ClockOf(attempts: seq<Attempt>, start: real): real {
    if attempts == [] then start
    else EndOfAttempt(attempts[|attempts| - 1], ClockOf(attempts[..|attempts| - 1], start))
  }

  ghost predicate InTime(attempts: seq<Attempt>, start: real) {
    attempts != [] ==>
      && InTime(attempts[..|attempts| - 1], start)
      && Timely(attempts[|attempts| - 1], ClockOf(attempts[..|attempts| - 1], start))
  }

  function Counted(made: seq<Made>): nat {
    if made == [] then 0 else Counted(made[..|made| - 1]) + if made[|made| - 1].counted then 1 else 0
  }

  /** A counted promotion keeps every later one, counted or not, seven days away; and at
      most two are counted. */
  ghost predicate Limited(made: seq<Made>) {
    && Counted(made) <= MAX_PROMOTIONS
    && forall a, b :: 0 <= a < b < |made| && made[a].counted ==>
         made[b].at - made[a].at >= COOLDOWN_DAYS as real * SECONDS_PER_DAY
  }

  ghost predicate InLog(m: Made, log: seq<Entry>) {
    exists k :: 0 <= k < |log| && log[k] == Promotion(m.version, m.at)
  }

  ghost predicate Known(w: World) {
    && Counted(w.made) == Promotions(w.run.log)
    && forall a :: 0 <= a < |w.made| && w.made[a].counted ==> InLog(w.made[a], w.run.log)
  }

  ghost predicate Sound(w: World, now: real) {
    Summarises(w.run) && Sorted(w.run.log, now) && Governed(w.run.log) && Known(w) && Limited(w.made)
  }

  lemma CountedMore(made: seq<Made>, m: Made)
    ensures Counted(made + [m]) == Counted(made) + if m.counted then 1 else 0
  {
    assert (made + [m])[..|made|] == made;
  }

  /** The gate only opens seven days after the last promotion in the log. */
  lemma MadeSpaced(r: Run, e: Event, now: real)
    requires Summarises(r) && Sorted(r.log, now) && InOrder(e, now) && Promotes(r, e)
    ensures forall k :: 0 <= k < |r.log| && r.log[k].Promotion? ==>
              e.done - r.log[k].at >= COOLDOWN_DAYS as real * SECONDS_PER_DAY
  {
    var credited := Run(RecordPassed(r.state, e.version, e.at), r.log + [Pass(e.version, e.at)]);
    PassSummarised(r, e.version, e.at);
    assert Sorted(credited.log, e.check);
    PromotionSpaced(credited, e.version, e.judged, e.check, e.done);
    var more := credited.log + [Promotion(e.version, e.done)];
    forall k | 0 <= k < |r.log| && r.log[k].Promotion?
      ensures e.done - r.log[k].at >= COOLDOWN_DAYS as real * SECONDS_PER_DAY
    {
      assert more[k] == r.log[k] && more[|credited.log|] == Promotion(e.version, e.done);
    }
  }

  /** What a saved cycle adds to the log: the promotion it made, and nothing is lost. */
  lemma SavedLog(r: Run, e: Event)
    ensures var after := Step(r, e).log;
            && r.log <= after
            && Promotions(after) == Promotions(r.log) + (if Promotes(r, e) then 1 else 0)
            && (Promotes(r, e) ==> after[|after| - 1] == Promotion(e.version, e.done))
  {
    match e
    case Skipped =>
    case Degraded(at) => LogStep(r.log, AutoRollback(at));
    case Rejected(_, at) => LogStep(r.log, Fail(at));
    case Operator(at) => LogStep(r.log, Manual(at));
    case Validated(v, _, at, _, done) =>
      PassAndPromotionLog(r.log, v, at, done);
  }

  lemma PassAndPromotionLog(log: seq<Entry>, v: int, at: real, done: real)
    ensures var credited := log + [Pass(v, at)];
            && log <= credited <= credited + [Promotion(v, done)]
            && Promotions(credited) == Promotions(log)
            && Promotions(credited + [Promotion(v, done)]) == Promotions(log) + 1
  {
    LogStep(log, Pass(v, at));
    LogStep(log + [Pass(v, at)], Promotion(v, done));
  }

  lemma InLongerLog(m: Made, log: seq<Entry>, more: seq<Entry>)
    requires InLog(m, log) && log <= more
    ensures InLog(m, more)
  {
    var k :| 0 <= k < |log| && log[k] == Promotion(m.version, m.at);
    assert more[k] == log[k];
  }

  lemma NextKnown(w: World, a: Attempt)
    requires Known(w)
    ensures Known(Next(w, a))
  {
    var next := Next(w, a);
    SavedLog(w.run, a.event);
    if a.ending.Raised? {
      SavedLog(w.run, Rejected(None, a.ending.at));
    }
    if Promotes(w.run, a.event) {
      CountedMore(w.made, MadeBy(w.run, a)[0]);
    } else {
      assert next.made == w.made;
    }
    forall i | 0 <= i < |next.made| && next.made[i].counted ensures InLog(next.made[i], next.run.log) {
      if i < |w.made| {
        InLongerLog(w.made[i], w.run.log, next.run.log);
      } else {
        assert next.run.log[|next.run.log| - 1] == Promotion(next.made[i].version, next.made[i].at);
      }
    }
  }

  lemma NextLimited(w: World, a: Attempt, now: real)
    requires Sound(w, now) && Timely(a, now) && Known(Next(w, a)) && Governed(Next(w, a).run.log)
    ensures Limited(Next(w, a).made)
  {
    var next := Next(w, a);
    if Promotes(w.run, a.event) {
      MadeSpaced(w.run, a.event, now);
      forall i, j | 0 <= i < j < |next.made| && next.made[i].counted
        ensures next.made[j].at - next.made[i].at >= COOLDOWN_DAYS as real * SECONDS_PER_DAY
      {
        assert next.made[i] == w.made[i];
        if j == |w.made| {
          var k :| 0 <= k < |w.run.log| && w.run.log[k] == Promotion(w.made[i].version, w.made[i].at);
        } else {
          assert next.made[j] == w.made[j];
        }
      }
    } else {
      assert next.made == w.made;
    }
  }

  lemma NextSound(w: World, a: Attempt, now: real)
    requires Sound(w, now) && Timely(a, now)
    ensures Sound(Next(w, a), EndOfAttempt(a, now))
  {
    match a.ending {
      case Saved =>
        StepSummarises(w.run, a.event);
        StepSorted(w.run, a.event, now);
        StepGoverned(w.run, a.event, now);
      case Died =>
      case Swallowed(_) =>
      case Raised(at) =>
        var failed := Rejected(None, at);
        StepSummarises(w.run, failed);
        StepSorted(w.run, failed, now);
        StepGoverned(w.run, failed, now);
    }
    NextKnown(w, a);
    NextLimited(w, a, now);
  }

  /** Over every run with a clock that never goes back and cycles cut off anywhere: what
      limits promotions is the promotions the state counts. */
  lemma {:induction false} RunLimited(attempts: seq<Attempt>, start: real)
    requires InTime(attempts, start)
    ensures Limited(RunOf(attempts).made)
    ensures Sound(RunOf(attempts), ClockOf(attempts, start))
    decreases |attempts|
  {
    if attempts == [] {
      RunGoverned([], start);
      RunSummarises([]);
    } else {
      var n := |attempts| - 1;
      RunLimited(attempts[..n], start);
      NextSound(RunOf(attempts[..n]), attempts[n], ClockOf(attempts[..n], start));
    }
  }

  /** Right after a promotion the same candidate's next pass promotes it again exactly
      when the cycle left no trace in the state. */
  lemma LostPromotionRepeats(w: World, v: int, at: real, check: real, done: real, ending: Ending,
                             at2: real, check2: real, done2: real, now: real)
    requires Sound(w, now) && now <= at <= check <= done <= at2 <= check2 <= done2
    requires Promotes(w.run, Validated(v, true, at, check, done))
    ensures var after := Next(w, Attempt(Validated(v, true, at, check, done), ending));
            Promotes(after.run, Validated(v, true, at2, check2, done2)) <==> Traceless(ending)
  {
    if Traceless(ending) {
      LaterStillOpen(w.run, v, at, check, at2, check2, now);
    }
  }

  lemma LaterStillOpen(r: Run, v: int, at: real, check: real, at2: real, check2: real, now: real)
    requires Summarises(r) && Sorted(r.log, now) && now <= at <= check && at <= at2 && check <= check2
    requires CanPromote(RecordPassed(r.state, v, at), v, true, check)
    ensures CanPromote(RecordPassed(r.state, v, at2), v, true, check2)
  {
    var s := r.state;
    assert s.passCandidate == Some(v) && s.streak > 0;
    LastWindowPast(r, now);
    LastTwoMore(s.windows, Window(at, true, Some(v)));
    LastTwoMore(s.windows, Window(at2, true, Some(v)));
    GateLater(RecordPassed(s, v, at), RecordPassed(s, v, at2), v, check, check2);
  }

  lemma LastTwoMore(windows: seq<Window>, w: Window)
    requires windows != []
    ensures LastTwo(windows + [w]) == [windows[|windows| - 1], w]
  {
  }

  /** Apart from the windows, time only opens the gate. */
  lemma GateLater(s: State, t: State, v: int, check: real, check2: real)
    requires CanPromote(s, v, true, check) && check <= check2 && TwoPassWindows(t, v)
    requires t == s.(windows := t.windows)
    ensures CanPromote(t, v, true, check2)
  {
    if s.lastPromotion.Some? {
      DaysGrow(check - s.lastPromotion.value, check2 - s.lastPromotion.value);
    }
  }

  /** A running streak's last window lies in the past. */
  lemma LastWindowPast(r: Run, now: real)
    requires Summarises(r) && Sorted(r.log, now) && r.state.streak > 0
    ensures r.state.windows != [] && r.state.windows[|r.state.windows| - 1].cycle <= now
  {
    var streak := Streak(r.log);
    StreakLast(r.log);
    var j :| 0 <= j < |r.log| && r.log[j] == streak[|streak| - 1] && Quiet(r.log, j, |r.log|, j);
    var last := LastTwo(streak);
    assert r.state.windows[|last| - 1] == AsWindow(last[|last| - 1]);
    assert last[|last| - 1] == r.log[j] && r.log[j].at <= now;
    assert streak[|streak| - 1] in streak;
  }

  lemma DaysGrow(x: real, y: real)
    requires x <= y
    ensures Days(x) <= Days(y)
  {
    assert x / SECONDS_PER_DAY <= y / SECONDS_PER_DAY;
  }

  lemma RunMore(attempts: seq<Attempt>, a: Attempt)
    ensures RunOf(attempts + [a]) == Next(RunOf(attempts), a)
  {
    assert (attempts + [a])[..|attempts + [a]| - 1] == attempts;
  }

  lemma LastApart(before: seq<Attempt>, more: seq<Attempt>)
    requires more != []
    ensures before + more == before + more[..|more| - 1] + [more[|more| - 1]]
  {
  }

  /** A cycle that promotes and leaves no trace in the state. */
  predicate IsLost(r: Run, a: Attempt) {
    Traceless(a.ending) && Promotes(r, a.event)
  }

  function LostBy(a: Attempt): Made {
    if a.event.Validated? then Made(a.event.version, a.event.done, false) else Made(0, 0.0, false)
  }

  function Lost(lost: seq<Attempt>): seq<Made> {
    seq(|lost|, i requires 0 <= i < |lost| => LostBy(lost[i]))
  }

  lemma LostMore(made: seq<Made>, lost: seq<Attempt>)
    requires lost != []
    ensures made + Lost(lost) == made + Lost(lost[..|lost| - 1]) + [LostBy(lost[|lost| - 1])]
  {
  }

  /** Lost promotions leave no trace in the state, however many there are. */
  lemma {:induction false} LostLeaveNoTrace(before: seq<Attempt>, lost: seq<Attempt>)
    requires forall i :: 0 <= i < |lost| ==> IsLost(RunOf(before).run, lost[i])
    ensures var w := RunOf(before + lost);
            && w.run == RunOf(before).run
            && w.made == RunOf(before).made + Lost(lost)
            && Counted(w.made) == Counted(RunOf(before).made)
    decreases |lost|
  {
    var r := RunOf(before);
    if lost == [] {
      assert before + lost == before;
    } else {
      var n := |lost| - 1;
      var w := RunOf(before + lost[..n]);
      LostLeaveNoTrace(before, lost[..n]);
      LastApart(before, lost);
      RunMore(before + lost[..n], lost[n]);
      LostStep(w, lost[n]);
      LostMore(r.made, lost);
    }
  }

  lemma LostStep(w: World, a: Attempt)
    requires IsLost(w.run, a)
    ensures var next := Next(w, a);
            next.run == w.run && next.made == w.made + [LostBy(a)] && Counted(next.made) == Counted(w.made)
  {
    CountedMore(w.made, MadeBy(w.run, a)[0]);
  }

  const FIRST_PASS := Attempt(Validated(7, true, 0.0, 0.0, 0.0), Saved)

  /** One candidate, promoted again every second by cycles that die before saving. */
  function Again(i: nat): Attempt {
    var at := 1000.0 + i as real;
    Attempt(Validated(7, true, at, at, at), Died)
  }

  function Repeats(n: nat): seq<Attempt> {
    seq(n, i requires 0 <= i < n => Again(i))
  }

  /** So without saving there is no cap and no spacing: any number of promotions, a
      second apart, none of them counted. */
  lemma NoLimitWithoutSaving(n: nat)
    ensures var made := RunOf([FIRST_PASS] + Repeats(n)).made;
            && |made| == n && Counted(made) == 0
            && forall i :: 0 <= i < n ==> made[i] == Made(7, 1000.0 + i as real, false)
  {
    RunMore([], FIRST_PASS);
    assert [] + [FIRST_PASS] == [FIRST_PASS];
    OnePass();
    forall i | 0 <= i < n ensures IsLost(PassedOnce(), Repeats(n)[i]) {
      StillOpen(i);
    }
    LostLeaveNoTrace([FIRST_PASS], Repeats(n));
  }

  function PassedOnce(): Run {
    Run(FRESH.(windows := [Window(0.0, true, Some(7))], streak := 1, passCandidate := Some(7)), [Pass(7, 0.0)])
  }

  lemma OnePass()
    ensures Next(FIRST, FIRST_PASS) == World(PassedOnce(), [])
  {
  }

  lemma StillOpen(i: nat)
    ensures Promotes(PassedOnce(), Again(i).event)
  {
  }
}
