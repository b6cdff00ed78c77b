/** The evolution governance state: pass windows, streak, cooldown and breaker, driven
    by one event per cycle or operator action, and the full history they summarise.
    Times are seconds. */
module Governance {
  import opened Options

  const MIN_GAP := 600.0
  const COOLDOWN_DAYS := 7
  const SECONDS_PER_DAY := 86400.0
  const COOLDOWN_HOURS := 24.0
  const MAX_PROMOTIONS := 2
  const MAX_ROLLBACKS := 2

  datatype Window = Window(cycle: real, passed: bool, candidate: Option<int>)

  datatype State = State(
    windows: seq<Window>, streak: nat, passCandidate: Option<int>,
    lastPromotion: Option<real>, promotions: nat, rollbacks: nat, cooldownStart: Option<real>)

  const FRESH := State([], 0, None, None, 0, 0, None)

  function LastTwo<T>(s: seq<T>): seq<T> {
    if |s| <= 2 then s else s[|s| - 2..]
  }

  // ---------------------------------------------------------------------------
  // Transitions
  // ---------------------------------------------------------------------------

  function RecordPassed(s: State, v: int, at: real): State {
    var same := s.passCandidate == Some(v);
    s.(windows := LastTwo((if same then s.windows else []) + [Window(at, true, Some(v))]),
       streak := (if same then s.streak else 0) + 1,
       passCandidate := Some(v))
  }

  /** A pass of no particular candidate, which older callers record: the bank is kept. */
  function RecordUnversioned(s: State, at: real): State {
    s.(windows := LastTwo(s.windows + [Window(at, true, None)]), streak := s.streak + 1)
  }

  function RecordFailed(s: State, v: Option<int>, at: real): State {
    s.(windows := LastTwo(s.windows + [Window(at, false, v)]), streak := 0, passCandidate := None)
  }

  function Abs(x: real): real {
    if x < 0.0 then -x else x
  }

  predicate TwoPassWindows(s: State, v: int) {
    var w := s.windows;
    && |w| >= 2
    && w[|w| - 2].passed && w[|w| - 1].passed
    && w[|w| - 2].candidate == Some(v) && w[|w| - 1].candidate == Some(v) && s.passCandidate == Some(v)
    && Abs(w[|w| - 1].cycle - w[|w| - 2].cycle) >= MIN_GAP
  }

  /** Whole days between two times, as `timedelta.days` counts them. */
  function Days(span: real): int {
    (span / SECONDS_PER_DAY).Floor
  }

  /** `judged` is the cold-start gate on the number of judged queries. */
  predicate CanPromote(s: State, v: int, judged: bool, now: real) {
    && judged
    && s.streak >= 2
    && TwoPassWindows(s, v)
    && (s.lastPromotion.Some? ==> Days(now - s.lastPromotion.value) >= COOLDOWN_DAYS)
    && s.promotions < MAX_PROMOTIONS
    && (s.rollbacks >= MAX_ROLLBACKS ==>
          s.cooldownStart.Some? && (now - s.cooldownStart.value) / 3600.0 >= COOLDOWN_HOURS)
  }

  function RecordPromotion(s: State, at: real): State {
    s.(lastPromotion := Some(at), promotions := s.promotions + 1, rollbacks := 0,
       streak := 0, passCandidate := None, windows := [])
  }

  /** The pass candidate is not cleared. */
  function ForceRollback(s: State, at: real): State {
    s.(rollbacks := s.rollbacks + 1,
       cooldownStart := if s.rollbacks + 1 >= MAX_ROLLBACKS then Some(at) else s.cooldownStart,
       streak := 0, windows := [])
  }

  /** The operator's rollback bumps the counter and nothing else. */
  function ManualRollback(s: State): State {
    s.(rollbacks := s.rollbacks + 1)
  }

  // ---------------------------------------------------------------------------
  // Runs and their history
  // ---------------------------------------------------------------------------

  /** What a cycle or an operator does.  A validated candidate is credited at `at`,
      the gate reads the clock at `check`, a promotion is recorded at `done`. */
  datatype Event =
    | Skipped
    | Degraded(at: real)
    | Rejected(candidate: Option<int>, at: real)
    | Validated(version: int, judged: bool, at: real, check: real, done: real)
    | Operator(at: real)

  datatype Entry =
    | Pass(version: int, at: real)
    | Fail(at: real)
    | AutoRollback(at: real)
    | Manual(at: real)
    | Promotion(version: int, at: real)

  datatype Run = Run(state: State, log: seq<Entry>)

  const START := Run(FRESH, [])

  function Step(r: Run, e: Event): Run {
    match e
    case Skipped => r
    case Degraded(at) => Run(ForceRollback(r.state, at), r.log + [AutoRollback(at)])
    case Rejected(v, at) => Run(RecordFailed(r.state, v, at), r.log + [Fail(at)])
    case Operator(at) => Run(ManualRollback(r.state), r.log + [Manual(at)])
    case Validated(v, judged, at, check, done) =>
      var credited := Run(RecordPassed(r.state, v, at), r.log + [Pass(v, at)]);
      if CanPromote(credited.state, v, judged, check)
      then Run(RecordPromotion(credited.state, done), credited.log + [Promotion(v, done)])
      else credited
  }

  function RunAll(r: Run, events: seq<Event>): Run {
    if events == [] then r else Step(RunAll(r, events[..|events| - 1]), events[|events| - 1])
  }

  /** The time an event ends, given when the one before it ended. */
  function EndOf(e: Event, before: real): real {
    match e
    case Skipped => before
    case Degraded(at) => at
    case Rejected(_, at) => at
    case Operator(at) => at
    case Validated(_, _, _, _, done) => done
  }

  predicate InOrder(e: Event, before: real) {
    match e
    case Skipped => true
    case Degraded(at) => before <= at
    case Rejected(_, at) => before <= at
    case Operator(at) => before <= at
    case Validated(_, _, at, check, done) => before <= at <= check <= done
  }

  function Clock(events: seq<Event>, start: real): real {
    if events == [] then start else EndOf(events[|events| - 1], Clock(events[..|events| - 1], start))
  }

  /** The clock never goes back. */
  ghost predicate Monotone(events: seq<Event>, start: real) {
    events != [] ==>
      Monotone(events[..|events| - 1], start)
      && InOrder(events[|events| - 1], Clock(events[..|events| - 1], start))
  }

  // ---------------------------------------------------------------------------
  // What the state summarises
  // ---------------------------------------------------------------------------

  /** The passes that count: those of one candidate since the last failure, automatic
      rollback, promotion or other candidate's pass. */
  function Streak(log: seq<Entry>): seq<Entry> {
    if log == [] then [] else
      var before, last := Streak(log[..|log| - 1]), log[|log| - 1];
      match last
      case Pass(v, _) => if before != [] && VersionOf(before[0]) == Some(v) then before + [last] else [last]
      case Manual(_) => before
      case _ => []
  }

  function VersionOf(e: Entry): Option<int> {
    if e.Pass? then Some(e.version) else None
  }

  function Promotions(log: seq<Entry>): nat {
    if log == [] then 0 else Promotions(log[..|log| - 1]) + if log[|log| - 1].Promotion? then 1 else 0
  }

  function LastPromotion(log: seq<Entry>): Option<real> {
    if log == [] then None
    else if log[|log| - 1].Promotion? then Some(log[|log| - 1].at)
    else LastPromotion(log[..|log| - 1])
  }

  /** Rollbacks, of either kind, since the last promotion. */
  function Rollbacks(log: seq<Entry>): nat {
    if log == [] then 0 else
      match log[|log| - 1]
      case Promotion(_, _) => 0
      case AutoRollback(_) => Rollbacks(log[..|log| - 1]) + 1
      case Manual(_) => Rollbacks(log[..|log| - 1]) + 1
      case _ => Rollbacks(log[..|log| - 1])
  }

  /** The latest automatic rollback that found or left the breaker tripped. */
  function Cooldown(log: seq<Entry>): Option<real> {
    if log == [] then None
    else if log[|log| - 1].AutoRollback? && Rollbacks(log) >= MAX_ROLLBACKS then Some(log[|log| - 1].at)
    else Cooldown(log[..|log| - 1])
  }

  function AsWindow(e: Entry): Window {
    Window(if e.Pass? then e.at else 0.0, true, VersionOf(e))
  }

  ghost predicate OneCandidate(streak: seq<Entry>) {
    forall e :: e in streak ==> e.Pass? && VersionOf(e) == VersionOf(streak[0])
  }

  /** The ring buffer, counters and timestamps are what the history says. */
  ghost predicate Summarises(r: Run) {
    var s, streak := r.state, Streak(r.log);
    && OneCandidate(streak)
    && s.streak == |streak|
    && (streak != [] ==>
          && s.passCandidate == VersionOf(streak[0])
          && s.windows == seq(|LastTwo(streak)|, i requires 0 <= i < |LastTwo(streak)| => AsWindow(LastTwo(streak)[i])))
    && (streak == [] ==> s.passCandidate == None || s.windows == [])
    && s.promotions == Promotions(r.log)
    && s.lastPromotion == LastPromotion(r.log)
    && s.rollbacks == Rollbacks(r.log)
    && s.cooldownStart == Cooldown(r.log)
  }

  lemma LogStep(log: seq<Entry>, e: Entry)
    ensures (log + [e])[..|log + [e]| - 1] == log && (log + [e])[|log + [e]| - 1] == e
  {
  }

  lemma PassSummarised(r: Run, v: int, at: real)
    requires Summarises(r)
    ensures Summarises(Run(RecordPassed(r.state, v, at), r.log + [Pass(v, at)]))
  {
    LogStep(r.log, Pass(v, at));
  }

  lemma RollbackSummarised(r: Run, at: real)
    requires Summarises(r)
    ensures Summarises(Run(ForceRollback(r.state, at), r.log + [AutoRollback(at)]))
  {
    LogStep(r.log, AutoRollback(at));
  }

  lemma FailSummarised(r: Run, v: Option<int>, at: real)
    requires Summarises(r)
    ensures Summarises(Run(RecordFailed(r.state, v, at), r.log + [Fail(at)]))
  {
    LogStep(r.log, Fail(at));
  }

  lemma ManualSummarised(r: Run, at: real)
    requires Summarises(r)
    ensures Summarises(Run(ManualRollback(r.state), r.log + [Manual(at)]))
  {
    LogStep(r.log, Manual(at));
  }

  lemma PromotionSummarised(r: Run, v: int, at: real)
    requires Summarises(r)
    ensures Summarises(Run(RecordPromotion(r.state, at), r.log + [Promotion(v, at)]))
  {
    LogStep(r.log, Promotion(v, at));
  }

  /** Whatever a cycle does, the state it leaves still says what the history says. */
  lemma StepSummarises(r: Run, e: Event)
    requires Summarises(r)
    ensures Summarises(Step(r, e))
  {
    match e
    case Skipped =>
    case Degraded(at) => RollbackSummarised(r, at);
    case Rejected(v, at) => FailSummarised(r, v, at);
    case Operator(at) => ManualSummarised(r, at);
    case Validated(v, _, at, _, done) =>
      PassSummarised(r, v, at);
      PromotionSummarised(Run(RecordPassed(r.state, v, at), r.log + [Pass(v, at)]), v, done);
  }

  /** After any run the two-slot buffer and the counters summarise the whole history. */
  lemma {:induction false} RunSummarises(events: seq<Event>)
    ensures Summarises(RunAll(START, events))
    decreases |events|
  {
    if events != [] {
      RunSummarises(events[..|events| - 1]);
      StepSummarises(RunAll(START, events[..|events| - 1]), events[|events| - 1]);
    }
  }

  // ---------------------------------------------------------------------------
  // The window buffer
  // ---------------------------------------------------------------------------

  /** The newest of at most two windows is `w`, and the one before it was the newest. */
  ghost predicate Pushed(after: seq<Window>, before: seq<Window>, w: Window) {
    && 1 <= |after| <= 2 && after[|after| - 1] == w
    && (before == [] ==> after == [w])
    && (before != [] ==> after == [before[|before| - 1], w])
  }

  lemma LastTwoPushes(before: seq<Window>, w: Window)
    ensures Pushed(LastTwo(before + [w]), before, w)
  {
  }

  /** The newest window names the last result: a failure with its candidate, a pass with its
      candidate, after a bank that is kept only for that candidate, or a pass of none. */
  lemma NewestWindow(s: State, v: int, failed: Option<int>, at: real)
    ensures Pushed(RecordFailed(s, failed, at).windows, s.windows, Window(at, false, failed))
    ensures Pushed(RecordPassed(s, v, at).windows, if s.passCandidate == Some(v) then s.windows else [],
                   Window(at, true, Some(v)))
    ensures Pushed(RecordUnversioned(s, at).windows, s.windows, Window(at, true, None))
  {
    LastTwoPushes(s.windows, Window(at, false, failed));
    LastTwoPushes(if s.passCandidate == Some(v) then s.windows else [], Window(at, true, Some(v)));
    LastTwoPushes(s.windows, Window(at, true, None));
  }

  /** Over any run: the buffer never outgrows two, and after a cycle that failed or passed
      without promoting its newest window is that cycle's. */
  lemma {:induction false} BufferNamesLast(events: seq<Event>)
    ensures |RunAll(START, events).state.windows| <= 2
    ensures events != [] ==>
              var s, last := RunAll(START, events).state, events[|events| - 1];
              && (last.Rejected? ==> s.windows != [] && s.windows[|s.windows| - 1] == Window(last.at, false, last.candidate)
                                     && s.streak == 0)
              && (last.Validated? && s.promotions == RunAll(START, events[..|events| - 1]).state.promotions ==>
                    s.windows != [] && s.windows[|s.windows| - 1] == Window(last.at, true, Some(last.version)))
    decreases |events|
  {
    if events != [] {
      var n := |events| - 1;
      BufferNamesLast(events[..n]);
    }
  }

  /** A pass of no candidate raises the streak and nothing else counts it: neither it nor
      the next pass of any candidate opens the gate. */
  lemma UnversionedNeverPromotes(s: State, v: int, at: real, next: real, judged: bool, now: real)
    ensures var u := RecordUnversioned(s, at);
            && u == s.(windows := u.windows, streak := s.streak + 1)
            && !CanPromote(u, v, judged, now)
            && !CanPromote(RecordPassed(u, v, next), v, judged, now)
  {
    NewestWindow(s, v, None, at);
    NewestWindow(RecordUnversioned(s, at), v, None, next);
  }

  // ---------------------------------------------------------------------------
  // What a promotion is preceded by
  // ---------------------------------------------------------------------------

  /** Only operator rollbacks lie strictly between `from` and `to`, apart from `except`. */
  ghost predicate Quiet(log: seq<Entry>, from: int, to: int, except: int) {
    forall k :: 0 <= k < |log| && from < k < to && k != except ==> log[k].Manual?
  }

  lemma {:induction false} StreakLast(log: seq<Entry>)
    requires Streak(log) != []
    ensures exists j :: 0 <= j < |log| && log[j] == Streak(log)[|Streak(log)| - 1] && Quiet(log, j, |log|, j)
    decreases |log|
  {
    var prior := log[..|log| - 1];
    if log[|log| - 1].Manual? {
      StreakLast(prior);
      var j :| 0 <= j < |prior| && prior[j] == Streak(prior)[|Streak(prior)| - 1] && Quiet(prior, j, |prior|, j);
      assert log[j] == prior[j] && Quiet(log, j, |log|, j) by {
        forall k | 0 <= k < |log| && j < k < |log| && k != j ensures log[k].Manual? {
          assert k < |prior| ==> log[k] == prior[k];
        }
      }
    } else {
      assert log[|log| - 1] == Streak(log)[|Streak(log)| - 1];
      assert Quiet(log, |log| - 1, |log|, |log| - 1);
    }
  }

  /** The last two counted passes sit in the log with only operator rollbacks after
      the first, apart from the second. */
  lemma {:induction false} StreakLastTwo(log: seq<Entry>)
    requires |Streak(log)| >= 2
    ensures exists i, j :: 0 <= i < j < |log|
              && log[i] == Streak(log)[|Streak(log)| - 2] && log[j] == Streak(log)[|Streak(log)| - 1]
              && Quiet(log, i, |log|, j)
    decreases |log|
  {
    var prior := log[..|log| - 1];
    if log[|log| - 1].Manual? {
      StreakLastTwo(prior);
      var i, j :| 0 <= i < j < |prior|
        && prior[i] == Streak(prior)[|Streak(prior)| - 2] && prior[j] == Streak(prior)[|Streak(prior)| - 1]
        && Quiet(prior, i, |prior|, j);
      assert log[i] == prior[i] && log[j] == prior[j];
      assert Quiet(log, i, |log|, j) by {
        forall k | 0 <= k < |log| && i < k < |log| && k != j ensures log[k].Manual? {
          assert k < |prior| ==> log[k] == prior[k];
        }
      }
    } else {
      StreakLast(prior);
      var i :| 0 <= i < |prior| && prior[i] == Streak(prior)[|Streak(prior)| - 1] && Quiet(prior, i, |prior|, i);
      assert log[i] == prior[i];
      assert Quiet(log, i, |log|, |log| - 1) by {
        forall k | 0 <= k < |log| && i < k < |log| && k != |log| - 1 ensures log[k].Manual? {
          assert log[k] == prior[k];
        }
      }
    }
  }

  /** Two passed windows of the promoted candidate, ten minutes apart, with no failed
      window, automatic rollback, promotion or other pass in between or since. */
  ghost predicate Justified(log: seq<Entry>, k: nat)
    requires k < |log|
  {
    exists i, j :: 0 <= i < j < k
      && log[i].Pass? && log[j].Pass? && log[k].Promotion?
      && log[i].version == log[j].version == log[k].version
      && log[j].at - log[i].at >= MIN_GAP
      && Quiet(log, i, k, j)
  }

  ghost predicate Spaced(log: seq<Entry>, k: nat)
    requires k < |log|
  {
    forall m :: 0 <= m < k && log[m].Promotion? ==> log[k].at - log[m].at >= COOLDOWN_DAYS as real * SECONDS_PER_DAY
  }

  /** An automatic rollback that leaves the breaker tripped. */
  ghost predicate Trips(log: seq<Entry>, m: nat)
    requires m < |log|
  {
    log[m].AutoRollback? && Rollbacks(log[..m + 1]) >= MAX_ROLLBACKS
  }

  ghost predicate Rested(log: seq<Entry>, k: nat)
    requires k < |log|
  {
    forall m :: 0 <= m < k && Trips(log, m) ==> log[k].at - log[m].at >= COOLDOWN_HOURS * 3600.0
  }

  ghost predicate Governed(log: seq<Entry>) {
    && Promotions(log) <= MAX_PROMOTIONS
    && forall k :: 0 <= k < |log| && log[k].Promotion? ==> Justified(log, k) && Spaced(log, k) && Rested(log, k)
  }

  ghost predicate Sorted(log: seq<Entry>, now: real) {
    && (forall a, b :: 0 <= a < b < |log| ==> log[a].at <= log[b].at)
    && (forall a :: 0 <= a < |log| ==> log[a].at <= now)
  }

  lemma {:induction false} LastPromotionBounds(log: seq<Entry>, now: real)
    requires Sorted(log, now)
    ensures forall m :: 0 <= m < |log| && log[m].Promotion? ==>
              LastPromotion(log).Some? && log[m].at <= LastPromotion(log).value
    decreases |log|
  {
    if log != [] && !log[|log| - 1].Promotion? {
      var prior := log[..|log| - 1];
      LastPromotionBounds(prior, now);
      forall m | 0 <= m < |log| && log[m].Promotion?
        ensures LastPromotion(log).Some? && log[m].at <= LastPromotion(log).value
      {
        assert prior[m] == log[m];
      }
    }
  }

  lemma {:induction false} CooldownBounds(log: seq<Entry>, now: real)
    requires Sorted(log, now)
    ensures forall m :: 0 <= m < |log| && Trips(log, m) ==>
              Cooldown(log).Some? && log[m].at <= Cooldown(log).value
    decreases |log|
  {
    if log != [] {
      var n, prior := |log| - 1, log[..|log| - 1];
      CooldownBounds(prior, now);
      assert log[..n + 1] == log;
      forall m | 0 <= m < |log| && Trips(log, m)
        ensures Cooldown(log).Some? && log[m].at <= Cooldown(log).value
      {
        if m < n {
          assert prior[m] == log[m] && prior[..m + 1] == log[..m + 1];
          assert Trips(prior, m);
        }
      }
    }
  }

  /** Rollbacks only count up between promotions. */
  lemma {:induction false} RollbacksGrow(log: seq<Entry>, m: nat)
    requires m < |log| && forall k :: m < k < |log| ==> !log[k].Promotion?
    ensures Rollbacks(log) >= Rollbacks(log[..m + 1])
    decreases |log|
  {
    if m == |log| - 1 {
      assert log[..m + 1] == log;
    } else {
      var prior := log[..|log| - 1];
      assert prior[..m + 1] == log[..m + 1];
      RollbacksGrow(prior, m);
    }
  }

  /** Appending an entry keeps what earlier promotions rest on. */
  lemma GovernedKept(log: seq<Entry>, e: Entry)
    requires Governed(log) && !e.Promotion?
    ensures Governed(log + [e])
  {
    var more := log + [e];
    LogStep(log, e);
    forall k | 0 <= k < |more| && more[k].Promotion? ensures Justified(more, k) && Spaced(more, k) && Rested(more, k) {
      EarlierKept(log, e, k);
    }
  }

  lemma EarlierKept(log: seq<Entry>, e: Entry, k: nat)
    requires k < |log| && Justified(log, k) && Spaced(log, k) && Rested(log, k)
    ensures Justified(log + [e], k) && Spaced(log + [e], k) && Rested(log + [e], k)
  {
    var more := log + [e];
    var i, j :| 0 <= i < j < k && log[i].Pass? && log[j].Pass? && log[k].Promotion?
      && log[i].version == log[j].version == log[k].version
      && log[j].at - log[i].at >= MIN_GAP && Quiet(log, i, k, j);
    assert Quiet(more, i, k, j);
    assert more[i] == log[i] && more[j] == log[j] && more[k] == log[k];
    forall m | 0 <= m < k && Trips(more, m) ensures more[k].at - more[m].at >= COOLDOWN_HOURS * 3600.0 {
      assert more[..m + 1] == log[..m + 1];
      assert Trips(log, m);
    }
  }

  lemma PromotionJustified(r: Run, v: int, judged: bool, check: real, done: real)
    requires Summarises(r) && Sorted(r.log, check) && CanPromote(r.state, v, judged, check)
    ensures Justified(r.log + [Promotion(v, done)], |r.log|)
  {
    var log, streak, more := r.log, Streak(r.log), r.log + [Promotion(v, done)];
    StreakLastTwo(log);
    var i, j :| 0 <= i < j < |log| && log[i] == streak[|streak| - 2] && log[j] == streak[|streak| - 1]
      && Quiet(log, i, |log|, j);
    assert streak[|streak| - 2] in streak && streak[|streak| - 1] in streak;
    assert r.state.windows[0] == AsWindow(log[i]) && r.state.windows[1] == AsWindow(log[j]);
    assert more[i] == log[i] && more[j] == log[j];
    assert Quiet(more, i, |log|, j);
  }

  lemma DaysMeaning(span: real)
    requires Days(span) >= COOLDOWN_DAYS
    ensures span >= COOLDOWN_DAYS as real * SECONDS_PER_DAY
  {
    assert span / SECONDS_PER_DAY >= Days(span) as real;
  }

  lemma PromotionSpaced(r: Run, v: int, judged: bool, check: real, done: real)
    requires Summarises(r) && Sorted(r.log, check) && CanPromote(r.state, v, judged, check) && check <= done
    ensures Spaced(r.log + [Promotion(v, done)], |r.log|)
  {
    LastPromotionBounds(r.log, check);
    if r.state.lastPromotion.Some? {
      DaysMeaning(check - r.state.lastPromotion.value);
    }
    var more := r.log + [Promotion(v, done)];
    forall m | 0 <= m < |r.log| && more[m].Promotion?
      ensures more[|r.log|].at - more[m].at >= COOLDOWN_DAYS as real * SECONDS_PER_DAY
    {
      assert more[m] == r.log[m];
    }
  }

  lemma PromotionRested(r: Run, v: int, judged: bool, check: real, done: real)
    requires Summarises(r) && Sorted(r.log, check) && CanPromote(r.state, v, judged, check) && check <= done
    requires Governed(r.log)
    ensures Rested(r.log + [Promotion(v, done)], |r.log|)
  {
    var log, more := r.log, r.log + [Promotion(v, done)];
    CooldownBounds(log, check);
    forall m | 0 <= m < |log| && Trips(more, m) ensures more[|log|].at - more[m].at >= COOLDOWN_HOURS * 3600.0 {
      assert more[..m + 1] == log[..m + 1];
      assert Trips(log, m);
      if k :| m < k < |log| && log[k].Promotion? {
        assert Rested(log, k) && log[k].at <= check;
      } else {
        RollbacksGrow(log, m);
      }
    }
  }

  lemma PromotionGoverned(r: Run, v: int, judged: bool, check: real, done: real)
    requires Summarises(r) && Sorted(r.log, check) && CanPromote(r.state, v, judged, check) && check <= done
    requires Governed(r.log)
    ensures Governed(r.log + [Promotion(v, done)])
  {
    var log, more := r.log, r.log + [Promotion(v, done)];
    PromotionJustified(r, v, judged, check, done);
    PromotionSpaced(r, v, judged, check, done);
    PromotionRested(r, v, judged, check, done);
    LogStep(log, Promotion(v, done));
    forall k | 0 <= k < |more| && more[k].Promotion? ensures Justified(more, k) && Spaced(more, k) && Rested(more, k) {
      if k < |log| {
        EarlierKept(log, Promotion(v, done), k);
      }
    }
  }

  lemma StepSorted(r: Run, e: Event, now: real)
    requires Sorted(r.log, now) && InOrder(e, now)
    ensures Sorted(Step(r, e).log, EndOf(e, now))
  {
  }

  lemma ValidatedGoverned(r: Run, v: int, judged: bool, at: real, check: real, done: real, now: real)
    requires Summarises(r) && Sorted(r.log, now) && now <= at <= check <= done && Governed(r.log)
    ensures Governed(Step(r, Validated(v, judged, at, check, done)).log)
  {
    var credited := Run(RecordPassed(r.state, v, at), r.log + [Pass(v, at)]);
    GovernedKept(r.log, Pass(v, at));
    if CanPromote(credited.state, v, judged, check) {
      PassSummarised(r, v, at);
      assert Sorted(credited.log, check);
      PromotionGoverned(credited, v, judged, check, done);
    }
  }

  lemma StepGoverned(r: Run, e: Event, now: real)
    requires Summarises(r) && Sorted(r.log, now) && InOrder(e, now) && Governed(r.log)
    ensures Governed(Step(r, e).log)
  {
    match e
    case Skipped =>
    case Degraded(at) => GovernedKept(r.log, AutoRollback(at));
    case Rejected(_, at) => GovernedKept(r.log, Fail(at));
    case Operator(at) => GovernedKept(r.log, Manual(at));
    case Validated(v, judged, at, check, done) => ValidatedGoverned(r, v, judged, at, check, done, now);
  }

  /** Over every run with a clock that never goes back: each promotion follows two
      passes of its candidate ten minutes apart with nothing but operator rollbacks
      around them, promotions are seven days apart, none follows within a day of an
      automatic rollback that left the breaker tripped, and, the counter never being
      decremented, there are at most two promotions ever. */
  lemma {:induction false} RunGoverned(events: seq<Event>, start: real)
    requires Monotone(events, start)
    ensures Governed(RunAll(START, events).log)
    ensures Sorted(RunAll(START, events).log, Clock(events, start))
    decreases |events|
  {
    if events != [] {
      var prior := events[..|events| - 1];
      RunGoverned(prior, start);
      RunSummarises(prior);
      StepGoverned(RunAll(START, prior), events[|events| - 1], Clock(prior, start));
      StepSorted(RunAll(START, prior), events[|events| - 1], Clock(prior, start));
    }
  }

  /** The gate, read off the history: both directions. */
  lemma GateReadsHistory(r: Run, v: int, judged: bool, now: real)
    requires Summarises(r)
    ensures var streak := Streak(r.log);
            CanPromote(r.state, v, judged, now) <==>
            && judged
            && |streak| >= 2 && VersionOf(streak[0]) == Some(v)
            && Abs(streak[|streak| - 1].at - streak[|streak| - 2].at) >= MIN_GAP
            && (LastPromotion(r.log).Some? ==> Days(now - LastPromotion(r.log).value) >= COOLDOWN_DAYS)
            && Promotions(r.log) < MAX_PROMOTIONS
            && (Rollbacks(r.log) >= MAX_ROLLBACKS ==>
                  Cooldown(r.log).Some? && (now - Cooldown(r.log).value) / 3600.0 >= COOLDOWN_HOURS)
  {
    var streak := Streak(r.log);
    if |streak| >= 2 {
      assert streak[|streak| - 2] in streak && streak[|streak| - 1] in streak;
      assert r.state.windows[0] == AsWindow(streak[|streak| - 2]) && r.state.windows[1] == AsWindow(streak[|streak| - 1]);
    }
  }

  // ---------------------------------------------------------------------------
  // The operator's rollback is outside the gate
  // ---------------------------------------------------------------------------

  /** It does not break a streak: a candidate can be promoted right after one. */
  lemma PromotedRightAfterManualRollback()
    ensures var events := [Validated(7, true, 0.0, 0.0, 0.0), Operator(999.0),
                           Validated(7, true, 1000.0, 1000.0, 1000.0)];
            RunAll(START, events).log ==
            [Pass(7, 0.0), Manual(999.0), Pass(7, 1000.0), Promotion(7, 1000.0)]
  {
    var e0, e1 := Validated(7, true, 0.0, 0.0, 0.0), Operator(999.0);
    var e2 := Validated(7, true, 1000.0, 1000.0, 1000.0);
    var events := [e0, e1, e2];
    assert events[..2] == [e0, e1] && [e0, e1][..1] == [e0] && [e0][..0] == [];
    assert RunAll(START, []) == START;
    assert RunAll(START, [e0]) == Step(START, e0);
    assert RunAll(START, [e0, e1]) == Step(Step(START, e0), e1);
    assert RunAll(START, events) == Step(Step(Step(START, e0), e1), e2);
  }

  /** Two automatic rollbacks, a promotion after the day of rest, then two operator
      rollbacks: the breaker is tripped again and its old cooldown start has long expired,
      so the next candidate's second pass promotes. */
  const STALE_COOLDOWN := [
    Degraded(0.0), Degraded(1.0),
    Validated(7, true, 100000.0, 100000.0, 100000.0), Validated(7, true, 101000.0, 101000.0, 101000.0),
    Operator(800000.0), Operator(800001.0),
    Validated(8, true, 800002.0, 800002.0, 800002.0), Validated(8, true, 800700.0, 800700.0, 800700.0)]

  lemma OneStep(events: seq<Event>, e: Event)
    ensures RunAll(START, events + [e]) == Step(RunAll(START, events), e)
  {
    assert (events + [e])[..|events + [e]| - 1] == events;
  }

  lemma TwoSteps(events: seq<Event>, a: Event, b: Event)
    ensures RunAll(START, events + [a, b]) == Step(Step(RunAll(START, events), a), b)
  {
    OneStep(events, a);
    OneStep(events + [a], b);
    assert events + [a] + [b] == events + [a, b];
  }

  lemma FourSteps(events: seq<Event>, a: Event, b: Event, c: Event, d: Event)
    ensures RunAll(START, events + [a, b, c, d]) == Step(Step(Step(Step(RunAll(START, events), a), b), c), d)
  {
    TwoSteps(events, a, b);
    TwoSteps(events + [a, b], c, d);
    InPairs(events, a, b, c, d);
  }

  lemma InPairs(events: seq<Event>, a: Event, b: Event, c: Event, d: Event)
    ensures events + [a, b, c, d] == events + [a, b] + [c, d]
  {
  }

  function AfterFirst(): State {
    State([], 0, None, Some(101000.0), 1, 0, Some(1.0))
  }

  lemma FirstPromotion()
    ensures var r := Step(Step(START, STALE_COOLDOWN[0]), STALE_COOLDOWN[1]);
            Step(Step(r, STALE_COOLDOWN[2]), STALE_COOLDOWN[3]) ==
            Run(AfterFirst(), [AutoRollback(0.0), AutoRollback(1.0), Pass(7, 100000.0), Pass(7, 101000.0), Promotion(7, 101000.0)])
  {
    var r := Step(Step(START, STALE_COOLDOWN[0]), STALE_COOLDOWN[1]);
    assert r == Run(FRESH.(rollbacks := 2, cooldownStart := Some(1.0)), [AutoRollback(0.0), AutoRollback(1.0)]);
    var first := Step(r, STALE_COOLDOWN[2]);
    assert first.state == r.state.(windows := [Window(100000.0, true, Some(7))], streak := 1, passCandidate := Some(7));
  }

  lemma SecondPromotion(log: seq<Entry>)
    ensures var r := Step(Step(Run(AfterFirst(), log), STALE_COOLDOWN[4]), STALE_COOLDOWN[5]);
            var s := Step(Step(r, STALE_COOLDOWN[6]), STALE_COOLDOWN[7]);
            && r.state.rollbacks == MAX_ROLLBACKS && s.state.promotions == 2
            && s.log == log + [Manual(800000.0), Manual(800001.0), Pass(8, 800002.0), Pass(8, 800700.0), Promotion(8, 800700.0)]
  {
    var r := Step(Step(Run(AfterFirst(), log), STALE_COOLDOWN[4]), STALE_COOLDOWN[5]);
    var first := Step(r, STALE_COOLDOWN[6]);
    assert first.state == r.state.(windows := [Window(800002.0, true, Some(8))], streak := 1, passCandidate := Some(8));
    assert Days(800700.0 - 101000.0) == 8;
  }

  lemma EightSteps(e: seq<Event>)
    requires |e| == 8
    ensures RunAll(START, e) ==
            Step(Step(Step(Step(Step(Step(Step(Step(START, e[0]), e[1]), e[2]), e[3]), e[4]), e[5]), e[6]), e[7])
  {
    FourSteps([], e[0], e[1], e[2], e[3]);
    FourSteps(e[..4], e[4], e[5], e[6], e[7]);
    assert [] + [e[0], e[1], e[2], e[3]] == e[..4];
    assert e[..4] + [e[4], e[5], e[6], e[7]] == e;
  }

  const FIRST_LOG := [AutoRollback(0.0), AutoRollback(1.0), Pass(7, 100000.0), Pass(7, 101000.0), Promotion(7, 101000.0)]

  lemma StaleCooldownDoesNotHold()
    ensures RunAll(START, STALE_COOLDOWN).log ==
            FIRST_LOG + [Manual(800000.0), Manual(800001.0), Pass(8, 800002.0), Pass(8, 800700.0), Promotion(8, 800700.0)]
  {
    EightSteps(STALE_COOLDOWN);
    FirstPromotion();
    SecondPromotion(FIRST_LOG);
  }

  /** And a breaker it trips on its own never expires: without an automatic rollback
      there is no cooldown to wait out, and no promotion. */
  lemma {:induction false} ManualBreakerNeverExpires(r: Run, events: seq<Event>)
    requires r.state.rollbacks >= MAX_ROLLBACKS && r.state.cooldownStart == None
    requires forall e :: e in events ==> !e.Degraded?
    ensures var s := RunAll(r, events).state;
            && s.rollbacks >= MAX_ROLLBACKS && s.cooldownStart == None && s.promotions == r.state.promotions
    decreases |events|
  {
    if events != [] {
      forall e | e in events[..|events| - 1] ensures !e.Degraded? {}
      ManualBreakerNeverExpires(r, events[..|events| - 1]);
      assert events[|events| - 1] in events;
    }
  }
}
