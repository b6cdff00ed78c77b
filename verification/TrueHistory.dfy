/** What really happened beside what the governance log knows, when cycles can end before
    saving: which of the guarantees of a promotion hold of the true history. */
module TrueHistory {
  import opened Options
  import opened Governance
  import opened LostPromotions

  /** Something that happened, and whether the saved state knows of it. */
  datatype Fact = Fact(entry: Entry, kept: bool)

  function EntriesOf(r: Run, e: Event): seq<Entry> {
    match e
    case Skipped => []
    case Degraded(at) => [AutoRollback(at)]
    case Rejected(_, at) => [Fail(at)]
    case Operator(at) => [Manual(at)]
    case Validated(v, _, at, _, done) => [Pass(v, at)] + if Promotes(r, e) then [Promotion(v, done)] else []
  }

  function Marked(entries: seq<Entry>, kept: bool): (facts: seq<Fact>)
    ensures |facts| == |entries|
  {
    seq(|entries|, i requires 0 <= i < |entries| => Fact(entries[i], kept))
  }

  /** A raised save adds the failed window its handler records. */
  function FactsOf(r: Run, a: Attempt): seq<Fact> {
    Marked(EntriesOf(r, a.event), a.ending == Saved) + if a.ending.Raised? then [Fact(Fail(a.ending.at), true)] else []
  }

  function Actual(attempts: seq<Attempt>): seq<Fact> {
    if attempts == [] then [] else
      var before := attempts[..|attempts| - 1];
      Actual(before) + FactsOf(RunOf(before).run, attempts[|attempts| - 1])
  }

  function Kept(facts: seq<Fact>): seq<Entry> {
    if facts == [] then [] else
      Kept(facts[..|facts| - 1]) + if facts[|facts| - 1].kept then [facts[|facts| - 1].entry] else []
  }

  function Entries(facts: seq<Fact>): seq<Entry> {
    seq(|facts|, i requires 0 <= i < |facts| => facts[i].entry)
  }

  lemma {:induction false} KeptOfBoth(a: seq<Fact>, b: seq<Fact>)
    ensures Kept(a + b) == Kept(a) + Kept(b)
    decreases |b|
  {
    if b == [] {
      assert a + b == a;
    } else {
      assert (a + b)[..|a + b| - 1] == a + b[..|b| - 1];
      KeptOfBoth(a, b[..|b| - 1]);
    }
  }

  lemma {:induction false} KeptMarked(entries: seq<Entry>, kept: bool)
    ensures Kept(Marked(entries, kept)) == if kept then entries else []
    decreases |entries|
  {
    if entries != [] {
      var n := |entries| - 1;
      assert Marked(entries, kept)[..n] == Marked(entries[..n], kept);
      KeptMarked(entries[..n], kept);
    }
  }

  lemma StepEntries(r: Run, e: Event)
    ensures Step(r, e).log == r.log + EntriesOf(r, e)
  {
  }

  lemma KeptOne(f: Fact)
    ensures Kept([f]) == if f.kept then [f.entry] else []
  {
    assert [f][..0] == [];
  }

  lemma KeptFacts(r: Run, a: Attempt)
    ensures Kept(FactsOf(r, a)) ==
            (if a.ending == Saved then EntriesOf(r, a.event) else []) + if a.ending.Raised? then [Fail(a.ending.at)] else []
  {
    var marked := Marked(EntriesOf(r, a.event), a.ending == Saved);
    KeptMarked(EntriesOf(r, a.event), a.ending == Saved);
    if a.ending.Raised? {
      KeptOfBoth(marked, [Fact(Fail(a.ending.at), true)]);
      KeptOne(Fact(Fail(a.ending.at), true));
    } else {
      assert FactsOf(r, a) == marked;
    }
  }

  lemma KeptNext(w: World, a: Attempt, facts: seq<Fact>)
    requires Kept(facts) == w.run.log
    ensures Kept(facts + FactsOf(w.run, a)) == Next(w, a).run.log
  {
    KeptOfBoth(facts, FactsOf(w.run, a));
    KeptFacts(w.run, a);
    if a.ending.Saved? {
      StepEntries(w.run, a.event);
    } else if a.ending.Raised? {
      StepEntries(w.run, Rejected(None, a.ending.at));
    }
  }

  /** The log the gate reads is the true history without what was lost. */
  lemma {:induction false} LogIsKept(attempts: seq<Attempt>)
    ensures Kept(Actual(attempts)) == RunOf(attempts).run.log
    decreases |attempts|
  {
    if attempts != [] {
      var n := |attempts| - 1;
      LogIsKept(attempts[..n]);
      KeptNext(RunOf(attempts[..n]), attempts[n], Actual(attempts[..n]));
    }
  }

  // ---------------------------------------------------------------------------
  // The passes behind a promotion
  // ---------------------------------------------------------------------------

  /** Between `i` and `k` there are only operator rollbacks and things lost. */
  ghost predicate QuietButLost(facts: seq<Fact>, i: int, k: int) {
    forall m :: 0 <= m < |facts| && i < m < k ==> facts[m].entry.Manual? || !facts[m].kept
  }

  /** `i` and the entry before `k` are two passes of what `k` promotes, ten minutes apart. */
  ghost predicate TwoPasses(facts: seq<Fact>, i: int, k: int) {
    && 0 <= i < k - 1 && k < |facts|
    && facts[i].entry.Pass? && facts[k - 1].entry.Pass? && facts[k].entry.Promotion?
    && facts[i].entry.version == facts[k - 1].entry.version == facts[k].entry.version
    && facts[k - 1].entry.at - facts[i].entry.at >= MIN_GAP
  }

  ghost predicate Backed(facts: seq<Fact>, i: int, k: int) {
    TwoPasses(facts, i, k) && facts[i].kept && QuietButLost(facts, i, k - 1)
  }

  ghost predicate AllBacked(facts: seq<Fact>) {
    forall k :: 0 <= k < |facts| && facts[k].entry.Promotion? ==> exists i :: Backed(facts, i, k)
  }

  lemma {:induction false} StreakSource(facts: seq<Fact>)
    requires Streak(Kept(facts)) != []
    ensures exists i :: 0 <= i < |facts| && facts[i].kept && QuietButLost(facts, i, |facts|)
              && facts[i].entry == Streak(Kept(facts))[|Streak(Kept(facts))| - 1]
    decreases |facts|
  {
    var n := |facts| - 1;
    assert Kept(facts[..n]) + [] == Kept(facts[..n]);
    if facts[n].kept {
      LogStep(Kept(facts[..n]), facts[n].entry);
    }
    if facts[n].kept && !facts[n].entry.Manual? {
      assert QuietButLost(facts, n, |facts|);
    } else {
      StreakSource(facts[..n]);
      var i :| 0 <= i < n && facts[..n][i].kept && QuietButLost(facts[..n], i, n)
        && facts[..n][i].entry == Streak(Kept(facts))[|Streak(Kept(facts))| - 1];
      QuietOneMore(facts, i);
    }
  }

  lemma QuietOneMore(facts: seq<Fact>, i: int)
    requires facts != [] && QuietButLost(facts[..|facts| - 1], i, |facts| - 1)
    requires facts[|facts| - 1].entry.Manual? || !facts[|facts| - 1].kept
    ensures QuietButLost(facts, i, |facts|)
  {
    forall m | 0 <= m < |facts| && i < m < |facts| ensures facts[m].entry.Manual? || !facts[m].kept {
      assert m < |facts| - 1 ==> facts[..|facts| - 1][m] == facts[m];
    }
  }

  /** The streak a promotion draws on ends in a kept pass ten minutes before. */
  lemma PromotionDrawsOn(r: Run, e: Event, now: real)
    requires Summarises(r) && Sorted(r.log, now) && InOrder(e, now) && Promotes(r, e)
    ensures var streak := Streak(r.log);
            && streak != [] && streak[|streak| - 1].Pass? && streak[|streak| - 1].version == e.version
            && e.at - streak[|streak| - 1].at >= MIN_GAP
  {
    var streak, last := Streak(r.log), LastTwo(Streak(r.log));
    LastWindowPast(r, now);
    LastTwoMore(r.state.windows, Window(e.at, true, Some(e.version)));
    assert streak[|streak| - 1] in streak;
    assert r.state.windows[|last| - 1] == AsWindow(last[|last| - 1]);
  }

  lemma Extended(facts: seq<Fact>, more: seq<Fact>, i: int, k: int)
    requires Backed(facts, i, k)
    ensures Backed(facts + more, i, k)
  {
    forall m | 0 <= m < |facts + more| && i < m < k - 1 ensures (facts + more)[m].entry.Manual? || !(facts + more)[m].kept {
      assert (facts + more)[m] == facts[m];
    }
  }

  lemma NewBacked(facts: seq<Fact>, w: World, a: Attempt, all: seq<Fact>, k: nat, now: real)
    requires Kept(facts) == w.run.log && Sound(w, now) && Timely(a, now) && Promotes(w.run, a.event)
    requires all == facts + FactsOf(w.run, a) && k == |facts| + 1
    ensures exists i :: Backed(all, i, k)
  {
    var n := |facts|;
    PromotionDrawsOn(w.run, a.event, now);
    StreakSource(facts);
    var i :| 0 <= i < n && facts[i].kept && QuietButLost(facts, i, n)
      && facts[i].entry == Streak(Kept(facts))[|Streak(Kept(facts))| - 1];
    assert all[i] == facts[i];
    assert all[n] == Fact(Pass(a.event.version, a.event.at), a.ending == Saved);
    assert all[n + 1] == Fact(Promotion(a.event.version, a.event.done), a.ending == Saved);
    forall m | 0 <= m < |all| && i < m < n ensures all[m].entry.Manual? || !all[m].kept {
      assert all[m] == facts[m];
    }
    assert Backed(all, i, k);
  }

  lemma OnePromotion(r: Run, a: Attempt, k: nat)
    requires k < |FactsOf(r, a)| && FactsOf(r, a)[k].entry.Promotion?
    ensures Promotes(r, a.event) && k == 1
  {
    assert k < |EntriesOf(r, a.event)| ==> FactsOf(r, a)[k].entry == EntriesOf(r, a.event)[k];
  }

  lemma BackedNext(facts: seq<Fact>, w: World, a: Attempt, now: real)
    requires Kept(facts) == w.run.log && Sound(w, now) && Timely(a, now) && AllBacked(facts)
    ensures AllBacked(facts + FactsOf(w.run, a))
  {
    var more := FactsOf(w.run, a);
    var all := facts + more;
    forall k | 0 <= k < |all| && all[k].entry.Promotion? ensures exists i :: Backed(all, i, k) {
      if k < |facts| {
        assert all[k] == facts[k];
        var i :| Backed(facts, i, k);
        Extended(facts, more, i, k);
      } else {
        assert all[k] == more[k - |facts|];
        OnePromotion(w.run, a, k - |facts|);
        NewBacked(facts, w, a, all, k, now);
      }
    }
  }

  /** In the true history too every promotion, counted or lost, is backed by two passes of
      its candidate ten minutes apart, the second right before it; what lies between them
      is operator rollbacks and things the state lost. */
  lemma {:induction false} EveryPromotionBacked(attempts: seq<Attempt>, start: real)
    requires InTime(attempts, start)
    ensures AllBacked(Actual(attempts))
    decreases |attempts|
  {
    if attempts != [] {
      var n := |attempts| - 1;
      EveryPromotionBacked(attempts[..n], start);
      LogIsKept(attempts[..n]);
      RunLimited(attempts[..n], start);
      BackedNext(Actual(attempts[..n]), RunOf(attempts[..n]), attempts[n], ClockOf(attempts[..n], start));
    }
  }

  /** The last thing lost between the two passes, operator rollbacks aside. */
  ghost predicate LastLost(facts: seq<Fact>, i: int, k: int, m: int) {
    && i < m < k - 1 && 0 <= m < |facts| && !facts[m].kept && !facts[m].entry.Manual?
    && forall n :: 0 <= n < |facts| && m < n < k - 1 ==> facts[n].entry.Manual?
  }

  /** A backed promotion is justified by the true history if and only if nothing was lost
      between its passes, or the last thing lost is such a pass itself. */
  lemma JustifiedExactly(facts: seq<Fact>, i: int, k: nat)
    requires Backed(facts, i, k)
    ensures Justified(Entries(facts), k) <==> forall m :: LastLost(facts, i, k, m) ==> TwoPasses(facts, m, k)
  {
    var log := Entries(facts);
    if Justified(log, k) {
      var p, q :| 0 <= p < q < k && log[p].Pass? && log[q].Pass? && log[k].Promotion?
        && log[p].version == log[q].version == log[k].version
        && log[q].at - log[p].at >= MIN_GAP && Quiet(log, p, k, q);
      assert log[k - 1] == facts[k - 1].entry;
      forall m | LastLost(facts, i, k, m) ensures TwoPasses(facts, m, k) {
        assert log[m] == facts[m].entry && log[p] == facts[p].entry;
      }
    }
    if forall m :: LastLost(facts, i, k, m) ==> TwoPasses(facts, m, k) {
      if m :| i < m < k - 1 && !facts[m].kept && !facts[m].entry.Manual? {
        LastLostExists(facts, i, k, m);
        var last :| LastLost(facts, i, k, last);
        QuietFrom(facts, last, k);
      } else {
        QuietFrom(facts, i, k);
      }
    }
  }

  lemma QuietFrom(facts: seq<Fact>, i: int, k: nat)
    requires TwoPasses(facts, i, k)
    requires forall n :: 0 <= n < |facts| && i < n < k - 1 ==> facts[n].entry.Manual?
    ensures Justified(Entries(facts), k)
  {
    var log := Entries(facts);
    assert log[i] == facts[i].entry && log[k - 1] == facts[k - 1].entry && log[k] == facts[k].entry;
    assert Quiet(log, i, k, k - 1);
  }

  lemma {:induction false} LastLostExists(facts: seq<Fact>, i: int, k: nat, m: nat)
    requires Backed(facts, i, k)
    requires i < m < k - 1 && !facts[m].kept && !facts[m].entry.Manual?
    ensures exists last :: LastLost(facts, i, k, last)
    decreases k - m
  {
    if n :| m < n < k - 1 && !facts[n].entry.Manual? {
      LastLostExists(facts, i, k, n);
    } else {
      assert LastLost(facts, i, k, m);
    }
  }

  // ---------------------------------------------------------------------------
  // Rest after a rollback
  // ---------------------------------------------------------------------------

  /** An automatic rollback the state knows of and that left its breaker tripped. */
  ghost predicate TripsKept(facts: seq<Fact>, m: int) {
    0 <= m < |facts| && facts[m].kept && facts[m].entry.AutoRollback? && Rollbacks(Kept(facts[..m + 1])) >= MAX_ROLLBACKS
  }

  ghost predicate AllRested(facts: seq<Fact>) {
    forall m, k :: TripsKept(facts, m) && m < k < |facts| && facts[k].entry.Promotion? ==>
      facts[k].entry.at - facts[m].entry.at >= COOLDOWN_HOURS * 3600.0
  }

  /** Where a kept fact stands in the log. */
  lemma KeptAt(facts: seq<Fact>, m: nat)
    requires m < |facts| && facts[m].kept
    ensures var p := |Kept(facts[..m])|;
            && p < |Kept(facts)| && Kept(facts)[p] == facts[m].entry
            && Kept(facts)[..p + 1] == Kept(facts[..m + 1])
  {
    assert facts == facts[..m + 1] + facts[m + 1..];
    KeptOfBoth(facts[..m + 1], facts[m + 1..]);
    assert facts[..m + 1][..m] == facts[..m];
  }

  lemma NewRested(facts: seq<Fact>, w: World, e: Event, m: int, now: real)
    requires Kept(facts) == w.run.log && Sound(w, now) && InOrder(e, now) && Promotes(w.run, e) && TripsKept(facts, m)
    ensures e.done - facts[m].entry.at >= COOLDOWN_HOURS * 3600.0
  {
    var r := w.run;
    var credited := Run(RecordPassed(r.state, e.version, e.at), r.log + [Pass(e.version, e.at)]);
    PassSummarised(r, e.version, e.at);
    GovernedKept(r.log, Pass(e.version, e.at));
    assert Sorted(credited.log, e.check);
    PromotionRested(credited, e.version, e.judged, e.check, e.done);
    KeptAt(facts, m);
    var p := |Kept(facts[..m])|;
    var log := credited.log + [Promotion(e.version, e.done)];
    assert log[..p + 1] == r.log[..p + 1] && log[p] == r.log[p];
    assert Trips(log, p);
  }

  lemma TripsBefore(facts: seq<Fact>, more: seq<Fact>, m: nat)
    requires m < |facts|
    ensures TripsKept(facts + more, m) <==> TripsKept(facts, m)
    ensures (facts + more)[m] == facts[m]
  {
    assert (facts + more)[..m + 1] == facts[..m + 1];
  }

  /** The new promotion follows its pass, so a rollback before it is an old one. */
  lemma NewestRested(facts: seq<Fact>, w: World, a: Attempt, m: nat, k: nat, now: real)
    requires Kept(facts) == w.run.log && Sound(w, now) && Timely(a, now)
    requires var all := facts + FactsOf(w.run, a);
             TripsKept(all, m) && |facts| <= k < |all| && m < k && all[k].entry.Promotion?
    ensures var all := facts + FactsOf(w.run, a);
            all[k].entry.at - all[m].entry.at >= COOLDOWN_HOURS * 3600.0
  {
    var more := FactsOf(w.run, a);
    var all := facts + more;
    assert all[k] == more[k - |facts|];
    OnePromotion(w.run, a, k - |facts|);
    assert all[|facts|] == more[0] && more[0].entry == EntriesOf(w.run, a.event)[0];
    assert m < |facts|;
    TripsBefore(facts, more, m);
    NewRested(facts, w, a.event, m, now);
    assert more[1].entry == EntriesOf(w.run, a.event)[1];
  }

  lemma RestedNext(facts: seq<Fact>, w: World, a: Attempt, now: real)
    requires Kept(facts) == w.run.log && Sound(w, now) && Timely(a, now) && AllRested(facts)
    ensures AllRested(facts + FactsOf(w.run, a))
  {
    var all := facts + FactsOf(w.run, a);
    forall m, k | TripsKept(all, m) && m < k < |all| && all[k].entry.Promotion?
      ensures all[k].entry.at - all[m].entry.at >= COOLDOWN_HOURS * 3600.0
    {
      if k >= |facts| {
        NewestRested(facts, w, a, m, k, now);
      } else {
        TripsBefore(facts, FactsOf(w.run, a), m);
        assert all[k] == facts[k];
      }
    }
  }

  /** Every promotion, counted or lost, keeps a day away from the automatic rollbacks the
      state knows of. */
  lemma {:induction false} EveryPromotionRested(attempts: seq<Attempt>, start: real)
    requires InTime(attempts, start)
    ensures AllRested(Actual(attempts))
    decreases |attempts|
  {
    if attempts != [] {
      var n := |attempts| - 1;
      EveryPromotionRested(attempts[..n], start);
      LogIsKept(attempts[..n]);
      RunLimited(attempts[..n], start);
      RestedNext(Actual(attempts[..n]), RunOf(attempts[..n]), attempts[n], ClockOf(attempts[..n], start));
    }
  }

  // ---------------------------------------------------------------------------
  // What is lost is not governed
  // ---------------------------------------------------------------------------

  /** A pass, an automatic rollback whose cycle dies before saving, and a second pass. */
  const LOST_ROLLBACK := [
    Attempt(Validated(7, true, 0.0, 0.0, 0.0), Saved), Attempt(Degraded(100.0), Died),
    Attempt(Validated(7, true, 700.0, 700.0, 700.0), Saved)]

  lemma ActualMore(attempts: seq<Attempt>, a: Attempt)
    ensures RunOf(attempts + [a]) == Next(RunOf(attempts), a)
    ensures Actual(attempts + [a]) == Actual(attempts) + FactsOf(RunOf(attempts).run, a)
  {
    assert (attempts + [a])[..|attempts + [a]| - 1] == attempts;
  }

  lemma ThreeAttempts(p: Attempt, q: Attempt, r: Attempt)
    ensures var one, two := Next(FIRST, p), Next(Next(FIRST, p), q);
            Actual([p, q, r]) == [] + FactsOf(START, p) + FactsOf(one.run, q) + FactsOf(two.run, r)
  {
    ActualMore([], p);
    ActualMore([] + [p], q);
    ActualMore([] + [p] + [q], r);
    assert [] + [p] + [q] + [r] == [p, q, r];
  }

  /** The promotion at 700 follows a rollback at 100 that the state never saw: the streak
      went on across it. */
  lemma LostRollbackUnseen()
    ensures Entries(Actual(LOST_ROLLBACK)) == [Pass(7, 0.0), AutoRollback(100.0), Pass(7, 700.0), Promotion(7, 700.0)]
    ensures !Justified(Entries(Actual(LOST_ROLLBACK)), 3)
  {
    ThreeAttempts(LOST_ROLLBACK[0], LOST_ROLLBACK[1], LOST_ROLLBACK[2]);
    FirstPassed();
    RollbackBetween(Entries(Actual(LOST_ROLLBACK)));
  }

  lemma RollbackBetween(log: seq<Entry>)
    requires |log| == 4 && log[1].AutoRollback?
    ensures !Justified(log, 3)
  {
  }

  lemma FirstPassed()
    ensures Next(FIRST, LOST_ROLLBACK[0]) == World(PassedOnce(), [])
    ensures FactsOf(START, LOST_ROLLBACK[0]) == [Fact(Pass(7, 0.0), true)]
    ensures FactsOf(PassedOnce(), LOST_ROLLBACK[1]) == [Fact(AutoRollback(100.0), false)]
    ensures FactsOf(PassedOnce(), LOST_ROLLBACK[2]) == [Fact(Pass(7, 700.0), true), Fact(Promotion(7, 700.0), true)]
  {
    OnePass();
  }
}
