/** The policy lifecycle as memory slots and files, every operation a sequence of
    disk steps that may each fail or be cut off by a crash, and what a restart makes
    of the files left behind. */
module PolicyLifecycle {
  import opened Options
  import opened Tuning

  datatype Status = Baseline | Shadow | Active | Retired

  datatype Policy = Policy(version: int, parent: Option<int>, status: Status, tuning: Tuning)

  /** The shipped default. */
  const BASELINE := Policy(1, None, Baseline, DEFAULTS)

  datatype File = Missing | Corrupt | Valid(policy: Policy)

  datatype Disk = Disk(active: File, previous: File, candidate: File)

  datatype Memory = Memory(policy: Policy, previous: Option<Policy>, shadow: Option<Policy>)

  datatype World = World(memory: Memory, disk: Disk)

  /** What happens when the program reaches a disk step: it takes effect, it raises
      without effect, or the process dies before it. */
  datatype Fate = Done | Fails | Dies

  datatype Result = Ok | NoCandidate | IoError | Crashed

  datatype Outcome = Outcome(world: World, result: Result)

  datatype Op = Promote(chosen: Option<Policy>) | Revert | SetShadow(candidate: Policy) | RejectShadow

  function FateAt(fates: seq<Fate>, i: nat): Fate {
    if i < |fates| then fates[i] else Done
  }

  predicate SamePolicy(p: Policy, q: Policy) {
    p.(status := q.status) == q
  }

  // ---------------------------------------------------------------------------
  // Operations
  // ---------------------------------------------------------------------------

  function NextActive(chosen: Policy, current: Policy): Policy {
    chosen.(status := Active, parent := if chosen.parent.None? then Some(current.version) else chosen.parent)
  }

  function DoPromote(w: World, candidate: Option<Policy>, fates: seq<Fate>): Outcome {
    var chosen := if candidate.Some? then candidate else w.memory.shadow;
    if chosen.None? then Outcome(w, NoCandidate) else
    var retired := w.memory.policy.(status := Retired);
    var next := NextActive(chosen.value, w.memory.policy);
    if FateAt(fates, 0) != Done then Outcome(w, Stop(FateAt(fates, 0))) else
    var d1 := w.disk.(previous := Valid(retired));
    if FateAt(fates, 1) != Done then Outcome(World(w.memory, d1), Stop(FateAt(fates, 1))) else
    var d2 := d1.(active := Valid(next));
    if FateAt(fates, 2) == Dies then Outcome(World(w.memory, d2), Crashed) else
    var d3 := if FateAt(fates, 2) == Done then d2.(candidate := Missing) else d2;
    Outcome(World(Memory(next, Some(retired), None), d3), Ok)
  }

  function Stop(f: Fate): Result {
    if f == Dies then Crashed else IoError
  }

  function Restored(m: Memory): Policy {
    if m.previous.Some? then m.previous.value.(status := Active) else BASELINE
  }

  function DoRevert(w: World, fates: seq<Fate>): Outcome {
    var restored := Restored(w.memory);
    if FateAt(fates, 0) != Done then Outcome(w, Stop(FateAt(fates, 0))) else
    var d1 := w.disk.(active := Valid(restored));
    if FateAt(fates, 1) == Dies then Outcome(World(w.memory, d1), Crashed) else
    var d2 := if FateAt(fates, 1) == Done then d1.(previous := Missing) else d1;
    if FateAt(fates, 2) == Dies then Outcome(World(w.memory, d2), Crashed) else
    var d3 := if FateAt(fates, 2) == Done then d2.(candidate := Missing) else d2;
    Outcome(World(Memory(restored, None, None), d3), Ok)
  }

  /** The slot in memory is set before the file is written. */
  function DoSetShadow(w: World, candidate: Policy, fates: seq<Fate>): Outcome {
    var shadow := candidate.(status := Shadow);
    var m := w.memory.(shadow := Some(shadow));
    if FateAt(fates, 0) != Done then Outcome(World(m, w.disk), Stop(FateAt(fates, 0))) else
    Outcome(World(m, w.disk.(candidate := Valid(shadow))), Ok)
  }

  /** The file is deleted before the slot in memory is cleared. */
  function DoRejectShadow(w: World, fates: seq<Fate>): Outcome {
    if w.disk.candidate != Missing && FateAt(fates, 0) != Done
    then Outcome(w, Stop(FateAt(fates, 0)))
    else Outcome(World(w.memory.(shadow := None), w.disk.(candidate := Missing)), Ok)
  }

  function Perform(w: World, op: Op, fates: seq<Fate>): Outcome {
    match op
    case Promote(c) => DoPromote(w, c, fates)
    case Revert => DoRevert(w, fates)
    case SetShadow(c) => DoSetShadow(w, c, fates)
    case RejectShadow => DoRejectShadow(w, fates)
  }

  // ---------------------------------------------------------------------------
  // Restart
  // ---------------------------------------------------------------------------

  function LoadPrevious(d: Disk): Option<Policy> {
    if d.previous.Valid? then Some(d.previous.policy.(status := Retired)) else None
  }

  /** The active policy a restart serves: the active file, else the previous file,
      else the baseline. */
  function Serves(d: Disk): Policy {
    if d.active.Valid? then d.active.policy
    else if d.previous.Valid? then d.previous.policy.(status := Active)
    else BASELINE
  }

  predicate Stale(shadow: Policy, active: Policy) {
    shadow.version == active.version || (shadow.parent.Some? && shadow.parent.value != active.version)
  }

  function LoadShadow(d: Disk): Option<Policy> {
    if d.candidate.Valid? && !Stale(d.candidate.policy, Serves(d))
    then Some(d.candidate.policy.(status := Shadow)) else None
  }

  /** The constructor over files left behind.  A recovered active policy is saved; a
      corrupt or stale candidate file is moved aside, unless the move fails. */
  function Restart(d: Disk, quarantine: bool): World {
    var active := if !d.active.Valid? && d.previous.Valid? then Valid(Serves(d)) else d.active;
    var aside := quarantine && d.candidate != Missing && LoadShadow(d).None?;
    World(Memory(Serves(d), LoadPrevious(d), LoadShadow(d)),
          Disk(active, d.previous, if aside then Missing else d.candidate))
  }

  // ---------------------------------------------------------------------------
  // Crash safety of the active policy
  // ---------------------------------------------------------------------------

  /** What the process serves is what a restart would serve, up to status. */
  ghost predicate Durable(w: World) {
    SamePolicy(Serves(w.disk), w.memory.policy)
  }

  /** The active policy an operation aims for. */
  function Target(w: World, op: Op): Policy {
    match op
    case Promote(c) =>
      if c.Some? then NextActive(c.value, w.memory.policy)
      else if w.memory.shadow.Some? then NextActive(w.memory.shadow.value, w.memory.policy)
      else w.memory.policy
    case Revert => Restored(w.memory)
    case SetShadow(_) => w.memory.policy
    case RejectShadow => w.memory.policy
  }

  /** `p` is `candidate` in service in place of `replaced`. */
  predicate IsPromoted(p: Policy, candidate: Policy, replaced: Policy) {
    && p.version == candidate.version && p.tuning == candidate.tuning && p.status == Active
    && p.parent == if candidate.parent.Some? then candidate.parent else Some(replaced.version)
  }

  /** `p` is what a completed operation serves: the chosen candidate, the previous policy
      or the baseline, or what was served before. */
  predicate Reaches(w: World, op: Op, p: Policy) {
    match op
    case Promote(chosen) =>
      var c := if chosen.Some? then chosen else w.memory.shadow;
      c.Some? && IsPromoted(p, c.value, w.memory.policy)
    case Revert =>
      if w.memory.previous.Some? then SamePolicy(p, w.memory.previous.value) && p.status == Active else p == BASELINE
    case SetShadow(_) => p == w.memory.policy
    case RejectShadow => p == w.memory.policy
  }

  /** Wherever an operation is cut off, a restart serves the old active policy or the
      new one; when it reports success, both memory and disk have the new one, and
      when it raises, both still have the old one. */
  lemma CrashServesOldOrNew(w: World, op: Op, fates: seq<Fate>)
    requires Durable(w)
    ensures var out := Perform(w, op, fates);
            && (SamePolicy(Serves(out.world.disk), w.memory.policy)
                || Reaches(w, op, Serves(out.world.disk)))
            && (out.result == Ok ==> Reaches(w, op, out.world.memory.policy) && Durable(out.world))
            && (out.result == IoError || out.result == NoCandidate ==>
                  out.world.memory.policy == w.memory.policy && Durable(out.world))
  {
  }

  lemma RestartDurable(d: Disk, quarantine: bool)
    ensures Durable(Restart(d, quarantine))
    ensures Serves(Restart(d, quarantine).disk) == Serves(d)
  {
  }

  // ---------------------------------------------------------------------------
  // What is served, slot by slot
  // ---------------------------------------------------------------------------

  /** A promotion that reports success serves the chosen candidate, in memory and after a
      restart; whatever its fate, a restart serves the candidate or the old policy.  It
      reports success exactly when both writes went through and the process lived. */
  lemma PromotionServesCandidate(w: World, chosen: Option<Policy>, candidate: Policy, fates: seq<Fate>, quarantine: bool)
    requires Durable(w)
    requires chosen == Some(candidate) || (chosen.None? && w.memory.shadow == Some(candidate))
    ensures var out := Perform(w, Promote(chosen), fates);
            var served := Restart(out.world.disk, quarantine).memory.policy;
            && (out.result == Ok <==> FateAt(fates, 0) == Done && FateAt(fates, 1) == Done && FateAt(fates, 2) != Dies)
            && (out.result == Ok ==>
                  IsPromoted(out.world.memory.policy, candidate, w.memory.policy)
                  && IsPromoted(served, candidate, w.memory.policy))
            && (IsPromoted(served, candidate, w.memory.policy) || SamePolicy(served, w.memory.policy))
  {
  }

  /** A revert that reports success serves the previous policy, again active, or the
      shipped baseline when there is none. */
  lemma RevertServesPrevious(w: World, fates: seq<Fate>, quarantine: bool)
    requires Durable(w)
    ensures var out := Perform(w, Revert, fates);
            var served := Restart(out.world.disk, quarantine).memory.policy;
            && (out.result == Ok ==> out.world.memory.policy == served)
            && (out.result == Ok && w.memory.previous.Some? ==>
                  served.status == Active && SamePolicy(served, w.memory.previous.value))
            && (out.result == Ok && w.memory.previous.None? ==> served == BASELINE)
            && (SamePolicy(served, w.memory.policy)
                || if w.memory.previous.Some? then SamePolicy(served, w.memory.previous.value) else served == BASELINE)
  {
  }

  /** A promotion or revert that raises leaves all three slots in memory alone. */
  lemma FailureKeepsMemory(w: World, op: Op, fates: seq<Fate>)
    requires op.Promote? || op.Revert?
    ensures Perform(w, op, fates).result == IoError ==> Perform(w, op, fates).world.memory == w.memory
  {
  }

  /** Installing a shadow takes effect in memory in any case, and on disk when the write
      goes through; the served policy and the previous one are not touched. */
  lemma ShadowInstalled(w: World, candidate: Policy, fates: seq<Fate>)
    ensures var out := Perform(w, SetShadow(candidate), fates);
            var shadow := Policy(candidate.version, candidate.parent, Shadow, candidate.tuning);
            && out.world.memory == w.memory.(shadow := Some(shadow))
            && out.world.disk == w.disk.(candidate := if FateAt(fates, 0) == Done then Valid(shadow) else w.disk.candidate)
            && (out.result == Ok <==> FateAt(fates, 0) == Done)
  {
  }

  /** A rejection takes effect in memory and on disk together or not at all. */
  lemma RejectionIsWhole(w: World, fates: seq<Fate>)
    ensures var out := Perform(w, RejectShadow, fates);
            && (out.result == Ok ==> out.world == World(w.memory.(shadow := None), w.disk.(candidate := Missing)))
            && (out.result != Ok ==> out.world == w)
            && (out.result == Ok <==> w.disk.candidate == Missing || FateAt(fates, 0) == Done)
  {
  }

  /** A restart serves a candidate file as shadow exactly when it is readable, has a
      version of its own, and names no parent or the served policy. */
  lemma ShadowKeptExactly(d: Disk, quarantine: bool)
    ensures var m := Restart(d, quarantine).memory;
            && (m.shadow.Some? <==>
                  && d.candidate.Valid? && d.candidate.policy.version != m.policy.version
                  && (d.candidate.policy.parent.None? || d.candidate.policy.parent == Some(m.policy.version)))
            && (m.shadow.Some? ==> SamePolicy(m.shadow.value, d.candidate.policy) && m.shadow.value.status == Shadow)
  {
  }

  /** Any other candidate file is gone after a restart that can move it aside. */
  lemma OtherCandidatesGo(d: Disk)
    ensures Restart(d, true).memory.shadow.None? ==> Restart(d, true).disk.candidate == Missing
    ensures Restart(d, true).memory.shadow.Some? ==> Restart(d, true).disk.candidate == d.candidate
  {
  }

  /** After a completed promotion an unreadable active file costs the promotion and no
      more: a restart serves the replaced policy; and it writes what it serves back, so
      that losing the previous file afterwards changes nothing. */
  lemma CorruptActiveRecovers(w: World, candidate: Policy, damaged: File, q1: bool, q2: bool)
    requires !damaged.Valid?
    ensures var files := Perform(w, Promote(Some(candidate)), []).world.disk.(active := damaged);
            var restarted := Restart(files, q1);
            && SamePolicy(restarted.memory.policy, w.memory.policy) && restarted.memory.policy.status == Active
            && Restart(restarted.disk.(previous := Missing), q2).memory.policy == restarted.memory.policy
            && Restart(files.(previous := Missing), q1).memory.policy == BASELINE
  {
  }

  /** Every slot has its own status: served policies are active or the baseline, the
      previous one retired, the shadow a shadow. */
  ghost predicate Statuses(w: World) {
    && w.memory.policy.status in {Baseline, Active}
    && (w.memory.previous.Some? ==> w.memory.previous.value.status == Retired)
    && (w.memory.shadow.Some? ==> w.memory.shadow.value.status == Shadow)
    && (w.disk.active.Valid? ==> w.disk.active.policy.status in {Baseline, Active})
  }

  /** However far a restart got before it was cut off itself, the next one builds the
      same three slots. */
  lemma RestartInterrupted(d: Disk, saved: bool, aside: bool)
    ensures var done := Restart(d, true).disk;
            var cut := Disk(if saved then done.active else d.active, d.previous,
                            if aside then done.candidate else d.candidate);
            Restart(cut, true).memory == Restart(d, true).memory
  {
  }

  // ---------------------------------------------------------------------------
  // All three slots
  // ---------------------------------------------------------------------------

  /** A restart now would rebuild all three slots, the active one up to status, and
      no discarded candidate is left on disk. */
  ghost predicate Rebuilds(w: World) {
    && Durable(w)
    && LoadPrevious(w.disk) == w.memory.previous
    && LoadShadow(w.disk) == w.memory.shadow
    && (w.memory.shadow.None? ==> !w.disk.candidate.Valid?)
  }

  /** A candidate as evolution makes them: it names the active policy as its parent
      and has a version of its own. */
  predicate Fit(candidate: Policy, active: Policy) {
    candidate.parent == Some(active.version) && candidate.version != active.version
  }

  /** Versions tell policies apart: a promoted candidate does not share the version of
      the policy it replaces, a revert that meets the active policy's version meets the
      active policy, and a candidate installed as shadow is fit. */
  predicate Distinct(w: World, op: Op) {
    match op
    case Promote(_) => Target(w, op).version != w.memory.policy.version
    case Revert =>
      Target(w, op).version != w.memory.policy.version || SamePolicy(Target(w, op), w.memory.policy)
    case SetShadow(c) => Fit(c, w.memory.policy)
    case RejectShadow => true
  }

  ghost predicate FitShadow(w: World) {
    w.memory.shadow.Some? ==> Fit(w.memory.shadow.value, w.memory.policy)
  }

  predicate NoFailure(fates: seq<Fate>) {
    Fails !in fates
  }

  ghost predicate SlotsMatch(w: World) {
    Rebuilds(w) && FitShadow(w)
  }

  /** A fresh install, from which the runs below can start. */
  lemma FreshInstallMatches(quarantine: bool)
    ensures SlotsMatch(Restart(Disk(Missing, Missing, Missing), quarantine))
    ensures Restart(Disk(Missing, Missing, Missing), quarantine).memory == Memory(BASELINE, None, None)
  {
  }

  /** A completed operation whose deletions succeed leaves files from which a restart
      rebuilds exactly the slots in memory. */
  lemma CompletedRebuilds(w: World, op: Op, fates: seq<Fate>)
    requires SlotsMatch(w) && Distinct(w, op) && NoFailure(fates)
    requires Perform(w, op, fates).result == Ok
    ensures SlotsMatch(Perform(w, op, fates).world)
  {
    forall i ensures FateAt(fates, i) != Fails {}
  }

  /** With distinct versions an operation is atomic on the active policy and the
      shadow together: after a crash at any disk step a restart has the active policy
      and shadow from before the operation, or those of its completion. */
  lemma CrashIsAtomic(w: World, op: Op, fates: seq<Fate>, quarantine: bool)
    requires SlotsMatch(w) && Distinct(w, op) && NoFailure(fates)
    requires Perform(w, op, fates).result == Crashed
    ensures var restarted := Restart(Perform(w, op, fates).world.disk, quarantine);
            var completed := Perform(w, op, []).world;
            && (|| (SamePolicy(restarted.memory.policy, w.memory.policy)
                    && restarted.memory.shadow == w.memory.shadow)
                || (restarted.memory.policy == completed.memory.policy
                    && restarted.memory.shadow == completed.memory.shadow))
            && FitShadow(restarted)
  {
    forall i ensures FateAt(fates, i) != Fails {}
  }

  lemma RestartRebuilds(d: Disk)
    ensures Rebuilds(Restart(d, true))
  {
  }

  /** Whatever the files say, a restart never serves a shadow with the active policy's
      version or with another parent. */
  lemma RestartShadowFits(d: Disk, quarantine: bool)
    ensures var m := Restart(d, quarantine).memory;
            m.shadow.Some? ==> m.shadow.value.version != m.policy.version
                               && (m.shadow.value.parent.Some? ==> m.shadow.value.parent.value == m.policy.version)
  {
  }

  // ---------------------------------------------------------------------------
  // Runs
  // ---------------------------------------------------------------------------

  /** An operation, followed by a restart if the process died in it; or a restart. */
  datatype Event = Attempt(op: Op, fates: seq<Fate>, quarantine: bool) | Reboot(quarantine: bool)

  function Next(w: World, e: Event): World {
    match e
    case Reboot(quarantine) => Restart(w.disk, quarantine)
    case Attempt(op, fates, quarantine) =>
      var out := Perform(w, op, fates);
      if out.result == Crashed then Restart(out.world.disk, quarantine) else out.world
  }

  function RunAll(w: World, events: seq<Event>): World
    decreases |events|
  {
    if events == [] then w else RunAll(Next(w, events[0]), events[1..])
  }

  /** The policies served before, between and after the events of a run. */
  function Served(w: World, events: seq<Event>): seq<Policy>
    decreases |events|
  {
    [w.memory.policy] + if events == [] then [] else Served(Next(w, events[0]), events[1..])
  }

  /** Every event keeps the served policy, up to status, or moves it to what its
      operation aimed for, and a reported success does move it. */
  ghost predicate Acknowledged(w: World, events: seq<Event>, served: seq<Policy>)
    decreases |events|
  {
    && |served| == |events| + 1 && SamePolicy(served[0], w.memory.policy)
    && (events != [] ==>
          && (|| SamePolicy(served[1], served[0])
              || (events[0].Attempt? && Reaches(w, events[0].op, served[1])))
          && (events[0].Attempt? && Perform(w, events[0].op, events[0].fates).result == Ok ==>
                Reaches(w, events[0].op, served[1]))
          && Acknowledged(Next(w, events[0]), events[1..], served[1..]))
  }

  /** Over any run of operations, failures, crashes and restarts, started on any
      files, the served policy only ever moves to what an operation aimed for. */
  lemma {:induction false} RunAcknowledged(w: World, events: seq<Event>)
    requires Durable(w)
    ensures Acknowledged(w, events, Served(w, events))
    decreases |events|
  {
    if events != [] {
      var e, w' := events[0], Next(w, events[0]);
      if e.Attempt? {
        CrashServesOldOrNew(w, e.op, e.fates);
      }
      assert Durable(w');
      RunAcknowledged(w', events[1..]);
      assert Served(w, events)[1..] == Served(w', events[1..]);
      assert Served(w', events[1..])[0] == w'.memory.policy;
    }
  }

  /** ... over any run of operations, failures, crashes and restarts. */
  lemma {:induction false} RunKeepsStatuses(w: World, events: seq<Event>)
    requires Statuses(w)
    ensures Statuses(RunAll(w, events))
    decreases |events|
  {
    if events != [] {
      StepKeepsStatuses(w, events[0]);
      RunKeepsStatuses(Next(w, events[0]), events[1..]);
    }
  }

  lemma StepKeepsStatuses(w: World, e: Event)
    requires Statuses(w)
    ensures Statuses(Next(w, e))
  {
  }

  /** No I/O error and distinct versions; crashes and restarts anywhere. */
  ghost predicate Careful(w: World, events: seq<Event>)
    decreases |events|
  {
    events != [] ==>
      && events[0].quarantine
      && (events[0].Attempt? ==> NoFailure(events[0].fates) && Distinct(w, events[0].op))
      && Careful(Next(w, events[0]), events[1..])
  }

  lemma CarefulStep(w: World, e: Event)
    requires SlotsMatch(w) && e.quarantine
    requires e.Attempt? ==> NoFailure(e.fates) && Distinct(w, e.op)
    ensures SlotsMatch(Next(w, e))
    ensures Next(w, e).memory.shadow.Some? ==>
              || Next(w, e).memory.shadow == w.memory.shadow
              || (e.Attempt? && e.op.SetShadow?
                  && Next(w, e).memory.shadow == Some(e.op.candidate.(status := Shadow)))
  {
    if e.Attempt? {
      forall i ensures FateAt(e.fates, i) != Fails {}
      var out := Perform(w, e.op, e.fates);
      if out.result == Crashed {
        CrashIsAtomic(w, e.op, e.fates, e.quarantine);
        RestartRebuilds(out.world.disk);
      } else if out.result == Ok {
        CompletedRebuilds(w, e.op, e.fates);
      }
    }
  }

  /** Over any run without I/O errors, crashes included, memory and files stay in
      step on all three slots and the shadow stays a child of the active policy. */
  lemma {:induction false} RunKeepsSlots(w: World, events: seq<Event>)
    requires SlotsMatch(w) && Careful(w, events)
    ensures SlotsMatch(RunAll(w, events))
    decreases |events|
  {
    if events != [] {
      CarefulStep(w, events[0]);
      RunKeepsSlots(Next(w, events[0]), events[1..]);
    }
  }

  /** A promoted candidate is no longer a shadow, and no later run of crashes,
      restarts and completed operations brings it back unless it is installed again. */
  lemma {:induction false} GoneStaysGone(w: World, events: seq<Event>, candidate: Policy)
    requires SlotsMatch(w) && Careful(w, events)
    requires w.memory.shadow != Some(candidate.(status := Shadow))
    requires forall e :: e in events && e.Attempt? && e.op.SetShadow? ==> !SamePolicy(e.op.candidate, candidate)
    ensures RunAll(w, events).memory.shadow != Some(candidate.(status := Shadow))
    decreases |events|
  {
    if events != [] {
      CarefulStep(w, events[0]);
      assert events[0] in events;
      GoneStaysGone(Next(w, events[0]), events[1..], candidate);
    }
  }

  /** ... because a promotion that took effect, completed or cut off, leaves no shadow. */
  lemma PromotionEmptiesShadow(w: World, chosen: Option<Policy>, fates: seq<Fate>, quarantine: bool)
    requires SlotsMatch(w) && Distinct(w, Promote(chosen)) && NoFailure(fates)
    ensures var after := Next(w, Attempt(Promote(chosen), fates, quarantine));
            after.memory.policy == Target(w, Promote(chosen)) ==> after.memory.shadow == None
  {
    forall i ensures FateAt(fates, i) != Fails {}
    var out := Perform(w, Promote(chosen), fates);
    if out.result == Crashed {
      CrashIsAtomic(w, Promote(chosen), fates, quarantine);
    }
  }

  // ---------------------------------------------------------------------------
  // Undo
  // ---------------------------------------------------------------------------

  /** Promoting and reverting restores the active policy up to status; a second
      revert goes to the baseline, so undo is one deep. */
  lemma UndoIsOneDeep(w: World, candidate: Policy)
    ensures var promoted := Perform(w, Promote(Some(candidate)), []).world;
            var reverted := Perform(promoted, Revert, []).world;
            && SamePolicy(reverted.memory.policy, w.memory.policy)
            && reverted.memory.previous == None && reverted.disk.previous == Missing
            && Perform(reverted, Revert, []).world.memory.policy == BASELINE
  {
  }

  /** What a restart after a promotion finds in the previous slot: the replaced policy
      as soon as the first write went through, else what was there before. */
  lemma PreviousAfterPromotion(w: World, candidate: Policy, fates: seq<Fate>, quarantine: bool)
    requires LoadPrevious(w.disk) == w.memory.previous
    ensures var after := Restart(Perform(w, Promote(Some(candidate)), fates).world.disk, quarantine);
            after.memory.previous ==
            if FateAt(fates, 0) == Done then Some(w.memory.policy.(status := Retired)) else w.memory.previous
  {
  }

  /** A revert from here returns to the policy it leaves. */
  predicate NoUndo(m: Memory) {
    SamePolicy(Restored(m), m.policy)
  }

  /** For every fate of its steps: a promotion and a restart leave nothing to undo if
      and only if the first write went through and the second failed or was cut off --
      setting aside the promotion of the active policy itself, and a promotion without
      effect where there was nothing to undo before. */
  lemma PromotionLosesUndo(w: World, candidate: Policy, fates: seq<Fate>, quarantine: bool)
    requires Durable(w) && LoadPrevious(w.disk) == w.memory.previous
    ensures var after := Restart(Perform(w, Promote(Some(candidate)), fates).world.disk, quarantine);
            NoUndo(after.memory) <==>
            if FateAt(fates, 0) != Done then NoUndo(w.memory)
            else FateAt(fates, 1) != Done || SamePolicy(Target(w, Promote(Some(candidate))), w.memory.policy)
  {
    PreviousAfterPromotion(w, candidate, fates, quarantine);
    CrashServesOldOrNew(w, Promote(Some(candidate)), fates);
  }

  // ---------------------------------------------------------------------------
  // Where the guarantees end
  // ---------------------------------------------------------------------------

  /** Both writes of the promotion went through. */
  predicate TookEffect(fates: seq<Fate>) {
    FateAt(fates, 0) == Done && FateAt(fates, 1) == Done
  }

  /** The candidate file outlives a promotion that took effect, and the restart that
      follows if the process died. */
  predicate OutlivesPromotion(fates: seq<Fate>, quarantine: bool) {
    FateAt(fates, 2) == Fails || (FateAt(fates, 2) == Dies && !quarantine)
  }

  /** The candidate file outlives a revert that took effect. */
  predicate OutlivesRevert(fates: seq<Fate>) {
    FateAt(fates, 0) == Done && (FateAt(fates, 1) == Dies || FateAt(fates, 2) != Done)
  }

  /** For every fate of both operations: after a promotion that took effect, a revert
      and a restart, the promoted candidate is a shadow again if and only if neither
      operation got rid of its file, the revert took effect, and the candidate is not
      stale for the policy the revert returned to. */
  lemma FailedDeletionResurrects(w: World, candidate: Policy, promote: seq<Fate>, revert: seq<Fate>,
                                 q1: bool, q2: bool, q3: bool)
    requires w.disk.candidate == Valid(candidate) && TookEffect(promote)
    ensures var promoted := Next(w, Attempt(Promote(Some(candidate)), promote, q1));
            var reverted := Next(promoted, Attempt(Revert, revert, q2));
            Restart(reverted.disk, q3).memory.shadow == Some(candidate.(status := Shadow)) <==>
            OutlivesPromotion(promote, q1) && OutlivesRevert(revert) && !Stale(candidate, w.memory.policy)
  {
    var promoted := Next(w, Attempt(Promote(Some(candidate)), promote, q1));
    AfterPromotion(w, candidate, promote, q1);
    AfterRevert(promoted, candidate, revert, q2, q3);
  }

  lemma AfterPromotion(w: World, candidate: Policy, fates: seq<Fate>, quarantine: bool)
    requires w.disk.candidate == Valid(candidate) && TookEffect(fates)
    ensures var promoted := Next(w, Attempt(Promote(Some(candidate)), fates, quarantine));
            && promoted.memory.policy.version == candidate.version
            && promoted.memory.previous == Some(w.memory.policy.(status := Retired))
            && promoted.disk.active == Valid(promoted.memory.policy)
            && promoted.disk.previous == Valid(w.memory.policy.(status := Retired))
            && promoted.disk.candidate == if OutlivesPromotion(fates, quarantine) then Valid(candidate) else Missing
  {
  }

  lemma AfterRevert(w: World, candidate: Policy, fates: seq<Fate>, q2: bool, q3: bool)
    requires w.disk.candidate == Valid(candidate) || w.disk.candidate == Missing
    requires w.disk.active == Valid(w.memory.policy) && w.memory.policy.version == candidate.version
    requires w.memory.previous.Some?
    ensures Restart(Next(w, Attempt(Revert, fates, q2)).disk, q3).memory.shadow == Some(candidate.(status := Shadow)) <==>
            w.disk.candidate != Missing && OutlivesRevert(fates) && !Stale(candidate, w.memory.previous.value)
  {
  }

  /** A hot reload of a changed active file refreshes the active slot alone. */
  function Reload(w: World, changed: bool): World {
    if changed && w.disk.active.Valid? then World(w.memory.(policy := w.disk.active.policy), w.disk) else w
  }

  /** So after another process promoted, a revert in the reloading process returns to
      the policy the promotion replaced exactly when its own previous slot already
      held it, or is empty while the replaced policy was the baseline; a process with
      an empty slot falls to the baseline. */
  lemma ReloadKeepsStalePrevious(w: World, candidate: Policy)
    requires Durable(w)
    ensures var shared := Perform(w, Promote(Some(candidate)), []).world.disk;
            var reloaded := Reload(World(w.memory, shared), true);
            var reverted := Perform(reloaded, Revert, []).world.memory.policy;
            && reloaded.memory.policy == Serves(shared)
            && (SamePolicy(reverted, w.memory.policy) <==>
                  match w.memory.previous
                  case Some(p) => SamePolicy(p, w.memory.policy)
                  case None => SamePolicy(BASELINE, w.memory.policy))
            && (w.memory.previous == None ==> reverted == BASELINE)
  {
  }
}
