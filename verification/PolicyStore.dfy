/** The policy store object: three slots in memory, three files, updated step by
    step.  Each method is its counterpart in `PolicyLifecycle`, whatever fate its disk
    steps meet. */
module PolicyStore {
  import opened Options
  import opened PolicyLifecycle

  datatype Step =
    | WriteActive(policy: Policy)
    | WritePrevious(policy: Policy)
    | WriteCandidate(policy: Policy)
    | DeletePrevious
    | DeleteCandidate

  function Apply(d: Disk, s: Step): Disk {
    match s
    case WriteActive(p) => d.(active := Valid(p))
    case WritePrevious(p) => d.(previous := Valid(p))
    case WriteCandidate(p) => d.(candidate := Valid(p))
    case DeletePrevious => d.(previous := Missing)
    case DeleteCandidate => d.(candidate := Missing)
  }

  class PolicyStore {
    var policy: Policy
    var previous: Option<Policy>
    var shadow: Option<Policy>
    var disk: Disk
    /** The fates of the disk steps to come; steps beyond the list succeed. */
    var fates: seq<Fate>

    ghost function State(): World
      reads this
    {
      World(Memory(policy, previous, shadow), disk)
    }

    /** The result and the files are as specified; so is memory, unless it died. */
    ghost predicate Behaved(out: Outcome, r: Result)
      reads this
    {
      r == out.result && disk == out.world.disk && (r != Crashed ==> State() == out.world)
    }

    /** Start up on the files left behind. */
    constructor (files: Disk, quarantine: bool)
      ensures State() == Restart(files, quarantine) && fates == []
    {
      disk := files;
      fates := [];
      policy := BASELINE;
      previous := None;
      shadow := None;
      new;
      if files.previous.Valid? {
        previous := Some(files.previous.policy.(status := Retired));
      }
      if files.candidate.Valid? {
        shadow := Some(files.candidate.policy.(status := Shadow));
      } else if files.candidate.Corrupt? && quarantine {
        disk := Apply(disk, DeleteCandidate);
      }
      if files.active.Valid? {
        policy := files.active.policy;
      } else if previous.Some? {
        policy := previous.value.(status := Active);
        disk := Apply(disk, WriteActive(policy));
      }
      if shadow.Some? && Stale(shadow.value, policy) {
        if quarantine {
          disk := Apply(disk, DeleteCandidate);
        }
        shadow := None;
      }
    }

    method Reach(step: Step) returns (fate: Fate)
      modifies this`disk, this`fates
      ensures fate == FateAt(old(fates), 0) && fates == if old(fates) == [] then [] else old(fates)[1..]
      ensures disk == if fate == Done then Apply(old(disk), step) else old(disk)
    {
      fate := Done;
      if fates != [] {
        fate := fates[0];
        fates := fates[1..];
      }
      if fate == Done {
        disk := Apply(disk, step);
      }
    }

    method Promote(candidate: Option<Policy>) returns (r: Result)
      modifies this
      ensures Behaved(Perform(old(State()), Op.Promote(candidate), old(fates)), r)
    {
      var chosen := if candidate.Some? then candidate else shadow;
      if chosen.None? { return NoCandidate; }
      var retired := policy.(status := Retired);
      var next := chosen.value.(status := Active);
      if next.parent.None? {
        next := next.(parent := Some(retired.version));
      }
      var before := previous;
      previous := Some(retired);
      var fate := Reach(WritePrevious(retired));
      if fate == Done {
        fate := Reach(WriteActive(next));
      }
      if fate != Done {
        previous := before;
        return Stop(fate);
      }
      policy := next;
      shadow := None;
      fate := Reach(DeleteCandidate);
      r := if fate == Dies then Crashed else Ok;
    }

    method Revert() returns (r: Result)
      modifies this
      ensures Behaved(Perform(old(State()), Op.Revert, old(fates)), r)
    {
      var restored := BASELINE;
      if previous.Some? {
        restored := previous.value.(status := Active);
      }
      var fate := Reach(WriteActive(restored));
      if fate != Done { return Stop(fate); }
      policy, previous, shadow := restored, None, None;
      fate := Reach(DeletePrevious);
      if fate == Dies { return Crashed; }
      fate := Reach(DeleteCandidate);
      r := if fate == Dies then Crashed else Ok;
    }

    method SetShadow(candidate: Policy) returns (r: Result)
      modifies this
      ensures Behaved(Perform(old(State()), Op.SetShadow(candidate), old(fates)), r)
    {
      shadow := Some(candidate.(status := Shadow));
      var fate := Reach(WriteCandidate(shadow.value));
      r := if fate == Done then Ok else Stop(fate);
    }

    method RejectShadow() returns (r: Result)
      modifies this
      ensures Behaved(Perform(old(State()), Op.RejectShadow, old(fates)), r)
    {
      if disk.candidate != Missing {
        var fate := Reach(DeleteCandidate);
        if fate != Done { return Stop(fate); }
      }
      shadow := None;
      r := Ok;
    }

    method ReloadIfChanged(changed: bool) returns (reloaded: bool)
      modifies this`policy
      ensures State() == Reload(old(State()), changed)
      ensures reloaded <==> changed && disk.active.Valid?
    {
      reloaded := changed && disk.active.Valid?;
      if reloaded {
        policy := disk.active.policy;
      }
    }
  }
}
