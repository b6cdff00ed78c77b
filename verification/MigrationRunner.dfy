/** The migration runner against a connection: statements change the open transaction,
    and only a commit changes the database. */
module MigrationRunner {
  import opened Options
  import opened Migration

  class Connection {
    var committed: Database
    /** What the open transaction sees. */
    var working: Database

    constructor (db: Database)
      ensures committed == db && working == db
    {
      committed, working := db, db;
    }

    method AddMissingColumns(faults: Faults) returns (ok: bool)
      requires working.features.feedback.Some?
      modifies this`working
      ensures var widened := AddColumns(old(working.features.feedback.value), ADDED, faults);
              && (ok <==> widened.Some?)
              && (ok ==> working == old(working).(features := old(working.features).(feedback := widened)))
    {
      ghost var t := working.features.feedback.value;
      for i := 0 to |ADDED|
        invariant working.features.feedback.Some?
        invariant working == old(working).(features := old(working.features).(feedback := working.features.feedback))
        invariant AddColumns(t, ADDED[..i], faults) == working.features.feedback
      {
        var c, now := ADDED[i], working.features.feedback.value;
        assert ADDED[..i + 1][..i] == ADDED[..i];
        if c !in now.columns {
          if AddColumn(c) in faults {
            AddColumnsStopped(t, ADDED, i + 1, faults);
            return false;
          }
          working := working.(features := working.features.(feedback := Some(WithColumn(now, c))));
        }
      }
      assert ADDED[..|ADDED|] == ADDED;
      ok := true;
    }

    /** Rebuild the feedback table without its foreign key. */
    method Detach(now: string, faults: Faults) returns (ok: bool)
      requires working.features.feedback.Some?
      modifies this`working
      ensures var t, f := old(working.features.feedback.value), old(working.features);
              var detached := RebuildIfNeeded(t, now, faults);
              && (ok <==> detached.Some?)
              && (ok ==> working == old(working).(features :=
                    Features(detached, f.scratch && !t.recallFk, if t.recallFk then {} else f.indexes)))
    {
      var t, f := working.features.feedback.value, working.features;
      if !t.recallFk { return true; }
      if DropScratch in faults { return false; }
      working := working.(features := f.(scratch := false));
      if CreateScratch in faults { return false; }
      working := working.(features := f.(scratch := true));
      if CopyRows in faults { return false; }
      var copy := Rebuilt(t, now);
      if !NothingRequiredIsNull(copy) { return false; }
      if DropOld in faults { return false; }
      working := working.(features := Features(None, true, {}));
      if Rename in faults { return false; }
      working := working.(features := Features(Some(copy), false, {}));
      ok := true;
    }

    method CreateIndexes(faults: Faults) returns (ok: bool)
      requires working.features.feedback.Some?
      modifies this`working
      ensures var f := old(working.features);
              var indexes := IndexAll(f.feedback.value, f.indexes, faults);
              && (ok <==> indexes.Some?)
              && (ok ==> working == old(working).(features := f.(indexes := indexes.value)))
    {
      var f := working.features;
      if CreateIndex(QUERY_INDEX) in faults { return false; }
      working := working.(features := f.(indexes := f.indexes + {QUERY_INDEX}));
      if CreateIndex(CANDIDATE_INDEX) in faults { return false; }
      working := working.(features := f.(indexes := f.indexes + {QUERY_INDEX, CANDIDATE_INDEX}));
      if CreateIndex(LEGACY_INDEX) in faults { return false; }
      if LEGACY_INDEX !in f.indexes && !LegacyKeysUnique(f.feedback.value) { return false; }
      working := working.(features := f.(indexes := f.indexes + {QUERY_INDEX, CANDIDATE_INDEX, LEGACY_INDEX}));
      ok := true;
    }

    method MigrateToV3(now: string, faults: Faults) returns (ok: bool)
      modifies this`working
      ensures ok <==> ToV3(old(working.features), now, faults).Some?
      ensures ok ==> working == old(working).(features := ToV3(old(working.features), now, faults).value)
    {
      if working.features.feedback.None? { return true; }
      ok := AddMissingColumns(faults);
      if !ok { return; }
      ok := Detach(now, faults);
      if !ok { return; }
      ok := CreateIndexes(faults);
    }

    /** Begin, run the body, write version and history, commit; on any error roll back
        and try to note the failure. */
    method Apply(target: int, now: string, faults: Faults) returns (ok: bool)
      modifies this
      ensures (committed, ok) == ApplyOne(old(committed), target, now, faults)
    {
      ok := Begin !in faults;
      if ok {
        working := committed;
        if target == 3 {
          ok := MigrateToV3(now, faults);
        }
      }
      if ok && WriteVersion !in faults {
        working := working.(marker := Version(target));
        if WriteHistory !in faults {
          working := working.(history := working.history + [History(target - 1, target, true)]);
          if Commit !in faults {
            committed := working;
            return true;
          }
        }
      }
      ok := false;
      working := committed;
      if LogFailure !in faults {
        committed := committed.(history := committed.history + [History(target - 1, target, false)]);
      }
    }

    method RunAllMigrations(now: string, faults: int -> Faults) returns (r: Result)
      modifies this
      ensures (committed, r) == RunMigrations(old(committed), now, faults)
    {
      var current := Current(committed);
      if current > SCHEMA_VERSION { return FutureSchema; }
      if current == SCHEMA_VERSION { return Result.At(current); }
      ghost var first := NextVersion(committed);
      var applied := current;
      for v := 1 to SCHEMA_VERSION + 1
        invariant v <= first ==> applied == current && committed == old(committed)
        invariant v > first ==> applied == v - 1
        invariant Steps(committed, if v < first then first else v, now, faults) ==
                  Steps(old(committed), first, now, faults)
      {
        if v - 1 >= applied {
          var ok := Apply(v, now, faults(v));
          if !ok { return Failed; }
          applied := v;
        }
      }
      r := Result.At(applied);
    }
  }

  lemma {:induction false} AddColumnsStopped(t: Table, cs: seq<Column>, i: nat, faults: Faults)
    requires i <= |cs| && AddColumns(t, cs[..i], faults).None?
    ensures AddColumns(t, cs, faults).None?
    decreases |cs|
  {
    if i < |cs| {
      assert cs[..|cs| - 1][..i] == cs[..i];
      AddColumnsStopped(t, cs[..|cs| - 1], i, faults);
    } else {
      assert cs[..i] == cs;
    }
  }
}
