/** The schema migration runner: steps inside transactions, any statement of which may
    fail, over a database reduced to what the migrations touch. */
module Migration {
  import opened Options

  const SCHEMA_VERSION := 3

  type Column = string

  datatype Cell = Null | Text(s: string) | Number(n: int)

  type Row = map<Column, Cell>

  /** `recallFk` says that query_id still references the recall trace. */
  datatype Table = Table(columns: set<Column>, rows: seq<Row>, recallFk: bool)

  /** `scratch` says that a feedback_events_v3 table exists. */
  datatype Features = Features(feedback: Option<Table>, scratch: bool, indexes: set<string>)

  /** The schema_version row: absent, not an integer, or a version. */
  datatype Marker = Absent | Garbage | Version(n: int)

  datatype History = History(origin: int, target: int, success: bool)

  datatype Database = Database(marker: Marker, history: seq<History>, features: Features)

  /** The statements of one step, by name; a fault makes a statement raise when it is
      reached. */
  datatype Statement =
    | Begin | AddColumn(column: Column) | DropScratch | CreateScratch | CopyRows | DropOld | Rename
    | CreateIndex(index: string) | WriteVersion | WriteHistory | Commit | LogFailure

  type Faults = set<Statement>

  const ADDED: seq<Column> := ["collection", "migration_status", "resolution_status", "legacy_source_key"]

  const KEPT: set<Column> := {"id", "query_id", "candidate_key", "memory_id", "collection", "useful", "created_at",
                              "feedback_source", "migration_status", "resolution_status", "legacy_source_key"}

  const REQUIRED: set<Column> := {"query_id", "candidate_key", "useful", "created_at"}

  const QUERY_INDEX := "idx_feedback_events_query"
  const CANDIDATE_INDEX := "idx_feedback_events_candidate"
  const LEGACY_INDEX := "idx_feedback_events_legacy_source"

  // ---------------------------------------------------------------------------
  // The v2 to v3 step
  // ---------------------------------------------------------------------------

  function WithColumn(t: Table, c: Column): Table {
    if c in t.columns then t
    else t.(columns := t.columns + {c}, rows := seq(|t.rows|, i requires 0 <= i < |t.rows| => t.rows[i][c := Null]))
  }

  /** What the rebuilt table puts in a column the old one lacks. */
  function Default(c: Column, i: nat, now: string): Cell {
    if c == "id" then Number(i + 1)
    else if c == "created_at" then Text(now)
    else if c == "feedback_source" then Text("dashboard")
    else Null
  }

  function RebuiltRow(columns: set<Column>, row: Row, i: nat, now: string): Row {
    map c | c in KEPT :: if c in columns && c in row then row[c] else Default(c, i, now)
  }

  /** The table without the foreign key, with the columns of v3. */
  function Rebuilt(t: Table, now: string): Table {
    Table(KEPT, seq(|t.rows|, i requires 0 <= i < |t.rows| => RebuiltRow(t.columns, t.rows[i], i, now)), false)
  }

  predicate NothingRequiredIsNull(t: Table) {
    forall i, c :: 0 <= i < |t.rows| && c in REQUIRED ==> c in t.rows[i] && t.rows[i][c] != Null
  }

  function LegacyKey(row: Row): Cell {
    if "legacy_source_key" in row then row["legacy_source_key"] else Null
  }

  predicate LegacyKeysUnique(t: Table) {
    forall i, j :: 0 <= i < j < |t.rows| && LegacyKey(t.rows[i]) != Null ==> LegacyKey(t.rows[i]) != LegacyKey(t.rows[j])
  }

  /** Adding the columns `cs` that are missing. */
  function AddColumns(t: Table, cs: seq<Column>, faults: Faults): Option<Table> {
    if cs == [] then Some(t)
    else
      var before := AddColumns(t, cs[..|cs| - 1], faults);
      var c := cs[|cs| - 1];
      if before.None? then None
      else if c !in before.value.columns && AddColumn(c) in faults then None
      else Some(WithColumn(before.value, c))
  }

  function RebuildIfNeeded(t: Table, now: string, faults: Faults): Option<Table> {
    if !t.recallFk then Some(t)
    else if DropScratch in faults || CreateScratch in faults || CopyRows in faults || DropOld in faults || Rename in faults then None
    else if !NothingRequiredIsNull(Rebuilt(t, now)) then None
    else Some(Rebuilt(t, now))
  }

  function IndexAll(t: Table, indexes: set<string>, faults: Faults): Option<set<string>> {
    if exists i :: i in {QUERY_INDEX, CANDIDATE_INDEX, LEGACY_INDEX} && CreateIndex(i) in faults then None
    else if LEGACY_INDEX !in indexes && !LegacyKeysUnique(t) then None
    else Some(indexes + {QUERY_INDEX, CANDIDATE_INDEX, LEGACY_INDEX})
  }

  /** The step's body; `None` when a statement raises.  Dropping the old table drops its
      indexes with it. */
  function ToV3(f: Features, now: string, faults: Faults): Option<Features> {
    if f.feedback.None? then Some(f) else
    var widened := AddColumns(f.feedback.value, ADDED, faults);
    if widened.None? then None else
    var detached := RebuildIfNeeded(widened.value, now, faults);
    if detached.None? then None else
    var rebuilt := widened.value.recallFk;
    var indexes := IndexAll(detached.value, if rebuilt then {} else f.indexes, faults);
    if indexes.None? then None else
    Some(Features(Some(detached.value), f.scratch && !rebuilt, indexes.value))
  }

  // ---------------------------------------------------------------------------
  // The runner
  // ---------------------------------------------------------------------------

  function Body(f: Features, target: int, now: string, faults: Faults): Option<Features> {
    if target == 3 then ToV3(f, now, faults) else Some(f)
  }

  /** One migration in its own transaction: committed with its version and history row,
      or rolled back with a history row of the failure, if that can be written. */
  function ApplyOne(db: Database, target: int, now: string, faults: Faults): (Database, bool) {
    var body := Body(db.features, target, now, faults);
    if body.Some? && Begin !in faults && WriteVersion !in faults && WriteHistory !in faults && Commit !in faults
    then (Database(Version(target), db.history + [History(target - 1, target, true)], body.value), true)
    else (if LogFailure in faults then db else db.(history := db.history + [History(target - 1, target, false)]), false)
  }

  /** A marker that is not an integer counts as no version. */
  function Current(db: Database): int {
    if db.marker.Version? then db.marker.n else 0
  }

  datatype Result = At(version: int) | Failed | FutureSchema

  /** The steps to versions `to`, `to + 1`, ... up to the target, until one fails. */
  function Steps(db: Database, target: int, now: string, faults: int -> Faults): (Database, Result)
    requires target >= 1
    decreases SCHEMA_VERSION + 1 - target
  {
    if target > SCHEMA_VERSION then (db, At(SCHEMA_VERSION)) else
    var (next, ok) := ApplyOne(db, target, now, faults(target));
    if ok then Steps(next, target + 1, now, faults) else (next, Failed)
  }

  function NextVersion(db: Database): int {
    if Current(db) < 0 then 1 else Current(db) + 1
  }

  /** `faults(v)` are the faults met on the step to version v. */
  function RunMigrations(db: Database, now: string, faults: int -> Faults): (Database, Result) {
    if Current(db) > SCHEMA_VERSION then (db, FutureSchema) else Steps(db, NextVersion(db), now, faults)
  }

  // ---------------------------------------------------------------------------
  // What one step does to the features
  // ---------------------------------------------------------------------------

  const NO_FAULTS: int -> Faults := v => {}

  lemma {:induction false} AddColumnsClean(t: Table, cs: seq<Column>, faults: Faults)
    requires AddColumns(t, cs, faults).Some?
    ensures AddColumns(t, cs, {}) == AddColumns(t, cs, faults)
    decreases |cs|
  {
    if cs != [] {
      AddColumnsClean(t, cs[..|cs| - 1], faults);
    }
  }

  /** A step that gets through did exactly what a clean one does. */
  lemma ToV3Clean(f: Features, now: string, faults: Faults)
    requires ToV3(f, now, faults).Some?
    ensures ToV3(f, now, {}) == ToV3(f, now, faults)
  {
    if f.feedback.Some? {
      AddColumnsClean(f.feedback.value, ADDED, faults);
    }
  }

  /** Every row is still there, in order, with its values in the columns `cs`. */
  ghost predicate RowsKept(before: Table, after: Table, cs: set<Column>) {
    && |after.rows| == |before.rows|
    && forall i, c :: 0 <= i < |before.rows| && c in cs && c in before.columns && c in before.rows[i] ==>
         c in after.rows[i] && after.rows[i][c] == before.rows[i][c]
  }

  lemma {:induction false} AddColumnsKeep(t: Table, cs: seq<Column>)
    ensures AddColumns(t, cs, {}).Some?
    ensures var u := AddColumns(t, cs, {}).value;
            && RowsKept(t, u, t.columns) && u.recallFk == t.recallFk
            && u.columns == t.columns + (set c | c in cs)
    decreases |cs|
  {
    if cs != [] {
      var n := |cs| - 1;
      AddColumnsKeep(t, cs[..n]);
      assert cs == cs[..n] + [cs[n]];
    }
  }

  /** The step loses no feedback row: without the foreign key every value survives,
      with it every value of the columns v3 knows; and afterwards there is no foreign
      key and no scratch table of the step's own. */
  lemma ToV3KeepsRows(f: Features, now: string, faults: Faults)
    requires ToV3(f, now, faults).Some? && f.feedback.Some?
    ensures var g := ToV3(f, now, faults).value;
            && g.feedback.Some?
            && RowsKept(f.feedback.value, g.feedback.value,
                        if f.feedback.value.recallFk then KEPT else f.feedback.value.columns)
            && !g.feedback.value.recallFk
            && (forall c :: c in ADDED ==> c in g.feedback.value.columns)
            && {QUERY_INDEX, CANDIDATE_INDEX, LEGACY_INDEX} <= g.indexes
            && (g.scratch ==> f.scratch)
  {
    ToV3Clean(f, now, faults);
    AddColumnsKeep(f.feedback.value, ADDED);
  }

  /** ... and a column outside v3 is dropped exactly when the table is rebuilt. */
  lemma ToV3Columns(f: Features, now: string, c: Column)
    requires ToV3(f, now, {}).Some? && f.feedback.Some? && c in f.feedback.value.columns
    ensures c in ToV3(f, now, {}).value.feedback.value.columns <==> !f.feedback.value.recallFk || c in KEPT
  {
    AddColumnsKeep(f.feedback.value, ADDED);
  }

  lemma {:induction false} AddColumnsNothing(t: Table, cs: seq<Column>)
    requires forall c :: c in cs ==> c in t.columns
    ensures AddColumns(t, cs, {}) == Some(t)
    decreases |cs|
  {
    if cs != [] {
      assert cs[|cs| - 1] in cs;
      AddColumnsNothing(t, cs[..|cs| - 1]);
    }
  }

  /** Run again on its own result, as after a lost version marker, the step changes
      nothing. */
  lemma ToV3Idempotent(f: Features, now: string, later: string, faults: Faults)
    requires ToV3(f, now, faults).Some?
    ensures ToV3(ToV3(f, now, faults).value, later, {}) == ToV3(f, now, faults)
  {
    if f.feedback.Some? {
      var g := ToV3(f, now, faults).value;
      ToV3KeepsRows(f, now, faults);
      AddColumnsNothing(g.feedback.value, ADDED);
    }
  }

  // ---------------------------------------------------------------------------
  // Convergence
  // ---------------------------------------------------------------------------

  /** Before version 3 the features are untouched; at version 3 they are what one clean
      step at the time of the committing run makes of them. */
  ghost predicate OnTheWay(start: Features, db: Database) {
    && Current(db) <= SCHEMA_VERSION
    && (Current(db) < SCHEMA_VERSION ==> db.features == start)
    && (Current(db) == SCHEMA_VERSION ==> exists now :: ToV3(start, now, {}) == Some(db.features))
  }

  /** The successful rows of a history. */
  function Successes(h: seq<History>): seq<History> {
    if h == [] then [] else
      Successes(h[..|h| - 1]) + if h[|h| - 1].success then [h[|h| - 1]] else []
  }

  /** The rows of a contiguous climb from one version to another. */
  function Climb(origin: int, target: int): seq<History>
    decreases target - origin
  {
    if origin >= target then [] else Climb(origin, target - 1) + [History(target - 1, target, true)]
  }

  lemma SuccessesMore(h: seq<History>, e: History)
    ensures Successes(h + [e]) == Successes(h) + if e.success then [e] else []
  {
    assert (h + [e])[..|h|] == h;
  }

  lemma {:induction false} ClimbOn(origin: int, mid: int, target: int)
    requires origin <= mid <= target
    ensures Climb(origin, mid) + Climb(mid, target) == Climb(origin, target)
    decreases target - mid
  {
    if mid < target {
      ClimbOn(origin, mid, target - 1);
      var last := [History(target - 1, target, true)];
      assert Climb(origin, mid) + (Climb(mid, target - 1) + last) == (Climb(origin, mid) + Climb(mid, target - 1)) + last;
    } else {
      assert Climb(origin, mid) + [] == Climb(origin, mid);
    }
  }

  /** The history of `b` continues that of `a` with a contiguous climb between their
      versions, failures aside. */
  ghost predicate Climbed(a: Database, b: Database) {
    && NextVersion(a) <= NextVersion(b)
    && Successes(b.history) == Successes(a.history) + Climb(NextVersion(a) - 1, NextVersion(b) - 1)
  }

  lemma ClimbedReflexive(a: Database)
    ensures Climbed(a, a)
  {
    assert Climb(NextVersion(a) - 1, NextVersion(a) - 1) == [];
  }

  lemma ClimbedTransitive(a: Database, b: Database, c: Database)
    requires Climbed(a, b) && Climbed(b, c)
    ensures Climbed(a, c)
  {
    var i, j, k := NextVersion(a) - 1, NextVersion(b) - 1, NextVersion(c) - 1;
    ClimbOn(i, j, k);
    Associative(Successes(a.history), Climb(i, j), Climb(j, k));
  }

  lemma Associative(x: seq<History>, y: seq<History>, z: seq<History>)
    ensures x + y + z == x + (y + z)
  {
  }

  /** One step either moves version, features and history together or only notes its
      failure. */
  lemma StepMoves(db: Database, now: string, faults: Faults, start: Features)
    requires OnTheWay(start, db) && Current(db) < SCHEMA_VERSION
    ensures var (next, ok) := ApplyOne(db, NextVersion(db), now, faults);
            && OnTheWay(start, next) && Climbed(db, next)
            && NextVersion(next) == (if ok then NextVersion(db) + 1 else NextVersion(db))
            && (ok ==> Current(next) == NextVersion(db))
            && (!ok ==> Current(next) == Current(db))
            && (ok && Current(next) == SCHEMA_VERSION ==> ToV3(start, now, {}) == Some(next.features))
  {
    var v := NextVersion(db);
    var (next, ok) := ApplyOne(db, v, now, faults);
    SuccessesMore(db.history, History(v - 1, v, ok));
    if ok {
      assert Climb(v - 1, v) == Climb(v - 1, v - 1) + [History(v - 1, v, true)];
      if v == 3 {
        ToV3Clean(db.features, now, faults);
      }
    } else {
      ClimbedReflexive(db);
    }
  }

  /** All remaining steps. */
  lemma {:induction false} StepsMove(db: Database, now: string, faults: int -> Faults, start: Features)
    requires OnTheWay(start, db)
    ensures var (out, r) := Steps(db, NextVersion(db), now, faults);
            && OnTheWay(start, out) && Climbed(db, out)
            && (r == At(SCHEMA_VERSION) || r == Failed)
            && (r == At(SCHEMA_VERSION) <==> Current(out) == SCHEMA_VERSION)
            && (r == At(SCHEMA_VERSION) && Current(db) < SCHEMA_VERSION ==> ToV3(start, now, {}) == Some(out.features))
    decreases SCHEMA_VERSION - Current(db)
  {
    if Current(db) == SCHEMA_VERSION {
      ClimbedReflexive(db);
    } else {
      var (next, ok) := ApplyOne(db, NextVersion(db), now, faults(NextVersion(db)));
      StepMoves(db, now, faults(NextVersion(db)), start);
      if ok {
        StepsMove(next, now, faults, start);
        ClimbedTransitive(db, next, Steps(next, NextVersion(next), now, faults).0);
      }
    }
  }

  /** One run of the program against the database. */
  datatype Attempt = Attempt(now: string, faults: int -> Faults)

  function RunAll(db: Database, attempts: seq<Attempt>): Database
    decreases |attempts|
  {
    if attempts == [] then db
    else RunAll(RunMigrations(db, attempts[0].now, attempts[0].faults).0, attempts[1..])
  }

  /** Any runs, failing anywhere or succeeding. */
  lemma {:induction false} RunsMove(db: Database, attempts: seq<Attempt>, start: Features)
    requires OnTheWay(start, db)
    ensures OnTheWay(start, RunAll(db, attempts)) && Climbed(db, RunAll(db, attempts))
    decreases |attempts|
  {
    if attempts == [] {
      ClimbedReflexive(db);
    } else {
      var next := RunMigrations(db, attempts[0].now, attempts[0].faults).0;
      StepsMove(db, attempts[0].now, attempts[0].faults, start);
      RunsMove(next, attempts[1..], start);
      ClimbedTransitive(db, next, RunAll(db, attempts));
    }
  }

  /** From any version below the target, any runs that fail anywhere and then one that
      succeeds end with the version and features of a single uninterrupted run at the
      time of the last, with a contiguous chain of successful history rows. */
  lemma Convergence(db: Database, attempts: seq<Attempt>, now: string, faults: int -> Faults)
    requires Current(db) < SCHEMA_VERSION && Current(RunAll(db, attempts)) < SCHEMA_VERSION
    requires RunMigrations(RunAll(db, attempts), now, faults).1 == At(SCHEMA_VERSION)
    ensures var out := RunMigrations(RunAll(db, attempts), now, faults).0;
            var clean := RunMigrations(db, now, NO_FAULTS);
            && clean.1 == At(SCHEMA_VERSION)
            && out.marker == clean.0.marker && out.features == clean.0.features
            && Successes(out.history) == Successes(db.history) + Climb(NextVersion(db) - 1, SCHEMA_VERSION)
  {
    var mid := RunAll(db, attempts);
    RunsMove(db, attempts, db.features);
    StepsMove(mid, now, faults, db.features);
    ClimbedTransitive(db, mid, RunMigrations(mid, now, faults).0);
    StepsMove(db, now, NO_FAULTS, db.features);
    CleanSucceeds(db, NextVersion(db), now);
  }

  lemma {:induction false} CleanSucceeds(db: Database, target: int, now: string)
    requires 1 <= target && ToV3(db.features, now, {}).Some?
    ensures target <= SCHEMA_VERSION ==> Steps(db, target, now, NO_FAULTS).1 == At(SCHEMA_VERSION)
    decreases SCHEMA_VERSION + 1 - target
  {
    if target < SCHEMA_VERSION {
      CleanSucceeds(ApplyOne(db, target, now, {}).0, target + 1, now);
    }
  }

  /** No run, failing or not, loses a feedback row. */
  lemma NoRowLost(db: Database, attempts: seq<Attempt>)
    requires Current(db) < SCHEMA_VERSION && db.features.feedback.Some?
    ensures var before, after := db.features.feedback.value, RunAll(db, attempts).features.feedback;
            after.Some? && RowsKept(before, after.value, if before.recallFk then KEPT else before.columns)
  {
    RunsMove(db, attempts, db.features);
    if Current(RunAll(db, attempts)) == SCHEMA_VERSION {
      var now :| ToV3(db.features, now, {}) == Some(RunAll(db, attempts).features);
      ToV3KeepsRows(db.features, now, {});
    }
  }

  /** At the target a run is a no-op, and a newer database is refused untouched. */
  lemma RerunIsNoOp(db: Database, now: string, faults: int -> Faults)
    ensures Current(db) == SCHEMA_VERSION ==> RunMigrations(db, now, faults) == (db, At(SCHEMA_VERSION))
    ensures Current(db) > SCHEMA_VERSION ==> RunMigrations(db, now, faults) == (db, FutureSchema)
  {
  }

  // ---------------------------------------------------------------------------
  // What the step fills in, and when it gets through
  // ---------------------------------------------------------------------------

  /** Every row has the table's columns and no others. */
  ghost predicate WellFormed(t: Table) {
    forall i :: 0 <= i < |t.rows| ==> t.rows[i].Keys == t.columns
  }

  lemma {:induction false} AddColumnsFill(t: Table, cs: seq<Column>)
    requires WellFormed(t)
    ensures AddColumns(t, cs, {}).Some?
    ensures var u := AddColumns(t, cs, {}).value;
            && WellFormed(u) && |u.rows| == |t.rows| && u.recallFk == t.recallFk
            && u.columns == t.columns + (set c | c in cs)
            && forall i, c :: 0 <= i < |u.rows| && c in u.columns ==>
                 u.rows[i][c] == if c in t.columns then t.rows[i][c] else Null
    decreases |cs|
  {
    if cs != [] {
      var n := |cs| - 1;
      AddColumnsFill(t, cs[..n]);
      WithColumnFills(AddColumns(t, cs[..n], {}).value, cs[n]);
      assert cs == cs[..n] + [cs[n]];
    }
  }

  lemma WithColumnFills(t: Table, c: Column)
    requires WellFormed(t)
    ensures var u := WithColumn(t, c);
            && WellFormed(u) && |u.rows| == |t.rows| && u.columns == t.columns + {c} && u.recallFk == t.recallFk
            && forall i, d :: 0 <= i < |u.rows| && d in u.columns ==>
                 u.rows[i][d] == if d in t.columns then t.rows[i][d] else Null
  {
  }

  /** What a row of a table without the column `c` gets there. */
  function Filled(c: Column, i: nat, now: string): Cell {
    match c
    case "id" => Number(i + 1)
    case "created_at" => Text(now)
    case "feedback_source" => Text("dashboard")
    case _ => Null
  }

  /** `wide` is `t` with the four new columns, empty where they are new. */
  ghost predicate IsWidened(t: Table, wide: Table) {
    && |wide.rows| == |t.rows| && wide.recallFk == t.recallFk
    && wide.columns == t.columns + {"collection", "migration_status", "resolution_status", "legacy_source_key"}
    && forall i :: 0 <= i < |t.rows| ==> RowWidened(t, wide, i)
  }

  ghost predicate RowWidened(t: Table, wide: Table, i: nat)
    requires i < |t.rows| && |wide.rows| == |t.rows|
  {
    && wide.rows[i].Keys == wide.columns
    && t.rows[i].Keys == t.columns
    && forall c :: c in wide.columns ==> wide.rows[i][c] == if c in t.columns then t.rows[i][c] else Null
  }

  lemma WidenedByStep(t: Table)
    requires WellFormed(t)
    ensures AddColumns(t, ADDED, {}).Some? && IsWidened(t, AddColumns(t, ADDED, {}).value)
  {
    AddColumnsFill(t, ADDED);
    assert (set c | c in ADDED) == {"collection", "migration_status", "resolution_status", "legacy_source_key"} by {
      assert ADDED[0] in ADDED && ADDED[1] in ADDED && ADDED[2] in ADDED && ADDED[3] in ADDED;
    }
  }

  lemma RebuiltFilled(t: Table, wide: Table, now: string, i: nat, c: Column)
    requires IsWidened(t, wide) && i < |t.rows| && c in KEPT
    ensures Rebuilt(wide, now).rows[i][c] == if c in t.rows[i] then t.rows[i][c] else Filled(c, i, now)
  {
    assert RowWidened(t, wide, i);
  }

  /** A column the old table lacked is filled with the row's number, the time of the step,
      the dashboard as source, or nothing; every other value is the old one. */
  lemma MissingColumnsFilled(f: Features, now: string, faults: Faults, i: nat, c: Column)
    requires ToV3(f, now, faults).Some? && f.feedback.Some? && WellFormed(f.feedback.value)
    requires i < |f.feedback.value.rows| && c in ToV3(f, now, faults).value.feedback.value.columns
    ensures var t, u := f.feedback.value, ToV3(f, now, faults).value.feedback.value;
            && |u.rows| == |t.rows| && c in u.rows[i]
            && u.rows[i][c] == if c in t.rows[i] then t.rows[i][c] else Filled(c, i, now)
  {
    ToV3Clean(f, now, faults);
    var t := f.feedback.value;
    WidenedByStep(t);
    var wide := AddColumns(t, ADDED, {}).value;
    assert RowWidened(t, wide, i);
    if t.recallFk {
      RebuiltFilled(t, wide, now, i, c);
    }
  }

  /** What the step needs of the old table: with the foreign key, no missing value where v3
      allows none, a creation time excepted that the table has no column for; and unless the
      unique index is there already and stays, no legacy key twice. */
  ghost predicate Ready(f: Features) {
    f.feedback.Some? ==>
      var t := f.feedback.value;
      && (t.recallFk ==> forall i :: 0 <= i < |t.rows| ==> RowComplete(t.rows[i]))
      && ((t.recallFk || LEGACY_INDEX !in f.indexes) ==> LegacyKeysUnique(t))
  }

  ghost predicate RowComplete(row: Row) {
    && (forall c :: c in {"query_id", "candidate_key", "useful"} ==> c in row && row[c] != Null)
    && ("created_at" in row ==> row["created_at"] != Null)
  }

  /** Without faults the step gets through exactly when the old table is ready for it. */
  lemma StepSucceedsExactly(f: Features, now: string)
    requires f.feedback.Some? ==> WellFormed(f.feedback.value)
    ensures ToV3(f, now, {}).Some? <==> Ready(f)
  {
    if f.feedback.Some? {
      var t := f.feedback.value;
      WidenedByStep(t);
      var wide := AddColumns(t, ADDED, {}).value;
      RebuildReady(t, wide, now);
      SameLegacyKeys(t, wide);
      SameLegacyKeys(t, Rebuilt(wide, now));
      CleanRebuild(wide, now);
      CleanIndexing(wide, f.indexes);
      CleanIndexing(Rebuilt(wide, now), {});
    }
  }

  lemma CleanRebuild(t: Table, now: string)
    ensures RebuildIfNeeded(t, now, {}).Some? <==> !t.recallFk || NothingRequiredIsNull(Rebuilt(t, now))
    ensures RebuildIfNeeded(t, now, {}).Some? ==>
              RebuildIfNeeded(t, now, {}).value == if t.recallFk then Rebuilt(t, now) else t
  {
  }

  lemma CleanIndexing(t: Table, indexes: set<string>)
    ensures IndexAll(t, indexes, {}).Some? <==> LEGACY_INDEX in indexes || LegacyKeysUnique(t)
  {
  }

  lemma RebuildReady(t: Table, wide: Table, now: string)
    requires IsWidened(t, wide)
    ensures |Rebuilt(wide, now).rows| == |t.rows|
    ensures NothingRequiredIsNull(Rebuilt(wide, now)) <==> forall i :: 0 <= i < |t.rows| ==> RowComplete(t.rows[i])
    ensures forall i :: 0 <= i < |t.rows| ==> LegacyKey(Rebuilt(wide, now).rows[i]) == LegacyKey(t.rows[i])
    ensures forall i :: 0 <= i < |t.rows| ==> LegacyKey(wide.rows[i]) == LegacyKey(t.rows[i])
  {
    var u := Rebuilt(wide, now);
    forall i | 0 <= i < |t.rows|
      ensures RowComplete(t.rows[i]) <==> RequiredGiven(u.rows[i])
      ensures LegacyKey(u.rows[i]) == LegacyKey(t.rows[i]) && LegacyKey(wide.rows[i]) == LegacyKey(t.rows[i])
    {
      RowReady(t, wide, i, now);
    }
    assert NothingRequiredIsNull(u) <==> forall i :: 0 <= i < |t.rows| ==> RequiredGiven(u.rows[i]);
  }

  ghost predicate RequiredGiven(row: Row) {
    forall c :: c in REQUIRED ==> c in row && row[c] != Null
  }

  lemma RowReady(t: Table, wide: Table, i: nat, now: string)
    requires IsWidened(t, wide) && i < |t.rows|
    ensures var row := Rebuilt(wide, now).rows[i];
            && (RowComplete(t.rows[i]) <==> RequiredGiven(row))
            && LegacyKey(row) == LegacyKey(t.rows[i]) && LegacyKey(wide.rows[i]) == LegacyKey(t.rows[i])
  {
    var row := Rebuilt(wide, now).rows[i];
    assert RowWidened(t, wide, i);
    RebuiltFilled(t, wide, now, i, "query_id");
    RebuiltFilled(t, wide, now, i, "candidate_key");
    RebuiltFilled(t, wide, now, i, "useful");
    RebuiltFilled(t, wide, now, i, "created_at");
    assert row.Keys == KEPT;
  }

  lemma SameLegacyKeys(t: Table, u: Table)
    requires |u.rows| == |t.rows| && forall i :: 0 <= i < |t.rows| ==> LegacyKey(u.rows[i]) == LegacyKey(t.rows[i])
    ensures LegacyKeysUnique(u) <==> LegacyKeysUnique(t)
  {
  }

  /** One step to `target`: it is committed when its body and its four own statements get
      through, and leaves everything but a note of the failure otherwise. */
  lemma StepOutcome(db: Database, target: int, now: string, faults: Faults)
    ensures var (next, ok) := ApplyOne(db, target, now, faults);
            && (ok <==> faults !! {Begin, WriteVersion, WriteHistory, Commit}
                        && (target == 3 ==> ToV3(db.features, now, faults).Some?))
            && (ok ==> next.marker == Version(target) && next.history == db.history + [History(target - 1, target, true)]
                       && next.features == if target == 3 then ToV3(db.features, now, faults).value else db.features)
            && (!ok && LogFailure in faults ==> next == db)
            && (!ok && LogFailure !in faults ==>
                  next == Database(db.marker, db.history + [History(target - 1, target, false)], db.features))
  {
  }

  /** An unreadable version counts as none. */
  lemma GarbageCountsAsNone(db: Database, now: string, faults: int -> Faults)
    requires db.marker.Garbage?
    ensures var a, b := RunMigrations(db, now, faults), RunMigrations(db.(marker := Absent), now, faults);
            a.1 == b.1 && a.0.history == b.0.history && a.0.features == b.0.features
  {
    var plain := db.(marker := Absent);
    assert ApplyOne(db, 1, now, faults(1)).1 == ApplyOne(plain, 1, now, faults(1)).1;
  }
}
