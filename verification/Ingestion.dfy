/** Checkpointed ingestion of chunks into a vector store, as a function of what the
    outside world does to each step: embedding failures, interrupts, errors, crashes. */
module Ingestion {
  import opened FiniteSets
  import opened Options
  import opened Sequences

  type ChunkId = string
  type PointId = string
  /** The point id of a chunk, a truncated hash. */
  type PointOf = ChunkId -> PointId

  /** `completed` is the list of completed chunk ids, of which only membership is used. */
  datatype Progress = Progress(running: bool, written: int, failed: int, completed: set<ChunkId>)

  const FRESH := Progress(true, 0, 0, {})

  datatype File = Missing | Corrupt | Saved(progress: Progress)

  /** The stored points, the checkpoint file, and the manager's progress, if the
      process has any. */
  datatype World = World(stored: set<PointId>, checkpoint: File, memory: Option<Progress>)

  datatype Settings = Settings(resume: bool, dryRun: bool, skipExisting: bool, batchSize: int)

  /** A step works, or it stops the run: with an exception or with the process, and
      with or without its effect. */
  datatype Fate = Works | Stops(dies: bool, effect: bool)

  /** What happens while one chunk is processed. */
  datatype Turn = Turn(interrupted: bool, embeds: bool, upsert: Fate, save: Fate)

  const QUIET := Turn(false, true, Works, Works)

  function TurnAt(turns: seq<Turn>, i: nat): Turn {
    if i < |turns| then turns[i] else QUIET
  }

  datatype Flow = Going | Completed | Interrupted | Raised | Died

  /** A run in progress.  `skipped` counts chunks passed over as completed, `missed`
      holds those that failed to embed. */
  datatype Session = Session(
    stored: set<PointId>, checkpoint: File, progress: Progress, batch: seq<ChunkId>,
    skipped: nat, missed: set<ChunkId>, flow: Flow)

  function Points(ids: set<ChunkId>, point: PointOf): set<PointId> {
    set c | c in ids :: point(c)
  }

  function Ids(chunks: seq<ChunkId>): set<ChunkId> {
    set c | c in chunks
  }

  function Halt(fate: Fate): Flow
    requires fate.Stops?
  {
    if fate.dies then Died else Raised
  }

  /** Writing the checkpoint is not atomic: a failed write may leave a torn file. */
  function Save(s: Session, fate: Fate): Session {
    match fate
    case Works => s.(checkpoint := Saved(s.progress))
    case Stops(_, torn) => s.(checkpoint := if torn then Corrupt else s.checkpoint, flow := Halt(fate))
  }

  /** Upserting adds the points of a batch together. */
  function Upsert(s: Session, point: PointOf, fate: Fate): Session {
    var more := s.stored + Points(Ids(s.batch), point);
    match fate
    case Works =>
      s.(stored := more, batch := [],
         progress := s.progress.(written := s.progress.written + |s.batch|,
                                 completed := s.progress.completed + Ids(s.batch)))
    case Stops(_, effect) => s.(stored := if effect then more else s.stored, flow := Halt(fate))
  }

  /** One turn of the loop over chunks; `i` counts from one. */
  function Process(s: Session, c: ChunkId, i: nat, n: nat, existing: set<PointId>, settings: Settings,
                   point: PointOf, turn: Turn): Session
  {
    if c in s.progress.completed then s.(skipped := s.skipped + 1)
    else if turn.interrupted then
      var saved := Save(s.(progress := s.progress.(running := true)), turn.save);
      if saved.flow == Going then saved.(flow := Interrupted) else saved
    else if settings.skipExisting && point(c) in existing then
      s.(progress := s.progress.(written := s.progress.written + 1, completed := s.progress.completed + {c}))
    else if !turn.embeds then
      s.(progress := s.progress.(failed := s.progress.failed + 1), missed := s.missed + {c})
    else
      var queued := s.(batch := s.batch + [c]);
      var flushed := if |queued.batch| >= settings.batchSize then Upsert(queued, point, turn.upsert) else queued;
      if flushed.flow == Going && (i % 25 == 0 || i == n) then Save(flushed, turn.save) else flushed
  }

  /** The session after the first `i` chunks. */
  function After(s: Session, chunks: seq<ChunkId>, i: nat, existing: set<PointId>, settings: Settings,
                 point: PointOf, turns: seq<Turn>): Session
    requires i <= |chunks|
  {
    if i == 0 then s else
      var before := After(s, chunks, i - 1, existing, settings, point, turns);
      if before.flow != Going then before
      else Process(before, chunks[i - 1], i, |chunks|, existing, settings, point, TurnAt(turns, i - 1))
  }

  function Initial(w: World, settings: Settings): Progress {
    if settings.resume && w.checkpoint.Saved? && w.checkpoint.progress.running then w.checkpoint.progress
    else if w.memory.Some? then w.memory.value
    else FRESH
  }

  /** Listing the stored ids may fail part way and then returns what it has. */
  function Known(w: World, settings: Settings, fetched: set<PointId>): set<PointId> {
    if settings.skipExisting && !settings.dryRun then fetched * w.stored else {}
  }

  function Opening(w: World, chunks: seq<ChunkId>, settings: Settings, fetched: set<PointId>, point: PointOf): Session {
    var p, existing := Initial(w, settings), Known(w, settings, fetched);
    var present := set c | c in chunks && point(c) in existing;
    Session(w.stored, w.checkpoint, p.(completed := p.completed + present), [], 0, {}, Going)
  }

  /** Deleting the checkpoint; a deletion that stops the run may still have happened. */
  function Clear(s: Session, fate: Fate): Session {
    match fate
    case Works => s.(checkpoint := Missing)
    case Stops(_, gone) => s.(checkpoint := if gone then Missing else s.checkpoint, flow := Halt(fate))
  }

  /** The end of a run: flush the last batch, mark completed, drop the checkpoint.  The
      turn after the last chunk gives the fates of the flush and of the deletion. */
  function Close(s: Session, point: PointOf, last: Turn): Session {
    if s.flow != Going then s else
    var flushed := if s.batch != [] then Upsert(s, point, last.upsert) else s;
    if flushed.flow != Going then flushed else
    var cleared := Clear(flushed.(progress := flushed.progress.(running := false)), last.save);
    if cleared.flow == Going then cleared.(flow := Completed) else cleared
  }

  function Run(w: World, chunks: seq<ChunkId>, settings: Settings, fetched: set<PointId>, point: PointOf,
               turns: seq<Turn>): Session
  {
    var s := Opening(w, chunks, settings, fetched, point);
    var last := TurnAt(turns, |chunks|);
    if settings.dryRun then
      var saved := Save(s.(progress := s.progress.(running := false)), last.save);
      if saved.flow == Going then saved.(flow := Completed) else saved
    else
      Close(After(s, chunks, |chunks|, Known(w, settings, fetched), settings, point, turns), point, last)
  }

  /** What a run leaves behind: a process that died has no memory. */
  function Leaves(s: Session): World {
    World(s.stored, s.checkpoint, if s.flow == Died then None else Some(s.progress))
  }

  // ---------------------------------------------------------------------------
  // Safety
  // ---------------------------------------------------------------------------

  /** Every chunk marked completed, in memory or in a resumable checkpoint, is stored. */
  ghost predicate Safe(w: World, point: PointOf) {
    && (w.memory.Some? ==> Points(w.memory.value.completed, point) <= w.stored)
    && (w.checkpoint.Saved? && w.checkpoint.progress.running ==>
          Points(w.checkpoint.progress.completed, point) <= w.stored)
  }

  ghost predicate SafeSession(s: Session, point: PointOf) {
    && Points(s.progress.completed, point) <= s.stored
    && (s.checkpoint.Saved? && s.checkpoint.progress.running ==>
          Points(s.checkpoint.progress.completed, point) <= s.stored)
  }

  lemma UpsertSafe(s: Session, point: PointOf, fate: Fate)
    requires SafeSession(s, point)
    ensures SafeSession(Upsert(s, point, fate), point)
  {
  }

  lemma ProcessSafe(s: Session, c: ChunkId, i: nat, n: nat, existing: set<PointId>, settings: Settings,
                    point: PointOf, turn: Turn)
    requires SafeSession(s, point) && existing <= s.stored
    ensures SafeSession(Process(s, c, i, n, existing, settings, point, turn), point)
    ensures s.stored <= Process(s, c, i, n, existing, settings, point, turn).stored
  {
    UpsertSafe(s.(batch := s.batch + [c]), point, turn.upsert);
  }

  lemma {:induction false} AfterSafe(s: Session, chunks: seq<ChunkId>, i: nat, existing: set<PointId>,
                                     settings: Settings, point: PointOf, turns: seq<Turn>)
    requires i <= |chunks| && SafeSession(s, point) && existing <= s.stored
    ensures SafeSession(After(s, chunks, i, existing, settings, point, turns), point)
    ensures s.stored <= After(s, chunks, i, existing, settings, point, turns).stored
    decreases i
  {
    if i > 0 {
      AfterSafe(s, chunks, i - 1, existing, settings, point, turns);
      var before := After(s, chunks, i - 1, existing, settings, point, turns);
      ProcessSafe(before, chunks[i - 1], i, |chunks|, existing, settings, point, TurnAt(turns, i - 1));
    }
  }

  /** However a run ends, what it leaves is safe, and no stored point is lost. */
  lemma RunSafe(w: World, chunks: seq<ChunkId>, settings: Settings, fetched: set<PointId>, point: PointOf,
                turns: seq<Turn>)
    requires Safe(w, point)
    ensures Safe(Leaves(Run(w, chunks, settings, fetched, point, turns)), point)
    ensures w.stored <= Run(w, chunks, settings, fetched, point, turns).stored
  {
    var s := Opening(w, chunks, settings, fetched, point);
    var existing := Known(w, settings, fetched);
    assert SafeSession(s, point);
    if !settings.dryRun {
      AfterSafe(s, chunks, |chunks|, existing, settings, point, turns);
      UpsertSafe(After(s, chunks, |chunks|, existing, settings, point, turns), point, TurnAt(turns, |chunks|).upsert);
    }
  }

  /** One run, or a restart of the process between runs. */
  datatype Event =
    | Ingest(chunks: seq<ChunkId>, settings: Settings, fetched: set<PointId>, turns: seq<Turn>)
    | NewProcess

  function Next(w: World, e: Event, point: PointOf): World {
    match e
    case NewProcess => w.(memory := None)
    case Ingest(chunks, settings, fetched, turns) => Leaves(Run(w, chunks, settings, fetched, point, turns))
  }

  function RunAll(w: World, events: seq<Event>, point: PointOf): World
    decreases |events|
  {
    if events == [] then w else RunAll(Next(w, events[0], point), events[1..], point)
  }

  /** Over any sequence of runs on one collection, each completed, interrupted, failed
      or crashed anywhere, every chunk marked completed stays stored. */
  lemma {:induction false} RunsSafe(w: World, events: seq<Event>, point: PointOf)
    requires Safe(w, point)
    ensures Safe(RunAll(w, events, point), point) && w.stored <= RunAll(w, events, point).stored
    decreases |events|
  {
    if events != [] {
      var e := events[0];
      if e.Ingest? {
        RunSafe(w, e.chunks, e.settings, e.fetched, point, e.turns);
      }
      RunsSafe(Next(w, e, point), events[1..], point);
    }
  }

  // ---------------------------------------------------------------------------
  // Completeness
  // ---------------------------------------------------------------------------

  /** Every chunk so far is completed, waits in the batch, or failed to embed in this
      run; and the counters account for each exactly once. */
  ghost predicate Accounted(s: Session, start: Progress, chunks: seq<ChunkId>, i: nat, turns: seq<Turn>)
    requires i <= |chunks|
  {
    && (forall j :: 0 <= j < i ==>
          chunks[j] in s.progress.completed || chunks[j] in s.batch || chunks[j] in s.missed)
    && (forall c :: c in s.missed ==> exists j :: 0 <= j < i && chunks[j] == c && !TurnAt(turns, j).embeds)
    && s.skipped + (s.progress.failed - start.failed) + (s.progress.written - start.written) + |s.batch| == i
  }

  lemma ProcessAccounted(s: Session, start: Progress, chunks: seq<ChunkId>, i: nat, existing: set<PointId>,
                         settings: Settings, point: PointOf, turns: seq<Turn>)
    requires i < |chunks| && s.flow == Going && Accounted(s, start, chunks, i, turns)
    ensures var t := Process(s, chunks[i], i + 1, |chunks|, existing, settings, point, TurnAt(turns, i));
            t.flow == Going ==> Accounted(t, start, chunks, i + 1, turns)
  {
    var t := Process(s, chunks[i], i + 1, |chunks|, existing, settings, point, TurnAt(turns, i));
    if t.flow == Going {
      forall c | c in t.missed ensures exists j :: 0 <= j < i + 1 && chunks[j] == c && !TurnAt(turns, j).embeds {
        if c in s.missed {
          var j :| 0 <= j < i && chunks[j] == c && !TurnAt(turns, j).embeds;
        } else {
          assert chunks[i] == c;
        }
      }
    }
  }

  lemma {:induction false} AfterAccounted(s: Session, chunks: seq<ChunkId>, i: nat, existing: set<PointId>,
                                          settings: Settings, point: PointOf, turns: seq<Turn>)
    requires i <= |chunks| && s.flow == Going && s.skipped == 0 && s.missed == {} && s.batch == []
    ensures var t := After(s, chunks, i, existing, settings, point, turns);
            t.flow == Going ==> Accounted(t, s.progress, chunks, i, turns)
    ensures After(s, chunks, i, existing, settings, point, turns).flow != Completed
    decreases i
  {
    if i > 0 {
      AfterAccounted(s, chunks, i - 1, existing, settings, point, turns);
      var before := After(s, chunks, i - 1, existing, settings, point, turns);
      if before.flow == Going {
        ProcessAccounted(before, s.progress, chunks, i - 1, existing, settings, point, turns);
      }
    }
  }

  /** When a run that is not a dry run reports completion, every chunk is stored or
      failed to embed in this very run; skipped, failed and written in this run add up
      to the number of chunks; and no checkpoint is left. */
  lemma CompletedStoresAll(w: World, chunks: seq<ChunkId>, settings: Settings, fetched: set<PointId>,
                           point: PointOf, turns: seq<Turn>)
    requires Safe(w, point) && !settings.dryRun
    requires Run(w, chunks, settings, fetched, point, turns).flow == Completed
    ensures var s, start := Run(w, chunks, settings, fetched, point, turns), Initial(w, settings);
            && (forall j :: 0 <= j < |chunks| ==> point(chunks[j]) in s.stored || chunks[j] in s.missed)
            && (forall c :: c in s.missed ==>
                  exists j :: 0 <= j < |chunks| && chunks[j] == c && !TurnAt(turns, j).embeds)
            && s.skipped + (s.progress.failed - start.failed) + (s.progress.written - start.written) == |chunks|
            && s.checkpoint == Missing
  {
    var open, existing := Opening(w, chunks, settings, fetched, point), Known(w, settings, fetched);
    AfterAccounted(open, chunks, |chunks|, existing, settings, point, turns);
    RunSafe(w, chunks, settings, fetched, point, turns);
    var s := Run(w, chunks, settings, fetched, point, turns);
    forall j | 0 <= j < |chunks| && chunks[j] !in s.missed ensures point(chunks[j]) in s.stored {
      assert chunks[j] in s.progress.completed;
      assert point(chunks[j]) in Points(s.progress.completed, point);
    }
  }

  // ---------------------------------------------------------------------------
  // Checkpoints
  // ---------------------------------------------------------------------------

  /** An interrupt is answered by saving first: what is in memory is in the file. */
  lemma {:induction false} InterruptedIsSaved(s: Session, chunks: seq<ChunkId>, i: nat, existing: set<PointId>,
                                              settings: Settings, point: PointOf, turns: seq<Turn>)
    requires i <= |chunks| && s.flow == Going
    ensures var t := After(s, chunks, i, existing, settings, point, turns);
            t.flow == Interrupted ==> t.checkpoint == Saved(t.progress) && t.progress.running
    decreases i
  {
    if i > 0 {
      InterruptedIsSaved(s, chunks, i - 1, existing, settings, point, turns);
    }
  }

  /** No progress is forgotten within a run. */
  lemma {:induction false} CompletedGrows(s: Session, chunks: seq<ChunkId>, i: nat, existing: set<PointId>,
                                          settings: Settings, point: PointOf, turns: seq<Turn>)
    requires i <= |chunks|
    ensures s.progress.completed <= After(s, chunks, i, existing, settings, point, turns).progress.completed
    decreases i
  {
    if i > 0 {
      CompletedGrows(s, chunks, i - 1, existing, settings, point, turns);
    }
  }

  ghost predicate BatchFits(s: Session, settings: Settings) {
    s.flow == Going ==> s.batch == [] || |s.batch| < settings.batchSize
  }

  /** A full batch is written at once. */
  lemma {:induction false} BatchStaysSmall(s: Session, chunks: seq<ChunkId>, i: nat, existing: set<PointId>,
                                           settings: Settings, point: PointOf, turns: seq<Turn>)
    requires i <= |chunks| && s.batch == []
    ensures BatchFits(After(s, chunks, i, existing, settings, point, turns), settings)
    decreases i
  {
    if i > 0 {
      BatchStaysSmall(s, chunks, i - 1, existing, settings, point, turns);
    }
  }

  /** Where an interrupted run stopped: the chunks before are completed, failed to embed,
      or wait in a batch that is not full. */
  ghost predicate StoppedAt(s: Session, chunks: seq<ChunkId>, settings: Settings, j: nat) {
    && j < |chunks|
    && (forall m :: 0 <= m < j ==> chunks[m] in s.progress.completed || chunks[m] in s.missed || chunks[m] in s.batch)
    && (s.batch == [] || |s.batch| < settings.batchSize)
  }

  lemma {:induction false} StopsSomewhere(s: Session, chunks: seq<ChunkId>, i: nat, existing: set<PointId>,
                                          settings: Settings, point: PointOf, turns: seq<Turn>)
    requires i <= |chunks| && s.flow == Going && s.skipped == 0 && s.missed == {} && s.batch == []
    requires After(s, chunks, i, existing, settings, point, turns).flow == Interrupted
    ensures exists j :: StoppedAt(After(s, chunks, i, existing, settings, point, turns), chunks, settings, j)
    decreases i
  {
    var before := After(s, chunks, i - 1, existing, settings, point, turns);
    if before.flow == Going {
      AfterAccounted(s, chunks, i - 1, existing, settings, point, turns);
      BatchStaysSmall(s, chunks, i - 1, existing, settings, point, turns);
      var t := After(s, chunks, i, existing, settings, point, turns);
      assert t.batch == before.batch && t.missed == before.missed && t.progress.completed == before.progress.completed;
      assert StoppedAt(t, chunks, settings, i - 1);
    } else {
      StopsSomewhere(s, chunks, i - 1, existing, settings, point, turns);
    }
  }

  /** A run that ends interrupted leaves a running checkpoint equal to the progress in
      memory.  It holds everything completed before the run and, up to the chunk where the
      run stopped, everything but failed embeddings and a batch that is not full. */
  lemma InterruptLeavesCheckpoint(w: World, chunks: seq<ChunkId>, settings: Settings, fetched: set<PointId>,
                                  point: PointOf, turns: seq<Turn>)
    requires Run(w, chunks, settings, fetched, point, turns).flow == Interrupted
    ensures var s := Run(w, chunks, settings, fetched, point, turns);
            && s.checkpoint == Saved(s.progress) && s.progress.running
            && Initial(w, settings).completed <= s.progress.completed
            && exists j :: StoppedAt(s, chunks, settings, j)
  {
    var open, existing := Opening(w, chunks, settings, fetched, point), Known(w, settings, fetched);
    AfterAccounted(open, chunks, |chunks|, existing, settings, point, turns);
    InterruptedIsSaved(open, chunks, |chunks|, existing, settings, point, turns);
    CompletedGrows(open, chunks, |chunks|, existing, settings, point, turns);
    StopsSomewhere(open, chunks, |chunks|, existing, settings, point, turns);
  }

  /** How many of the chunks are in `done`. */
  function CountIn(chunks: seq<ChunkId>, done: set<ChunkId>): nat {
    if chunks == [] then 0
    else CountIn(chunks[..|chunks| - 1], done) + if chunks[|chunks| - 1] in done then 1 else 0
  }

  /** Among the chunks still to come a run completes none before its turn. */
  ghost predicate AheadAsOpened(t: Session, s: Session, chunks: seq<ChunkId>, i: nat) {
    && (forall b :: b in t.batch ==> exists m :: 0 <= m < i && m < |chunks| && chunks[m] == b)
    && forall m :: i <= m < |chunks| ==> (chunks[m] in t.progress.completed <==> chunks[m] in s.progress.completed)
  }

  lemma AheadStep(t: Session, s: Session, chunks: seq<ChunkId>, i: nat, existing: set<PointId>,
                  settings: Settings, point: PointOf, turn: Turn)
    requires i < |chunks| && NoDuplicates(chunks) && AheadAsOpened(t, s, chunks, i)
    ensures AheadAsOpened(Process(t, chunks[i], i + 1, |chunks|, existing, settings, point, turn), s, chunks, i + 1)
  {
    var next := Process(t, chunks[i], i + 1, |chunks|, existing, settings, point, turn);
    forall b | b in next.batch ensures exists m :: 0 <= m < i + 1 && m < |chunks| && chunks[m] == b {
      if b != chunks[i] {
        assert b in t.batch;
      }
    }
    forall m | i + 1 <= m < |chunks| ensures chunks[m] in next.progress.completed <==> chunks[m] in s.progress.completed {
      assert chunks[m] != chunks[i];
      AheadNotQueued(t, s, chunks, i, m);
    }
  }

  lemma AheadNotQueued(t: Session, s: Session, chunks: seq<ChunkId>, i: nat, m: nat)
    requires NoDuplicates(chunks) && AheadAsOpened(t, s, chunks, i) && i <= m < |chunks|
    ensures chunks[m] !in t.batch
  {
  }

  lemma {:induction false} SkipsExactly(s: Session, chunks: seq<ChunkId>, i: nat, existing: set<PointId>,
                                        settings: Settings, point: PointOf, turns: seq<Turn>)
    requires i <= |chunks| && NoDuplicates(chunks) && s.batch == []
    ensures var t := After(s, chunks, i, existing, settings, point, turns);
            t.flow == Going ==>
              AheadAsOpened(t, s, chunks, i) && t.skipped == s.skipped + CountIn(chunks[..i], s.progress.completed)
    decreases i
  {
    if i > 0 {
      SkipsExactly(s, chunks, i - 1, existing, settings, point, turns);
      var before := After(s, chunks, i - 1, existing, settings, point, turns);
      assert chunks[..i][..i - 1] == chunks[..i - 1];
      if before.flow == Going {
        AheadStep(before, s, chunks, i - 1, existing, settings, point, TurnAt(turns, i - 1));
      }
    }
  }

  /** After an interrupted run and a restart of the process, a resumed run starts from that
      run's progress, and if it completes it has skipped exactly the chunks of its list that
      were completed there, or whose points it knows to be stored. */
  lemma ResumeSkipsExactly(w: World, chunks: seq<ChunkId>, settings: Settings, fetched: set<PointId>, point: PointOf,
                           turns: seq<Turn>, chunks2: seq<ChunkId>, settings2: Settings, fetched2: set<PointId>,
                           turns2: seq<Turn>)
    requires Run(w, chunks, settings, fetched, point, turns).flow == Interrupted
    requires settings2.resume && !settings2.dryRun && NoDuplicates(chunks2)
    ensures var s := Run(w, chunks, settings, fetched, point, turns);
            var later := Next(Leaves(s), NewProcess, point);
            var r := Run(later, chunks2, settings2, fetched2, point, turns2);
            && Initial(later, settings2) == s.progress
            && (r.flow == Completed ==>
                  r.skipped == CountIn(chunks2, s.progress.completed
                                       + set c | c in chunks2 && point(c) in Known(later, settings2, fetched2)))
  {
    InterruptLeavesCheckpoint(w, chunks, settings, fetched, point, turns);
    var later := Next(Leaves(Run(w, chunks, settings, fetched, point, turns)), NewProcess, point);
    var open, existing := Opening(later, chunks2, settings2, fetched2, point), Known(later, settings2, fetched2);
    SkipsExactly(open, chunks2, |chunks2|, existing, settings2, point, turns2);
    AfterAccounted(open, chunks2, |chunks2|, existing, settings2, point, turns2);
    assert chunks2[..|chunks2|] == chunks2;
  }

  // ---------------------------------------------------------------------------
  // What a crash can lose
  // ---------------------------------------------------------------------------

  /** The chunk is queued and written if that fills the batch, and its number calls for a
      checkpoint: every 25th and the last. */
  predicate CallsForSave(s: Session, c: ChunkId, i: nat, n: nat, existing: set<PointId>, settings: Settings,
                         point: PointOf, turn: Turn)
  {
    && c !in s.progress.completed && !turn.interrupted && turn.embeds
    && !(settings.skipExisting && point(c) in existing)
    && (|s.batch| + 1 >= settings.batchSize ==> turn.upsert.Works?)
    && (i % 25 == 0 || i == n)
  }

  /** A turn that goes on saves exactly when it is called for; a skipped, known or failed
      chunk passes its number by. */
  lemma SavesExactly(s: Session, c: ChunkId, i: nat, n: nat, existing: set<PointId>, settings: Settings,
                     point: PointOf, turn: Turn)
    requires s.flow == Going
    ensures var t := Process(s, c, i, n, existing, settings, point, turn);
            t.flow == Going ==>
              if CallsForSave(s, c, i, n, existing, settings, point, turn) then t.checkpoint == Saved(t.progress)
              else t.checkpoint == s.checkpoint
  {
  }

  /** Whatever is completed after chunk `j` is among the chunks since, or waited in the
      batch then. */
  lemma {:induction false} CompletedSince(s: Session, chunks: seq<ChunkId>, j: nat, i: nat, existing: set<PointId>,
                                          settings: Settings, point: PointOf, turns: seq<Turn>)
    requires j <= i <= |chunks|
    ensures var t, u := After(s, chunks, j, existing, settings, point, turns), After(s, chunks, i, existing, settings, point, turns);
            u.progress.completed + Ids(u.batch) <= t.progress.completed + Ids(t.batch) + Ids(chunks[j..i])
    decreases i
  {
    if j < i {
      CompletedSince(s, chunks, j, i - 1, existing, settings, point, turns);
      assert chunks[j..i] == chunks[j..i - 1] + [chunks[i - 1]];
      var before := After(s, chunks, i - 1, existing, settings, point, turns);
      if before.flow == Going {
        OneMoreId(before, chunks[i - 1], i, |chunks|, existing, settings, point, TurnAt(turns, i - 1));
      }
    }
  }

  lemma OneMoreId(s: Session, c: ChunkId, i: nat, n: nat, existing: set<PointId>, settings: Settings,
                  point: PointOf, turn: Turn)
    ensures var t := Process(s, c, i, n, existing, settings, point, turn);
            t.progress.completed + Ids(t.batch) <= s.progress.completed + Ids(s.batch) + {c}
  {
    assert Ids(s.batch + [c]) == Ids(s.batch) + {c};
  }

  /** If the last checkpoint was written at chunk `j`, a crash at any later chunk `i` loses
      at most the chunks after `j` and a batch that was not full. */
  lemma CrashLosesAtMost(s: Session, chunks: seq<ChunkId>, j: nat, i: nat, existing: set<PointId>,
                         settings: Settings, point: PointOf, turns: seq<Turn>)
    requires j <= i <= |chunks| && s.batch == []
    requires var t := After(s, chunks, j, existing, settings, point, turns);
             t.flow == Going && t.checkpoint == Saved(t.progress)
    requires After(s, chunks, i, existing, settings, point, turns).checkpoint ==
             After(s, chunks, j, existing, settings, point, turns).checkpoint
    ensures var u := After(s, chunks, i, existing, settings, point, turns);
            var lost := u.progress.completed - u.checkpoint.progress.completed;
            |lost| <= i - j + (if settings.batchSize < 1 then 0 else settings.batchSize - 1)
  {
    var t, u := After(s, chunks, j, existing, settings, point, turns), After(s, chunks, i, existing, settings, point, turns);
    var lost := u.progress.completed - u.checkpoint.progress.completed;
    CompletedSince(s, chunks, j, i, existing, settings, point, turns);
    BatchStaysSmall(s, chunks, j, existing, settings, point, turns);
    IdsBounded(t.batch);
    IdsBounded(chunks[j..i]);
    SubsetSize(lost, Ids(t.batch) + Ids(chunks[j..i]));
    UnionBounded(Ids(t.batch), Ids(chunks[j..i]));
  }

  lemma {:induction false} IdsBounded(chunks: seq<ChunkId>)
    ensures |Ids(chunks)| <= |chunks|
    decreases |chunks|
  {
    if chunks != [] {
      var n := |chunks| - 1;
      IdsBounded(chunks[..n]);
      assert chunks == chunks[..n] + [chunks[n]];
      assert Ids(chunks) == Ids(chunks[..n]) + {chunks[n]};
    }
  }

  lemma UnionBounded(a: set<ChunkId>, b: set<ChunkId>)
    ensures |a + b| <= |a| + |b|
  {
    assert a + b == a + (b - a);
    SubsetSize(b - a, b);
  }

  /** A dry run stores nothing and leaves a checkpoint that no run resumes. */
  lemma DryRunStoresNothing(w: World, chunks: seq<ChunkId>, settings: Settings, fetched: set<PointId>, point: PointOf,
                            turns: seq<Turn>)
    requires settings.dryRun
    ensures var s := Run(w, chunks, settings, fetched, point, turns);
            && s.stored == w.stored
            && (s.flow == Completed ==> s.checkpoint == Saved(s.progress) && !s.progress.running)
  {
  }

  /** When every chunk is known to be stored a run writes nothing and skips them all. */
  lemma KnownChunksAreSkipped(w: World, chunks: seq<ChunkId>, settings: Settings, fetched: set<PointId>, point: PointOf,
                              turns: seq<Turn>)
    requires settings.skipExisting && !settings.dryRun
    requires forall c :: c in chunks ==> point(c) in w.stored && point(c) in fetched
    ensures Run(w, chunks, settings, fetched, point, turns).stored == w.stored
    ensures Run(w, chunks, settings, fetched, point, turns).flow == Completed ==>
              Run(w, chunks, settings, fetched, point, turns).skipped == |chunks|
  {
    var open, existing := Opening(w, chunks, settings, fetched, point), Known(w, settings, fetched);
    SkipsAll(open, chunks, |chunks|, existing, settings, point, turns);
  }

  lemma {:induction false} SkipsAll(s: Session, chunks: seq<ChunkId>, i: nat, existing: set<PointId>,
                                    settings: Settings, point: PointOf, turns: seq<Turn>)
    requires i <= |chunks| && s.flow == Going && s.skipped == 0 && forall c :: c in chunks ==> c in s.progress.completed
    ensures After(s, chunks, i, existing, settings, point, turns) == s.(skipped := i)
    decreases i
  {
    if i > 0 {
      SkipsAll(s, chunks, i - 1, existing, settings, point, turns);
      assert chunks[i - 1] in chunks;
    }
  }

  // ---------------------------------------------------------------------------
  // Resuming on another collection
  // ---------------------------------------------------------------------------

  ghost predicate Injective(point: PointOf, chunks: seq<ChunkId>) {
    forall a, b :: a in chunks && b in chunks && point(a) == point(b) ==> a == b
  }

  /** Every chunk of the list that passes as completed is stored. */
  ghost predicate Covered(s: Session, chunks: seq<ChunkId>, point: PointOf) {
    forall c :: c in chunks && c in s.progress.completed ==> point(c) in s.stored
  }

  lemma ProcessCovered(s: Session, c: ChunkId, i: nat, existing: set<PointId>, settings: Settings,
                       chunks: seq<ChunkId>, point: PointOf, turn: Turn)
    requires Covered(s, chunks, point) && existing <= s.stored
    ensures var t := Process(s, c, i, |chunks|, existing, settings, point, turn);
            Covered(t, chunks, point) && s.stored <= t.stored
  {
    UpsertCovered(s.(batch := s.batch + [c]), chunks, point, turn.upsert);
  }

  lemma UpsertCovered(s: Session, chunks: seq<ChunkId>, point: PointOf, fate: Fate)
    requires Covered(s, chunks, point)
    ensures Covered(Upsert(s, point, fate), chunks, point) && s.stored <= Upsert(s, point, fate).stored
  {
  }

  lemma {:induction false} AfterCovered(s: Session, chunks: seq<ChunkId>, i: nat, existing: set<PointId>,
                                        settings: Settings, point: PointOf, turns: seq<Turn>)
    requires i <= |chunks| && Covered(s, chunks, point) && existing <= s.stored
    ensures Covered(After(s, chunks, i, existing, settings, point, turns), chunks, point)
    ensures s.stored <= After(s, chunks, i, existing, settings, point, turns).stored
    decreases i
  {
    if i > 0 {
      AfterCovered(s, chunks, i - 1, existing, settings, point, turns);
      var before := After(s, chunks, i - 1, existing, settings, point, turns);
      ProcessCovered(before, chunks[i - 1], i, existing, settings, chunks, point, TurnAt(turns, i - 1));
    }
  }

  /** Chunk `c` passes as completed without being stored, and nothing is under way that
      would store it. */
  ghost predicate PassedOver(s: Session, c: ChunkId, chunks: seq<ChunkId>, point: PointOf) {
    && c in s.progress.completed && c !in s.batch && c !in s.missed && point(c) !in s.stored
    && forall b :: b in s.batch ==> b in chunks
  }

  lemma UpsertPassesOver(s: Session, c: ChunkId, chunks: seq<ChunkId>, point: PointOf, fate: Fate)
    requires PassedOver(s, c, chunks, point) && c in chunks && Injective(point, chunks)
    ensures PassedOver(Upsert(s, point, fate), c, chunks, point)
  {
    assert forall b :: b in s.batch ==> point(b) != point(c);
    assert point(c) !in Points(Ids(s.batch), point);
  }

  lemma {:induction false} AfterPassesOver(s: Session, c: ChunkId, chunks: seq<ChunkId>, i: nat, existing: set<PointId>,
                                           settings: Settings, point: PointOf, turns: seq<Turn>)
    requires i <= |chunks| && PassedOver(s, c, chunks, point) && c in chunks && Injective(point, chunks)
    ensures PassedOver(After(s, chunks, i, existing, settings, point, turns), c, chunks, point)
    decreases i
  {
    if i > 0 {
      AfterPassesOver(s, c, chunks, i - 1, existing, settings, point, turns);
      var before := After(s, chunks, i - 1, existing, settings, point, turns);
      if before.flow == Going && chunks[i - 1] !in before.progress.completed {
        UpsertPassesOver(before.(batch := before.batch + [chunks[i - 1]]), c, chunks, point, TurnAt(turns, i - 1).upsert);
      }
    }
  }

  /** Every chunk of the list is stored, or failed to embed in this run. */
  ghost predicate StoresAll(s: Session, chunks: seq<ChunkId>, point: PointOf) {
    forall c :: c in chunks ==> point(c) in s.stored || c in s.missed
  }

  /** The checkpoint does not name its collection.  Whatever world a run starts in and
      whatever happens in it, if it completes, it has stored every chunk it could embed
      if and only if the chunks it took for completed at the start were stored there. */
  lemma ResumeStoresAll(w: World, chunks: seq<ChunkId>, settings: Settings, fetched: set<PointId>,
                        point: PointOf, turns: seq<Turn>)
    requires !settings.dryRun && Injective(point, chunks)
    requires Run(w, chunks, settings, fetched, point, turns).flow == Completed
    ensures StoresAll(Run(w, chunks, settings, fetched, point, turns), chunks, point) <==>
            forall c :: c in chunks && c in Initial(w, settings).completed ==> point(c) in w.stored
  {
    if c :| c in chunks && c in Initial(w, settings).completed && point(c) !in w.stored {
      ResumePassesOver(w, c, chunks, settings, fetched, point, turns);
    } else {
      ResumeCovers(w, chunks, settings, fetched, point, turns);
    }
  }

  lemma ResumePassesOver(w: World, c: ChunkId, chunks: seq<ChunkId>, settings: Settings, fetched: set<PointId>,
                         point: PointOf, turns: seq<Turn>)
    requires !settings.dryRun && Injective(point, chunks)
    requires c in chunks && c in Initial(w, settings).completed && point(c) !in w.stored
    ensures PassedOver(Run(w, chunks, settings, fetched, point, turns), c, chunks, point)
  {
    var open, existing := Opening(w, chunks, settings, fetched, point), Known(w, settings, fetched);
    AfterPassesOver(open, c, chunks, |chunks|, existing, settings, point, turns);
    var after := After(open, chunks, |chunks|, existing, settings, point, turns);
    UpsertPassesOver(after, c, chunks, point, TurnAt(turns, |chunks|).upsert);
  }

  lemma ResumeCovers(w: World, chunks: seq<ChunkId>, settings: Settings, fetched: set<PointId>,
                     point: PointOf, turns: seq<Turn>)
    requires !settings.dryRun
    requires Run(w, chunks, settings, fetched, point, turns).flow == Completed
    requires forall c :: c in chunks && c in Initial(w, settings).completed ==> point(c) in w.stored
    ensures StoresAll(Run(w, chunks, settings, fetched, point, turns), chunks, point)
  {
    var open, existing := Opening(w, chunks, settings, fetched, point), Known(w, settings, fetched);
    AfterAccounted(open, chunks, |chunks|, existing, settings, point, turns);
    AfterCovered(open, chunks, |chunks|, existing, settings, point, turns);
    var after := After(open, chunks, |chunks|, existing, settings, point, turns);
    UpsertCovered(after, chunks, point, TurnAt(turns, |chunks|).upsert);
    var s := Run(w, chunks, settings, fetched, point, turns);
    forall c | c in chunks ensures point(c) in s.stored || c in s.missed {
      var j :| 0 <= j < |chunks| && chunks[j] == c;
      assert c in s.progress.completed || c in s.missed;
    }
  }

  /** For instance, resumed against a collection without its only chunk, an undisturbed
      run completes and leaves it out. */
  lemma ResumeOnOtherCollection(w: World, c: ChunkId, settings: Settings, point: PointOf)
    requires settings.resume && !settings.dryRun
    requires w.checkpoint.Saved? && w.checkpoint.progress.running && c in w.checkpoint.progress.completed
    requires point(c) !in w.stored
    ensures var s := Run(w, [c], settings, w.stored, point, []);
            s.flow == Completed && point(c) !in s.stored && s.missed == {} && s.skipped == 1
  {
    var open, existing := Opening(w, [c], settings, w.stored, point), Known(w, settings, w.stored);
    assert After(open, [c], 0, existing, settings, point, []) == open;
    assert After(open, [c], 1, existing, settings, point, []) == open.(skipped := 1);
  }
}
