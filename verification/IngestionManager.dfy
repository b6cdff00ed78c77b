/** The ingestion loop as it runs. */
module IngestionManager {
  import opened Options
  import opened Ingestion

  class IngestionManager {
    const point: PointOf
    var stored: set<PointId>
    var checkpoint: File
    var progress: Option<Progress>

    ghost function Value(): World
      reads this
    {
      World(stored, checkpoint, progress)
    }

    /** A manager in a new process, on the store and checkpoint it finds. */
    constructor (point: PointOf, stored: set<PointId>, checkpoint: File)
      ensures this.point == point && Value() == World(stored, checkpoint, None)
    {
      this.point, this.stored, this.checkpoint, progress := point, stored, checkpoint, None;
    }

    method SaveCheckpoint(p: Progress, fate: Fate) returns (flow: Flow)
      modifies this`checkpoint
      ensures checkpoint == match fate
                            case Works => Saved(p)
                            case Stops(_, torn) => if torn then Corrupt else old(checkpoint)
      ensures flow == if fate.Works? then Going else Halt(fate)
    {
      match fate {
        case Works => checkpoint := Saved(p); flow := Going;
        case Stops(_, torn) =>
          if torn { checkpoint := Corrupt; }
          flow := Halt(fate);
      }
    }

    method UpsertBatch(batch: seq<ChunkId>, fate: Fate) returns (flow: Flow)
      modifies this`stored
      ensures stored == if fate.Works? || fate.effect then old(stored) + Points(Ids(batch), point) else old(stored)
      ensures flow == if fate.Works? then Going else Halt(fate)
    {
      if fate.Works? || fate.effect {
        stored := stored + Points(Ids(batch), point);
      }
      flow := if fate.Works? then Going else Halt(fate);
    }

    method RunIngestion(chunks: seq<ChunkId>, settings: Settings, fetched: set<PointId>, turns: seq<Turn>)
      returns (flow: Flow, ghost session: Session)
      modifies this
      ensures session == Run(old(Value()), chunks, settings, fetched, point, turns)
      ensures flow == session.flow && Value() == Leaves(session)
    {
      var p := if settings.resume && checkpoint.Saved? && checkpoint.progress.running then checkpoint.progress
               else if progress.Some? then progress.value
               else FRESH;
      var existing := if settings.skipExisting && !settings.dryRun then fetched * stored else {};
      p := p.(completed := p.completed + set c | c in chunks && point(c) in existing);
      session := Opening(Value(), chunks, settings, fetched, point);
      if settings.dryRun {
        p := p.(running := false);
        flow := SaveCheckpoint(p, TurnAt(turns, |chunks|).save);
        flow := if flow == Going then Completed else flow;
        session := Run(old(Value()), chunks, settings, fetched, point, turns);
        progress := if flow == Died then None else Some(p);
        return;
      }
      ghost var opening := session;
      var batch: seq<ChunkId> := [];
      flow := Going;
      var i := 0;
      while i < |chunks| && flow == Going
        invariant i <= |chunks|
        invariant session == After(opening, chunks, i, existing, settings, point, turns)
        invariant flow == session.flow
        invariant Tracks(session, p, batch)
      {
        flow, p, batch := Turn(chunks[i], i + 1, |chunks|, existing, settings, TurnAt(turns, i), p, batch, session);
        session := Process(session, chunks[i], i + 1, |chunks|, existing, settings, point, TurnAt(turns, i));
        i := i + 1;
      }
      StoppedStays(opening, chunks, i, existing, settings, point, turns);
      if flow == Going {
        flow, p := Finish(p, batch, TurnAt(turns, |chunks|), session);
      }
      session := Close(session, point, TurnAt(turns, |chunks|));
      progress := if flow == Died then None else Some(p);
    }

    /** Flush the last batch and drop the checkpoint. */
    method Finish(p: Progress, batch: seq<ChunkId>, last: Ingestion.Turn, ghost s: Session)
      returns (flow: Flow, p': Progress)
      requires Tracks(s, p, batch) && s.flow == Going
      modifies this`stored, this`checkpoint
      ensures var t := Close(s, point, last);
              stored == t.stored && checkpoint == t.checkpoint && p' == t.progress && flow == t.flow
    {
      flow, p' := Going, p;
      if batch != [] {
        flow := UpsertBatch(batch, last.upsert);
        if flow != Going { return; }
        p' := p.(written := p.written + |batch|, completed := p.completed + Ids(batch));
      }
      p' := p'.(running := false);
      flow := ClearCheckpoint(last.save);
      flow := if flow == Going then Completed else flow;
    }

    method ClearCheckpoint(fate: Fate) returns (flow: Flow)
      modifies this`checkpoint
      ensures checkpoint == if fate.Works? || fate.effect then Missing else old(checkpoint)
      ensures flow == if fate.Works? then Going else Halt(fate)
    {
      if fate.Works? || fate.effect {
        checkpoint := Missing;
      }
      flow := if fate.Works? then Going else Halt(fate);
    }

    /** The loop's variables and the outside world are those of the session. */
    ghost predicate Tracks(s: Session, p: Progress, batch: seq<ChunkId>)
      reads this`stored, this`checkpoint
    {
      stored == s.stored && checkpoint == s.checkpoint && p == s.progress && batch == s.batch
    }

    /** One turn of the loop. */
    method Turn(c: ChunkId, i: nat, n: nat, existing: set<PointId>, settings: Settings, turn: Ingestion.Turn,
                p: Progress, batch: seq<ChunkId>, ghost s: Session)
      returns (flow: Flow, p': Progress, batch': seq<ChunkId>)
      requires Tracks(s, p, batch) && s.flow == Going
      modifies this`stored, this`checkpoint
      ensures var t := Process(s, c, i, n, existing, settings, point, turn);
              Tracks(t, p', batch') && flow == t.flow
    {
      flow, p', batch' := Going, p, batch;
      if c in p.completed { return; }
      if turn.interrupted {
        p' := p.(running := true);
        flow := SaveCheckpoint(p', turn.save);
        flow := if flow == Going then Interrupted else flow;
        return;
      }
      if settings.skipExisting && point(c) in existing {
        p' := p.(written := p.written + 1, completed := p.completed + {c});
        return;
      }
      if !turn.embeds {
        p' := p.(failed := p.failed + 1);
        return;
      }
      batch' := batch + [c];
      if |batch'| >= settings.batchSize {
        flow := UpsertBatch(batch', turn.upsert);
        if flow != Going { return; }
        p' := p.(written := p.written + |batch'|, completed := p.completed + Ids(batch'));
        batch' := [];
      }
      if i % 25 == 0 || i == n {
        flow := SaveCheckpoint(p', turn.save);
      }
    }
  }

  lemma {:induction false} StoppedStays(s: Session, chunks: seq<ChunkId>, i: nat, existing: set<PointId>,
                                        settings: Settings, point: PointOf, turns: seq<Turn>)
    requires i <= |chunks|
    requires i < |chunks| ==> After(s, chunks, i, existing, settings, point, turns).flow != Going
    ensures After(s, chunks, |chunks|, existing, settings, point, turns) ==
            After(s, chunks, i, existing, settings, point, turns)
    decreases |chunks| - i
  {
    if i < |chunks| {
      StoppedStays(s, chunks, i + 1, existing, settings, point, turns);
    }
  }
}
