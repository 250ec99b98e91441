/** What a commit and a checkpoint achieve when nothing gets in their way. */
module Commits {
  import opened Wrappers
  import opened Ltx
  import opened StateLog
  import opened Capture
  import opened Recovery
  import opened SnapshotRuns

  lemma RunExtends(k: Coder, events: seq<Event>, e: Event)
    ensures Run(k, events + [e]) == Step(k, Run(k, events), e)
  {
    hide Step;
    assert (events + [e])[..|events + [e]| - 1] == events;
  }

  /** A commit carries the next version and the files captured since the session's position, on top of its
      head unless they reach back to the first transaction. */
  lemma HandedExactly(k: Coder, session: Session, e: Event)
    requires e.Capture? && Handed(k, session, e).Some?
    ensures var x, files := Handed(k, session, e).value, Collected(e.replica, session.captured, e.txid);
      && files.Ok? && files.value != [] && session.captured <= e.txid
      && x == Write(e.name,
                    StateSnapshot(session.version + 1, session.epoch, e.requestId,
                                  SqliteSnapshot(e.txid, if files.value[0].first == 1 then None else session.head, files.value)),
                    e.dbAt(e.txid))
  {
    hide Collected;
  }

  /** A capture whose commit reaches the store under a free name, and is acknowledged, leaves the commit
      stored with its database and the session resting on it. */
  lemma CommitsTakeEffect(k: Coder, events: seq<Event>, e: Event, x: Write)
    requires e.Capture? && e.id in Run(k, events).sessions
    requires Handed(k, Run(k, events).sessions[e.id], e) == Some(x) && x.name !in Run(k, events).h.objects
    ensures var session, w' := Run(k, events).sessions[e.id], Run(k, events + [e] + [Land(x)] + [Acknowledge(e.id)]);
      var bytes := k.encodeSnapshot(x.snapshot);
      && x.name in w'.h.objects && w'.h.objects[x.name] == bytes
      && x.name in w'.truth && w'.truth[x.name] == e.dbAt(e.txid)
      && e.id in w'.sessions
      && w'.sessions[e.id] == Session(session.epoch, session.version + 1, Some(RefOf(k.c, x.name, x.snapshot, bytes)),
                                      e.txid, e.dbAt(e.txid), None)
  {
    var w := Run(k, events);
    HandedExactly(k, w.sessions[e.id], e);
    RunExtends(k, events, e);
    RunExtends(k, events + [e], Land(x));
    RunExtends(k, events + [e] + [Land(x)], Acknowledge(e.id));
    hide Run, Step, Handed, Collected;
    CaptureHands(k, w, e);
    LandStores(k, Step(k, w, e), x);
    AcknowledgeRests(k, Step(k, Step(k, w, e), Land(x)), e.id, x);
  }

  lemma AcknowledgeRests(k: Coder, w: World, id: nat, x: Write)
    requires id in w.sessions && w.sessions[id].pending == Some(x)
    requires x.name in w.h.objects && w.h.objects[x.name] == k.encodeSnapshot(x.snapshot)
    ensures var session := w.sessions[id];
      Step(k, w, Acknowledge(id)) == w.(sessions := w.sessions[id :=
        Session(session.epoch, x.snapshot.stateVersion, Some(RefOf(k.c, x.name, x.snapshot, k.encodeSnapshot(x.snapshot))),
                session.captured, session.db, None)])
  {
  }

  lemma CaptureHands(k: Coder, w: World, e: Event)
    requires e.Capture? && e.id in w.sessions && Handed(k, w.sessions[e.id], e).Some?
    ensures var session, x := w.sessions[e.id], Handed(k, w.sessions[e.id], e);
      Step(k, w, e) == w.(
        sessions := w.sessions[e.id := session.(captured := e.txid, db := e.dbAt(e.txid), pending := x)],
        writes := w.writes + {x.value})
  {
    HandedExactly(k, w.sessions[e.id], e);
    hide Collected, Linked;
  }

  lemma LandStores(k: Coder, w: World, x: Write)
    requires x in w.writes && x.name !in w.h.objects
    ensures var w' := Step(k, w, Land(x));
      && w'.h.objects == w.h.objects[x.name := k.encodeSnapshot(x.snapshot)]
      && w'.truth == w.truth[x.name := x.db] && w'.sessions == w.sessions
  {
  }

  /** A capture that finds files moves the session on even when no commit can be made of them: the next
      capture begins behind them. */
  lemma UnmadeCommitsMove(k: Coder, events: seq<Event>, e: Event)
    requires e.Capture? && e.id in Run(k, events).sessions
    requires Moves(Run(k, events).sessions[e.id], e)
    ensures var session, w' := Run(k, events).sessions[e.id], Run(k, events + [e]);
      && e.id in w'.sessions && w'.h == Run(k, events).h
      && w'.sessions[e.id] == session.(
           captured := e.txid, db := e.dbAt(e.txid),
           pending := if Handed(k, session, e).Some? then Handed(k, session, e) else session.pending)
  {
    RunExtends(k, events, e);
    hide Run, Handed, Moves;
  }

  /** A session restored from a stored object has its database and its version, and either goes on from
      its last transaction, on top of it, or starts a history of its own. */
  lemma RestartsRestore(k: Coder, actor: string, events: seq<Event>, e: Event)
    requires Lawful(k) && HonestRun(k, actor, events) && GapFree(k, events)
    requires e.Restart? && e.name in Run(k, events).h.objects && FromStore(Run(k, events).h, e.prefetched)
    ensures var w, w' := Run(k, events), Run(k, events + [e]);
      && Decode(k.c, w.h.objects[e.name]).Some? && e.name in w.truth && e.id in w'.sessions
      && var s, session := Decode(k.c, w.h.objects[e.name]).value, w'.sessions[e.id];
      && session.epoch == e.epoch && session.version == s.stateVersion
      && session.db == w.truth[e.name] && session.pending.None?
      && if e.resumed then
           && session.head == Some(RefOf(k.c, e.name, s, w.h.objects[e.name])) && session.captured == s.sqlite.txid
         else session.head.None? && session.captured == 0
  {
    hide Step, Resolution, Decode, Database, Covers;
    RunExtends(k, events, e);
    EveryRestoreIsExact(k, actor, events, e.name, e.prefetched);
    hide Run, HonestRun, GapFree, Lawful;
    RestartedSession(k, Run(k, events), e);
  }

  lemma RestartedSession(k: Coder, w: World, e: Event)
    requires e.Restart? && e.name in w.h.objects && Decode(k.c, w.h.objects[e.name]).Some?
    requires Resolution(k.c, w.h, e.name, w.h.objects[e.name], e.prefetched).Some?
    ensures var s := Decode(k.c, w.h.objects[e.name]).value;
      var r := Resolution(k.c, w.h, e.name, w.h.objects[e.name], e.prefetched).value;
      var w' := Step(k, w, e);
      && e.id in w'.sessions
      && w'.sessions[e.id] == Session(
           e.epoch, s.stateVersion, if e.resumed then Some(RefOf(k.c, e.name, s, w.h.objects[e.name])) else None,
           if e.resumed then r.sqlite.txid else 0, Database(r.sqlite.files), None)
  {
    hide Resolution, Decode, Database;
  }

  // ----- checkpoints -----

  /** A checkpoint beside a dependent commit ends every walk that begins there: one file, nothing to
      replay on it, and the same database as before. */
  lemma CheckpointsEndWalks(k: Coder, actor: string, events: seq<Event>, name: string, length: u64)
    requires Lawful(k) && HonestRun(k, actor, events) && GapFree(k, events)
    requires name in Run(k, events).h.objects && name !in Run(k, events).h.checkpoints
    requires Decode(k.c, Run(k, events).h.objects[name]).Some?
    requires Decode(k.c, Run(k, events).h.objects[name]).value.sqlite.parent.Some?
    ensures var w, w' := Run(k, events), Run(k, events + [WriteCheckpoint(name, length)]);
      var r := Resolution(k.c, w'.h, name, w.h.objects[name], None);
      && r.Some? && name in w.truth && Database(r.value.sqlite.files) == w.truth[name]
      && |r.value.sqlite.files| == 1 && r.value.checkpoint && r.value.parents == 0 && r.value.logBytes == 0
      && r.value.checkpointVersion == Decode(k.c, w.h.objects[name]).value.stateVersion
  {
    var w, e := Run(k, events), WriteCheckpoint(name, length);
    RunExtends(k, events, e);
    RunKeepsInv(k, actor, events);
    StoredIsOwn(k, actor, w, name);
    hide Run, Inv, Stored, Step, Decode, DecodeCheckpoint, Resolution, Lawful;
    CheckpointIsFound(k, actor, w, e);
    FoundEndsWalk(k.c, Step(k, w, e).h, name, w.h.objects[name]);
  }

  lemma StoredIsOwn(k: Coder, actor: string, w: World, name: string)
    requires Inv(k, actor, w) && name in w.h.objects
    ensures Stored(k, actor, w) && w.h.unreachable == {} && name in w.truth
    ensures Decode(k.c, w.h.objects[name]).Some? && SameActor(k.c, Decode(k.c, w.h.objects[name]).value, name)
  {
    hide HeadSound, PendingSound, Restores, Trace;
    assert Restorable(k, actor, w, name);
  }

  /** The checkpoint that is written for a restorable dependent commit. */
  lemma CheckpointWritten(k: Coder, w: World, e: Event, r: Resolved, file: LtxFile)
    requires e.WriteCheckpoint? && e.name in w.h.objects && e.name !in w.h.checkpoints
    requires Decode(k.c, w.h.objects[e.name]).Some? && Decode(k.c, w.h.objects[e.name]).value.sqlite.parent.Some?
    requires Resolution(k.c, w.h, e.name, w.h.objects[e.name], None) == Some(r)
    requires CheckpointFile(r.sqlite.files, e.length) == Ok(file)
    ensures var s := Decode(k.c, w.h.objects[e.name]).value;
      var p := Checkpoint(RefOf(k.c, e.name, s, w.h.objects[e.name]), SqliteSnapshot(r.sqlite.txid, None, [file]));
      Step(k, w, e) == w.(h := w.h.(checkpoints := w.h.checkpoints[e.name := k.encodeCheckpoint(p)]))
  {
    hide Decode, Resolution, CheckpointFile;
  }

  lemma CheckpointIsFound(k: Coder, actor: string, w: World, e: Event)
    requires Lawful(k) && Stored(k, actor, w) && e.WriteCheckpoint?
    requires e.name in w.h.objects && e.name !in w.h.checkpoints
    requires Decode(k.c, w.h.objects[e.name]).Some? && Decode(k.c, w.h.objects[e.name]).value.sqlite.parent.Some?
    ensures var w' := Step(k, w, e);
      && w'.h.unreachable == w.h.unreachable && e.name in w'.h.checkpoints && e.name in w.truth
      && var s := Decode(k.c, w.h.objects[e.name]).value;
         var accepted := DecodeCheckpoint(
           k.c, w'.h.checkpoints[e.name], RefOf(k.c, e.name, s, w.h.objects[e.name]), s.sqlite.txid);
         accepted.Some? && |accepted.value.files| == 1 && Database(accepted.value.files) == w.truth[e.name]
  {
    var bytes := w.h.objects[e.name];
    var s := Decode(k.c, bytes).value;
    RestoreIsExact(k, actor, w, e.name, None);
    hide Stored, Resolution, CheckpointFile, DecodeCheckpoint, Decode, Step;
    var r := Resolution(k.c, w.h, e.name, bytes, None).value;
    CheckpointFileRestores(r.sqlite.files, s.sqlite.txid, e.length);
    var file := CheckpointFile(r.sqlite.files, e.length).value;
    CheckpointWritten(k, w, e, r, file);
    AcceptsOwn(k, Checkpoint(RefOf(k.c, e.name, s, bytes), SqliteSnapshot(s.sqlite.txid, None, [file])), s.sqlite.txid);
  }

  lemma FoundEndsWalk(c: Codec, h: History, name: string, bytes: Blob)
    requires name in h.checkpoints && name !in h.unreachable
    requires Decode(c, bytes).Some? && Decode(c, bytes).value.sqlite.parent.Some?
    requires SameActor(c, Decode(c, bytes).value, name)
    requires var s := Decode(c, bytes).value;
      DecodeCheckpoint(c, h.checkpoints[name], RefOf(c, name, s, bytes), s.sqlite.txid).Some?
    ensures var s, r := Decode(c, bytes).value, Resolution(c, h, name, bytes, None);
      && r.Some? && r.value.checkpoint && r.value.parents == 0 && r.value.logBytes == 0
      && r.value.checkpointVersion == s.stateVersion
      && r.value.sqlite.files
         == DecodeCheckpoint(c, h.checkpoints[name], RefOf(c, name, s, bytes), s.sqlite.txid).value.files
  {
    var s := Decode(c, bytes).value;
    var files := DecodeCheckpoint(c, h.checkpoints[name], RefOf(c, name, s, bytes), s.sqlite.txid).value.files;
    FlattenOne(files);
    hide DecodeCheckpoint, Decode;
    assert Trace(c, h, RefOf(c, name, s, bytes), s, None) == Some(Trail([files], RefOf(c, name, s, bytes), true, 0));
  }
}
